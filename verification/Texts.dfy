/** The few string operations the store relies on. */
module Texts {
  import opened Outcomes

  predicate IsSpace(c: char) {
    c == ' ' || c == '\t' || c == '\n' || c == '\r'
  }

  function StripLeft(s: string): (r: string)
    ensures r == "" || !IsSpace(r[0])
    ensures |r| <= |s| && s[|s| - |r|..] == r
  {
    if s != "" && IsSpace(s[0]) then StripLeft(s[1..]) else s
  }

  function StripRight(s: string): (r: string)
    ensures r == "" || !IsSpace(r[|r| - 1])
    ensures r <= s
  {
    if s != "" && IsSpace(s[|s| - 1]) then StripRight(s[..|s| - 1]) else s
  }

  /** Python's `strip`. */
  function Strip(s: string): string {
    StripRight(StripLeft(s))
  }

  /** Stripping what is already stripped changes nothing. */
  lemma StripTwice(s: string)
    ensures Strip(Strip(s)) == Strip(s)
  {
    var left := StripLeft(s);
    if StripRight(left) != "" {
      assert StripRight(left)[0] == left[0];
    }
  }

  lemma StripTakesAway(s: string)
    ensures |Strip(s)| <= |s| && forall c | c in Strip(s) :: c in s
  {
    var left := StripLeft(s);
    assert forall c | c in left :: c in s;
  }

  predicate Blank(s: string) {
    forall i | 0 <= i < |s| :: IsSpace(s[i])
  }

  lemma BlankTail(s: string)
    requires s != ""
    ensures Blank(s) <==> IsSpace(s[0]) && Blank(s[1..])
    ensures Blank(s) <==> IsSpace(s[|s| - 1]) && Blank(s[..|s| - 1])
  {
    hide IsSpace;
    assert forall i | 0 < i < |s| :: s[1..][i - 1] == s[i];
  }

  lemma {:induction false} StripLeftEmpties(s: string)
    ensures StripLeft(s) == "" <==> Blank(s)
  {
    if s != "" {
      BlankTail(s);
      hide IsSpace, Blank;
      if IsSpace(s[0]) {
        StripLeftEmpties(s[1..]);
      }
    }
  }

  lemma {:induction false} StripRightEmpties(s: string)
    ensures StripRight(s) == "" <==> Blank(s)
  {
    if s != "" {
      BlankTail(s);
      hide IsSpace, Blank;
      if IsSpace(s[|s| - 1]) {
        StripRightEmpties(s[..|s| - 1]);
      }
    }
  }

  /** Stripping leaves nothing exactly of a text of blanks. */
  lemma StripsToNothingExactly(s: string)
    ensures Strip(s) == "" <==> forall c | c in s :: c in " \t\n\r"
  {
    StripLeftEmpties(s);
    StripRightEmpties(StripLeft(s));
    assert StripLeft(s) != "" ==> !IsSpace(StripLeft(s)[0]);
    hide StripLeft, StripRight;
    assert Strip(s) == "" <==> Blank(s);
    BlankExactly(s);
  }

  lemma BlankExactly(s: string)
    ensures Blank(s) <==> forall c | c in s :: c in " \t\n\r"
  {
    forall c
      ensures IsSpace(c) <==> c in " \t\n\r"
    {
    }
    hide IsSpace;
    if Blank(s) {
      forall c | c in s
        ensures c in " \t\n\r"
      {
        var i :| 0 <= i < |s| && s[i] == c;
      }
    }
  }

  lemma {:induction false} StripLeftKeeps(s: string, c: char)
    requires !IsSpace(c)
    ensures c in StripLeft(s) <==> c in s
  {
    if s != "" && IsSpace(s[0]) {
      StripLeftKeeps(s[1..], c);
      assert s == [s[0]] + s[1..];
    }
  }

  lemma {:induction false} StripRightKeeps(s: string, c: char)
    requires !IsSpace(c)
    ensures c in StripRight(s) <==> c in s
  {
    if s != "" && IsSpace(s[|s| - 1]) {
      StripRightKeeps(s[..|s| - 1], c);
      assert s == s[..|s| - 1] + [s[|s| - 1]];
    }
  }

  /** Stripping takes no other character away. */
  lemma StripKeeps(s: string, c: char)
    requires !IsSpace(c)
    ensures c in Strip(s) <==> c in s
  {
    StripLeftKeeps(s, c);
    StripRightKeeps(StripLeft(s), c);
  }

  /** An optional text that has something in it besides space. */
  predicate NonBlank(s: Option<string>) {
    s.Some? && Strip(s.value) != ""
  }

  // ---- parts of a text -------------------------------------------------------------

  /** The parts of a text between separators. */
  function Split(s: string, sep: char): (parts: seq<string>)
    ensures parts != []
  {
    if s == "" then [""]
    else if s[0] == sep then [""] + Split(s[1..], sep)
    else
      var rest := Split(s[1..], sep);
      [[s[0]] + rest[0]] + rest[1..]
  }

  function Join(parts: seq<string>, sep: char): string
    requires parts != []
  {
    if |parts| == 1 then parts[0] else parts[0] + [sep] + Join(parts[1..], sep)
  }

  lemma {:induction false} SplitAt(a: string, rest: string, sep: char)
    requires sep !in a
    ensures Split(a + [sep] + rest, sep) == [a] + Split(rest, sep)
  {
    var whole := a + [sep] + rest;
    if a == "" {
      assert whole[1..] == rest;
    } else {
      SplitAt(a[1..], rest, sep);
      assert whole[1..] == a[1..] + [sep] + rest && whole[0] == a[0];
      assert a[0] in a && [a[0]] + a[1..] == a;
    }
  }

  lemma {:induction false} SplitWhole(a: string, sep: char)
    requires sep !in a
    ensures Split(a, sep) == [a]
  {
    if a != "" {
      SplitWhole(a[1..], sep);
      assert a[0] in a && [a[0]] + a[1..] == a;
    }
  }

  /** A separator inside the first part adds a part. */
  lemma {:induction false} SplitFurther(a: string, rest: string, sep: char)
    requires sep in a
    ensures |Split(a + [sep] + rest, sep)| >= 2 + |Split(rest, sep)|
  {
    var whole := a + [sep] + rest;
    assert whole[1..] == a[1..] + [sep] + rest;
    if a[0] == sep {
      SplitCounts(a[1..], rest, sep);
    } else {
      assert sep in a[1..];
      SplitFurther(a[1..], rest, sep);
    }
  }

  lemma {:induction false} SplitCounts(a: string, rest: string, sep: char)
    ensures |Split(a + [sep] + rest, sep)| >= 1 + |Split(rest, sep)|
  {
    var whole := a + [sep] + rest;
    if a == "" {
      assert whole[1..] == rest;
    } else {
      assert whole[1..] == a[1..] + [sep] + rest;
      SplitCounts(a[1..], rest, sep);
    }
  }

  lemma {:induction false} PartsHoldNone(s: string, part: string, sep: char)
    requires part in Split(s, sep)
    ensures sep !in part
  {
    if s != "" {
      var rest := Split(s[1..], sep);
      if s[0] == sep {
        if part != "" { PartsHoldNone(s[1..], part, sep); }
      } else if part == [s[0]] + rest[0] {
        PartsHoldNone(s[1..], rest[0], sep);
      } else {
        PartsHoldNone(s[1..], part, sep);
      }
    }
  }

  lemma {:induction false} JoinSplit(s: string, sep: char)
    ensures Join(Split(s, sep), sep) == s
  {
    if s != "" {
      JoinSplit(s[1..], sep);
      var rest := Split(s[1..], sep);
      assert s == [s[0]] + s[1..];
      if s[0] == sep {
        assert ([""] + rest)[1..] == rest;
      } else {
        assert ([[s[0]] + rest[0]] + rest[1..])[1..] == rest[1..];
      }
    }
  }

  lemma {:induction false} SplitJoin(parts: seq<string>, sep: char)
    requires parts != [] && forall part | part in parts :: sep !in part
    ensures Split(Join(parts, sep), sep) == parts
  {
    if |parts| == 1 {
      SplitWhole(parts[0], sep);
    } else {
      SplitJoin(parts[1..], sep);
      SplitAt(parts[0], Join(parts[1..], sep), sep);
      assert parts == [parts[0]] + parts[1..];
    }
  }
}
