/** Workspace scopes, key ids and sealed envelopes as texts.

    Encryption is an ideal box: the text of a token is one symbol that only its own key opens, so a
    sealed value is a text made of ordinary characters and such symbols. */
module KeyIds {
  import opened Outcomes
  import opened Texts
  import opened Decimals

  type Key = nat

  datatype Symbol = Ch(c: char) | Token(key: Key, plain: seq<Symbol>)

  type Text = seq<Symbol>

  function Chars(s: string): (t: Text)
    ensures |t| == |s| && forall i | 0 <= i < |s| :: t[i] == Ch(s[i])
  {
    seq(|s|, i requires 0 <= i < |s| => Ch(s[i]))
  }

  const PROVIDER := "wrapped"
  const NO_SCOPE := "_"
  const UNTENANTED := "default"
  const PREFIX_V1 := "enc:v1:"
  const PREFIX_V2 := "enc:v2:"

  /** `""` and `"default"` both mean no tenant. */
  function Scope(workspace: string): string {
    Named(Strip(workspace))
  }

  function Named(ws: string): string {
    if ws == "" || ws == UNTENANTED then NO_SCOPE else ws
  }

  lemma NoScopeIsStripped()
    ensures Strip(NO_SCOPE) == NO_SCOPE
  {
    assert StripLeft("_") == "_" && StripRight("_") == "_";
  }

  lemma ScopeTwice(workspace: string)
    ensures Scope(Scope(workspace)) == Scope(workspace)
  {
    NoScopeIsStripped();
    StripTwice(workspace);
  }

  function KeyId(scope: string, generation: string): string {
    PROVIDER + "." + scope + "." + generation
  }

  function MakeKeyId(workspace: string, generation: nat): string {
    KeyId(Scope(workspace), Decimal(generation))
  }

  datatype ParsedId = ParsedId(provider: string, scope: string, generation: nat)

  function ParseKeyId(id: string): Result<ParsedId> {
    var parts := Split(id, '.');
    if |parts| != 3 || parts[0] == "" then Err(KeyNotFound)
    else
      var generation := Parse(parts[2]);
      if generation.None? then Err(KeyNotFound) else Ok(ParsedId(parts[0], parts[1], generation.value))
  }

  lemma NoDotInDigits(text: string)
    requires forall c | c in text :: IsDigit(c)
    ensures '.' !in text && ':' !in text
  {
  }

  /** A key id parses back to what it was made of exactly when the scope holds no dot. */
  lemma KeyIdParses(scope: string, generation: nat)
    ensures ParseKeyId(KeyId(scope, Decimal(generation))) ==
            if '.' in scope then Err(KeyNotFound) else Ok(ParsedId(PROVIDER, scope, generation))
  {
    var digits := Decimal(generation);
    NoDotInDigits(digits);
    SplitWhole(digits, '.');
    ParseDecimal(generation);
    assert KeyId(scope, digits) == PROVIDER + "." + (scope + "." + digits);
    SplitAt(PROVIDER, scope + "." + digits, '.');
    if '.' in scope {
      SplitFurther(scope, digits, '.');
    } else {
      SplitAt(scope, digits, '.');
    }
  }

  // ---- envelopes -------------------------------------------------------------------

  predicate IsSealed(value: Text) {
    Chars(PREFIX_V1) <= value || Chars(PREFIX_V2) <= value
  }

  function Envelope(id: string, key: Key, plain: Text): Text {
    Chars(PREFIX_V2) + Chars(id) + [Ch(':')] + [Token(key, plain)]
  }

  /** What stands before the first colon, and what after it. */
  function Partition(t: Text): (parts: (Text, Text))
    ensures |parts.0| + |parts.1| <= |t|
  {
    if t == [] then ([], [])
    else if t[0] == Ch(':') then ([], t[1..])
    else
      var rest := Partition(t[1..]);
      ([t[0]] + rest.0, rest.1)
  }

  lemma {:induction false} PartitionAt(a: Text, rest: Text)
    requires Ch(':') !in a
    ensures Partition(a + [Ch(':')] + rest) == (a, rest)
  {
    var whole := a + [Ch(':')] + rest;
    if a == [] {
      assert whole[1..] == rest;
    } else {
      PartitionAt(a[1..], rest);
      assert whole[1..] == a[1..] + [Ch(':')] + rest && whole[0] == a[0];
      assert a[0] in a && [a[0]] + a[1..] == a;
    }
  }

  /** A colon that comes early leaves more than one symbol behind it. */
  lemma {:induction false} PartitionEarly(a: Text, rest: Text)
    requires Ch(':') in a
    ensures |Partition(a + rest).1| >= |rest|
  {
    var whole := a + rest;
    assert whole[1..] == a[1..] + rest;
    if a[0] != Ch(':') {
      assert Ch(':') in a[1..];
      PartitionEarly(a[1..], rest);
    }
  }

  /** The key id an envelope names, when it is written in ordinary characters. */
  function Plain(t: Text): Option<string> {
    if t == [] then Some("")
    else if !t[0].Ch? then None
    else
      var rest := Plain(t[1..]);
      if rest.None? then None else Some([t[0].c] + rest.value)
  }

  lemma {:induction false} PlainChars(s: string)
    ensures Plain(Chars(s)) == Some(s)
  {
    if s != "" {
      PlainChars(s[1..]);
      assert Chars(s)[1..] == Chars(s[1..]);
      assert [s[0]] + s[1..] == s;
    }
  }

  lemma ColonInChars(s: string)
    ensures Ch(':') in Chars(s) <==> ':' in s
  {
    if ':' in s {
      var i :| 0 <= i < |s| && s[i] == ':';
      assert Chars(s)[i] == Ch(':');
    }
  }

  /** A parsed id is spelled by its parts. */
  lemma ParsedSpells(id: string)
    requires ParseKeyId(id).Ok?
    ensures var p := ParseKeyId(id).value;
            var digits := Split(id, '.')[2];
            id == p.provider + "." + p.scope + "." + digits && Parse(digits) == Some(p.generation)
  {
    JoinSplit(id, '.');
    var parts := Split(id, '.');
    assert Join(parts[1..], '.') == parts[1] + "." + Join(parts[1..][1..], '.');
    assert parts[1..][1..] == [parts[2]];
  }

  lemma LastDot(s: string, g: string)
    requires Parse(g).Some?
    ensures var id := KeyId(s, g);
            id[|id| - |g| - 1] == '.' && forall i | |id| - |g| <= i < |id| :: id[i] != '.'
  {
    var id := KeyId(s, g);
    forall i | |id| - |g| <= i < |id|
      ensures id[i] != '.'
    {
      assert id[i] == g[i - (|id| - |g|)] && id[i] in g;
    }
  }

  /** The last dot tells scope and generation apart, dots in the scope or not. */
  lemma KeyIdIsUnambiguous(s: string, g: string, t: string, h: string)
    requires KeyId(s, g) == KeyId(t, h) && Parse(g).Some? && Parse(h).Some?
    ensures s == t && g == h
  {
    LastDot(s, g);
    LastDot(t, h);
    assert |g| == |h|;
    var id := KeyId(s, g);
    var dot := |id| - |g| - 1;
    assert g == id[dot + 1..] && h == id[dot + 1..];
    assert s == id[|PROVIDER| + 1..dot] && t == id[|PROVIDER| + 1..dot];
  }
}
