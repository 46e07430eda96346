/** The bytes a bundle's content hash digests: the same for every enumeration of the same files, and
    different for different files or SDK versions. */
module BundleHash {
  import opened Decimals
  import opened StableSort

  // ---- the order of texts ----------------------------------------------------------

  lemma {:induction false} TextTransitive(a: string, b: string, c: string)
    requires TextLe(a, b) && TextLe(b, c)
    ensures TextLe(a, c)
  {
    if a != "" && a[0] == b[0] == c[0] {
      TextTransitive(a[1..], b[1..], c[1..]);
    }
  }

  lemma TextOrder()
    ensures TotalPreorder(TextLe)
  {
    forall a, b
      ensures TextLe(a, b) || TextLe(b, a)
    {
      TextTotal(a, b);
    }
    forall a, b, c | TextLe(a, b) && TextLe(b, c)
      ensures TextLe(a, c)
    {
      TextTransitive(a, b, c);
    }
  }

  // ---- the keys of a map, in order -------------------------------------------------

  ghost predicate Enumerates(order: seq<string>, keys: set<string>) {
    Distinct(order) && forall key :: key in order <==> key in keys
  }

  ghost function Listed(keys: set<string>): (order: seq<string>)
    ensures Enumerates(order, keys)
  {
    if keys == {} then []
    else
      var key :| key in keys;
      [key] + Listed(keys - {key})
  }

  ghost function SortedKeys(keys: set<string>): (order: seq<string>)
    ensures Enumerates(order, keys) && Sorted(order, TextLe)
  {
    SortEnumerates(Listed(keys), keys);
    Sort(Listed(keys), TextLe)
  }

  lemma SortEnumerates(order: seq<string>, keys: set<string>)
    requires Enumerates(order, keys)
    ensures Enumerates(Sort(order, TextLe), keys) && Sorted(Sort(order, TextLe), TextLe)
  {
    TextOrder();
    SortSorts(order, TextLe);
    SortDistinct(order, TextLe);
    SortMembers(order, TextLe);
  }

  /** There is one sorted list of a set of texts. */
  lemma {:induction false} SortedOnce(a: seq<string>, b: seq<string>, keys: set<string>)
    requires Enumerates(a, keys) && Sorted(a, TextLe) && Enumerates(b, keys) && Sorted(b, TextLe)
    ensures a == b
  {
    if b != [] {
      assert b[0] in b;
    }
    if a == [] {
    } else {
      assert a[0] in b;
      assert b[0] in a;
      SortedHead(a, b[0]);
      SortedHead(b, a[0]);
      TextTotal(a[0], b[0]);
      TailEnumerates(a, keys);
      TailEnumerates(b, keys);
      SortedOnce(a[1..], b[1..], keys - {a[0]});
      assert a == [a[0]] + a[1..] && b == [b[0]] + b[1..];
    }
  }

  lemma SortedHead(a: seq<string>, key: string)
    requires key in a && Sorted(a, TextLe)
    ensures TextLe(a[0], key)
  {
    TextTotal(a[0], a[0]);
  }

  lemma TailEnumerates(a: seq<string>, keys: set<string>)
    requires a != [] && Enumerates(a, keys) && Sorted(a, TextLe)
    ensures Enumerates(a[1..], keys - {a[0]}) && Sorted(a[1..], TextLe)
  {
    forall key
      ensures key in a[1..] <==> key in keys - {a[0]}
    {
      assert key in a <==> key == a[0] || key in a[1..];
    }
  }

  // ---- the encoding ----------------------------------------------------------------

  type Digests = map<string, string>

  function Line(rel: string, digest: string): string {
    rel + "\0" + digest + "\n"
  }

  function Lines(order: seq<string>, files: Digests): string
    requires forall rel | rel in order :: rel in files
  {
    if order == [] then "" else Line(order[0], files[order[0]]) + Lines(order[1..], files)
  }

  const INTRO := "rya-bundle/v1\nsdk="

  function Header(sdk: string): string {
    INTRO + sdk + "\n"
  }

  ghost function Encoding(files: Digests, sdk: string): string {
    Header(sdk) + Lines(SortedKeys(files.Keys), files)
  }

  lemma {:induction false} LinesGrow(order: seq<string>, rel: string, files: Digests)
    requires rel in files && forall r | r in order :: r in files
    ensures Lines(order + [rel], files) == Lines(order, files) + Line(rel, files[rel])
  {
    if order == [] {
      assert [rel][1..] == [];
    } else {
      LinesGrow(order[1..], rel, files);
      assert (order + [rel])[1..] == order[1..] + [rel];
    }
  }

  lemma LinesOfNone(files: Digests)
    ensures Lines([], files) == ""
  {
  }

  /** Whatever order the files are enumerated in, the bytes are the same. */
  method EncodeContent(order: seq<string>, files: Digests, sdk: string) returns (bytes: string)
    requires Enumerates(order, files.Keys)
    ensures bytes == Encoding(files, sdk)
  {
    hide Lines, Line, Header, SortedKeys, Sort;
    LinesOfNone(files);
    bytes := Header(sdk);
    var sorted := Sort(order, TextLe);
    SortEnumerates(order, files.Keys);
    SortedOnce(sorted, SortedKeys(files.Keys), files.Keys);
    for i := 0 to |sorted|
      invariant bytes == Header(sdk) + Lines(sorted[..i], files)
    {
      var rel := sorted[i];
      LinesGrow(sorted[..i], rel, files);
      assert sorted[..i + 1] == sorted[..i] + [rel];
      bytes := bytes + Line(rel, files[rel]);
    }
    assert sorted[..|sorted|] == sorted;
  }

  // ---- injectivity -----------------------------------------------------------------

  const DIGEST_WIDTH := 64

  /** Paths hold no NUL, and digests have one width. */
  predicate Encodable(files: Digests) {
    forall rel | rel in files :: '\0' !in rel && |files[rel]| == DIGEST_WIDTH
  }

  /** Two texts that agree up to the first mark agree before it and after it. */
  lemma FirstMark(a: string, restA: string, b: string, restB: string, mark: char)
    requires mark !in a && mark !in b
    requires a + [mark] + restA == b + [mark] + restB
    ensures a == b && restA == restB
  {
    var whole := a + [mark] + restA;
    MarkPlace(a, restA, mark);
    MarkPlace(b, restB, mark);
    assert |a| == |b|;
    assert a == whole[..|a|] && restA == whole[|a| + 1..];
    assert b == whole[..|a|] && restB == whole[|a| + 1..];
  }

  lemma MarkPlace(a: string, rest: string, mark: char)
    requires mark !in a
    ensures var whole := a + [mark] + rest;
            whole[|a|] == mark && forall i | 0 <= i < |a| :: whole[i] != mark
  {
    forall i | 0 <= i < |a|
      ensures (a + [mark] + rest)[i] != mark
    {
      assert a[i] in a;
    }
  }

  lemma LineIsInjective(a: string, da: string, restA: string, b: string, db: string, restB: string)
    requires '\0' !in a && '\0' !in b && |da| == |db|
    requires Line(a, da) + restA == Line(b, db) + restB
    ensures a == b && da == db && restA == restB
  {
    assert Line(a, da) + restA == a + ['\0'] + (da + "\n" + restA);
    assert Line(b, db) + restB == b + ['\0'] + (db + "\n" + restB);
    FirstMark(a, da + "\n" + restA, b, db + "\n" + restB, '\0');
    var after := da + "\n" + restA;
    assert after[..|da|] == da && after[..|da|] == db;
    assert after[|da| + 1..] == restA && after[|da| + 1..] == restB;
  }

  lemma {:induction false} LinesAreInjective(a: seq<string>, filesA: Digests, b: seq<string>, filesB: Digests)
    requires Encodable(filesA) && Encodable(filesB)
    requires (forall rel | rel in a :: rel in filesA) && forall rel | rel in b :: rel in filesB
    requires Lines(a, filesA) == Lines(b, filesB)
    ensures a == b && forall rel | rel in a :: filesA[rel] == filesB[rel]
  {
    if a != [] && b != [] {
      LineIsInjective(a[0], filesA[a[0]], Lines(a[1..], filesA), b[0], filesB[b[0]], Lines(b[1..], filesB));
      LinesAreInjective(a[1..], filesA, b[1..], filesB);
      assert a == [a[0]] + a[1..] && b == [b[0]] + b[1..];
    } else {
      assert |Lines(a, filesA)| == 0;
    }
  }

  lemma AfterIntro(sdk: string, rest: string)
    ensures (Header(sdk) + rest)[|INTRO|..] == sdk + ['\n'] + rest
  {
  }

  /** Equal bytes come from equal files and equal versions. */
  lemma EncodingIsInjective(filesA: Digests, sdkA: string, filesB: Digests, sdkB: string)
    requires Encodable(filesA) && Encodable(filesB) && '\n' !in sdkA && '\n' !in sdkB
    requires Encoding(filesA, sdkA) == Encoding(filesB, sdkB)
    ensures filesA == filesB && sdkA == sdkB
  {
    var a, b := SortedKeys(filesA.Keys), SortedKeys(filesB.Keys);
    var restA, restB := Lines(a, filesA), Lines(b, filesB);
    assert Header(sdkA) + restA == Header(sdkB) + restB;
    hide Lines, SortedKeys, Header, Encoding, Encodable, TextLe, Enumerates;
    AfterIntro(sdkA, restA);
    AfterIntro(sdkB, restB);
    FirstMark(sdkA, restA, sdkB, restB, '\n');
    LinesAreInjective(a, filesA, b, filesB);
    SameOrderSameFiles(filesA, filesB);
  }

  lemma SameOrderSameFiles(filesA: Digests, filesB: Digests)
    requires SortedKeys(filesA.Keys) == SortedKeys(filesB.Keys)
    requires forall rel | rel in SortedKeys(filesA.Keys) :: rel in filesA && rel in filesB && filesA[rel] == filesB[rel]
    ensures filesA == filesB
  {
    hide SortedKeys;
    assert filesA.Keys == filesB.Keys;
  }

  /** The version has to be free of newlines: one that is not can spell a file. */
  lemma VersionCanSpellAFile(sdk: string, rel: string, digest: string)
    ensures Encoding(map[], sdk + "\n" + rel + "\0" + digest) == Encoding(map[rel := digest], sdk)
  {
    var files: Digests := map[rel := digest];
    assert files.Keys == {rel};
    SortedOnce(SortedKeys(files.Keys), [rel], {rel});
    assert [rel][1..] == [];
    assert Lines([rel], files) == Line(rel, digest);
    var none: Digests := map[];
    assert none.Keys == {};
    assert SortedKeys(none.Keys) == [];
    assert Encoding(none, sdk + "\n" + rel + "\0" + digest) == INTRO + (sdk + "\n" + rel + "\0" + digest) + "\n";
  }
}
