/** Content-addressed bundles: building, packing, unpacking and rebuilding, and the archive shelf. */
module Bundles {
  import opened Outcomes
  import opened Texts
  import opened BundleTree
  import opened BundleHash
  import opened BundleArchive
  import opened StableSort

  /** What the build asks of its libraries: pattern matching, the digest, text lines, the manifest's
      entrypoint (or that the manifest is not one), and the SDK's own version. */
  datatype Platform = Platform(
    matches: Matcher,
    sha: Bytes -> string,
    lines: Bytes -> seq<string>,
    entrypoint: Bytes -> Option<string>,
    sdk: string)

  const MANIFEST := "rya.agent.yaml"
  const RYAIGNORE := ".ryaignore"
  const LOCKFILES: seq<string> := ["uv.lock", "poetry.lock", "pdm.lock", "requirements.txt"]

  datatype Bundle = Bundle(hash: string, files: Digests, entrypoint: string, sdk: string, lockfile: Option<string>)

  /** The bytes a name of the root reads as; links are followed. */
  function FileAt(tree: Tree, name: string): Option<Bytes> {
    if [name] !in tree then None
    else
      match tree[[name]]
      case File(data) => Some(data)
      case Link(found) => found
      case Dir => None
  }

  // ---- rules -----------------------------------------------------------------------

  /** The rules of an ignore file: lines without blanks and comments. */
  function RulesIn(lines: seq<string>): seq<string> {
    if lines == [] then []
    else
      var before, line := RulesIn(lines[..|lines| - 1]), Strip(lines[|lines| - 1]);
      if line == "" || line[0] == '#' then before else before + [line]
  }

  method ReadIgnoreLines(lines: seq<string>) returns (rules: seq<string>)
    ensures rules == RulesIn(lines)
  {
    rules := [];
    for i := 0 to |lines|
      invariant rules == RulesIn(lines[..i])
    {
      assert lines[..i + 1][..i] == lines[..i];
      var line := Strip(lines[i]);
      if line != "" && line[0] != '#' {
        rules := rules + [line];
      }
    }
    assert lines[..|lines|] == lines;
  }

  function IgnoreFile(p: Platform, tree: Tree): seq<string> {
    var text := FileAt(tree, RYAIGNORE);
    if text.None? then [] else RulesIn(p.lines(text.value))
  }

  function Rules(p: Platform, tree: Tree, extra: seq<string>): seq<string> {
    DEFAULT_IGNORE + IgnoreFile(p, tree) + extra
  }

  // ---- building --------------------------------------------------------------------

  function FilesOf(p: Platform, tree: Tree, extra: seq<string>): map<Path, Bytes> {
    KeptFiles(p.matches, Rules(p, tree, extra), tree)
  }

  function DigestsOf(p: Platform, contents: Contents): Digests {
    map rel | rel in contents :: p.sha(contents[rel])
  }

  ghost function Hash(p: Platform, files: Digests): string {
    p.sha(Encoding(files, p.sdk))
  }

  function LockfileIn(files: Digests, names: seq<string>): Option<string> {
    if names == [] then None
    else if names[0] in files then Some(names[0])
    else LockfileIn(files, names[1..])
  }

  /** The bundle of a manifest and the files kept beside it. */
  ghost function BundleOf(p: Platform, manifest: Option<Bytes>, contents: Contents): Result<Bundle> {
    if manifest.None? then Err(ManifestNotFound)
    else if p.entrypoint(manifest.value).None? then Err(ManifestInvalid)
    else
      var entrypoint, files := p.entrypoint(manifest.value).value, DigestsOf(p, contents);
      if entrypoint !in files then Err(EntrypointNotFound)
      else Ok(Bundle(Hash(p, files), files, entrypoint, p.sdk, LockfileIn(files, LOCKFILES)))
  }

  /** The files of a project by the paths written in its bundle. */
  ghost function ContentsIn(p: Platform, tree: Tree, extra: seq<string>): Contents
    requires Rooted(tree)
  {
    KeptIsProper(p.matches, Rules(p, tree, extra), tree);
    ContentsOf(FilesOf(p, tree, extra))
  }

  ghost function Built(p: Platform, tree: Tree, extra: seq<string>): Result<Bundle>
    requires Rooted(tree)
  {
    BundleOf(p, FileAt(tree, MANIFEST), ContentsIn(p, tree, extra))
  }

  method BuildBundle(p: Platform, tree: Tree, extra: seq<string>) returns (r: Result<Bundle>)
    requires Rooted(tree)
    ensures r == Built(p, tree, extra)
  {
    var manifest := FileAt(tree, MANIFEST);
    if manifest.None? {
      return Err(ManifestNotFound);
    }
    var parsed := p.entrypoint(manifest.value);
    if parsed.None? {
      return Err(ManifestInvalid);
    }
    var ignoreText := FileAt(tree, RYAIGNORE);
    var own := [];
    if ignoreText.Some? {
      own := ReadIgnoreLines(p.lines(ignoreText.value));
    }
    var rules := DEFAULT_IGNORE + own + extra;
    var kept := Walk(p.matches, rules, tree);
    KeptIsProper(p.matches, rules, tree);
    var files := DigestsOf(p, ContentsOf(kept));
    if parsed.value !in files {
      return Err(EntrypointNotFound);
    }
    var order := Enumerate(files.Keys);
    var bytes := EncodeContent(order, files, p.sdk);
    r := Ok(Bundle(p.sha(bytes), files, parsed.value, p.sdk, LockfileIn(files, LOCKFILES)));
  }

  /** Some enumeration of the keys; which one does not matter. */
  method Enumerate(keys: set<string>) returns (order: seq<string>)
    ensures Enumerates(order, keys)
  {
    order := [];
    var todo := keys;
    while todo != {}
      invariant todo <= keys && Enumerates(order, keys - todo)
    {
      var key :| key in todo;
      todo := todo - {key};
      order := order + [key];
    }
  }

  // ---- round trip ------------------------------------------------------------------

  ghost function PackedTree(p: Platform, tree: Tree, extra: seq<string>, meta: Bytes): Archive
    requires Rooted(tree)
  {
    Packed(ContentsIn(p, tree, extra), meta)
  }

  /** The ignore rules travel with the files, if there are any. */
  predicate CarriesItsRules(p: Platform, tree: Tree, extra: seq<string>) {
    [RYAIGNORE] in FilesOf(p, tree, extra) || IgnoreFile(p, tree) == []
  }

  lemma SpreadEntry(files: map<Path, Bytes>, q: Path)
    requires Proper(files) && q in Ancestry(files.Keys) && q != []
    ensures Name(Last(q)) && Parent(q) in Ancestry(files.Keys) && Parent(q) !in files
  {
    hide Name;
    var o, k :| o in files.Keys && 0 <= k <= |o| && q == o[..k];
    assert Last(q) == o[k - 1] && o[k - 1] in o;
    assert Parent(q) == o[..k - 1];
    assert Parent(q) < o && o in files.Keys;
  }

  lemma SpreadIsRooted(files: map<Path, Bytes>)
    requires Proper(files)
    ensures Rooted(Spread(files))
  {
    assert [] in Ancestry(files.Keys) && [] !in files;
    hide Name, Ancestry;
    var tree := Spread(files);
    forall q | q in tree && q != []
      ensures Name(Last(q)) && Parent(q) in tree && tree[Parent(q)].Dir?
    {
      SpreadEntry(files, q);
    }
  }

  lemma WithSidecar(files: map<Path, Bytes>, meta: Bytes)
    requires Proper(files) && Portable(files)
    ensures Proper(files[[SIDECAR] := meta])
  {
    assert Name(SIDECAR);
    forall q | q in files
      ensures !([SIDECAR] < q) && !(q < [SIDECAR])
    {
    }
  }

  /** Walking a spread-out file map by the rules that kept its files keeps them again; the sidecar joins
      them only if no rule leaves it out. */
  lemma KeptAgain(p: Platform, rules: seq<string>, tree: Tree, meta: Bytes)
    requires Rooted(tree)
    ensures var kept := KeptFiles(p.matches, rules, tree);
            KeptFiles(p.matches, rules, Spread(kept[[SIDECAR] := meta])) ==
            if IgnoredBy(p.matches, rules, [SIDECAR], false) then kept else kept[[SIDECAR] := meta]
  {
    var kept := KeptFiles(p.matches, rules, tree);
    var files := kept[[SIDECAR] := meta];
    var out := Spread(files);
    forall q
      ensures q in out && out[q].File? <==> q in files
      ensures q in files ==> out[q] == File(files[q])
    {
      assert q[..|q|] == q;
    }
    forall q | q in files
      ensures Kept(p.matches, rules, out, q) <==> q in kept || !IgnoredBy(p.matches, rules, [SIDECAR], false)
    {
      hide IgnoredBy, Spread;
      if q !in kept {
        SidecarRules(p, rules, out);
      }
    }
  }

  /** Nothing but an ignore rule can leave the sidecar out. */
  lemma SidecarRules(p: Platform, rules: seq<string>, out: Tree)
    requires [SIDECAR] in out && out[[SIDECAR]].File?
    ensures Kept(p.matches, rules, out, [SIDECAR]) <==> !IgnoredBy(p.matches, rules, [SIDECAR], false)
  {
    hide IgnoredBy;
    assert Parent([SIDECAR]) == [] && Last([SIDECAR]) == SIDECAR;
    assert SIDECAR[1] == 'r' && ".env."[1] == 'e';
  }

  /** What an unpacked directory reads as under a name of the root. */
  lemma SpreadFileAt(files: map<Path, Bytes>, name: string)
    ensures FileAt(Spread(files), name) == if [name] in files then Some(files[[name]]) else None
  {
    if [name] in files {
      assert [name][..1] == [name];
    }
  }

  /** Unpacking a packed project and building it again gives the very same bundle, hash included: unless
      a rule re-includes the sidecar, which then joins the files, or the manifest was itself left out. */
  lemma RoundTrip(p: Platform, tree: Tree, meta: Bytes)
    requires Rooted(tree) && Portable(FilesOf(p, tree, [])) && CarriesItsRules(p, tree, [])
    ensures var kept := FilesOf(p, tree, []);
            var (out, r) := Unpacked(EMPTY, PackedTree(p, tree, [], meta), None);
            && r.Ok? && Rooted(out)
            && FilesOf(p, out, []) ==
                 (if IgnoredBy(p.matches, Rules(p, tree, []), [SIDECAR], false) then kept else kept[[SIDECAR] := meta])
            && (IgnoredBy(p.matches, Rules(p, tree, []), [SIDECAR], false) ==>
                  Built(p, out, []) == if [MANIFEST] in kept then Built(p, tree, []) else Err(ManifestNotFound))
  {
    var rules, kept := Rules(p, tree, []), FilesOf(p, tree, []);
    var files := kept[[SIDECAR] := meta];
    KeptIsProper(p.matches, rules, tree);
    UnpackAcceptsExactly(kept, meta);
    WithSidecar(kept, meta);
    SpreadIsRooted(files);
    SpreadFileAt(files, RYAIGNORE);
    SpreadFileAt(files, MANIFEST);
    SameRules(p, tree, meta);
    KeptAgain(p, rules, tree, meta);
    KeptAreFiles(p, tree, MANIFEST);
    hide KeptFiles, Spread, Portable, Packed, Unpacked, BundleOf, ContentsOf, CarriesItsRules, Proper, IgnoredBy;
  }

  lemma KeptAreFiles(p: Platform, tree: Tree, name: string)
    ensures [name] in FilesOf(p, tree, []) ==> FileAt(tree, name) == Some(FilesOf(p, tree, [])[[name]])
  {
    hide Rules;
  }

  lemma SameRules(p: Platform, tree: Tree, meta: Bytes)
    requires CarriesItsRules(p, tree, [])
    ensures Rules(p, Spread(FilesOf(p, tree, [])[[SIDECAR] := meta]), []) == Rules(p, tree, [])
  {
    var files := FilesOf(p, tree, [])[[SIDECAR] := meta];
    SpreadFileAt(files, RYAIGNORE);
    if [RYAIGNORE] in files {
      KeptAreFiles(p, tree, RYAIGNORE);
    }
  }

  // ---- the sidecar under the default rules -----------------------------------------

  /** No rule of the project's own takes the sidecar, or a directory in its place, back in. */
  predicate LeavesSidecarOut(p: Platform, tree: Tree) {
    forall rule | rule in IgnoreFile(p, tree) && Negated(rule) ::
      !RuleHits(p.matches, rule, [SIDECAR], false) && !RuleHits(p.matches, rule, [SIDECAR], true)
  }

  lemma DefaultsIgnoreSidecar(matches: Matcher, isDir: bool)
    requires matches(SIDECAR, SIDECAR)
    ensures IgnoredBy(matches, DEFAULT_IGNORE, [SIDECAR], isDir)
  {
    var last := |DEFAULT_IGNORE| - 1;
    assert DEFAULT_IGNORE[last] == SIDECAR && SIDECAR[0] == '.' && SIDECAR[|SIDECAR| - 1] == 'n';
    assert StripSlashes(SIDECAR) == SIDECAR && Last([SIDECAR]) == SIDECAR;
    assert RuleHits(matches, SIDECAR, [SIDECAR], isDir);
    assert LastHit(matches, DEFAULT_IGNORE, [SIDECAR], isDir, last);
  }

  /** What is ignored stays so under more rules, unless one of them takes it back in. */
  lemma {:induction false} StaysIgnored(matches: Matcher, rules: seq<string>, more: seq<string>, path: Path,
                                        isDir: bool)
    requires path != [] && IgnoredBy(matches, rules, path, isDir)
    requires forall rule | rule in more && Negated(rule) :: !RuleHits(matches, rule, path, isDir)
    ensures IgnoredBy(matches, rules + more, path, isDir)
  {
    hide IgnoredBy, RuleHits, Negated;
    if more == [] {
      assert rules + more == rules;
    } else {
      var before, rule := more[..|more| - 1], more[|more| - 1];
      StaysIgnored(matches, rules, before, path, isDir);
      OneMoreRule(matches, rules + before, rule, path, isDir);
      assert rule in more;
      assert rules + more == rules + before + [rule];
    }
  }

  /** Unless the project's own rules take it back in, the sidecar is ignored and nothing lies inside its place. */
  lemma SidecarIsIgnored(p: Platform, tree: Tree)
    requires p.matches(SIDECAR, SIDECAR) && LeavesSidecarOut(p, tree)
    ensures IgnoredBy(p.matches, Rules(p, tree, []), [SIDECAR], false)
    ensures forall q | q in FilesOf(p, tree, []) :: !([SIDECAR] < q)
  {
    forall isDir: bool
      ensures IgnoredBy(p.matches, Rules(p, tree, []), [SIDECAR], isDir)
    {
      DefaultsIgnoreSidecar(p.matches, isDir);
      StaysIgnored(p.matches, DEFAULT_IGNORE, IgnoreFile(p, tree), [SIDECAR], isDir);
      assert Rules(p, tree, []) == DEFAULT_IGNORE + IgnoreFile(p, tree);
    }
    hide IgnoredBy, Rules;
    forall q | q in FilesOf(p, tree, [])
      ensures !([SIDECAR] < q)
    {
      assert [SIDECAR] < q ==> |q| > 1 && q[..1] == [SIDECAR];
      TopDirIsEntered(p, tree, q);
    }
  }

  lemma TopDirIsEntered(p: Platform, tree: Tree, q: Path)
    requires q in FilesOf(p, tree, [])
    ensures |q| > 1 ==> !IgnoredBy(p.matches, Rules(p, tree, []), q[..1], true)
  {
    hide IgnoredBy, Rules;
    if |q| > 1 {
      assert Parent(q)[..1] == q[..1];
    }
  }

  /** The round trip as a project meets it: its manifest and its ignore file are in the bundle, its rules
      leave the sidecar out, and no path is odd. */
  lemma SameBundleAgain(p: Platform, tree: Tree, meta: Bytes)
    requires Rooted(tree) && Built(p, tree, []).Ok?
    requires p.matches(SIDECAR, SIDECAR) && LeavesSidecarOut(p, tree)
    requires [MANIFEST] in FilesOf(p, tree, []) && CarriesItsRules(p, tree, [])
    requires forall q | q in FilesOf(p, tree, []) && q != [] :: !OddName(Rel(q))
    ensures var (out, r) := Unpacked(EMPTY, PackedTree(p, tree, [], meta), None);
            r.Ok? && Rooted(out) && Built(p, out, []) == Built(p, tree, [])
  {
    SidecarIsIgnored(p, tree);
    assert Portable(FilesOf(p, tree, []));
    RoundTrip(p, tree, meta);
    hide FilesOf, Rules, IgnoredBy, Unpacked, PackedTree, Built;
  }

  // ---- verification ----------------------------------------------------------------

  ghost function Verified(p: Platform, tree: Tree, expected: string): Result<()>
    requires Rooted(tree)
  {
    var actual := Built(p, tree, []);
    if actual.Err? then Err(actual.error)
    else if actual.value.hash != expected then Err(BundleMismatch)
    else Ok(())
  }

  method Verify(p: Platform, tree: Tree, expected: string) returns (r: Result<()>)
    requires Rooted(tree)
    ensures r == Verified(p, tree, expected)
  {
    var actual := BuildBundle(p, tree, []);
    if actual.Err? {
      return Err(actual.error);
    }
    r := if actual.value.hash != expected then Err(BundleMismatch) else Ok(());
  }

  /** What is asked of the digest: on the texts at hand it has one width and no collision, and the
      version it is mixed with has no newline. */
  ghost predicate SoundDigest(p: Platform, a: Contents, b: Contents) {
    var inputs := a.Values + b.Values + {Encoding(DigestsOf(p, a), p.sdk), Encoding(DigestsOf(p, b), p.sdk)};
    && '\n' !in p.sdk
    && (forall x | x in inputs :: |p.sha(x)| == DIGEST_WIDTH)
    && (forall x, y | x in inputs && y in inputs && p.sha(x) == p.sha(y) :: x == y)
  }

  lemma DigestsAreEncodable(p: Platform, files: map<Path, Bytes>)
    requires Proper(files) && forall x | x in ContentsOf(files).Values :: |p.sha(x)| == DIGEST_WIDTH
    ensures Encodable(DigestsOf(p, ContentsOf(files)))
  {
    var contents := ContentsOf(files);
    forall rel | rel in contents
      ensures '\0' !in rel && |DigestsOf(p, contents)[rel]| == DIGEST_WIDTH
    {
      var q :| q in files && Rel(q) == rel;
      RelHoldsNoNul(q);
      assert contents[rel] in contents.Values;
    }
  }

  /** Equal hashes come from equal files. */
  lemma SameHashSameFiles(p: Platform, a: map<Path, Bytes>, b: map<Path, Bytes>)
    requires Proper(a) && Proper(b) && SoundDigest(p, ContentsOf(a), ContentsOf(b))
    requires Hash(p, DigestsOf(p, ContentsOf(a))) == Hash(p, DigestsOf(p, ContentsOf(b)))
    ensures a == b
  {
    hide Encoding, Proper, Rel, ContentsOf, Encodable, DigestsOf;
    DigestsAreEncodable(p, a);
    DigestsAreEncodable(p, b);
    EncodingIsInjective(DigestsOf(p, ContentsOf(a)), p.sdk, DigestsOf(p, ContentsOf(b)), p.sdk);
    SameDigestsSameContents(p, ContentsOf(a), ContentsOf(b));
    SameContentsSameFiles(a, b);
    SameContentsSameFiles(b, a);
  }

  lemma SameDigestsSameContents(p: Platform, a: Contents, b: Contents)
    requires SoundDigest(p, a, b) && DigestsOf(p, a) == DigestsOf(p, b)
    ensures a == b
  {
    hide Encoding;
    assert a.Keys == DigestsOf(p, a).Keys == DigestsOf(p, b).Keys == b.Keys;
    forall rel | rel in a
      ensures a[rel] == b[rel]
    {
      assert DigestsOf(p, a)[rel] == DigestsOf(p, b)[rel];
      assert a[rel] in a.Values && b[rel] in b.Values;
    }
  }

  lemma SameContentsSameFiles(a: map<Path, Bytes>, b: map<Path, Bytes>)
    requires Proper(a) && Proper(b) && ContentsOf(a) == ContentsOf(b)
    ensures forall q | q in a :: q in b && b[q] == a[q]
  {
    forall q | q in a
      ensures q in b && b[q] == a[q]
    {
      assert Rel(q) in ContentsOf(b);
      var o :| o in b && Rel(o) == Rel(q);
      RelIsInjective(o, q);
    }
  }

  lemma BuiltHash(p: Platform, tree: Tree, extra: seq<string>)
    requires Rooted(tree) && Built(p, tree, extra).Ok?
    ensures Built(p, tree, extra).value.hash == Hash(p, DigestsOf(p, ContentsIn(p, tree, extra)))
  {
    hide Hash, ContentsIn, DigestsOf, FileAt;
  }

  lemma ContentsAreProper(p: Platform, tree: Tree, extra: seq<string>)
    requires Rooted(tree)
    ensures Proper(FilesOf(p, tree, extra)) && ContentsIn(p, tree, extra) == ContentsOf(FilesOf(p, tree, extra))
  {
    hide Rules, KeptFiles;
    KeptIsProper(p.matches, Rules(p, tree, extra), tree);
  }

  /** The content proves the version: a directory that verifies against a bundle's hash holds exactly
      the files of that bundle. */
  lemma VerifiedHoldsTheFiles(p: Platform, original: Tree, extra: seq<string>, out: Tree)
    requires Rooted(original) && Rooted(out) && Built(p, original, extra).Ok?
    requires Verified(p, out, Built(p, original, extra).value.hash).Ok?
    requires SoundDigest(p, ContentsIn(p, original, extra), ContentsIn(p, out, []))
    ensures FilesOf(p, out, []) == FilesOf(p, original, extra)
  {
    hide Rooted, Built, ContentsIn, ContentsOf, SoundDigest, FilesOf, DigestsOf, Hash, Proper;
    ContentsAreProper(p, original, extra);
    ContentsAreProper(p, out, []);
    BuiltHash(p, original, extra);
    BuiltHash(p, out, []);
    SameHashSameFiles(p, FilesOf(p, original, extra), FilesOf(p, out, []));
  }

  // ---- the archive shelf -----------------------------------------------------------

  ghost function Loaded(p: Platform, held: map<string, Archive>, hash: string): (Tree, Result<()>) {
    if hash !in held then (EMPTY, Err(BundleNotFound))
    else
      var (out, r) := Unpacked(EMPTY, held[hash], None);
      if r.Err? then (out, r)
      else
        UnpackedIsRooted(held[hash]);
        (out, Verified(p, out, hash))
  }

  lemma UnpackedIsRooted(archive: Archive)
    ensures Rooted(Unpacked(EMPTY, archive, None).0)
  {
    if !Refused(archive, None) {
      ExtractedIsRooted(EMPTY, archive);
    }
  }

  class Shelf {
    var held: map<string, Archive>

    /** An archive that is already there is left alone. */
    method StoreBundle(p: Platform, tree: Tree, extra: seq<string>, meta: Bytes, bundle: Bundle)
      requires Rooted(tree) && Built(p, tree, extra) == Ok(bundle)
      modifies this
      ensures held == if bundle.hash in old(held) then old(held)
                      else old(held)[bundle.hash := PackedTree(p, tree, extra, meta)]
    {
      if bundle.hash in held {
        return;
      }
      KeptIsProper(p.matches, Rules(p, tree, extra), tree);
      var contents := ContentsOf(FilesOf(p, tree, extra));
      var order := Enumerate(contents.Keys);
      var archive := Pack(order, contents, meta);
      held := held[bundle.hash := archive];
    }

    /** Unpack what is held, and trust it only if it verifies. */
    method LoadBundle(p: Platform, hash: string) returns (out: Tree, r: Result<()>)
      ensures (out, r) == Loaded(p, held, hash)
    {
      if hash !in held {
        return EMPTY, Err(BundleNotFound);
      }
      var dest := new Folder();
      var unpacked := dest.Unpack(held[hash], None);
      out := dest.tree;
      if unpacked.Err? {
        return out, unpacked;
      }
      UnpackedIsRooted(held[hash]);
      r := Verify(p, out, hash);
    }
  }

  /** Whatever has become of the shelf, what loads under a bundle's hash holds that bundle's files. */
  lemma LoadedHoldsTheFiles(p: Platform, original: Tree, extra: seq<string>, held: map<string, Archive>)
    requires Rooted(original) && Built(p, original, extra).Ok?
    requires Loaded(p, held, Built(p, original, extra).value.hash).1.Ok?
    ensures var out := Loaded(p, held, Built(p, original, extra).value.hash).0;
            Rooted(out)
            && (SoundDigest(p, ContentsIn(p, original, extra), ContentsIn(p, out, [])) ==>
                  FilesOf(p, out, []) == FilesOf(p, original, extra))
  {
    var hash := Built(p, original, extra).value.hash;
    var out := Loaded(p, held, hash).0;
    UnpackedIsRooted(held[hash]);
    hide ContentsIn, SoundDigest, Unpacked, FilesOf, Rooted, Built;
    if SoundDigest(p, ContentsIn(p, original, extra), ContentsIn(p, out, [])) {
      VerifiedHoldsTheFiles(p, original, extra, out);
    }
  }

  /** A project that was stored first under its hash loads again. */
  lemma StoredLoads(p: Platform, tree: Tree, meta: Bytes, held: map<string, Archive>)
    requires Rooted(tree) && Portable(FilesOf(p, tree, [])) && CarriesItsRules(p, tree, [])
    requires Built(p, tree, []).Ok? && [MANIFEST] in FilesOf(p, tree, [])
    requires IgnoredBy(p.matches, Rules(p, tree, []), [SIDECAR], false)
    ensures var hash := Built(p, tree, []).value.hash;
            Loaded(p, held[hash := PackedTree(p, tree, [], meta)], hash).1.Ok?
  {
    RoundTrip(p, tree, meta);
    hide Portable, CarriesItsRules, FilesOf, PackedTree, Unpacked, IgnoredBy, Built;
  }
}
