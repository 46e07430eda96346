/** Archives: an ordered list of named members, packed from a file map and unpacked into a directory. */
module BundleArchive {
  import opened Outcomes
  import opened Texts
  import opened BundleTree
  import opened BundleHash
  import opened StableSort
  import opened Decimals

  datatype Kind = Regular | Directory | Linked | Special

  datatype Member = Member(name: string, kind: Kind, data: Bytes)

  type Archive = seq<Member>

  // ---- packing ---------------------------------------------------------------------

  /** The bytes of each file, by the path written in the bundle. */
  type Contents = map<string, Bytes>

  function Regulars(order: seq<string>, contents: Contents): Archive
    requires forall rel | rel in order :: rel in contents
  {
    seq(|order|, i requires 0 <= i < |order| => Member(order[i], Regular, contents[order[i]]))
  }

  /** The files in the order of their paths, then the sidecar. */
  ghost function Packed(contents: Contents, meta: Bytes): Archive {
    Regulars(SortedKeys(contents.Keys), contents) + [Member(SIDECAR, Regular, meta)]
  }

  /** Whatever order the file map is kept in, the archive is the same. */
  method Pack(order: seq<string>, contents: Contents, meta: Bytes) returns (archive: Archive)
    requires Enumerates(order, contents.Keys)
    ensures archive == Packed(contents, meta)
  {
    hide SortedKeys, Sort;
    archive := [];
    var sorted := Sort(order, TextLe);
    SortEnumerates(order, contents.Keys);
    SortedOnce(sorted, SortedKeys(contents.Keys), contents.Keys);
    for i := 0 to |sorted|
      invariant archive == Regulars(sorted[..i], contents)
    {
      archive := archive + [Member(sorted[i], Regular, contents[sorted[i]])];
    }
    assert sorted[..|sorted|] == sorted;
    archive := archive + [Member(SIDECAR, Regular, meta)];
  }

  // ---- what unpacking refuses ------------------------------------------------------

  /** The parts of a member's name, as a path library reads them: empty parts and `.` mean nothing. */
  function PathParts(name: string): Path {
    Meaningful(Split(name, '/'))
  }

  function Meaningful(parts: seq<string>): Path {
    if parts == [] then []
    else if parts[0] == "" || parts[0] == "." then Meaningful(parts[1..])
    else [parts[0]] + Meaningful(parts[1..])
  }

  /** An absolute path of another kind, or one that names a drive. */
  predicate OddName(name: string) {
    name != "" && (name[0] == '\\' || (|name| > 1 && name[1] == ':'))
  }

  predicate Unsafe(member: Member) {
    || member.name == "" || member.name == "." || member.name == "./"
    || member.name[0] == '/' || OddName(member.name)
    || ".." in PathParts(member.name)
    || member.kind == Linked || member.kind == Special
  }

  function TotalSize(archive: Archive): nat {
    if archive == [] then 0 else TotalSize(archive[..|archive| - 1]) + |archive[|archive| - 1].data|
  }

  predicate Refused(archive: Archive, limit: Option<nat>) {
    (exists member | member in archive :: Unsafe(member)) || (limit.Some? && TotalSize(archive) > limit.value)
  }

  // ---- extraction ------------------------------------------------------------------

  const EMPTY: Tree := map[[] := Dir]

  function Prefixes(path: Path): set<Path> {
    set k | 0 <= k <= |path| :: path[..k]
  }

  /** Create a directory and its parents; a file or a link in the way stops it. */
  function MakeDirs(tree: Tree, path: Path): Option<Tree> {
    if forall q | q in Prefixes(path) && q in tree :: tree[q].Dir?
    then Some(tree + map q | q in Prefixes(path) :: Dir)
    else None
  }

  function WriteFile(tree: Tree, path: Path, data: Bytes): Option<Tree> {
    if path == [] then None
    else
      var ready := MakeDirs(tree, Parent(path));
      if ready.None? || (path in ready.value && !ready.value[path].File?) then None
      else Some(ready.value[path := File(data)])
  }

  /** No file system takes a NUL in a name. */
  function Written(tree: Tree, member: Member): Option<Tree> {
    if '\0' in member.name then None
    else if member.kind == Directory then MakeDirs(tree, PathParts(member.name))
    else WriteFile(tree, PathParts(member.name), member.data)
  }

  /** Member after member, up to the first that cannot be written. */
  function Extracted(tree: Tree, archive: Archive): (Tree, Result<()>) {
    if archive == [] then (tree, Ok(()))
    else
      var (before, r) := Extracted(tree, archive[..|archive| - 1]);
      var after := Written(before, archive[|archive| - 1]);
      if r.Err? then (before, r)
      else if after.None? then (before, Err(Unwritable))
      else (after.value, Ok(()))
  }

  function Unpacked(dest: Tree, archive: Archive, limit: Option<nat>): (Tree, Result<()>) {
    if Refused(archive, limit) then (dest, Err(Validation)) else Extracted(dest, archive)
  }

  class Folder {
    var tree: Tree

    constructor ()
      ensures tree == EMPTY
    {
      tree := EMPTY;
    }

    /** Every member is checked before the first is written. */
    method Unpack(archive: Archive, limit: Option<nat>) returns (r: Result<()>)
      modifies this
      ensures (tree, r) == Unpacked(old(tree), archive, limit)
    {
      var refused := Check(archive, limit);
      if refused {
        return Err(Validation);
      }
      for i := 0 to |archive|
        invariant (tree, Ok(())) == Extracted(old(tree), archive[..i])
      {
        assert archive[..i + 1][..i] == archive[..i];
        var after := Written(tree, archive[i]);
        if after.None? {
          Stuck(old(tree), archive, i + 1);
          return Err(Unwritable);
        }
        tree := after.value;
      }
      assert archive[..|archive|] == archive;
      r := Ok(());
    }

    static method Check(archive: Archive, limit: Option<nat>) returns (refused: bool)
      ensures refused == Refused(archive, limit)
    {
      var total := 0;
      for i := 0 to |archive|
        invariant total == TotalSize(archive[..i])
        invariant forall member | member in archive[..i] :: !Unsafe(member)
      {
        assert archive[..i + 1] == archive[..i] + [archive[i]];
        if Unsafe(archive[i]) {
          return true;
        }
        total := total + |archive[i].data|;
      }
      assert archive[..|archive|] == archive;
      refused := limit.Some? && total > limit.value;
    }
  }

  /** Once a member could not be written, the rest is not tried. */
  lemma {:induction false} Stuck(tree: Tree, archive: Archive, n: nat)
    requires n <= |archive| && Extracted(tree, archive[..n]).1.Err?
    ensures Extracted(tree, archive) == Extracted(tree, archive[..n])
  {
    if n < |archive| {
      var init := archive[..|archive| - 1];
      assert init[..n] == archive[..n];
      Stuck(tree, init, n);
    } else {
      assert archive[..n] == archive;
    }
  }

  // ---- unpacking what was packed ---------------------------------------------------

  /** The paths of files: proper names, no file inside another. */
  predicate Proper(files: map<Path, Bytes>) {
    && (forall p | p in files :: p != [] && forall name | name in p :: Name(name))
    && PrefixFree(files.Keys)
  }

  predicate PrefixFree(paths: set<Path>) {
    forall p, q | p in paths && q in paths :: !(p < q)
  }

  lemma KeptIsProper(matches: Matcher, rules: seq<string>, tree: Tree)
    requires Rooted(tree)
    ensures Proper(KeptFiles(matches, rules, tree))
  {
    hide IgnoredBy, IsSecretEnv, Entered;
    var kept := KeptFiles(matches, rules, tree);
    forall p | p in kept
      ensures forall name | name in p :: Name(name)
    {
      NamesAreNames(tree, p);
    }
    forall p, q | p in kept && q in kept
      ensures !(p < q)
    {
      assert p < q ==> q[..|p|] == p;
      if |p| < |q| {
        PrefixesAreDirs(tree, q, |p|);
      }
    }
  }

  function ContentsOf(files: map<Path, Bytes>): (contents: Contents)
    requires Proper(files)
    ensures forall p | p in files :: Rel(p) in contents && contents[Rel(p)] == files[p]
    ensures forall rel | rel in contents :: exists p :: p in files && Rel(p) == rel
  {
    assert forall p, q | p in files && q in files && Rel(p) == Rel(q) :: p == q by {
      forall p, q | p in files && q in files && Rel(p) == Rel(q)
        ensures p == q
      {
        RelIsInjective(p, q);
      }
    }
    map p | p in files :: Rel(p) := files[p]
  }

  lemma {:induction false} MeaningfulNames(path: Path)
    requires forall name | name in path :: Name(name)
    ensures Meaningful(path) == path
  {
    if path != [] {
      assert path[0] in path;
      MeaningfulNames(path[1..]);
    }
  }

  lemma PathPartsOfRel(path: Path)
    requires path != [] && forall name | name in path :: Name(name)
    ensures PathParts(Rel(path)) == path
  {
    SplitJoin(path, '/');
    MeaningfulNames(path);
  }

  /** A packed file is refused exactly for an odd name. */
  lemma PackedIsSafeExactly(path: Path, data: Bytes)
    requires path != [] && forall name | name in path :: Name(name)
    ensures Unsafe(Member(Rel(path), Regular, data)) <==> OddName(Rel(path))
  {
    PathPartsOfRel(path);
    assert path[0] in path;
    assert Rel(path) != "" && Rel(path)[0] == path[0][0] && path[0][0] in path[0];
    assert PathParts(".") == [] by { SplitWhole(".", '/'); }
    assert PathParts("./") == [] by { DotSlash(); }
  }

  lemma DotSlash()
    ensures PathParts("./") == []
  {
    assert "./" == "." + ['/'] + "";
    SplitAt(".", "", '/');
    assert Split("", '/') == [""];
    assert [".", ""][1..] == [""];
  }

  /** The directory that holds these files and nothing else. */
  function Spread(files: map<Path, Bytes>): Tree {
    map q | q in Ancestry(files.Keys) :: if q in files then File(files[q]) else Dir
  }

  function Ancestry(paths: set<Path>): set<Path> {
    {[]} + set p, k | p in paths && 0 <= k <= |p| :: p[..k]
  }

  lemma AncestryGrows(paths: set<Path>, p: Path)
    ensures Ancestry(paths + {p}) == Ancestry(paths) + Prefixes(p)
  {
    forall q | q in Prefixes(p)
      ensures q in Ancestry(paths + {p})
    {
      var k :| 0 <= k <= |p| && q == p[..k];
    }
    forall q | q in Ancestry(paths + {p})
      ensures q in Ancestry(paths) + Prefixes(p)
    {
      if q != [] {
        var o, k :| o in paths + {p} && 0 <= k <= |o| && q == o[..k];
      }
    }
  }

  lemma PrefixesOfParent(p: Path)
    requires p != []
    ensures Prefixes(p) == Prefixes(Parent(p)) + {p}
    ensures forall q | q in Prefixes(Parent(p)) :: q < p
  {
    forall q | q in Prefixes(p)
      ensures q in Prefixes(Parent(p)) + {p}
    {
      var k :| 0 <= k <= |p| && q == p[..k];
      if k < |p| {
        assert q == Parent(p)[..k];
      }
    }
    forall q | q in Prefixes(Parent(p))
      ensures q in Prefixes(p) && q < p
    {
      var k :| 0 <= k <= |p| - 1 && q == Parent(p)[..k];
      assert q == p[..k];
    }
    assert p == p[..|p|];
  }

  lemma SpreadDirs(files: map<Path, Bytes>, q: Path)
    requires q in Ancestry(files.Keys) && q !in files && q != []
    ensures exists p :: p in files && q < p
  {
    var p, k :| p in files.Keys && 0 <= k <= |p| && q == p[..k];
    assert p[..|p|] == p;
  }

  /** The directories above a new file are directories already, or not there yet. */
  lemma ParentsCanBeMade(files: map<Path, Bytes>, p: Path)
    requires p != [] && PrefixFree(files.Keys + {p})
    ensures MakeDirs(Spread(files), Parent(p)) == Some(Spread(files) + map q | q in Prefixes(Parent(p)) :: Dir)
  {
    hide Ancestry;
    PrefixesOfParent(p);
    forall q | q in Prefixes(Parent(p)) && q in Spread(files)
      ensures Spread(files)[q].Dir?
    {
      assert !(q in files && q < p);
    }
  }

  lemma PlaceIsFree(files: map<Path, Bytes>, p: Path)
    requires p != [] && PrefixFree(files.Keys + {p}) && p in Spread(files)
    ensures Spread(files)[p].File?
  {
    if p !in files {
      SpreadDirs(files, p);
    }
  }

  /** Writing one more file spreads one more file. */
  lemma WriteSpread(files: map<Path, Bytes>, p: Path, data: Bytes)
    requires p != [] && PrefixFree(files.Keys + {p})
    ensures WriteFile(Spread(files), p, data) == Some(Spread(files[p := data]))
  {
    ParentsCanBeMade(files, p);
    if p in Spread(files) {
      PlaceIsFree(files, p);
    }
    OneMoreSpread(files, p, data);
    hide Spread, Prefixes, MakeDirs, PrefixFree;
  }

  lemma OneMoreSpread(files: map<Path, Bytes>, p: Path, data: Bytes)
    requires p != [] && PrefixFree(files.Keys + {p})
    ensures (Spread(files) + map q | q in Prefixes(Parent(p)) :: Dir)[p := File(data)] == Spread(files[p := data])
  {
    PrefixesOfParent(p);
    AncestryGrows(files.Keys, p);
    assert files[p := data].Keys == files.Keys + {p};
    hide Ancestry, Prefixes;
    forall q | q in Prefixes(Parent(p))
      ensures q !in files
    {
      assert q < p && !(q in files && q < p);
    }
  }

  /** A file inside the place of another stops the other from being written. */
  lemma WriteBlocked(files: map<Path, Bytes>, p: Path, inner: Path, data: Bytes)
    requires p != [] && p < inner && inner in files && p !in files
    ensures WriteFile(Spread(files), p, data) == None
  {
    assert p == inner[..|p|];
    assert p in Ancestry(files.Keys);
  }

  /** The files whose paths are on the list. */
  function Part(files: map<Path, Bytes>, order: seq<string>): map<Path, Bytes> {
    map p | p in files && p != [] && Rel(p) in order :: files[p]
  }

  lemma ExtractNext(tree: Tree, archive: Archive, member: Member, before: Tree)
    requires Extracted(tree, archive) == (before, Ok(()))
    ensures Extracted(tree, archive + [member]) ==
            if Written(before, member).Some? then (Written(before, member).value, Ok(())) else (before, Err(Unwritable))
  {
    assert (archive + [member])[..|archive|] == archive;
  }

  lemma RegularsGrow(order: seq<string>, rel: string, contents: Contents)
    requires rel in contents && forall r | r in order :: r in contents
    ensures Regulars(order + [rel], contents) == Regulars(order, contents) + [Member(rel, Regular, contents[rel])]
  {
  }

  /** A packed file is written to the path it came from. */
  lemma WrittenToItsPath(files: map<Path, Bytes>, p: Path, tree: Tree)
    requires Proper(files) && p in files
    ensures Written(tree, Member(Rel(p), Regular, files[p])) == WriteFile(tree, p, files[p])
  {
    PathPartsOfRel(p);
    RelHoldsNoNul(p);
  }

  lemma {:induction false} RelHoldsNoNul(path: Path)
    requires path != [] && forall name | name in path :: Name(name)
    ensures '\0' !in Rel(path)
  {
    assert path[0] in path;
    if |path| > 1 {
      RelHoldsNoNul(path[1..]);
    }
  }

  lemma {:induction false} ExtractFiles(files: map<Path, Bytes>, order: seq<string>)
    requires Proper(files) && forall rel | rel in order :: rel in ContentsOf(files)
    ensures Extracted(EMPTY, Regulars(order, ContentsOf(files))) == (Spread(Part(files, order)), Ok(()))
  {
    hide Spread, Rel, Proper, Regulars, Part, Written, Extracted, WriteFile;
    var contents := ContentsOf(files);
    if order == [] {
      NothingExtracted(files);
    } else {
      var before, rel := order[..|order| - 1], order[|order| - 1];
      ExtractFiles(files, before);
      assert order == before + [rel] && rel in order;
      PathsArePaths(files);
      var p :| p in files && Rel(p) == rel;
      RegularsGrow(before, rel, contents);
      PartGrows(files, before, p);
      WrittenToItsPath(files, p, Spread(Part(files, before)));
      WriteSpread(Part(files, before), p, files[p]);
      ExtractNext(EMPTY, Regulars(before, contents), Member(rel, Regular, contents[rel]), Spread(Part(files, before)));
    }
  }

  lemma PathsArePaths(files: map<Path, Bytes>)
    requires Proper(files)
    ensures forall p | p in files :: p != []
  {
  }

  lemma NothingExtracted(files: map<Path, Bytes>)
    requires Proper(files)
    ensures Extracted(EMPTY, Regulars([], ContentsOf(files))) == (Spread(Part(files, [])), Ok(()))
  {
    hide ContentsOf, Proper, Spread, Rel;
    NothingSpread();
    assert Part(files, []) == map[];
    NoRegulars(ContentsOf(files));
  }

  lemma NoRegulars(contents: Contents)
    ensures Regulars([], contents) == []
  {
  }

  lemma NothingSpread()
    ensures Spread(map[]) == EMPTY
  {
    var none: map<Path, Bytes> := map[];
    assert Ancestry(none.Keys) == {[]};
  }

  lemma PartGrows(files: map<Path, Bytes>, before: seq<string>, p: Path)
    requires Proper(files) && p in files
    ensures Part(files, before + [Rel(p)]) == Part(files, before)[p := files[p]]
    ensures PrefixFree(Part(files, before).Keys + {p})
  {
    forall q | q in files && Rel(q) == Rel(p)
      ensures q == p
    {
      RelIsInjective(p, q);
    }
  }

  /** Nothing is packed under an odd name, or inside the place of the sidecar. */
  predicate Portable(files: map<Path, Bytes>) {
    forall p | p in files && p != [] :: !OddName(Rel(p)) && !([SIDECAR] < p)
  }

  /** Unpacking accepts a packed file map exactly when it is portable, and then restores every file. */
  lemma UnpackAcceptsExactly(files: map<Path, Bytes>, meta: Bytes)
    requires Proper(files)
    ensures var (tree, r) := Unpacked(EMPTY, Packed(ContentsOf(files), meta), None);
            && (r.Ok? <==> Portable(files))
            && (r.Ok? ==> tree == Spread(files[[SIDECAR] := meta]))
  {
    RefusedExactly(files, meta);
    PortableExactly(files);
    ExtractPacked(files, meta);
    hide Spread, Rel, Proper, Refused, Packed, Extracted, Portable, OddName, ContentsOf, PrefixFree, Name;
  }

  lemma ExtractPacked(files: map<Path, Bytes>, meta: Bytes)
    requires Proper(files)
    ensures !Refused(Packed(ContentsOf(files), meta), None) ==>
              var (tree, r) := Extracted(EMPTY, Packed(ContentsOf(files), meta));
              (r.Ok? <==> Portable(files)) && (r.Ok? ==> tree == Spread(files[[SIDECAR] := meta]))
  {
    RefusedExactly(files, meta);
    PortableExactly(files);
    hide Spread, Rel, Proper, Refused, SortedKeys, Written, Extracted, Portable, OddName, Regulars;
    var contents := ContentsOf(files);
    var order := SortedKeys(contents.Keys);
    if !Refused(Packed(contents, meta), None) {
      ExtractFiles(files, order);
      PartOfAll(files, order);
      SidecarLast(files, meta);
      ExtractNext(EMPTY, Regulars(order, contents), Member(SIDECAR, Regular, meta), Spread(files));
    }
  }

  lemma PortableExactly(files: map<Path, Bytes>)
    requires Proper(files)
    ensures Portable(files) <==> !(exists p | p in files :: OddName(Rel(p)))
                                 && !(exists p | p in files :: [SIDECAR] < p)
  {
  }

  lemma PartOfAll(files: map<Path, Bytes>, order: seq<string>)
    requires Proper(files) && forall rel | rel in ContentsOf(files) :: rel in order
    ensures Part(files, order) == files
  {
  }

  lemma FilesArePacked(files: map<Path, Bytes>, meta: Bytes)
    requires Proper(files)
    ensures forall p | p in files :: p != [] && Member(Rel(p), Regular, files[p]) in Packed(ContentsOf(files), meta)
  {
    PathsArePaths(files);
    hide Proper, Rel, SortedKeys;
    var contents := ContentsOf(files);
    var order, archive := SortedKeys(contents.Keys), Packed(contents, meta);
    forall p | p in files
      ensures Member(Rel(p), Regular, files[p]) in archive
    {
      assert Rel(p) in order;
      var i :| 0 <= i < |order| && order[i] == Rel(p);
      assert archive[i] == Member(Rel(p), Regular, files[p]);
    }
  }

  lemma OnlyFilesArePacked(files: map<Path, Bytes>, meta: Bytes, member: Member)
    requires Proper(files) && member in Packed(ContentsOf(files), meta)
    ensures member == Member(SIDECAR, Regular, meta) || exists p | p in files
            && p != [] :: member == Member(Rel(p), Regular, files[p])
  {
    PathsArePaths(files);
    hide Proper, Rel, SortedKeys;
    var contents := ContentsOf(files);
    var order, archive := SortedKeys(contents.Keys), Packed(contents, meta);
    var i :| 0 <= i < |archive| && archive[i] == member;
    if i < |order| {
      assert order[i] in contents;
      var p :| p in files && Rel(p) == order[i];
      assert member == Member(Rel(p), Regular, files[p]);
    }
  }

  lemma RefusedExactly(files: map<Path, Bytes>, meta: Bytes)
    requires Proper(files)
    ensures Refused(Packed(ContentsOf(files), meta), None) <==> exists p | p in files :: OddName(Rel(p))
  {
    FilesArePacked(files, meta);
    forall member | member in Packed(ContentsOf(files), meta)
      ensures member == Member(SIDECAR, Regular, meta) || exists p | p in files
              && p != [] :: member == Member(Rel(p), Regular, files[p])
    {
      OnlyFilesArePacked(files, meta, member);
    }
    SidecarIsSafe(meta);
    forall p | p in files
      ensures Unsafe(Member(Rel(p), Regular, files[p])) <==> OddName(Rel(p))
    {
      PackedIsSafeExactly(p, files[p]);
    }
    hide Packed, Unsafe, OddName, Rel, ContentsOf, Proper;
  }

  lemma SidecarIsSafe(meta: Bytes)
    ensures !Unsafe(Member(SIDECAR, Regular, meta)) && Rel([SIDECAR]) == SIDECAR && PathParts(SIDECAR) == [SIDECAR]
  {
    assert Name(SIDECAR);
    PackedIsSafeExactly([SIDECAR], meta);
    PathPartsOfRel([SIDECAR]);
  }

  lemma SidecarLast(files: map<Path, Bytes>, meta: Bytes)
    requires Proper(files)
    ensures Written(Spread(files), Member(SIDECAR, Regular, meta)) ==
            if exists p | p in files :: [SIDECAR] < p then None else Some(Spread(files[[SIDECAR] := meta]))
  {
    SidecarIsSafe(meta);
    hide Spread, WriteFile, PathParts, Unsafe, Rel;
    if inner :| inner in files && [SIDECAR] < inner {
      WriteBlocked(files, [SIDECAR], inner, meta);
    } else {
      forall p | p in files
        ensures !(p < [SIDECAR])
      {
        assert p != [];
      }
      WriteSpread(files, [SIDECAR], meta);
    }
  }

  // ---- any archive at all ----------------------------------------------------------

  lemma {:induction false} MeaningfulParts(parts: seq<string>, part: string)
    requires part in Meaningful(parts)
    ensures part in parts && part != "" && part != "."
  {
    if parts[0] == "" || parts[0] == "." {
      MeaningfulParts(parts[1..], part);
    } else if part != parts[0] {
      MeaningfulParts(parts[1..], part);
    }
  }

  lemma {:induction false} PartsComeFrom(s: string, part: string, c: char)
    requires part in Split(s, '/') && c in part
    ensures c in s
  {
    if s != "" {
      var rest := Split(s[1..], '/');
      if s[0] == '/' {
        PartsComeFrom(s[1..], part, c);
      } else if part == [s[0]] + rest[0] {
        if c != s[0] { PartsComeFrom(s[1..], rest[0], c); }
      } else {
        PartsComeFrom(s[1..], part, c);
      }
    }
  }

  /** A member that passes the checks and holds no NUL has a proper path. */
  lemma SafeNames(member: Member)
    requires !Unsafe(member) && '\0' !in member.name
    ensures forall part | part in PathParts(member.name) :: Name(part)
  {
    forall part | part in PathParts(member.name)
      ensures Name(part)
    {
      MeaningfulParts(Split(member.name, '/'), part);
      PartsHoldNone(member.name, part, '/');
      if '\0' in part {
        PartsComeFrom(member.name, part, '\0');
      }
    }
  }

  lemma MakeDirsKeepsRooted(tree: Tree, path: Path)
    requires Rooted(tree) && (forall part | part in path :: Name(part)) && MakeDirs(tree, path).Some?
    ensures Rooted(MakeDirs(tree, path).value)
    ensures path in MakeDirs(tree, path).value && MakeDirs(tree, path).value[path].Dir?
  {
    var after := MakeDirs(tree, path).value;
    assert path[..|path|] == path;
    forall q | q in after && q != []
      ensures Name(Last(q)) && Parent(q) in after && after[Parent(q)].Dir?
    {
      if q in Prefixes(path) {
        var k :| 0 <= k <= |path| && q == path[..k];
        assert Last(q) == path[k - 1] && path[k - 1] in path;
        assert Parent(q) == path[..k - 1];
      }
    }
  }

  lemma WrittenKeepsRooted(tree: Tree, member: Member)
    requires Rooted(tree) && !Unsafe(member) && Written(tree, member).Some?
    ensures Rooted(Written(tree, member).value)
  {
    var path := PathParts(member.name);
    SafeNames(member);
    if member.kind == Directory {
      MakeDirsKeepsRooted(tree, path);
    } else {
      MakeDirsKeepsRooted(tree, Parent(path));
      FileKeepsRooted(MakeDirs(tree, Parent(path)).value, path, member.data);
    }
  }

  lemma FileKeepsRooted(tree: Tree, path: Path, data: Bytes)
    requires Rooted(tree) && path != [] && Name(Last(path)) && Parent(path) in tree && tree[Parent(path)].Dir?
    requires path in tree ==> tree[path].File?
    ensures Rooted(tree[path := File(data)])
  {
  }

  /** However an archive was made, unpacking it leaves a well-formed directory. */
  lemma {:induction false} ExtractedIsRooted(tree: Tree, archive: Archive)
    requires Rooted(tree) && forall member | member in archive :: !Unsafe(member)
    ensures Rooted(Extracted(tree, archive).0)
  {
    hide Rooted, Unsafe, Written;
    if archive != [] {
      var init, member := archive[..|archive| - 1], archive[|archive| - 1];
      ExtractedIsRooted(tree, init);
      assert member in archive;
      if Written(Extracted(tree, init).0, member).Some? {
        WrittenKeepsRooted(Extracted(tree, init).0, member);
      }
    }
  }
}
