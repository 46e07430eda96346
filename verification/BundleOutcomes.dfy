/** What a build answers and what an accepted archive holds, told by the project and the archive themselves. */
module BundleOutcomes {
  import opened Outcomes
  import opened Texts
  import opened BundleTree
  import opened BundleHash
  import opened BundleArchive
  import opened Bundles

  // ---- ignore files and lockfiles --------------------------------------------------

  predicate IsRule(rule: string) {
    rule != "" && rule[0] != '#'
  }

  /** Some line reads so once it is stripped. */
  predicate ReadsAs(lines: seq<string>, rule: string) {
    exists i :: 0 <= i < |lines| && Strip(lines[i]) == rule
  }

  lemma ReadsAsNext(lines: seq<string>, rule: string)
    requires lines != []
    ensures ReadsAs(lines, rule) <==>
            ReadsAs(lines[..|lines| - 1], rule) || Strip(lines[|lines| - 1]) == rule
  {
    hide Strip;
    var init := lines[..|lines| - 1];
    if i :| 0 <= i < |init| && Strip(init[i]) == rule {
      assert lines[i] == init[i];
    }
  }

  lemma RulesNext(lines: seq<string>, rule: string)
    requires lines != []
    ensures rule in RulesIn(lines) <==>
            rule in RulesIn(lines[..|lines| - 1]) || (IsRule(rule) && Strip(lines[|lines| - 1]) == rule)
  {
    hide Strip;
  }

  /** A text is a rule exactly when it is a line, stripped, that is neither blank nor a comment. */
  lemma {:induction false} RulesAreLines(lines: seq<string>, rule: string)
    ensures rule in RulesIn(lines) <==> IsRule(rule) && ReadsAs(lines, rule)
  {
    if lines != [] {
      hide Strip, RulesIn, IsRule, ReadsAs;
      RulesAreLines(lines[..|lines| - 1], rule);
      RulesNext(lines, rule);
      ReadsAsNext(lines, rule);
    }
  }

  /** The rules come in the order of their lines. */
  lemma {:induction false} RulesFollowLines(lines: seq<string>, more: seq<string>)
    ensures RulesIn(lines + more) == RulesIn(lines) + RulesIn(more)
  {
    hide Strip;
    if more == [] {
      assert lines + more == lines;
    } else {
      var init := more[..|more| - 1];
      RulesFollowLines(lines, init);
      assert (lines + more)[..|lines + more| - 1] == lines + init;
      assert (lines + more)[|lines + more| - 1] == more[|more| - 1];
    }
  }

  lemma {:induction false} FirstLockfile(files: Digests, names: seq<string>)
    ensures LockfileIn(files, names).None? <==> forall name | name in names :: name !in files
    ensures LockfileIn(files, names).Some? ==>
              exists i :: 0 <= i < |names| && names[i] == LockfileIn(files, names).value && names[i] in files
                          && forall j | 0 <= j < i :: names[j] !in files
  {
    if names != [] {
      FirstLockfile(files, names[1..]);
      assert names == [names[0]] + names[1..];
      if names[0] !in files && LockfileIn(files, names[1..]).Some? {
        var rest := names[1..];
        var i :| 0 <= i < |rest| && rest[i] == LockfileIn(files, rest).value && rest[i] in files
                 && forall j | 0 <= j < i :: rest[j] !in files;
        assert names[i + 1] == rest[i];
        assert forall j | 0 < j < i + 1 :: names[j] == rest[j - 1];
      }
    }
  }

  // ---- builds ----------------------------------------------------------------------

  /** A build needs a manifest that names an entrypoint among the files it keeps. Then its bundle lists exactly
      the kept files, by their paths, each with the digest of its bytes, and the lockfile is one of them. */
  lemma BuildAnswers(p: Platform, tree: Tree, extra: seq<string>)
    requires Rooted(tree)
    ensures var kept, manifest, r := FilesOf(p, tree, extra), FileAt(tree, MANIFEST), Built(p, tree, extra);
            if manifest.None? then r == Err(ManifestNotFound)
            else if p.entrypoint(manifest.value).None? then r == Err(ManifestInvalid)
            else
              var entrypoint := p.entrypoint(manifest.value).value;
              if forall q | q in kept && q != [] :: Rel(q) != entrypoint then r == Err(EntrypointNotFound)
              else
                && r.Ok? && r.value.entrypoint == entrypoint
                && (forall q | q in kept && q != [] :: Rel(q) in r.value.files
                                                       && r.value.files[Rel(q)] == p.sha(kept[q]))
                && (forall rel | rel in r.value.files :: exists q :: q in kept && q != [] && Rel(q) == rel)
                && (r.value.lockfile.Some? ==> r.value.lockfile.value in r.value.files)
  {
    var kept := FilesOf(p, tree, extra);
    ContentsAreProper(p, tree, extra);
    var contents := ContentsOf(kept);
    assert ContentsIn(p, tree, extra) == contents;
    FirstLockfile(DigestsOf(p, contents), LOCKFILES);
    hide FilesOf, FileAt, Hash, Rel, LockfileIn, ContentsIn, ContentsOf;
    var digests := DigestsOf(p, contents);
    forall rel | rel in digests
      ensures exists q :: q in kept && q != [] && Rel(q) == rel
    {
      var q :| q in kept && Rel(q) == rel;
    }
  }

  // ---- archives --------------------------------------------------------------------

  /** Neither a file nor a directory, or a name that is empty, absolute, on a drive, or climbs. */
  predicate Banned(member: Member) {
    || (member.kind != Regular && member.kind != Directory)
    || member.name in {"", ".", "./"}
    || member.name[0] == '/' || member.name[0] == '\\'
    || (|member.name| > 1 && member.name[1] == ':')
    || ".." in Split(member.name, '/')
  }

  /** The bytes of all members, one after the other. */
  function AllData(archive: Archive): Bytes {
    if archive == [] then "" else AllData(archive[..|archive| - 1]) + archive[|archive| - 1].data
  }

  lemma {:induction false} SizeOfAllData(archive: Archive)
    ensures TotalSize(archive) == |AllData(archive)|
  {
    if archive != [] {
      SizeOfAllData(archive[..|archive| - 1]);
    }
  }

  lemma {:induction false} ClimbsExactly(parts: seq<string>)
    ensures ".." in Meaningful(parts) <==> ".." in parts
  {
    if parts != [] {
      ClimbsExactly(parts[1..]);
      assert parts == [parts[0]] + parts[1..];
    }
  }

  lemma BannedExactly(member: Member)
    ensures Unsafe(member) <==> Banned(member)
  {
    ClimbsExactly(Split(member.name, '/'));
  }

  /** An archive is refused exactly for a banned member or for its size, and then nothing is written. */
  lemma RefusedExactly(dest: Tree, archive: Archive, limit: Option<nat>)
    ensures var (out, r) := Unpacked(dest, archive, limit);
            if (exists member | member in archive :: Banned(member))
               || (limit.Some? && |AllData(archive)| > limit.value)
            then out == dest && r == Err(Validation)
            else r != Err(Validation)
  {
    SizeOfAllData(archive);
    forall member | member in archive
      ensures Unsafe(member) <==> Banned(member)
    {
      BannedExactly(member);
    }
    hide Unsafe, Banned;
    OnlyUnwritable(dest, archive);
  }

  lemma {:induction false} OnlyUnwritable(tree: Tree, archive: Archive)
    ensures Extracted(tree, archive).1 in {Ok(()), Err(Unwritable)}
  {
    if archive != [] {
      OnlyUnwritable(tree, archive[..|archive| - 1]);
    }
  }

  /** A member cannot be written exactly if its name holds a NUL, a file or a link is in the place of a directory
      above it, or something of another kind is in its own place; a file that is there is written over. */
  lemma UnwritableExactly(tree: Tree, member: Member)
    ensures var at := PathParts(member.name);
            Written(tree, member).None? <==>
              || '\0' in member.name
              || (exists k | 0 <= k < |at| :: at[..k] in tree && !tree[at[..k]].Dir?)
              || (member.kind == Directory && at in tree && !tree[at].Dir?)
              || (member.kind != Directory && (at == [] || (at in tree && !tree[at].File?)))
  {
    hide PathParts;
    var at := PathParts(member.name);
    PrefixesAre(at);
    if at != [] {
      PrefixesOfParent(at);
    }
  }

  lemma PrefixesAre(path: Path)
    ensures forall q :: q in Prefixes(path) <==> exists k :: 0 <= k <= |path| && q == path[..k]
    ensures path in Prefixes(path)
    ensures path != [] ==> forall k | 0 <= k < |path| :: path[..k] in Prefixes(Parent(path))
  {
    assert path == path[..|path|];
    if path != [] {
      assert forall k | 0 <= k < |path| :: path[..k] == Parent(path)[..k];
    }
  }

  lemma WrittenKeeps(tree: Tree, member: Member, path: Path)
    requires Written(tree, member).Some? && path in tree && tree[path].File?
    requires member.kind == Directory || PathParts(member.name) != path
    ensures path in Written(tree, member).value && Written(tree, member).value[path] == tree[path]
  {
    hide PathParts;
  }

  lemma WrittenHolds(tree: Tree, member: Member)
    requires Written(tree, member).Some?
    ensures var at := PathParts(member.name);
            && at in Written(tree, member).value
            && Written(tree, member).value[at] == if member.kind == Directory then Dir else File(member.data)
  {
    hide PathParts;
    var at := PathParts(member.name);
    assert at[..|at|] == at;
    assert at in Prefixes(at);
  }

  /** What was unpacked is there: each file under its own path with its bytes, unless a later member of the
      archive has the same path. */
  lemma {:induction false} UnpackedHoldsTheFiles(dest: Tree, archive: Archive, i: nat)
    requires Extracted(dest, archive).1.Ok? && i < |archive| && archive[i].kind != Directory
    requires forall k | i < k < |archive| :: PathParts(archive[k].name) != PathParts(archive[i].name)
    ensures var out, at := Extracted(dest, archive).0, PathParts(archive[i].name);
            at in out && out[at] == File(archive[i].data)
  {
    hide PathParts, Written;
    var init, last := archive[..|archive| - 1], archive[|archive| - 1];
    if i < |init| {
      UnpackedHoldsTheFiles(dest, init, i);
      WrittenKeeps(Extracted(dest, init).0, last, PathParts(archive[i].name));
    } else {
      WrittenHolds(Extracted(dest, init).0, last);
    }
  }

  // ---- a manifest behind a link ----------------------------------------------------

  /** A manifest that is a link is read, but no link is kept: the project builds without its manifest among the
      files, and so does not build again from what is packed. */
  lemma LinkedManifestIsNotKept(p: Platform, tree: Tree, extra: seq<string>, data: Bytes)
    requires Rooted(tree) && [MANIFEST] in tree && tree[[MANIFEST]] == Link(Some(data)) && p.entrypoint(data).Some?
    ensures Built(p, tree, extra) !in {Err(ManifestNotFound), Err(ManifestInvalid)}
    ensures [MANIFEST] !in FilesOf(p, tree, extra)
  {
    BuildAnswers(p, tree, extra);
    hide Built, BundleOf, Rules;
  }
}
