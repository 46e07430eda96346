/** A project directory, the ignore rules, and the pruned walk that decides which files a bundle holds. */
module BundleTree {
  import opened Outcomes
  import opened Texts

  type Bytes = string

  /** The names from the root down. */
  type Path = seq<string>

  /** A link carries the bytes of the regular file it leads to, if it leads to one. */
  datatype Node = Dir | File(data: Bytes) | Link(found: Option<Bytes>)

  type Tree = map<Path, Node>

  predicate Name(s: string) {
    s != "" && s != "." && s != ".." && '/' !in s && '\0' !in s
  }

  function Last(path: Path): string
    requires path != []
  {
    path[|path| - 1]
  }

  function Parent(path: Path): Path
    requires path != []
  {
    path[..|path| - 1]
  }

  /** Every entry has a proper name and lies in a directory. */
  predicate Rooted(tree: Tree) {
    && [] in tree && tree[[]].Dir?
    && forall p | p in tree && p != [] :: Name(Last(p)) && Parent(p) in tree && tree[Parent(p)].Dir?
  }

  /** A path as it is written in a bundle. */
  function Rel(path: Path): string
    requires path != []
  {
    Join(path, '/')
  }

  lemma {:induction false} PrefixesAreDirs(tree: Tree, p: Path, k: nat)
    requires Rooted(tree) && p in tree && k <= |p|
    ensures p[..k] in tree && (k < |p| ==> tree[p[..k]].Dir?)
    ensures k > 0 ==> Name(p[k - 1])
    decreases |p|
  {
    if k < |p| {
      PrefixesAreDirs(tree, Parent(p), k);
      assert Parent(p)[..k] == p[..k];
    } else {
      assert p[..k] == p;
    }
  }

  lemma NamesAreNames(tree: Tree, p: Path)
    requires Rooted(tree) && p in tree
    ensures forall name | name in p :: Name(name)
  {
    forall name | name in p
      ensures Name(name)
    {
      var k :| 0 <= k < |p| && p[k] == name;
      PrefixesAreDirs(tree, p, k + 1);
    }
  }

  lemma RelIsInjective(p: Path, q: Path)
    requires p != [] && q != []
    requires (forall name | name in p :: Name(name)) && forall name | name in q :: Name(name)
    requires Rel(p) == Rel(q)
    ensures p == q
  {
    SplitJoin(p, '/');
    SplitJoin(q, '/');
  }

  // ---- ignore rules ----------------------------------------------------------------

  const SIDECAR := ".rya-bundle.json"

  const DEFAULT_IGNORE: seq<string> := [
    ".git/", ".hg/", ".svn/", ".rya/", "__pycache__/", "*.pyc", "*.pyo", ".venv/", "venv/", "node_modules/",
    ".env", ".env.*", "!.env.example", "!.env.sample", "!.env.template",
    "*.log", "dist/", "build/", ".pytest_cache/", ".ruff_cache/", ".mypy_cache/", "*.egg-info/", ".DS_Store",
    SIDECAR]

  /** Shell-style matching of a text against a pattern, kept abstract. */
  type Matcher = (string, string) -> bool

  predicate IsSecretEnv(name: string) {
    (name == ".env" || ".env." <= name) && name != ".env.example" && name != ".env.sample" && name != ".env.template"
  }

  function StripSlashes(s: string): (r: string)
    ensures r <= s
  {
    if s != "" && s[|s| - 1] == '/' then StripSlashes(s[..|s| - 1]) else s
  }

  /** A pattern with a slash inside is matched from the root, any other against the last name. */
  predicate PatternHits(matches: Matcher, pattern: string, path: Path, isDir: bool)
    requires path != []
  {
    var bare := StripSlashes(pattern);
    var dirOnly := pattern != "" && pattern[|pattern| - 1] == '/';
    bare != "" && (dirOnly ==> isDir) && if '/' in bare then matches(Rel(path), bare) else matches(Last(path), bare)
  }

  predicate Negated(rule: string) {
    rule != "" && rule[0] == '!'
  }

  predicate RuleHits(matches: Matcher, rule: string, path: Path, isDir: bool)
    requires path != []
  {
    PatternHits(matches, if Negated(rule) then rule[1..] else rule, path, isDir)
  }

  /** The last rule that hits decides; without one nothing is ignored. */
  predicate IgnoredBy(matches: Matcher, rules: seq<string>, path: Path, isDir: bool)
    requires path != []
  {
    exists k | 0 <= k < |rules| :: LastHit(matches, rules, path, isDir, k) && !Negated(rules[k])
  }

  predicate LastHit(matches: Matcher, rules: seq<string>, path: Path, isDir: bool, k: nat)
    requires path != [] && k < |rules|
  {
    && RuleHits(matches, rules[k], path, isDir)
    && forall l | k < l < |rules| :: !RuleHits(matches, rules[l], path, isDir)
  }

  method Ignored(matches: Matcher, rules: seq<string>, path: Path, isDir: bool) returns (verdict: bool)
    requires path != []
    ensures verdict == IgnoredBy(matches, rules, path, isDir)
  {
    verdict := false;
    for i := 0 to |rules|
      invariant verdict == IgnoredBy(matches, rules[..i], path, isDir)
    {
      OneMoreRule(matches, rules[..i], rules[i], path, isDir);
      assert rules[..i + 1] == rules[..i] + [rules[i]];
      if RuleHits(matches, rules[i], path, isDir) {
        verdict := !Negated(rules[i]);
      }
    }
    assert rules[..|rules|] == rules;
  }

  /** A rule that hits decides; one that does not changes no verdict. */
  lemma OneMoreRule(matches: Matcher, rules: seq<string>, rule: string, path: Path, isDir: bool)
    requires path != []
    ensures IgnoredBy(matches, rules + [rule], path, isDir) ==
            if RuleHits(matches, rule, path, isDir) then !Negated(rule) else IgnoredBy(matches, rules, path, isDir)
  {
    hide RuleHits, Negated;
    var more := rules + [rule];
    if RuleHits(matches, rule, path, isDir) {
      assert LastHit(matches, more, path, isDir, |rules|);
    } else {
      forall k | 0 <= k < |rules|
        ensures LastHit(matches, more, path, isDir, k) == LastHit(matches, rules, path, isDir, k)
      {
        assert more[k] == rules[k];
        assert forall l | k < l < |rules| :: more[l] == rules[l];
      }
    }
  }

  // ---- the files of a bundle -------------------------------------------------------

  /** None of the directories from the root down to this one is ignored. */
  predicate Entered(matches: Matcher, rules: seq<string>, dir: Path) {
    forall k | 0 < k <= |dir| :: !IgnoredBy(matches, rules, dir[..k], true)
  }

  predicate Reached(matches: Matcher, rules: seq<string>, tree: Tree, dir: Path) {
    dir in tree && tree[dir].Dir? && Entered(matches, rules, dir)
  }

  /** A regular file that no rule leaves out, in a directory the walk reaches. */
  predicate Kept(matches: Matcher, rules: seq<string>, tree: Tree, p: Path) {
    && p in tree && tree[p].File? && p != []
    && !IsSecretEnv(Last(p)) && !IgnoredBy(matches, rules, p, false) && Entered(matches, rules, Parent(p))
  }

  function KeptFiles(matches: Matcher, rules: seq<string>, tree: Tree): map<Path, Bytes> {
    map p | p in tree && Kept(matches, rules, tree, p) :: tree[p].data
  }

  function Children(tree: Tree, dir: Path): set<Path> {
    set p | p in tree && p != [] && Parent(p) == dir
  }

  /** The walk, directory by directory from the root: ignored directories are never entered. */
  method Walk(matches: Matcher, rules: seq<string>, tree: Tree) returns (files: map<Path, Bytes>)
    requires Rooted(tree)
    ensures files == KeptFiles(matches, rules, tree)
  {
    files := map[];
    var todo: set<Path> := {[]};
    ghost var done: set<Path> := {};
    while todo != {}
      invariant Walking(matches, rules, tree, done, todo)
      invariant files == FilesIn(matches, rules, tree, done)
      decreases tree.Keys - done
    {
      hide Kept, Reached, Rooted;
      var dir :| dir in todo;
      var kept, found := ReadDir(matches, rules, tree, dir);
      WalkNext(matches, rules, tree, done, todo, dir);
      FilesInNext(matches, rules, tree, done, dir);
      todo := todo - {dir} + kept;
      files := files + found;
      done := done + {dir};
    }
    AllReached(matches, rules, tree, done);
  }

  function Subdirs(matches: Matcher, rules: seq<string>, tree: Tree, dir: Path): set<Path> {
    set d | d in tree && d != [] && Parent(d) == dir && Reached(matches, rules, tree, d)
  }

  /** The walk has been in the directories of `done` and is about to enter those of `todo`: each reached,
      none twice, and no reached subdirectory of a finished one left out. */
  ghost predicate Walking(matches: Matcher, rules: seq<string>, tree: Tree, done: set<Path>, todo: set<Path>) {
    && done !! todo && done + todo <= tree.Keys && [] in done + todo
    && (forall d | d in done + todo :: Reached(matches, rules, tree, d))
    && (forall d | d in done + todo && d != [] :: Parent(d) in done)
    && (forall d | Reached(matches, rules, tree, d) && d != [] && Parent(d) in done :: d in done + todo)
  }

  lemma WalkNext(matches: Matcher, rules: seq<string>, tree: Tree, done: set<Path>, todo: set<Path>, dir: Path)
    requires Walking(matches, rules, tree, done, todo) && dir in todo
    ensures Walking(matches, rules, tree, done + {dir}, todo - {dir} + Subdirs(matches, rules, tree, dir))
  {
    forall d | Reached(matches, rules, tree, d)
      ensures d in tree
    {
    }
    hide Reached;
  }

  lemma FilesInNext(matches: Matcher, rules: seq<string>, tree: Tree, done: set<Path>, dir: Path)
    ensures FilesIn(matches, rules, tree, done + {dir}) ==
            FilesIn(matches, rules, tree, done) + FilesIn(matches, rules, tree, {dir})
  {
    hide Kept;
  }

  /** The directories the walk has been in when nothing is left to do. */
  ghost predicate Closed(matches: Matcher, rules: seq<string>, tree: Tree, done: set<Path>) {
    && [] in done
    && forall d | Reached(matches, rules, tree, d) && d != [] && Parent(d) in done :: d in done
  }

  lemma {:induction false} ReachedIsDone(matches: Matcher, rules: seq<string>, tree: Tree, done: set<Path>, d: Path)
    requires Rooted(tree) && Closed(matches, rules, tree, done) && Reached(matches, rules, tree, d)
    ensures d in done
    decreases |d|
  {
    if d != [] {
      EnteredParent(matches, rules, d);
      ReachedIsDone(matches, rules, tree, done, Parent(d));
    }
  }

  lemma EnteredParent(matches: Matcher, rules: seq<string>, d: Path)
    requires d != [] && Entered(matches, rules, d)
    ensures Entered(matches, rules, Parent(d))
  {
    forall k | 0 < k <= |d| - 1
      ensures Parent(d)[..k] == d[..k]
    {
    }
  }

  lemma AllReached(matches: Matcher, rules: seq<string>, tree: Tree, done: set<Path>)
    requires Rooted(tree) && Closed(matches, rules, tree, done)
    ensures FilesIn(matches, rules, tree, done) == KeptFiles(matches, rules, tree)
  {
    forall p | p in tree && Kept(matches, rules, tree, p)
      ensures Parent(p) in done
    {
      ReachedIsDone(matches, rules, tree, done, Parent(p));
    }
  }

  /** The kept files that lie in these directories. */
  function FilesIn(matches: Matcher, rules: seq<string>, tree: Tree, dirs: set<Path>): map<Path, Bytes> {
    map p | p in tree && Kept(matches, rules, tree, p) && Parent(p) in dirs :: tree[p].data
  }

  /** One directory: the subdirectories to enter, and the files to take. */
  method ReadDir(matches: Matcher, rules: seq<string>, tree: Tree, dir: Path)
    returns (kept: set<Path>, found: map<Path, Bytes>)
    requires Rooted(tree) && Reached(matches, rules, tree, dir)
    ensures kept == Subdirs(matches, rules, tree, dir)
    ensures found == FilesIn(matches, rules, tree, {dir})
  {
    hide IgnoredBy, IsSecretEnv, Name, Entered;
    kept, found := {}, map[];
    var todo := Children(tree, dir);
    ghost var all := todo;
    while todo != {}
      invariant todo <= all
      invariant kept == set d | d in all - todo && Reached(matches, rules, tree, d)
      invariant found == map p | p in all - todo && Kept(matches, rules, tree, p) :: tree[p].data
    {
      var p :| p in todo;
      todo := todo - {p};
      EnteredChild(matches, rules, dir, p);
      if tree[p].Dir? {
        var skip := Ignored(matches, rules, p, true);
        if !skip {
          kept := kept + {p};
        }
      } else if !IsSecretEnv(Last(p)) {
        var skip := Ignored(matches, rules, p, false);
        if !skip && tree[p].File? {
          found := found[p := tree[p].data];
        }
      }
    }
  }

  lemma EnteredChild(matches: Matcher, rules: seq<string>, dir: Path, p: Path)
    requires p != [] && Parent(p) == dir && Entered(matches, rules, dir)
    ensures Entered(matches, rules, p) <==> !IgnoredBy(matches, rules, p, true)
  {
    assert p[..|p|] == p;
    forall k | 0 < k <= |dir|
      ensures p[..k] == dir[..k]
    {
    }
  }
}
