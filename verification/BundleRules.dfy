/** What an ignore rule takes and what it leaves, told by how the rule is spelled. */
module BundleRules {
  import opened Outcomes
  import opened Texts
  import opened BundleTree
  import opened Bundles

  /** A rule for directories only. */
  predicate ForDirs(rule: string) {
    rule != "" && rule[|rule| - 1] == '/'
  }

  /** A slash with something behind it that is no slash: the rule is matched from the root. */
  predicate Anchored(rule: string) {
    exists i, j :: 0 <= i < j < |rule| && rule[i] == '/' && rule[j] != '/'
  }

  function Slashes(n: nat): (s: string)
    ensures |s| == n && forall c | c in s :: c == '/'
  {
    seq(n, _ => '/')
  }

  lemma {:induction false} StripSlashesOff(bare: string, n: nat)
    requires bare != "" && bare[|bare| - 1] != '/'
    ensures StripSlashes(bare + Slashes(n)) == bare
  {
    var rule := bare + Slashes(n);
    if n > 0 {
      assert rule[..|rule| - 1] == bare + Slashes(n - 1);
      StripSlashesOff(bare, n - 1);
    } else {
      assert rule == bare;
    }
  }

  lemma {:induction false} AllSlashes(n: nat)
    ensures StripSlashes(Slashes(n)) == ""
  {
    if n > 0 {
      assert Slashes(n)[..n - 1] == Slashes(n - 1);
      AllSlashes(n - 1);
    }
  }

  lemma BareHits(matches: Matcher, bare: string, n: nat, path: Path, isDir: bool)
    requires path != [] && bare != "" && bare[|bare| - 1] != '/'
    ensures PatternHits(matches, bare + Slashes(n), path, isDir) <==>
            (n > 0 ==> isDir) && matches(if '/' in bare then Rel(path) else Last(path), bare)
  {
    StripSlashesOff(bare, n);
  }

  /** One rule more, whatever the rules before it: it takes what its text matches, by the last name or, with a
      slash inside, by the path from the root; slashes at its end keep it to directories; with a `!` in front
      it takes back instead. Where it does not match, the verdict stays. */
  lemma OneRuleExactly(matches: Matcher, rules: seq<string>, bare: string, n: nat, path: Path, isDir: bool)
    requires path != [] && bare != "" && bare[|bare| - 1] != '/'
    ensures var hits := (n > 0 ==> isDir) && matches(if '/' in bare then Rel(path) else Last(path), bare);
            && IgnoredBy(matches, rules + ["!" + bare + Slashes(n)], path, isDir) ==
                 (!hits && IgnoredBy(matches, rules, path, isDir))
            && (bare[0] != '!' ==>
                  IgnoredBy(matches, rules + [bare + Slashes(n)], path, isDir) ==
                    (hits || IgnoredBy(matches, rules, path, isDir)))
  {
    BareHits(matches, bare, n, path, isDir);
    OneMoreRule(matches, rules, bare + Slashes(n), path, isDir);
    OneMoreRule(matches, rules, "!" + bare + Slashes(n), path, isDir);
    assert ("!" + bare + Slashes(n))[1..] == bare + Slashes(n);
    hide IgnoredBy, PatternHits;
  }

  /** A rule of slashes alone, negated or not, takes nothing. */
  lemma SlashesTakeNothing(matches: Matcher, rules: seq<string>, n: nat, path: Path, isDir: bool)
    requires path != []
    ensures IgnoredBy(matches, rules + [Slashes(n)], path, isDir) == IgnoredBy(matches, rules, path, isDir)
    ensures IgnoredBy(matches, rules + ["!" + Slashes(n)], path, isDir) == IgnoredBy(matches, rules, path, isDir)
  {
    AllSlashes(n);
    assert ("!" + Slashes(n))[1..] == Slashes(n);
    OneMoreRule(matches, rules, Slashes(n), path, isDir);
    OneMoreRule(matches, rules, "!" + Slashes(n), path, isDir);
    hide IgnoredBy;
  }

  // ---- which rules bear on a path --------------------------------------------------

  function WithoutDirRules(rules: seq<string>): seq<string> {
    if rules == [] then []
    else
      var before, rule := WithoutDirRules(rules[..|rules| - 1]), rules[|rules| - 1];
      if ForDirs(rule) then before else before + [rule]
  }

  lemma DirRuleMissesFiles(matches: Matcher, rule: string, path: Path)
    requires path != [] && ForDirs(rule)
    ensures !RuleHits(matches, rule, path, false)
  {
  }

  /** Rules that end in a slash change no verdict on a file. */
  lemma {:induction false} DirRulesSpareFiles(matches: Matcher, rules: seq<string>, path: Path)
    requires path != []
    ensures IgnoredBy(matches, rules, path, false) == IgnoredBy(matches, WithoutDirRules(rules), path, false)
  {
    if rules != [] {
      var before, rule := rules[..|rules| - 1], rules[|rules| - 1];
      DirRulesSpareFiles(matches, before, path);
      OneMoreRule(matches, before, rule, path, false);
      OneMoreRule(matches, WithoutDirRules(before), rule, path, false);
      assert rules == before + [rule];
      hide IgnoredBy, RuleHits;
      if ForDirs(rule) {
        DirRuleMissesFiles(matches, rule, path);
      }
    }
  }

  lemma {:induction false} StripsTheEnd(rule: string)
    ensures var bare := StripSlashes(rule);
            && (bare != "" ==> bare[|bare| - 1] != '/')
            && rule == bare + Slashes(|rule| - |bare|)
  {
    if rule != "" && rule[|rule| - 1] == '/' {
      var init := rule[..|rule| - 1];
      StripsTheEnd(init);
      assert rule == init + "/";
      assert Slashes(|rule| - |StripSlashes(rule)|) == Slashes(|init| - |StripSlashes(init)|) + "/";
    } else {
      assert Slashes(0) == "";
    }
  }

  lemma AnchoredIsInside(rule: string)
    ensures Anchored(rule) <==> '/' in StripSlashes(rule)
  {
    StripsTheEnd(rule);
    var bare := StripSlashes(rule);
    if Anchored(rule) {
      var i, j :| 0 <= i < j < |rule| && rule[i] == '/' && rule[j] != '/';
      assert j < |bare| && bare[i] == '/';
    }
    if '/' in bare {
      var i :| 0 <= i < |bare| && bare[i] == '/';
      assert rule[i] == '/' && rule[|bare| - 1] == bare[|bare| - 1];
    }
  }

  lemma AnchoredBehindTheMark(rule: string)
    requires Negated(rule)
    ensures Anchored(rule) <==> Anchored(rule[1..])
  {
    var rest := rule[1..];
    assert forall i | 0 <= i < |rest| :: rest[i] == rule[i + 1];
    if Anchored(rest) {
      var i, j :| 0 <= i < j < |rest| && rest[i] == '/' && rest[j] != '/';
      assert rule[i + 1] == '/' && rule[j + 1] != '/';
    }
    if Anchored(rule) {
      var i, j :| 0 <= i < j < |rule| && rule[i] == '/' && rule[j] != '/';
      assert i > 0 && rest[i - 1] == '/' && rest[j - 1] != '/';
    }
  }

  lemma FlatRuleHitsAlike(matches: Matcher, rule: string, p: Path, q: Path, isDir: bool)
    requires p != [] && q != [] && Last(p) == Last(q) && !Anchored(rule)
    ensures RuleHits(matches, rule, p, isDir) == RuleHits(matches, rule, q, isDir)
  {
    if Negated(rule) {
      AnchoredBehindTheMark(rule);
      AnchoredIsInside(rule[1..]);
    } else {
      AnchoredIsInside(rule);
    }
  }

  /** Rules without a slash inside treat alike any two paths of one kind with the same last name, wherever
      they lie. */
  lemma {:induction false} FlatRulesSeeTheLastName(matches: Matcher, rules: seq<string>, p: Path, q: Path, isDir: bool)
    requires p != [] && q != [] && Last(p) == Last(q) && forall rule | rule in rules :: !Anchored(rule)
    ensures IgnoredBy(matches, rules, p, isDir) == IgnoredBy(matches, rules, q, isDir)
  {
    if rules != [] {
      var before, rule := rules[..|rules| - 1], rules[|rules| - 1];
      FlatRulesSeeTheLastName(matches, before, p, q, isDir);
      FlatRuleHitsAlike(matches, rule, p, q, isDir);
      OneMoreRule(matches, before, rule, p, isDir);
      OneMoreRule(matches, before, rule, q, isDir);
      assert rules == before + [rule];
      hide IgnoredBy, RuleHits;
    }
  }

  lemma AnchoredRuleHitsAlike(matches: Matcher, others: Matcher, rule: string, path: Path, isDir: bool)
    requires path != [] && Anchored(rule) && forall pattern :: matches(Rel(path), pattern) == others(Rel(path), pattern)
    ensures RuleHits(matches, rule, path, isDir) == RuleHits(others, rule, path, isDir)
  {
    if Negated(rule) {
      AnchoredBehindTheMark(rule);
      AnchoredIsInside(rule[1..]);
    } else {
      AnchoredIsInside(rule);
    }
  }

  /** Rules with a slash inside see the whole path from the root, and nothing else: the verdict hangs only on
      what the patterns match of it. */
  lemma {:induction false} AnchoredRulesSeeThePath(matches: Matcher, others: Matcher, rules: seq<string>, path: Path,
                                                   isDir: bool)
    requires path != [] && forall rule | rule in rules :: Anchored(rule)
    requires forall pattern :: matches(Rel(path), pattern) == others(Rel(path), pattern)
    ensures IgnoredBy(matches, rules, path, isDir) == IgnoredBy(others, rules, path, isDir)
  {
    if rules != [] {
      var before, rule := rules[..|rules| - 1], rules[|rules| - 1];
      AnchoredRulesSeeThePath(matches, others, before, path, isDir);
      AnchoredRuleHitsAlike(matches, others, rule, path, isDir);
      OneMoreRule(matches, before, rule, path, isDir);
      OneMoreRule(others, before, rule, path, isDir);
      assert rules == before + [rule];
      hide IgnoredBy, RuleHits;
    }
  }

  /** A file is in a bundle exactly when its name is no secret one, no rule takes it, and no rule takes a
      directory above it. No rule brings a secret in. */
  lemma KeptExactly(matches: Matcher, rules: seq<string>, tree: Tree, p: Path)
    ensures p in KeptFiles(matches, rules, tree) <==>
            && p in tree && tree[p].File? && p != []
            && (p[|p| - 1] == ".env" || ".env." <= p[|p| - 1] ==>
                  p[|p| - 1] in {".env.example", ".env.sample", ".env.template"})
            && !IgnoredBy(matches, rules, p, false)
            && forall k | 0 < k < |p| :: !IgnoredBy(matches, rules, p[..k], true)
  {
    hide IgnoredBy;
    if p != [] {
      assert forall k | 0 < k < |p| :: Parent(p)[..k] == p[..k];
    }
  }

  // ---- the default rules -----------------------------------------------------------

  const BUILD: nat := 17

  lemma BuildDirIsIgnored(matches: Matcher)
    requires matches("build", "build")
    ensures IgnoredBy(matches, DEFAULT_IGNORE, ["build"], true)
  {
    var before, more := DEFAULT_IGNORE[..BUILD], DEFAULT_IGNORE[BUILD + 1..];
    assert Slashes(1) == "/" && "build" + Slashes(1) == "build/";
    hide IgnoredBy, RuleHits;
    OneRuleExactly(matches, before, "build", 1, ["build"], true);
    forall rule | rule in more
      ensures !Negated(rule)
    {
    }
    StaysIgnored(matches, before + ["build/"], more, ["build"], true);
    assert DEFAULT_IGNORE == before + ["build/"] + more;
  }

  /** A file of the root that no rule for files matches is not ignored, whatever directories are. */
  lemma RootFileIsNotIgnored(matches: Matcher, rules: seq<string>, name: string)
    requires forall rule | rule in rules && !ForDirs(rule) && !Negated(rule) :: !matches(name, rule)
    ensures !IgnoredBy(matches, rules, [name], false)
  {
    forall rule | rule in rules && !Negated(rule)
      ensures !RuleHits(matches, rule, [name], false)
    {
      if ForDirs(rule) {
        DirRuleMissesFiles(matches, rule, [name]);
      }
    }
  }

  /** Under the default rules a directory `build` is left out with all it holds, and a file of that name is
      kept: the rule ends in a slash. Of the matching it takes that the name matches itself and that none of
      the patterns for files does. */
  lemma BuildIsKept(p: Platform, tree: Tree)
    requires Rooted(tree) && IgnoreFile(p, tree) == [] && ["build"] in tree
    requires p.matches("build", "build")
    requires forall rule | rule in DEFAULT_IGNORE && !ForDirs(rule) && !Negated(rule) :: !p.matches("build", rule)
    ensures tree[["build"]].File? ==> ["build"] in FilesOf(p, tree, [])
    ensures tree[["build"]].Dir? ==> forall q | q in FilesOf(p, tree, []) :: !(["build"] <= q)
  {
    hide IgnoredBy;
    assert Rules(p, tree, []) == DEFAULT_IGNORE;
    RootFileIsNotIgnored(p.matches, DEFAULT_IGNORE, "build");
    BuildDirIsIgnored(p.matches);
    KeptExactly(p.matches, DEFAULT_IGNORE, tree, ["build"]);
    assert "build"[0] == 'b' && ".env"[0] == '.' && ".env."[0] == '.';
    hide KeptFiles;
    forall q | q in FilesOf(p, tree, []) && tree[["build"]].Dir?
      ensures !(["build"] <= q)
    {
      assert ["build"] <= q && |q| > 1 ==> q[..1] == ["build"];
      assert ["build"] <= q && |q| == 1 ==> q == ["build"];
      TopDirIsEntered(p, tree, q);
    }
  }

  // ---- whose rules win -------------------------------------------------------------

  lemma OneMoreWins(matches: Matcher, rules: seq<string>, bare: string, path: Path, isDir: bool)
    requires path != [] && bare != "" && bare[|bare| - 1] != '/' && bare[0] != '!'
    requires matches(if '/' in bare then Rel(path) else Last(path), bare)
    ensures IgnoredBy(matches, rules + [bare], path, isDir)
    ensures !IgnoredBy(matches, rules + ["!" + bare], path, isDir)
  {
    assert bare + Slashes(0) == bare && "!" + bare + Slashes(0) == "!" + bare;
    hide IgnoredBy;
    OneRuleExactly(matches, rules, bare, 0, path, isDir);
  }

  /** The project's own rules are laid over the default ones, and those given to the build over both: the last
      of them that matches decides. */
  lemma LaterRulesWin(p: Platform, tree: Tree, own: seq<string>, extra: seq<string>, bare: string, path: Path,
                      isDir: bool)
    requires path != [] && bare != "" && bare[|bare| - 1] != '/' && bare[0] != '!'
    requires p.matches(if '/' in bare then Rel(path) else Last(path), bare)
    ensures IgnoredBy(p.matches, Rules(p, tree, extra + [bare]), path, isDir)
    ensures !IgnoredBy(p.matches, Rules(p, tree, extra + ["!" + bare]), path, isDir)
    ensures IgnoreFile(p, tree) == own + [bare] ==> IgnoredBy(p.matches, Rules(p, tree, []), path, isDir)
    ensures IgnoreFile(p, tree) == own + ["!" + bare] ==> !IgnoredBy(p.matches, Rules(p, tree, []), path, isDir)
  {
    hide IgnoredBy, IgnoreFile, DEFAULT_IGNORE, Rel;
    OneMoreWins(p.matches, Rules(p, tree, extra), bare, path, isDir);
    OneMoreWins(p.matches, DEFAULT_IGNORE + own, bare, path, isDir);
    RulesJoin(p, tree, extra, bare);
    RulesJoin(p, tree, extra, "!" + bare);
    OwnRulesJoin(p, tree, own, bare);
    OwnRulesJoin(p, tree, own, "!" + bare);
    hide Rules;
  }

  lemma RulesJoin(p: Platform, tree: Tree, extra: seq<string>, rule: string)
    ensures Rules(p, tree, extra + [rule]) == Rules(p, tree, extra) + [rule]
  {
    hide DEFAULT_IGNORE, IgnoreFile;
  }

  lemma OwnRulesJoin(p: Platform, tree: Tree, own: seq<string>, rule: string)
    ensures IgnoreFile(p, tree) == own + [rule] ==> Rules(p, tree, []) == DEFAULT_IGNORE + own + [rule]
  {
    hide DEFAULT_IGNORE, IgnoreFile;
  }
}
