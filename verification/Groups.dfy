/** Fan-in groups: the last of a group's jobs to succeed fires what comes after, once. */
module Groups {
  import opened Outcomes
  import opened QueueJobs

  datatype Group = Group(remaining: int, fired: bool, failed: bool, onComplete: string)

  datatype Answer = Answer(fire: bool, onComplete: Option<string>)

  type Groups = map<string, Group>

  /** One report to the file store, which stops counting at nought. */
  function Done(group: Group, success: bool): (Group, Answer) {
    if !success then (group.(failed := true), Answer(false, None))
    else
      var remaining := Max(0, group.remaining - 1);
      var fire := remaining == 0 && !group.fired && !group.failed;
      (group.(remaining := remaining, fired := group.fired || fire), Answer(fire, Some(group.onComplete)))
  }

  /** One report to the SQL store, which counts on below nought. */
  function SqlDone(group: Group, success: bool): (Group, Answer) {
    if !success then (group.(failed := true), Answer(false, None))
    else
      var counted := group.(remaining := group.remaining - 1);
      if counted.remaining > 0 || counted.failed then (counted, Answer(false, Some(group.onComplete)))
      else (counted.(fired := true), Answer(!counted.fired, Some(group.onComplete)))
  }

  function Created(groups: Groups, id: string, onComplete: string, count: int): Groups {
    groups[id := Group(count, false, false, onComplete)]
  }

  /** The file store looks for the group before anything else. */
  function Report(groups: Groups, id: string, success: bool): (Groups, Option<Answer>) {
    if id !in groups then (groups, None)
    else
      var (after, answer) := Done(groups[id], success);
      (groups[id := after], Some(answer))
  }

  /** The SQL store updates first and asks afterwards, so an unknown group is told apart only on success. */
  function SqlReport(groups: Groups, id: string, success: bool): (Groups, Option<Answer>) {
    if id !in groups then (groups, if success then None else Some(Answer(false, None)))
    else
      var (after, answer) := SqlDone(groups[id], success);
      (groups[id := after], Some(answer))
  }

  class GroupStore {
    var groups: Groups

    method CreateGroup(id: string, onComplete: string, count: int)
      requires id !in groups
      modifies this
      ensures groups == Created(old(groups), id, onComplete, count)
    {
      groups := groups[id := Group(count, false, false, onComplete)];
    }

    method JobDone(id: string, success: bool) returns (r: Option<Answer>)
      modifies this
      ensures (groups, r) == Report(old(groups), id, success)
    {
      if id !in groups {
        return None;
      }
      var group := groups[id];
      if !success {
        group := group.(failed := true);
        groups := groups[id := group];
        return Some(Answer(false, None));
      }
      group := group.(remaining := Max(0, group.remaining - 1));
      var fire := group.remaining == 0 && !group.fired && !group.failed;
      if fire {
        group := group.(fired := true);
      }
      groups := groups[id := group];
      r := Some(Answer(fire, Some(group.onComplete)));
    }
  }

  // ---- any sequence of reports -----------------------------------------------------

  function After(count: int, onComplete: string, reports: seq<bool>): Group {
    if reports == [] then Group(count, false, false, onComplete)
    else Done(After(count, onComplete, reports[..|reports| - 1]), reports[|reports| - 1]).0
  }

  function SqlAfter(count: int, onComplete: string, reports: seq<bool>): Group {
    if reports == [] then Group(count, false, false, onComplete)
    else SqlDone(SqlAfter(count, onComplete, reports[..|reports| - 1]), reports[|reports| - 1]).0
  }

  function Successes(reports: seq<bool>): nat {
    if reports == [] then 0
    else Successes(reports[..|reports| - 1]) + if reports[|reports| - 1] then 1 else 0
  }

  /** The answer to the i-th report tells its caller to fire. */
  predicate Fires(count: int, onComplete: string, reports: seq<bool>, i: nat)
    requires i < |reports|
  {
    Done(After(count, onComplete, reports[..i]), reports[i]).1.fire
  }

  lemma {:induction false} GroupAfter(count: int, onComplete: string, reports: seq<bool>)
    requires count >= 1
    ensures var group := After(count, onComplete, reports);
            && group.remaining == Max(0, count - Successes(reports))
            && (group.failed <==> false in reports)
            && (Successes(reports) < count ==> !group.fired)
            && (Successes(reports) >= count && false !in reports ==> group.fired)
  {
    if reports != [] {
      var before := reports[..|reports| - 1];
      GroupAfter(count, onComplete, before);
      assert reports == before + [reports[|reports| - 1]];
    }
  }

  lemma {:induction false} WhatComesAfterIsKept(count: int, onComplete: string, reports: seq<bool>)
    ensures After(count, onComplete, reports).onComplete == onComplete
  {
    if reports != [] {
      WhatComesAfterIsKept(count, onComplete, reports[..|reports| - 1]);
    }
  }

  /** A report fires exactly when it is the success that makes up the count and no failure came before it. */
  lemma FiresExactly(count: int, onComplete: string, reports: seq<bool>, i: nat)
    requires count >= 1 && i < |reports|
    ensures Fires(count, onComplete, reports, i) <==>
            reports[i] && Successes(reports[..i]) == count - 1 && false !in reports[..i]
    ensures Done(After(count, onComplete, reports[..i]), reports[i]).1.onComplete ==
            if reports[i] then Some(onComplete) else None
  {
    GroupAfter(count, onComplete, reports[..i]);
    WhatComesAfterIsKept(count, onComplete, reports[..i]);
  }

  lemma {:induction false} SuccessesGrow(reports: seq<bool>, i: nat, j: nat)
    requires i <= j <= |reports|
    ensures Successes(reports[..i]) <= Successes(reports[..j])
    ensures i < j && reports[i] ==> Successes(reports[..i]) < Successes(reports[..j])
  {
    if i < j {
      SuccessesGrow(reports, i, j - 1);
      assert reports[..j][..j - 1] == reports[..j - 1];
    }
  }

  lemma FiresAtMostOnce(count: int, onComplete: string, reports: seq<bool>, i: nat, j: nat)
    requires count >= 1 && i < |reports| && j < |reports|
    requires Fires(count, onComplete, reports, i) && Fires(count, onComplete, reports, j)
    ensures i == j
  {
    FiresExactly(count, onComplete, reports, i);
    FiresExactly(count, onComplete, reports, j);
    if i < j {
      SuccessesGrow(reports, i, j);
    } else {
      SuccessesGrow(reports, j, i);
    }
  }

  lemma {:induction false} CountIsReached(reports: seq<bool>, count: nat)
    requires 1 <= count <= Successes(reports)
    ensures exists i: nat :: i < |reports| && reports[i] && Successes(reports[..i]) == count - 1
  {
    var n := |reports| - 1;
    if Successes(reports[..n]) >= count {
      CountIsReached(reports[..n], count);
      var i: nat :| i < n && reports[..n][i] && Successes(reports[..n][..i]) == count - 1;
      assert reports[..n][..i] == reports[..i];
    } else {
      assert reports[n] && Successes(reports[..n]) == count - 1;
    }
  }

  /** Over any reports a group fires once, and only if its last success needed comes before every failure. */
  lemma FiresOnceExactly(count: int, onComplete: string, reports: seq<bool>)
    requires count >= 1
    ensures (exists i: nat :: i < |reports| && Fires(count, onComplete, reports, i)) <==>
            exists n: nat :: n <= |reports| && false !in reports[..n] && Successes(reports[..n]) == count
  {
    if n: nat :| n <= |reports| && false !in reports[..n] && Successes(reports[..n]) == count {
      CountIsReached(reports[..n], count);
      var i: nat :| i < n && reports[..n][i] && Successes(reports[..n][..i]) == count - 1;
      assert reports[..n][..i] == reports[..i];
      FiresExactly(count, onComplete, reports, i);
    }
    if i: nat :| i < |reports| && Fires(count, onComplete, reports, i) {
      FiresExactly(count, onComplete, reports, i);
      assert reports[..i + 1][..i] == reports[..i];
      assert reports[..i + 1] == reports[..i] + [reports[i]];
      assert Successes(reports[..i + 1]) == count;
    }
  }

  // ---- the two stores --------------------------------------------------------------

  /** Two records of a group that will answer every report alike. */
  predicate Alike(group: Group, sql: Group) {
    && group.failed == sql.failed && group.fired == sql.fired && group.onComplete == sql.onComplete
    && (group.remaining > 0 <==> sql.remaining > 0)
    && (group.remaining > 0 ==> group.remaining == sql.remaining)
  }

  lemma {:induction false} CountsAgree(count: int, onComplete: string, reports: seq<bool>)
    ensures Alike(After(count, onComplete, reports), SqlAfter(count, onComplete, reports))
  {
    if reports != [] {
      CountsAgree(count, onComplete, reports[..|reports| - 1]);
    }
  }

  /** Counting below nought changes no answer, whatever the size of the group. */
  lemma SqlAnswersAlike(count: int, onComplete: string, reports: seq<bool>, i: nat)
    requires i < |reports|
    ensures Done(After(count, onComplete, reports[..i]), reports[i]).1 ==
            SqlDone(SqlAfter(count, onComplete, reports[..i]), reports[i]).1
  {
    CountsAgree(count, onComplete, reports[..i]);
  }

  // ---- whole runs of the two stores ------------------------------------------------

  datatype Call = CreateCall(id: string, onComplete: string, count: int) | ReportCall(id: string, success: bool)

  function Stored(calls: seq<Call>): Groups {
    if calls == [] then map[]
    else
      var groups := Stored(calls[..|calls| - 1]);
      match calls[|calls| - 1]
      case CreateCall(id, onComplete, count) => Created(groups, id, onComplete, count)
      case ReportCall(id, success) => Report(groups, id, success).0
  }

  function SqlStored(calls: seq<Call>): Groups {
    if calls == [] then map[]
    else
      var groups := SqlStored(calls[..|calls| - 1]);
      match calls[|calls| - 1]
      case CreateCall(id, onComplete, count) => Created(groups, id, onComplete, count)
      case ReportCall(id, success) => SqlReport(groups, id, success).0
  }

  lemma AlikeAnswers(group: Group, sql: Group, success: bool)
    requires Alike(group, sql)
    ensures Done(group, success).1 == SqlDone(sql, success).1
    ensures Alike(Done(group, success).0, SqlDone(sql, success).0)
  {
  }

  lemma {:induction false} StoredAlike(calls: seq<Call>)
    ensures Stored(calls).Keys == SqlStored(calls).Keys
    ensures forall id | id in Stored(calls) :: Alike(Stored(calls)[id], SqlStored(calls)[id])
  {
    hide Alike;
    if calls != [] {
      var before, call := calls[..|calls| - 1], calls[|calls| - 1];
      StoredAlike(before);
      if call.ReportCall? && call.id in Stored(before) {
        AlikeAnswers(Stored(before)[call.id], SqlStored(before)[call.id], call.success);
      } else if call.CreateCall? {
        AlikeFromTheStart(call.count, call.onComplete);
      }
    }
  }

  lemma AlikeFromTheStart(count: int, onComplete: string)
    ensures Alike(Group(count, false, false, onComplete), Group(count, false, false, onComplete))
  {
  }

  /** After the same calls the two stores answer a report alike exactly when it is a success or names a
      group that exists. */
  lemma StoresAnswerAlikeExactly(calls: seq<Call>, id: string, success: bool)
    ensures Report(Stored(calls), id, success).1 == SqlReport(SqlStored(calls), id, success).1 <==>
            success || id in Stored(calls)
  {
    StoredAlike(calls);
    if id in Stored(calls) {
      AlikeAnswers(Stored(calls)[id], SqlStored(calls)[id], success);
    }
  }
}
