/** Chat turns: one claimed job executed by a worker, its frames relayed to the turn's stream. */
module Turns {
  import opened Outcomes
  import opened QueueJobs
  import opened QueueStore
  import opened Streams
  import Ledger
  import Queue
  import QueueClaims
  import QueueOutcomes
  import QueueRuns

  /** What the handler did: the frames it emitted, and how it ended. */
  datatype Ending = Returned(run: string, status: Ledger.RunStatus, replies: seq<string>) | Raised(code: string)

  datatype Handled = Handled(emitted: seq<Body>, ending: Ending)

  /** A handler emits traces, tokens and interface frames. */
  predicate Emits(body: Body) {
    body.Trace? || body.Token? || body.Ui?
  }

  function Messages(replies: seq<string>): (bodies: seq<Body>)
    ensures |bodies| == |replies|
  {
    seq(|replies|, i requires 0 <= i < |replies| => Message(replies[i]))
  }

  /** The report of a finished turn is accepted while the worker holds the job, or once it is cancelled. */
  predicate Accepts(js: Jobs, id: JobId, worker: WorkerId) {
    id in js && (js[id].status == Cancelled || Holds(js[id], worker))
  }

  /** What an error frame says when the queue refuses the worker's own report. */
  const REFUSED := "refused"

  /** An attempt on a stream that has frames already marks the seam first. */
  function Opening(seen: bool, attempt: nat, emitted: seq<Body>): seq<Body> {
    (if seen then [Restart(attempt)] else []) + emitted
  }

  function Report(ending: Ending, accepted: bool): seq<Body> {
    match ending
    case Returned(run, status, replies) =>
      Messages(replies) + [RunFrame(run, status)] + if accepted then [] else [ErrorFrame(REFUSED)]
    case Raised(code) => [ErrorFrame(code)]
  }

  /** The frames one attempt adds to its stream. */
  function AttemptFrames(seen: bool, attempt: nat, handled: Handled, accepted: bool): seq<Body> {
    Opening(seen, attempt, handled.emitted) + Report(handled.ending, accepted)
  }

  /** Frames relayed one append at a time; none at all leaves the stream unwritten. */
  function Relayed(docs: Docs, turn: TurnId, bodies: seq<Body>): Docs {
    if bodies == [] then docs else Appended(docs, turn, bodies)
  }

  lemma RelayedTwice(docs: Docs, turn: TurnId, a: seq<Body>, b: seq<Body>)
    ensures Relayed(Relayed(docs, turn, a), turn, b) == Relayed(docs, turn, a + b)
  {
    var frames := FramesOf(docs, turn);
    NumberedTwice(a, b, |frames|);
    if a == [] {
      assert a + b == b;
    } else if b == [] {
      assert a + b == a;
    } else {
      assert frames + Numbered(a, |frames|) + Numbered(b, |frames| + |a|) == frames + Numbered(a + b, |frames|);
    }
  }

  lemma NumberedTwice(a: seq<Body>, b: seq<Body>, base: int)
    ensures Numbered(a + b, base) == Numbered(a, base) + Numbered(b, base + |a|)
  {
  }

  method Relay(streams: StreamStore, turn: TurnId, bodies: seq<Body>)
    modifies streams
    ensures streams.docs == Relayed(old(streams.docs), turn, bodies)
  {
    hide Appended, FramesOf;
    for i := 0 to |bodies|
      invariant streams.docs == Relayed(old(streams.docs), turn, bodies[..i])
    {
      RelayedTwice(old(streams.docs), turn, bodies[..i], [bodies[i]]);
      assert bodies[..i + 1] == bodies[..i] + [bodies[i]];
      var _ := streams.Append(turn, [bodies[i]]);
    }
    assert bodies[..|bodies|] == bodies;
  }

  // ---- one attempt -----------------------------------------------------------------

  lemma RelayedKeepsOrder(docs: Docs, turn: TurnId, bodies: seq<Body>)
    requires Ordered(docs)
    ensures Ordered(Relayed(docs, turn, bodies))
  {
    AppendKeepsOrder(docs, turn, bodies);
  }

  /** The queue after the attempt: the job completed or failed as its worker reported, or untouched. */
  function AttemptJobs(js: Jobs, id: JobId, worker: WorkerId, ending: Ending, clock: int): Jobs {
    if id !in js then js
    else
      match ending
      case Returned(run, _, _) => Stored(js, id, Complete(js[id], worker, Some(run), clock))
      case Raised(code) => Stored(js, id, Fail(js[id], worker, code, clock))
  }

  /** What an attempt leaves of a job its worker may report on: one that was cancelled meanwhile as it was, and
      one the worker holds ended as its handler ended. */
  predicate EndedBy(js: Jobs, before: Jobs, id: JobId, worker: WorkerId, ending: Ending, clock: int) {
    && id in js && id in before
    && if before[id].status == Cancelled then js[id] == before[id]
       else
         && Holds(before[id], worker)
         && match ending
            case Returned(run, _, _) => QueueOutcomes.EndedWell(before[id], js[id], Some(run), clock)
            case Raised(code) => QueueOutcomes.EndedBadly(before[id], js[id], code, clock)
  }

  lemma AttemptEndsTheJob(js: Jobs, id: JobId, worker: WorkerId, ending: Ending, clock: int)
    requires Accepts(js, id, worker)
    ensures EndedBy(AttemptJobs(js, id, worker, ending, clock), js, id, worker, ending, clock)
  {
    hide QueueOutcomes.EndedWell, QueueOutcomes.EndedBadly;
    if js[id].status != Cancelled {
      match ending
      case Returned(run, _, _) => QueueOutcomes.CompletionEndsWell(js[id], worker, Some(run), clock);
      case Raised(code) => QueueOutcomes.FailureEndsBadly(js[id], worker, code, clock);
    }
  }

  lemma AcceptsExactly(js: Jobs, id: JobId, worker: WorkerId, output: Option<string>, error: string, clock: int)
    requires id in js
    ensures Complete(js[id], worker, output, clock).Ok? <==> Accepts(js, id, worker)
    ensures Fail(js[id], worker, error, clock).Ok? <==> Accepts(js, id, worker)
  {
  }

  method RunTurn(store: Directory, streams: StreamStore, job: Job, worker: WorkerId, handled: Handled, clock: int)
    returns (r: Result<()>)
    requires store.Valid() && Ordered(streams.docs)
    modifies store`jobs, streams
    ensures store.Valid() && Ordered(streams.docs)
    ensures streams.docs == Relayed(old(streams.docs), job.id,
                                    AttemptFrames(FramesOf(old(streams.docs), job.id) != [], job.attempts, handled,
                                                  Accepts(old(store.jobs), job.id, worker)))
    ensures store.jobs == AttemptJobs(old(store.jobs), job.id, worker, handled.ending, clock)
    ensures r.Ok? <==> Accepts(old(store.jobs), job.id, worker)
    ensures r.Ok? ==> EndedBy(store.jobs, old(store.jobs), job.id, worker, handled.ending, clock)
    ensures r.Err? ==> store.jobs == old(store.jobs)
  {
    hide Ordered, AttemptJobs, Accepts, Relayed, Opening, Report, FramesOf, EndedBy;
    ghost var docs := streams.docs;
    ghost var opening := Opening(FramesOf(docs, job.id) != [], job.attempts, handled.emitted);
    ghost var report := Report(handled.ending, Accepts(store.jobs, job.id, worker));
    OpenAttempt(streams, job.id, job.attempts, handled.emitted);
    RelayedKeepsOrder(docs, job.id, opening);
    RelayedKeepsOrder(streams.docs, job.id, report);
    RelayedTwice(docs, job.id, opening, report);
    r := EndAttempt(store, streams, job.id, worker, handled.ending, clock);
    if r.Ok? {
      AttemptEndsTheJob(old(store.jobs), job.id, worker, handled.ending, clock);
    } else {
      RefusedReport(old(store.jobs), job.id, worker, handled.ending, clock);
    }
  }

  /** A report that is refused leaves the queue as it was. */
  lemma RefusedReport(js: Jobs, id: JobId, worker: WorkerId, ending: Ending, clock: int)
    requires !Accepts(js, id, worker)
    ensures AttemptJobs(js, id, worker, ending, clock) == js
  {
  }

  method OpenAttempt(streams: StreamStore, turn: TurnId, attempt: nat, emitted: seq<Body>)
    requires Ordered(streams.docs)
    modifies streams
    ensures streams.docs ==
            Relayed(old(streams.docs), turn, Opening(FramesOf(old(streams.docs), turn) != [], attempt, emitted))
  {
    ghost var docs := streams.docs;
    AfterIsASuffix(FramesOf(docs, turn), -1);
    var seen := streams.Read(turn, -1);
    if seen != [] {
      Relay(streams, turn, [Restart(attempt)]);
      RelayedTwice(docs, turn, [Restart(attempt)], emitted);
    }
    Relay(streams, turn, emitted);
    assert [] + emitted == emitted;
  }

  method EndAttempt(store: Directory, streams: StreamStore, turn: TurnId, worker: WorkerId, ending: Ending, clock: int)
    returns (r: Result<()>)
    requires store.Valid()
    modifies store`jobs, streams
    ensures store.Valid()
    ensures streams.docs == Relayed(old(streams.docs), turn, Report(ending, Accepts(old(store.jobs), turn, worker)))
    ensures store.jobs == AttemptJobs(old(store.jobs), turn, worker, ending, clock)
    ensures r.Ok? <==> Accepts(old(store.jobs), turn, worker)
  {
    match ending
    case Returned(run, status, replies) => r := EndReturned(store, streams, turn, worker, run, status, replies, clock);
    case Raised(code) =>
      if turn in store.jobs {
        AcceptsExactly(store.jobs, turn, worker, None, code, clock);
      }
      Relay(streams, turn, [ErrorFrame(code)]);
      var failed := Queue.FailJob(store, turn, worker, code, clock);
      r := if failed.Ok? then Ok(()) else Err(failed.error);
  }

  /** A report the queue refuses is an error of the attempt: one more frame, and a failure it refuses too. */
  method EndReturned(store: Directory, streams: StreamStore, turn: TurnId, worker: WorkerId,
                     run: string, status: Ledger.RunStatus, replies: seq<string>, clock: int)
    returns (r: Result<()>)
    requires store.Valid()
    modifies store`jobs, streams
    ensures store.Valid()
    ensures streams.docs == Relayed(old(streams.docs), turn,
                                    Report(Returned(run, status, replies), Accepts(old(store.jobs), turn, worker)))
    ensures store.jobs == AttemptJobs(old(store.jobs), turn, worker, Returned(run, status, replies), clock)
    ensures r.Ok? <==> Accepts(old(store.jobs), turn, worker)
  {
    ghost var docs := streams.docs;
    var report := Messages(replies) + [RunFrame(run, status)];
    if turn in store.jobs {
      AcceptsExactly(store.jobs, turn, worker, Some(run), REFUSED, clock);
    }
    hide Complete, Fail, Relayed, Messages, Holds;
    Relay(streams, turn, report);
    var done := Queue.CompleteJob(store, turn, worker, Some(run), clock);
    if done.Ok? {
      assert report + [] == report;
      return Ok(());
    }
    Relay(streams, turn, [ErrorFrame(REFUSED)]);
    RelayedTwice(docs, turn, report, [ErrorFrame(REFUSED)]);
    var failed := Queue.FailJob(store, turn, worker, REFUSED, clock);
    r := if failed.Ok? then Ok(()) else Err(failed.error);
  }

  // ---- what a reader can rely on ---------------------------------------------------

  /** Every attempt on a stream that was not empty marks the seam before anything else, and every attempt
      that is not cut off leaves a run or an error frame last. */
  lemma AttemptIsFramed(seen: bool, attempt: nat, handled: Handled, accepted: bool)
    requires forall body | body in handled.emitted :: Emits(body)
    ensures var frames := AttemptFrames(seen, attempt, handled, accepted);
            && frames != []
            && (frames[0].Restart? <==> seen)
            && (forall i | 0 < i < |frames| :: !frames[i].Restart?)
            && (frames[|frames| - 1].RunFrame? || frames[|frames| - 1].ErrorFrame?)
  {
    var frames := AttemptFrames(seen, attempt, handled, accepted);
    var opening, report := Opening(seen, attempt, handled.emitted), Report(handled.ending, accepted);
    assert forall i | 0 <= i < |report| :: !report[i].Restart?;
    assert frames[|frames| - 1] == report[|report| - 1];
    assert forall i | 0 <= i < |frames| :: frames[i] == if i < |opening| then opening[i] else report[i - |opening|];
    var first := if seen then 1 else 0;
    forall i | first <= i < |opening|
      ensures opening[i] == handled.emitted[i - first] && Emits(opening[i])
    {
      assert handled.emitted[i - first] in handled.emitted;
    }
  }

  /** Frame by frame: the seam on a stream that has frames, what the handler emitted, and then, if it returned,
      its replies in order and the run, or, if it raised, the error. */
  lemma FramesInOrder(seen: bool, attempt: nat, handled: Handled, accepted: bool)
    ensures var frames := AttemptFrames(seen, attempt, handled, accepted);
            var first := if seen then 1 else 0;
            var n := first + |handled.emitted|;
            && |frames| >= n
            && (seen ==> frames[0] == Restart(attempt))
            && (forall i | first <= i < n :: frames[i] == handled.emitted[i - first])
            && match handled.ending
               case Raised(code) => frames[n..] == [ErrorFrame(code)]
               case Returned(run, status, replies) =>
                 var end := n + |replies|;
                 && |frames| == end + (if accepted then 1 else 2)
                 && (forall i | n <= i < end :: frames[i] == Message(replies[i - n]))
                 && frames[end] == RunFrame(run, status)
                 && (!accepted ==> frames[end + 1] == ErrorFrame("refused"))
  {
    var frames := AttemptFrames(seen, attempt, handled, accepted);
    var opening, report := Opening(seen, attempt, handled.emitted), Report(handled.ending, accepted);
    assert frames[..|opening|] == opening && frames[|opening|..] == report;
  }

  /** A reader that has seen the whole stream of a turn receives exactly the frames of the next attempt. */
  lemma AttemptIsStreamed(docs: Docs, turn: TurnId, bodies: seq<Body>)
    requires Ordered(docs) && bodies != []
    ensures var seen := |FramesOf(docs, turn)|;
            After(FramesOf(Relayed(docs, turn, bodies), turn), seen - 1) == Numbered(bodies, seen)
  {
    var seen := |FramesOf(docs, turn)|;
    AppendKeepsOrder(docs, turn, bodies);
    AfterIsASuffix(FramesOf(Relayed(docs, turn, bodies), turn), seen - 1);
  }

  /** An attempt ends its stream with one terminal frame exactly when its report is accepted, or it raised,
      or what it reported is no ending; a refused report of an ending leaves an error frame behind the run
      frame, which a reader that stops at the first terminal frame does not see. */
  lemma OneTerminalFrameExactly(seen: bool, attempt: nat, handled: Handled, accepted: bool)
    requires forall body | body in handled.emitted :: Emits(body)
    ensures var frames := AttemptFrames(seen, attempt, handled, accepted);
            (forall i | 0 <= i < |frames| - 1 :: !Terminal(frames[i])) <==>
            accepted || handled.ending.Raised? || !Ledger.Terminal(handled.ending.status)
  {
    var frames := AttemptFrames(seen, attempt, handled, accepted);
    var opening, report := Opening(seen, attempt, handled.emitted), Report(handled.ending, accepted);
    assert frames == opening + report;
    forall i | 0 <= i < |opening|
      ensures !Terminal(frames[i])
    {
      assert frames[i] == opening[i];
      if i > 0 || !seen {
        var k := if seen then i - 1 else i;
        assert opening[i] == handled.emitted[k] && handled.emitted[k] in handled.emitted;
      }
    }
    if handled.ending.Returned? {
      var n := |handled.ending.replies|;
      assert forall i | 0 <= i < n :: report[i].Message?;
      assert report[n] == RunFrame(handled.ending.run, handled.ending.status);
      assert frames[|opening| + n] == report[n];
      assert forall i | 0 <= i < |report| :: frames[|opening| + i] == report[i];
    }
  }

  /** How many terminal frames an attempt leaves. */
  function Endings(handled: Handled, accepted: bool): nat {
    match handled.ending
    case Raised(_) => 1
    case Returned(_, status, _) => (if Ledger.Terminal(status) then 1 else 0) + if accepted then 0 else 1
  }

  lemma MessagesAreOpen(replies: seq<string>)
    ensures Terminals(Messages(replies)) == 0
  {
    NoTerminals(Messages(replies));
  }

  lemma AttemptEndings(seen: bool, attempt: nat, handled: Handled, accepted: bool)
    requires forall body | body in handled.emitted :: Emits(body)
    ensures Terminals(AttemptFrames(seen, attempt, handled, accepted)) == Endings(handled, accepted)
  {
    var opening, report := Opening(seen, attempt, handled.emitted), Report(handled.ending, accepted);
    NoTerminals(handled.emitted);
    TerminalsJoin(if seen then [Restart(attempt)] else [], handled.emitted);
    OneTerminal(Restart(attempt));
    TerminalsJoin(opening, report);
    match handled.ending
    case Raised(code) => OneTerminal(ErrorFrame(code));
    case Returned(run, status, replies) =>
      MessagesAreOpen(replies);
      TerminalsJoin(Messages(replies), [RunFrame(run, status)]);
      TerminalsJoin(Messages(replies) + [RunFrame(run, status)], if accepted then [] else [ErrorFrame(REFUSED)]);
      OneTerminal(RunFrame(run, status));
      OneTerminal(ErrorFrame(REFUSED));
  }

  lemma OneTerminal(body: Body)
    ensures Terminals([body]) == if Terminal(body) then 1 else 0
    ensures Terminals([]) == 0
  {
    assert [body][..0] == [];
  }

  // ---- the attempts of one turn ----------------------------------------------------

  /** One attempt: what its handler did, the attempt's number, and whether the queue took its report. */
  datatype Attempt = Attempt(number: nat, handled: Handled, accepted: bool)

  /** The stream of a turn after its attempts, from nothing. */
  function TurnDocs(docs: Docs, turn: TurnId, attempts: seq<Attempt>): Docs {
    if attempts == [] then docs
    else
      var before, last := TurnDocs(docs, turn, attempts[..|attempts| - 1]), attempts[|attempts| - 1];
      Relayed(before, turn, AttemptFrames(FramesOf(before, turn) != [], last.number, last.handled, last.accepted))
  }

  function TurnFrames(attempts: seq<Attempt>): seq<Body> {
    if attempts == [] then []
    else
      var before, last := TurnFrames(attempts[..|attempts| - 1]), attempts[|attempts| - 1];
      before + AttemptFrames(before != [], last.number, last.handled, last.accepted)
  }

  function TurnEndings(attempts: seq<Attempt>): nat {
    if attempts == [] then 0
    else
      var last := attempts[|attempts| - 1];
      TurnEndings(attempts[..|attempts| - 1]) + Endings(last.handled, last.accepted)
  }

  predicate WellEmitted(attempts: seq<Attempt>) {
    forall attempt | attempt in attempts :: forall body | body in attempt.handled.emitted :: Emits(body)
  }

  lemma {:induction false} TurnDocsHoldItsFrames(docs: Docs, turn: TurnId, attempts: seq<Attempt>)
    requires turn !in docs
    ensures FramesOf(TurnDocs(docs, turn, attempts), turn) == Numbered(TurnFrames(attempts), 0)
    ensures TurnDocs(docs, turn, attempts) == Relayed(docs, turn, TurnFrames(attempts))
  {
    hide AttemptFrames;
    if attempts != [] {
      var init, last := attempts[..|attempts| - 1], attempts[|attempts| - 1];
      TurnDocsHoldItsFrames(docs, turn, init);
      var more := AttemptFrames(TurnFrames(init) != [], last.number, last.handled, last.accepted);
      RelayedTwice(docs, turn, TurnFrames(init), more);
      FramesOfRelayed(docs, turn, TurnFrames(init) + more);
    }
  }

  lemma FramesOfRelayed(docs: Docs, turn: TurnId, bodies: seq<Body>)
    requires turn !in docs
    ensures FramesOf(Relayed(docs, turn, bodies), turn) == Numbered(bodies, 0)
  {
    hide Ordered;
    assert FramesOf(docs, turn) + Numbered(bodies, 0) == Numbered(bodies, 0);
  }

  lemma {:induction false} TurnTerminals(attempts: seq<Attempt>)
    requires WellEmitted(attempts)
    ensures Terminals(TurnFrames(attempts)) == TurnEndings(attempts)
  {
    hide AttemptFrames, Endings, Emits;
    if attempts != [] {
      var init, last := attempts[..|attempts| - 1], attempts[|attempts| - 1];
      TurnTerminals(init);
      assert last in attempts;
      var seen := TurnFrames(init) != [];
      AttemptEndings(seen, last.number, last.handled, last.accepted);
      TerminalsJoin(TurnFrames(init), AttemptFrames(seen, last.number, last.handled, last.accepted));
    }
  }

  /** The first terminal frame of a turn's stream, where its readers stop, is the final one exactly when its
      attempts make one ending in all: an attempt makes one by raising, one by reporting a terminal status,
      and one by having its report refused. */
  lemma FirstIsFinalExactly(docs: Docs, turn: TurnId, attempts: seq<Attempt>)
    requires turn !in docs && WellEmitted(attempts)
    ensures var frames := FramesOf(TurnDocs(docs, turn, attempts), turn);
            (exists i | 0 <= i < |frames| :: IsFirst(frames, i) && IsFinal(frames, i)) <==> TurnEndings(attempts) == 1
  {
    hide IsFirst, IsFinal, TurnDocs, FramesOf, TurnEndings, Terminals;
    TurnDocsHoldItsFrames(docs, turn, attempts);
    TurnTerminals(attempts);
    FirstIsFinalIfAlone(TurnFrames(attempts), 0);
  }

  /** A turn that raised once and then completed: a reader stops at the error, and is not told of the run. */
  lemma RetriedTurn(docs: Docs, turn: TurnId, code: string, run: string)
    requires turn !in docs
    ensures var attempts := [Attempt(1, Handled([], Raised(code)), true),
                             Attempt(2, Handled([], Returned(run, Ledger.Completed, [])), true)];
            var frames := FramesOf(TurnDocs(docs, turn, attempts), turn);
            && TurnEndings(attempts) == 2
            && frames == Numbered([ErrorFrame(code), Restart(2), RunFrame(run, Ledger.Completed)], 0)
            && UpToStop(After(frames, -1), false) == [Frame(0, ErrorFrame(code))]
  {
    var first := Attempt(1, Handled([], Raised(code)), true);
    var second := Attempt(2, Handled([], Returned(run, Ledger.Completed, [])), true);
    var attempts := [first, second];
    var bodies := [ErrorFrame(code), Restart(2), RunFrame(run, Ledger.Completed)];
    RetriedFrames(code, run);
    TurnDocsHoldItsFrames(docs, turn, attempts);
    hide TurnFrames, TurnDocs, TurnEndings;
    FirstOfThree(bodies);
  }

  lemma FirstOfThree(bodies: seq<Body>)
    requires |bodies| == 3 && Terminal(bodies[0])
    ensures UpToStop(After(Numbered(bodies, 0), -1), false) == [Frame(0, bodies[0])]
  {
    var frames := Numbered(bodies, 0);
    AfterIs(frames, -1);
    assert frames[0..] == frames;
  }

  lemma RetriedFrames(code: string, run: string)
    ensures var attempts := [Attempt(1, Handled([], Raised(code)), true),
                             Attempt(2, Handled([], Returned(run, Ledger.Completed, [])), true)];
            && TurnFrames(attempts) == [ErrorFrame(code), Restart(2), RunFrame(run, Ledger.Completed)]
            && TurnEndings(attempts) == 2
  {
    var first := Attempt(1, Handled([], Raised(code)), true);
    var second := Attempt(2, Handled([], Returned(run, Ledger.Completed, [])), true);
    assert [first, second][..1] == [first] && [first][..0] == [];
    assert AttemptFrames(false, 1, first.handled, true) == [ErrorFrame(code)];
    assert AttemptFrames(true, 2, second.handled, true) == [Restart(2), RunFrame(run, Ledger.Completed)];
    hide AttemptFrames;
    assert TurnFrames([first]) == [ErrorFrame(code)];
    assert TurnEndings([first]) == 1;
  }

  // ---- claiming and running --------------------------------------------------------

  /** The turn is over as far as its worker goes: not held any more, and its stream ends in a run or an
      error frame. */
  predicate Over(js: Jobs, docs: Docs, id: JobId, worker: WorkerId) {
    && id in js && !Holds(js[id], worker)
    && var frames := FramesOf(docs, id);
       frames != [] && (frames[|frames| - 1].body.RunFrame? || frames[|frames| - 1].body.ErrorFrame?)
  }

  lemma ReportEnds(ending: Ending, accepted: bool)
    ensures var report := Report(ending, accepted);
            report != [] && (report[|report| - 1].RunFrame? || report[|report| - 1].ErrorFrame?)
  {
  }

  lemma LastRelayed(docs: Docs, turn: TurnId, bodies: seq<Body>)
    requires bodies != []
    ensures var frames := FramesOf(Relayed(docs, turn, bodies), turn);
            frames != [] && frames[|frames| - 1].body == bodies[|bodies| - 1]
  {
  }

  lemma AttemptEnds(js: Jobs, docs: Docs, job: Job, worker: WorkerId, handled: Handled, seen: bool, clock: int)
    requires job.id in js && Accepts(js, job.id, worker)
    ensures var frames := AttemptFrames(seen, job.attempts, handled, true);
            Over(AttemptJobs(js, job.id, worker, handled.ending, clock), Relayed(docs, job.id, frames), job.id, worker)
  {
    var frames := AttemptFrames(seen, job.attempts, handled, true);
    var report := Report(handled.ending, true);
    ReportEnds(handled.ending, true);
    assert frames[|frames| - 1] == report[|report| - 1];
    LastRelayed(docs, job.id, frames);
    HoldEnds(js, job.id, worker, handled.ending, clock);
    hide AttemptFrames, Report, Relayed, AttemptJobs, Accepts, FramesOf;
  }

  lemma HoldEnds(js: Jobs, id: JobId, worker: WorkerId, ending: Ending, clock: int)
    requires id in js && Accepts(js, id, worker)
    ensures var after := AttemptJobs(js, id, worker, ending, clock);
            id in after && !Holds(after[id], worker)
  {
  }

  lemma OthersStay(js: Jobs, docs: Docs, job: Job, worker: WorkerId, handled: Handled, frames: seq<Body>,
                   clock: int, other: JobId)
    requires other != job.id
    ensures other in AttemptJobs(js, job.id, worker, handled.ending, clock) <==> other in js
    ensures other in js ==> AttemptJobs(js, job.id, worker, handled.ending, clock)[other] == js[other]
    ensures FramesOf(Relayed(docs, job.id, frames), other) == FramesOf(docs, other)
  {
  }

  /** The k-th turn is the first whose report the queue refuses. */
  predicate FirstRefused(js: Jobs, turns: seq<Job>, worker: WorkerId, k: nat) {
    && k < |turns|
    && !Accepts(js, turns[k].id, worker)
    && forall i | 0 <= i < k :: Accepts(js, turns[i].id, worker)
  }

  /** The turns before the k-th are over, their jobs ended as their handlers ended, and those behind it are as
      they were: held or lost, but not run, and nothing has been written to their streams. */
  predicate StoppedAt(js: Jobs, docs: Docs, before: Jobs, docsBefore: Docs, turns: seq<Job>, worker: WorkerId,
                      handled: JobId -> Handled, clock: int, k: nat)
    requires k <= |turns|
  {
    && (forall i | 0 <= i < k :: Over(js, docs, turns[i].id, worker))
    && (forall i | 0 <= i < k :: EndedBy(js, before, turns[i].id, worker, handled(turns[i].id).ending, clock))
    && (forall i | k < i < |turns| :: SameTurn(js, docs, before, docsBefore, turns[i].id))
  }

  predicate SameTurn(js: Jobs, docs: Docs, before: Jobs, docsBefore: Docs, id: JobId) {
    && (id in js <==> id in before)
    && (id in before ==> js[id] == before[id])
    && FramesOf(docs, id) == FramesOf(docsBefore, id)
  }

  /** Claim what is due for this worker and run it, turn after turn. None of the claimed turns is pinned to
      another version or owned by another agent. `meanwhile` is what others make of the queue while the
      turns run: if it leaves every report acceptable, every claimed turn is over when the call returns;
      otherwise the first refused report ends the call, and the turns behind it are left claimed and unrun. */
  method ExecutePending(store: Directory, streams: StreamStore, ask: Ask, handled: JobId -> Handled, clock: int,
                        meanwhile: Jobs -> Jobs)
    returns (r: Result<seq<JobId>>, ghost turns: seq<Job>, ghost held: Jobs)
    requires store.Valid() && Ordered(streams.docs) && QueueRuns.Inv(store.jobs)
    requires forall js :: Filed(js) ==> Filed(meanwhile(js))
    modifies store`jobs, streams
    ensures store.Valid() && Ordered(streams.docs)
    ensures ask.worker == "" ==>
              r == Err(Validation) && store.jobs == old(store.jobs) && streams.docs == old(streams.docs)
    ensures ask.worker != "" ==> AllHeld(held, turns, ask.worker)
    ensures ask.worker != "" ==>
              forall turn | turn in turns :: turn.id in old(store.jobs) && !ask.Foreign(old(store.jobs)[turn.id])
    ensures ask.worker != "" ==>
              (r.Ok? <==> forall k | 0 <= k < |turns| :: Accepts(meanwhile(held), turns[k].id, ask.worker))
    ensures ask.worker != "" && r.Ok? ==>
              r.value == TurnIds(turns) && StoppedAt(store.jobs, streams.docs, meanwhile(held), old(streams.docs),
                                                     turns, ask.worker, handled, clock, |turns|)
    ensures ask.worker != "" && r.Err? ==>
              exists k: nat ::
                && FirstRefused(meanwhile(held), turns, ask.worker, k)
                && StoppedAt(store.jobs, streams.docs, meanwhile(held), old(streams.docs), turns, ask.worker,
                             handled, clock, k)
                && SameJob(store.jobs, meanwhile(held), turns[k].id)
  {
    turns, held := [], store.jobs;
    var claimed := ClaimTurns(store, ask);
    if claimed.Err? {
      return Err(claimed.error), turns, held;
    }
    turns, held := claimed.value, store.jobs;
    store.jobs := meanwhile(store.jobs);
    hide Over, Accepts, Holds, Ordered, QueueRuns.Inv, StoppedAt, FirstRefused, SameJob;
    r := RunAll(store, streams, claimed.value, ask.worker, handled, clock);
  }

  function TurnIds(turns: seq<Job>): (ids: seq<JobId>)
    ensures |ids| == |turns|
  {
    seq(|turns|, i requires 0 <= i < |turns| => turns[i].id)
  }

  predicate SameJob(js: Jobs, before: Jobs, id: JobId) {
    (id in js <==> id in before) && (id in before ==> js[id] == before[id])
  }

  /** Distinct jobs of the queue, each held by the worker. */
  predicate AllHeld(js: Jobs, turns: seq<Job>, worker: WorkerId) {
    && (forall i, k | 0 <= i < k < |turns| :: turns[i].id != turns[k].id)
    && (forall k | 0 <= k < |turns| :: turns[k].id in js && js[turns[k].id] == turns[k] && Holds(turns[k], worker))
  }

  method ClaimTurns(store: Directory, ask: Ask) returns (r: Result<seq<Job>>)
    requires store.Valid() && QueueRuns.Inv(store.jobs)
    modifies store`jobs
    ensures store.Valid()
    ensures ask.worker == "" ==> r == Err(Validation) && store.jobs == old(store.jobs)
    ensures ask.worker != "" ==> r.Ok? && AllHeld(store.jobs, r.value, ask.worker)
    ensures r.Ok? ==> forall k | 0 <= k < |r.value| :: r.value[k].id in old(store.jobs)
                        && !ask.Foreign(old(store.jobs)[r.value[k].id])
  {
    ghost var js := store.jobs;
    ghost var picks;
    r, picks := Queue.Claim(store, ask);
    if r.Ok? {
      ClaimedAreHeld(js, store.jobs, picks, ask, r.value);
    }
  }

  /** Run distinct turns one after the other, whatever has become of them since they were claimed. */
  method RunAll(store: Directory, streams: StreamStore, turns: seq<Job>, worker: WorkerId, handled: JobId -> Handled,
                clock: int)
    returns (r: Result<seq<JobId>>)
    requires store.Valid() && Ordered(streams.docs)
    requires forall i, k | 0 <= i < k < |turns| :: turns[i].id != turns[k].id
    modifies store`jobs, streams
    ensures store.Valid() && Ordered(streams.docs)
    ensures r.Ok? <==> forall k | 0 <= k < |turns| :: Accepts(old(store.jobs), turns[k].id, worker)
    ensures r.Ok? ==>
              r.value == TurnIds(turns)
              && StoppedAt(store.jobs, streams.docs, old(store.jobs), old(streams.docs), turns, worker,
                           handled, clock, |turns|)
    ensures r.Err? ==>
              exists k: nat ::
                && FirstRefused(old(store.jobs), turns, worker, k)
                && StoppedAt(store.jobs, streams.docs, old(store.jobs), old(streams.docs), turns, worker,
                             handled, clock, k)
                && SameJob(store.jobs, old(store.jobs), turns[k].id)
  {
    hide Over, EndedBy, AttemptJobs, AttemptFrames, Relayed, Accepts, Holds, FramesOf, Ordered, SameTurn, SameJob;
    ghost var js, docs := store.jobs, streams.docs;
    var ids: seq<JobId> := [];
    StartSame(js, docs, turns);
    for i := 0 to |turns|
      invariant store.Valid() && Ordered(streams.docs)
      invariant |ids| == i && forall k | 0 <= k < i :: ids[k] == turns[k].id
      invariant forall k | 0 <= k < i :: Accepts(js, turns[k].id, worker)
      invariant forall k | 0 <= k < i :: Over(store.jobs, streams.docs, turns[k].id, worker)
      invariant forall k | 0 <= k < i ::
                  EndedBy(store.jobs, js, turns[k].id, worker, handled(turns[k].id).ending, clock)
      invariant forall k | i <= k < |turns| :: SameTurn(store.jobs, streams.docs, js, docs, turns[k].id)
    {
      ghost var before, docsBefore := store.jobs, streams.docs;
      var job := turns[i];
      var done := RunTurn(store, streams, job, worker, handled(job.id), clock);
      SameAccepts(before, docsBefore, js, docs, job.id, worker);
      OthersUntouched(before, docsBefore, store.jobs, streams.docs, js, docs, turns, i, worker, handled(job.id), clock);
      OthersEnded(before, store.jobs, js, turns, i, worker, handled, clock);
      if done.Err? {
        SameTurnSameJob(before, docsBefore, js, docs, job.id);
        assert FirstRefused(js, turns, worker, i);
        return Err(done.error);
      }
      TurnIsOver(before, docsBefore, job, worker, handled(job.id), clock);
      SameEnding(store.jobs, before, docsBefore, js, docs, job.id, worker, handled(job.id).ending, clock);
      ids := ids + [job.id];
    }
    r := Ok(ids);
  }

  lemma StartSame(js: Jobs, docs: Docs, turns: seq<Job>)
    ensures forall k | 0 <= k < |turns| :: SameTurn(js, docs, js, docs, turns[k].id)
  {
  }

  lemma SameAccepts(js: Jobs, docs: Docs, before: Jobs, docsBefore: Docs, id: JobId, worker: WorkerId)
    requires SameTurn(js, docs, before, docsBefore, id)
    ensures Accepts(js, id, worker) == Accepts(before, id, worker)
  {
  }

  lemma SameEnding(after: Jobs, js: Jobs, docs: Docs, before: Jobs, docsBefore: Docs, id: JobId, worker: WorkerId,
                   ending: Ending, clock: int)
    requires EndedBy(after, js, id, worker, ending, clock) && SameTurn(js, docs, before, docsBefore, id)
    ensures EndedBy(after, before, id, worker, ending, clock)
  {
    hide QueueOutcomes.EndedWell, QueueOutcomes.EndedBadly, Holds, FramesOf;
  }

  lemma SameTurnSameJob(js: Jobs, docs: Docs, before: Jobs, docsBefore: Docs, id: JobId)
    requires SameTurn(js, docs, before, docsBefore, id)
    ensures SameJob(js, before, id)
  {
  }

  /** The jobs a claim brings back are distinct, held by the caller, and its own to run. */
  lemma ClaimedAreHeld(js: Jobs, after: Jobs, picks: seq<JobId>, ask: Ask, turns: seq<Job>)
    requires ask.worker != "" && QueueRuns.Inv(js) && Finished(Reap(js, ask.Now()), picks, ask)
    requires after == AfterClaim(Reap(js, ask.Now()), picks, ask)
    requires forall id | id in Mine(Reap(js, ask.Now()), picks, ask) :: id in after
    requires turns == Queue.JobsOf(after, Mine(Reap(js, ask.Now()), picks, ask))
    ensures forall i, k | 0 <= i < k < |turns| :: turns[i].id != turns[k].id
    ensures forall k | 0 <= k < |turns| ::
              && turns[k].id in after && after[turns[k].id] == turns[k] && Holds(turns[k], ask.worker)
              && turns[k].id in js && !ask.Foreign(js[turns[k].id])
  {
    var reaped := Reap(js, ask.Now());
    var mine := Mine(reaped, picks, ask);
    ReapedInv(js, ask.Now());
    QueueClaims.ClaimReturnsItsOwn(reaped, picks, ask);
    forall k | 0 <= k < |turns|
      ensures turns[k].id == mine[k] && mine[k] in js && turns[k] == after[mine[k]]
      ensures Holds(turns[k], ask.worker) && !ask.Foreign(js[mine[k]])
    {
      assert mine[k] in mine;
      QueueClaims.ClaimLeasesTheJob(reaped, picks, ask, mine[k]);
      IdIsKept(reaped, picks, ask, mine[k]);
      QueueRuns.ForeignAfterReap(js[mine[k]], ask);
    }
    hide Reap, AfterClaim, Mine, Finished, Holds;
  }

  lemma IdIsKept(js: Jobs, picks: seq<JobId>, ask: Ask, id: JobId)
    requires QueueRuns.Inv(js) && id in js
    ensures AfterClaim(js, picks, ask)[id].id == id
  {
  }

  lemma ReapedInv(js: Jobs, now: Stamp)
    requires QueueRuns.Inv(js)
    ensures QueueRuns.Inv(Reap(js, now))
  {
  }

  /** A turn whose report is accepted is over. */
  lemma TurnIsOver(before: Jobs, docs: Docs, job: Job, worker: WorkerId, handled: Handled, clock: int)
    requires Accepts(before, job.id, worker)
    ensures var frames := AttemptFrames(FramesOf(docs, job.id) != [], job.attempts, handled, true);
            var after := AttemptJobs(before, job.id, worker, handled.ending, clock);
            Over(after, Relayed(docs, job.id, frames), job.id, worker)
  {
    assert job.id in before;
    AttemptEnds(before, docs, job, worker, handled, FramesOf(docs, job.id) != [], clock);
  }

  /** The other turns are where they were. */
  lemma OthersUntouched(before: Jobs, docs: Docs, after: Jobs, docsAfter: Docs, js: Jobs, docsAtFirst: Docs,
                        turns: seq<Job>, i: nat, worker: WorkerId, handled: Handled, clock: int)
    requires i < |turns| && forall j, k | 0 <= j < k < |turns| :: turns[j].id != turns[k].id
    requires after == AttemptJobs(before, turns[i].id, worker, handled.ending, clock)
    requires docsAfter == Relayed(docs, turns[i].id,
                                  AttemptFrames(FramesOf(docs, turns[i].id) != [], turns[i].attempts, handled,
                                                Accepts(before, turns[i].id, worker)))
    ensures forall k | 0 <= k < i && Over(before, docs, turns[k].id, worker) ::
              Over(after, docsAfter, turns[k].id, worker)
    ensures forall k | i < k < |turns| && SameTurn(before, docs, js, docsAtFirst, turns[k].id) ::
              SameTurn(after, docsAfter, js, docsAtFirst, turns[k].id)
  {
    var job := turns[i];
    var frames := AttemptFrames(FramesOf(docs, job.id) != [], job.attempts, handled, Accepts(before, job.id, worker));
    hide AttemptJobs, Relayed, AttemptFrames, FramesOf, Holds, Accepts;
    forall k | 0 <= k < |turns| && k != i
      ensures turns[k].id in after <==> turns[k].id in before
      ensures turns[k].id in before ==> after[turns[k].id] == before[turns[k].id]
      ensures FramesOf(docsAfter, turns[k].id) == FramesOf(docs, turns[k].id)
    {
      OthersStay(before, docs, job, worker, handled, frames, clock, turns[k].id);
    }
  }

  /** How the other jobs have ended is not touched either. */
  lemma OthersEnded(before: Jobs, after: Jobs, js: Jobs, turns: seq<Job>, i: nat, worker: WorkerId,
                    handled: JobId -> Handled, clock: int)
    requires i < |turns| && forall j, k | 0 <= j < k < |turns| :: turns[j].id != turns[k].id
    requires after == AttemptJobs(before, turns[i].id, worker, handled(turns[i].id).ending, clock)
    requires forall k | 0 <= k < i :: EndedBy(before, js, turns[k].id, worker, handled(turns[k].id).ending, clock)
    ensures forall k | 0 <= k < i :: EndedBy(after, js, turns[k].id, worker, handled(turns[k].id).ending, clock)
  {
    hide QueueOutcomes.EndedWell, QueueOutcomes.EndedBadly, Holds, Complete, Fail;
  }
}
