/** The durable stream of a turn: numbered frames, appended by one writer and tailed by readers that
    come and go. */
module Streams {
  import opened Outcomes
  import Ledger

  type TurnId = string

  datatype Body =
    | Restart(attempt: nat)
    | Trace(event: string)
    | Token(text: string)
    | Ui(frame: string)
    | Message(text: string)
    | RunFrame(run: string, status: Ledger.RunStatus)
    | ErrorFrame(code: string)

  datatype Frame = Frame(seqNo: int, body: Body)

  type Docs = map<TurnId, seq<Frame>>

  function FramesOf(docs: Docs, turn: TurnId): seq<Frame> {
    if turn in docs then docs[turn] else []
  }

  /** Bodies as frames, numbered from `base` on. */
  function Numbered(bodies: seq<Body>, base: int): (frames: seq<Frame>)
    ensures |frames| == |bodies|
  {
    seq(|bodies|, i requires 0 <= i < |bodies| => Frame(base + i, bodies[i]))
  }

  function Appended(docs: Docs, turn: TurnId, bodies: seq<Body>): Docs {
    var frames := FramesOf(docs, turn);
    docs[turn := frames + Numbered(bodies, |frames|)]
  }

  /** What a reader that has seen everything up to `cursor` still has to see. */
  function After(frames: seq<Frame>, cursor: int): seq<Frame> {
    if frames == [] then []
    else
      var before, last := After(frames[..|frames| - 1], cursor), frames[|frames| - 1];
      if last.seqNo > cursor then before + [last] else before
  }

  class StreamStore {
    var docs: Docs

    method Append(turn: TurnId, bodies: seq<Body>) returns (next: int)
      modifies this
      ensures docs == Appended(old(docs), turn, bodies)
      ensures next == |FramesOf(docs, turn)|
    {
      var frames := FramesOf(docs, turn);
      var base := |frames|;
      ghost var before := frames;
      for i := 0 to |bodies|
        invariant frames == before + Numbered(bodies[..i], base)
      {
        frames := frames + [Frame(base + i, bodies[i])];
      }
      assert bodies[..|bodies|] == bodies;
      docs := docs[turn := frames];
      next := base + |bodies|;
    }

    method Read(turn: TurnId, cursor: int) returns (out: seq<Frame>)
      ensures out == After(FramesOf(docs, turn), cursor)
    {
      var frames := FramesOf(docs, turn);
      out := [];
      for i := 0 to |frames|
        invariant out == After(frames[..i], cursor)
      {
        assert frames[..i + 1][..i] == frames[..i];
        if frames[i].seqNo > cursor {
          out := out + [frames[i]];
        }
      }
      assert frames[..|frames|] == frames;
    }
  }

  // ---- numbering -------------------------------------------------------------------

  predicate InSequence(frames: seq<Frame>) {
    forall i | 0 <= i < |frames| :: frames[i].seqNo == i
  }

  ghost predicate Ordered(docs: Docs) {
    forall turn | turn in docs :: InSequence(docs[turn])
  }

  /** Appending keeps every stream numbered from nought, without gaps or repeats. */
  lemma AppendKeepsOrder(docs: Docs, turn: TurnId, bodies: seq<Body>)
    requires Ordered(docs)
    ensures Ordered(Appended(docs, turn, bodies))
    ensures FramesOf(docs, turn) <= FramesOf(Appended(docs, turn, bodies), turn)
  {
  }

  lemma {:induction false} AfterIsASuffix(frames: seq<Frame>, cursor: int)
    requires InSequence(frames) && -1 <= cursor < |frames|
    ensures After(frames, cursor) == frames[cursor + 1..]
  {
    if frames != [] {
      var init := frames[..|frames| - 1];
      if cursor < |init| {
        AfterIsASuffix(init, cursor);
      } else {
        NothingAfter(init, cursor);
      }
    }
  }

  lemma {:induction false} NothingAfter(frames: seq<Frame>, cursor: int)
    requires InSequence(frames) && cursor >= |frames|
    ensures After(frames, cursor) == []
  {
    if frames != [] {
      NothingAfter(frames[..|frames| - 1], cursor);
    }
  }

  // ---- the SQL form ----------------------------------------------------------------

  /** The highest number among the rows of a turn, or -1, in whatever order they come. */
  function MaxSeq(rows: seq<Frame>): int {
    if rows == [] then -1
    else
      var rest := MaxSeq(rows[1..]);
      if rows[0].seqNo > rest then rows[0].seqNo else rest
  }

  lemma {:induction false} MaxSeqBounds(rows: seq<Frame>)
    ensures forall row | row in rows :: row.seqNo <= MaxSeq(rows)
    ensures rows != [] && (forall row | row in rows :: row.seqNo >= 0) ==>
            exists row | row in rows :: row.seqNo == MaxSeq(rows)
  {
    if rows != [] {
      MaxSeqBounds(rows[1..]);
      assert rows == [rows[0]] + rows[1..];
    }
  }

  /** The rows of a table hold the frames of a stream, in any order. */
  predicate Rows(rows: seq<Frame>, frames: seq<Frame>) {
    multiset(rows) == multiset(frames)
  }

  /** One past the highest number is the length of the stream: both stores number an append alike. */
  lemma SqlNumbersAlike(rows: seq<Frame>, frames: seq<Frame>)
    requires InSequence(frames) && Rows(rows, frames)
    ensures MaxSeq(rows) + 1 == |frames|
  {
    MaxSeqBounds(rows);
    forall row | row in rows
      ensures 0 <= row.seqNo < |frames|
    {
      assert row in multiset(frames);
    }
    if frames != [] {
      assert frames[|frames| - 1] in multiset(rows);
      assert frames[0] in multiset(rows);
    }
  }

  // ---- readers ---------------------------------------------------------------------

  /** An append by the writer, or a connection of the reader that ends after it has delivered
      some frames. */
  datatype Event = Writes(bodies: seq<Body>) | Connects(delivered: nat)

  /** A stream, and all that one reader has received of it. */
  datatype Tailing = Tailing(frames: seq<Frame>, received: seq<Frame>) {
    /** The number the reader comes back with. */
    function Cursor(): int {
      if received == [] then -1 else received[|received| - 1].seqNo
    }
  }

  function Step(s: Tailing, event: Event): Tailing {
    match event
    case Writes(bodies) => s.(frames := s.frames + Numbered(bodies, |s.frames|))
    case Connects(delivered) =>
      var rest := After(s.frames, s.Cursor());
      s.(received := s.received + rest[..if delivered < |rest| then delivered else |rest|])
  }

  function Tailed(events: seq<Event>): Tailing {
    if events == [] then Tailing([], []) else Step(Tailed(events[..|events| - 1]), events[|events| - 1])
  }

  /** Everything received so far is the stream so far, from its first frame on: each frame once, in order. */
  predicate InStep(s: Tailing) {
    InSequence(s.frames) && s.received <= s.frames
  }

  lemma StepKeepsStep(s: Tailing, event: Event)
    requires InStep(s)
    ensures InStep(Step(s, event))
    ensures event.Connects? && event.delivered >= |s.frames| - |s.received| ==> Step(s, event).received == s.frames
  {
    assert s.received == s.frames[..|s.received|];
    assert s.Cursor() == |s.received| - 1;
    if event.Connects? {
      if s.frames == [] {
      } else {
        AfterIsASuffix(s.frames, s.Cursor());
      }
    }
  }

  /** A reader that reconnects with the last number it saw receives each frame exactly once and in
      order, however its connections and the appends interleave; a connection that is not cut short
      brings it up to date. */
  lemma {:induction false} EachFrameOnce(events: seq<Event>)
    ensures InStep(Tailed(events))
    ensures events != [] && events[|events| - 1].Connects? ==>
              var before := Tailed(events[..|events| - 1]);
              events[|events| - 1].delivered >= |before.frames| - |before.received| ==>
                Tailed(events).received == Tailed(events).frames
  {
    if events != [] {
      EachFrameOnce(events[..|events| - 1]);
      StepKeepsStep(Tailed(events[..|events| - 1]), events[|events| - 1]);
    }
  }

  // ---- terminal frames -------------------------------------------------------------

  predicate Terminal(body: Body) {
    body.ErrorFrame? || (body.RunFrame? && Ledger.Terminal(body.status))
  }

  /** The first terminal frame of a batch. */
  method IsTerminal(frames: seq<Frame>) returns (r: Option<Frame>)
    ensures r.None? <==> forall i | 0 <= i < |frames| :: !Terminal(frames[i].body)
    ensures r.Some? ==> exists i | 0 <= i < |frames| :: IsFirst(frames, i) && frames[i] == r.value
  {
    for i := 0 to |frames|
      invariant forall j | 0 <= j < i :: !Terminal(frames[j].body)
    {
      if Terminal(frames[i].body) {
        assert IsFirst(frames, i);
        return Some(frames[i]);
      }
    }
    r := None;
  }

  predicate IsFirst(frames: seq<Frame>, i: nat)
    requires i < |frames|
  {
    Terminal(frames[i].body) && forall j | 0 <= j < i :: !Terminal(frames[j].body)
  }

  predicate IsFinal(frames: seq<Frame>, i: nat)
    requires i < |frames|
  {
    Terminal(frames[i].body) && forall j | i < j < |frames| :: !Terminal(frames[j].body)
  }

  /** How many frames of a stream are terminal. */
  function Terminals(bodies: seq<Body>): nat {
    if bodies == [] then 0
    else Terminals(bodies[..|bodies| - 1]) + if Terminal(bodies[|bodies| - 1]) then 1 else 0
  }

  lemma {:induction false} TerminalsJoin(a: seq<Body>, b: seq<Body>)
    ensures Terminals(a + b) == Terminals(a) + Terminals(b)
  {
    if b == [] {
      assert a + b == a;
    } else {
      TerminalsJoin(a, b[..|b| - 1]);
      assert (a + b)[..|a + b| - 1] == a + b[..|b| - 1];
    }
  }

  lemma {:induction false} NoTerminals(bodies: seq<Body>)
    requires forall body | body in bodies :: !Terminal(body)
    ensures Terminals(bodies) == 0
  {
    if bodies != [] {
      NoTerminals(bodies[..|bodies| - 1]);
    }
  }

  lemma {:induction false} SomeTerminal(bodies: seq<Body>, i: nat)
    requires i < |bodies| && Terminal(bodies[i])
    ensures Terminals(bodies) >= 1
  {
    if i < |bodies| - 1 {
      SomeTerminal(bodies[..|bodies| - 1], i);
    }
  }

  lemma {:induction false} FirstTerminal(bodies: seq<Body>) returns (i: nat)
    requires Terminals(bodies) >= 1
    ensures i < |bodies| && Terminal(bodies[i]) && forall j | 0 <= j < i :: !Terminal(bodies[j])
  {
    var init := bodies[..|bodies| - 1];
    if Terminals(init) >= 1 {
      i := FirstTerminal(init);
    } else {
      i := |bodies| - 1;
      forall j | 0 <= j < i
        ensures !Terminal(bodies[j])
      {
        if Terminal(bodies[j]) {
          SomeTerminal(init, j);
        }
      }
    }
  }

  /** There is a first terminal frame that is also the final one exactly when there is one in all. */
  lemma FirstIsFinalIfAlone(bodies: seq<Body>, base: int)
    ensures var frames := Numbered(bodies, base);
            (exists i | 0 <= i < |frames| :: IsFirst(frames, i) && IsFinal(frames, i)) <==> Terminals(bodies) == 1
  {
    var frames := Numbered(bodies, base);
    if i :| 0 <= i < |frames| && IsFirst(frames, i) && IsFinal(frames, i) {
      SplitAtTerminal(bodies, i);
      NoneBefore(bodies, frames, i, base);
      NoneAfter(bodies, frames, i, base);
    }
    if Terminals(bodies) == 1 {
      var i := FirstTerminal(bodies);
      SplitAtTerminal(bodies, i);
      assert Terminals(bodies[i + 1..]) == 0;
      forall j | i < j < |frames|
        ensures !Terminal(frames[j].body)
      {
        if Terminal(bodies[j]) {
          SomeTerminal(bodies[i + 1..], j - i - 1);
        }
      }
      assert IsFirst(frames, i) && IsFinal(frames, i);
    }
  }

  lemma SplitAtTerminal(bodies: seq<Body>, i: nat)
    requires i < |bodies| && Terminal(bodies[i])
    ensures Terminals(bodies) == Terminals(bodies[..i]) + 1 + Terminals(bodies[i + 1..])
  {
    assert bodies == bodies[..i] + [bodies[i]] + bodies[i + 1..];
    TerminalsJoin(bodies[..i] + [bodies[i]], bodies[i + 1..]);
    TerminalsJoin(bodies[..i], [bodies[i]]);
    assert [bodies[i]][..0] == [];
  }

  lemma NoneBefore(bodies: seq<Body>, frames: seq<Frame>, i: nat, base: int)
    requires frames == Numbered(bodies, base) && i < |frames| && IsFirst(frames, i)
    ensures Terminals(bodies[..i]) == 0
  {
    assert forall j | 0 <= j < i :: bodies[j] == frames[j].body;
    NoTerminals(bodies[..i]);
  }

  lemma NoneAfter(bodies: seq<Body>, frames: seq<Frame>, i: nat, base: int)
    requires frames == Numbered(bodies, base) && i < |frames| && IsFinal(frames, i)
    ensures Terminals(bodies[i + 1..]) == 0
  {
    assert forall j | i < j < |frames| :: bodies[j] == frames[j].body;
    NoTerminals(bodies[i + 1..]);
  }

  // ---- one connection --------------------------------------------------------------

  /** A terminal frame ends a connection; a pause does too, on the transports that promise it. */
  predicate Stops(body: Body, stopOnPause: bool) {
    Terminal(body) || (stopOnPause && body.RunFrame?)
  }

  /** What one read sends: frame after frame, up to the first that ends the connection. */
  function UpToStop(frames: seq<Frame>, stopOnPause: bool): (sent: seq<Frame>)
    ensures sent <= frames
  {
    if frames == [] then []
    else if Stops(frames[0].body, stopOnPause) then [frames[0]]
    else [frames[0]] + UpToStop(frames[1..], stopOnPause)
  }

  /** A connection sends everything up to its end: an error, the end of a run, or, where it was asked to, a pause.
      Without one it sends all there is. */
  lemma {:induction false} SentExactly(frames: seq<Frame>, stopOnPause: bool)
    ensures var sent := UpToStop(frames, stopOnPause);
            && (forall i | 0 <= i < |sent| - 1 :: !EndsReading(sent[i].body, stopOnPause))
            && (sent == frames || (sent != [] && EndsReading(sent[|sent| - 1].body, stopOnPause)))
  {
    if frames != [] && !Stops(frames[0].body, stopOnPause) {
      SentExactly(frames[1..], stopOnPause);
    }
  }

  predicate EndsReading(body: Body, stopOnPause: bool) {
    match body
    case ErrorFrame(_) => true
    case RunFrame(_, status) => stopOnPause || status !in {Ledger.Queued, Ledger.Executing, Ledger.WaitingApproval}
    case _ => false
  }

  predicate Ended(sent: seq<Frame>, stopOnPause: bool) {
    sent != [] && Stops(sent[|sent| - 1].body, stopOnPause)
  }

  lemma EndedTail(frame: Frame, rest: seq<Frame>, stopOnPause: bool)
    requires !Stops(frame.body, stopOnPause)
    ensures Ended([frame] + rest, stopOnPause) == Ended(rest, stopOnPause)
  {
    hide Stops;
    if rest != [] {
      assert ([frame] + rest)[|rest|] == rest[|rest| - 1];
    }
  }

  lemma {:induction false} SentWhole(frames: seq<Frame>, stopOnPause: bool)
    requires !Ended(UpToStop(frames, stopOnPause), stopOnPause)
    ensures UpToStop(frames, stopOnPause) == frames
  {
    hide Stops;
    if frames != [] && !Stops(frames[0].body, stopOnPause) {
      EndedTail(frames[0], UpToStop(frames[1..], stopOnPause), stopOnPause);
      SentWhole(frames[1..], stopOnPause);
    }
  }

  lemma {:induction false} EndedWins(frames: seq<Frame>, more: seq<Frame>, stopOnPause: bool)
    requires Ended(UpToStop(frames, stopOnPause), stopOnPause)
    ensures UpToStop(frames + more, stopOnPause) == UpToStop(frames, stopOnPause)
  {
    hide Stops;
    assert (frames + more)[1..] == frames[1..] + more;
    if !Stops(frames[0].body, stopOnPause) {
      EndedTail(frames[0], UpToStop(frames[1..], stopOnPause), stopOnPause);
      EndedWins(frames[1..], more, stopOnPause);
    }
  }

  lemma FrameFirst(frame: Frame, rest: seq<Frame>, more: seq<Frame>)
    ensures [frame] + (rest + more) == ([frame] + rest) + more
    ensures (([frame] + rest) + more)[1..] == rest + more
  {
  }

  lemma {:induction false} UnendedGoesOn(frames: seq<Frame>, more: seq<Frame>, stopOnPause: bool)
    requires !Ended(UpToStop(frames, stopOnPause), stopOnPause)
    ensures UpToStop(frames + more, stopOnPause) == UpToStop(frames, stopOnPause) + UpToStop(more, stopOnPause)
  {
    hide Stops;
    if frames == [] {
      assert frames + more == more;
    } else {
      var first, rest := frames[0], frames[1..];
      assert frames == [first] + rest;
      EndedTail(first, UpToStop(rest, stopOnPause), stopOnPause);
      hide Ended;
      UnendedGoesOn(rest, more, stopOnPause);
      FrameFirst(first, rest, more);
      FrameFirst(first, UpToStop(rest, stopOnPause), UpToStop(more, stopOnPause));
    }
  }

  /** Reading on after a part that did not end the connection. */
  lemma UpToStopGrows(before: seq<Frame>, more: seq<Frame>, stopOnPause: bool)
    ensures var sent := UpToStop(before, stopOnPause);
            UpToStop(before + more, stopOnPause) ==
            if Ended(sent, stopOnPause) then sent else sent + UpToStop(more, stopOnPause)
  {
    hide UpToStop, Ended;
    if Ended(UpToStop(before, stopOnPause), stopOnPause) {
      EndedWins(before, more, stopOnPause);
    } else {
      UnendedGoesOn(before, more, stopOnPause);
    }
  }

  /** The buffer as each poll of a connection finds it: it only grows. */
  ghost predicate Growing(polls: seq<seq<Frame>>) {
    && (forall i | 0 <= i < |polls| :: InSequence(polls[i]))
    && (forall i | 0 <= i < |polls| - 1 :: polls[i] <= polls[i + 1])
  }

  lemma AfterIs(frames: seq<Frame>, cursor: int)
    requires InSequence(frames) && -1 <= cursor
    ensures After(frames, cursor) == if cursor < |frames| then frames[cursor + 1..] else []
  {
    if cursor < |frames| {
      AfterIsASuffix(frames, cursor);
    } else {
      NothingAfter(frames, cursor);
    }
  }

  /** What comes after a cursor in a longer buffer is what came after it before, and what came since. */
  lemma AfterGrows(before: seq<Frame>, later: seq<Frame>, cursor: int)
    requires InSequence(before) && InSequence(later) && before <= later && -1 <= cursor
    ensures var sent := After(before, cursor);
            After(later, cursor) == sent + After(later, cursor + |sent|)
  {
    hide After, InSequence;
    AfterIs(before, cursor);
    AfterIs(later, cursor);
    AfterIs(later, cursor + |After(before, cursor)|);
    if cursor < |before| {
      SliceGrows(before, later, cursor + 1);
    }
  }

  lemma SliceGrows(before: seq<Frame>, later: seq<Frame>, k: nat)
    requires k <= |before| && before <= later
    ensures later[k..] == before[k..] + later[|before|..]
  {
    assert later == before + later[|before|..];
  }

  lemma {:induction false} GrowingChain(polls: seq<seq<Frame>>, i: nat, j: nat)
    requires Growing(polls) && i <= j < |polls|
    ensures polls[i] <= polls[j]
  {
    if i < j {
      GrowingChain(polls, i, j - 1);
      assert polls[i] == polls[j - 1][..|polls[i]|];
      assert polls[j - 1] == polls[j][..|polls[j - 1]|];
    }
  }

  lemma CursorMoves(frames: seq<Frame>, cursor: int, stopOnPause: bool)
    requires InSequence(frames) && -1 <= cursor
    ensures var more := UpToStop(After(frames, cursor), stopOnPause);
            more != [] ==> more[|more| - 1].seqNo == cursor + |more|
  {
    AfterIs(frames, cursor);
  }

  /** A poll from where the last one ended continues what a single read of the buffer would send. */
  lemma PollContinues(before: seq<Frame>, later: seq<Frame>, after: int, sent: seq<Frame>, stopOnPause: bool)
    requires InSequence(before) && InSequence(later) && before <= later && -1 <= after
    requires sent == UpToStop(After(before, after), stopOnPause)
    ensures UpToStop(After(later, after), stopOnPause) ==
            if Ended(sent, stopOnPause) then sent
            else sent + UpToStop(After(later, after + |sent|), stopOnPause)
  {
    hide UpToStop, After, Ended;
    AfterGrows(before, later, after);
    UpToStopGrows(After(before, after), After(later, after + |After(before, after)|), stopOnPause);
    if !Ended(sent, stopOnPause) {
      SentWhole(After(before, after), stopOnPause);
    }
  }

  lemma NextPoll(polls: seq<seq<Frame>>, k: nat)
    requires Growing(polls) && k < |polls|
    ensures InSequence(polls[k]) && (k > 0 ==> polls[k - 1] <= polls[k])
  {
  }

  lemma NothingSent(after: int, stopOnPause: bool)
    ensures UpToStop(After([], after), stopOnPause) == [] && !Ended([], stopOnPause)
  {
  }

  /** What a connection has sent after its first `k` polls, and where its cursor stands, unless it has ended. */
  ghost predicate CaughtUp(polls: seq<seq<Frame>>, k: nat, after: int, sent: seq<Frame>, cursor: int,
                           stopOnPause: bool)
    requires k <= |polls|
  {
    && sent == UpToStop(After(if k == 0 then [] else polls[k - 1], after), stopOnPause)
    && !Ended(sent, stopOnPause) && cursor == after + |sent|
  }

  lemma PollOnce(polls: seq<seq<Frame>>, k: nat, after: int, sent: seq<Frame>, cursor: int, more: seq<Frame>,
                 stopOnPause: bool)
    requires Growing(polls) && k < |polls| && -1 <= after && CaughtUp(polls, k, after, sent, cursor, stopOnPause)
    requires more == UpToStop(After(polls[k], cursor), stopOnPause)
    ensures sent + more == UpToStop(After(polls[k], after), stopOnPause)
    ensures more != [] ==> more[|more| - 1].seqNo == cursor + |more|
  {
    var seen: seq<Frame> := if k == 0 then [] else polls[k - 1];
    NextPoll(polls, k);
    if k > 0 {
      NextPoll(polls, k - 1);
    }
    assert InSequence(seen);
    hide UpToStop, Ended, After, InSequence, Growing;
    PollContinues(seen, polls[k], after, sent, stopOnPause);
    CursorMoves(polls[k], cursor, stopOnPause);
  }

  lemma EndedAtLast(polls: seq<seq<Frame>>, k: nat, after: int, sent: seq<Frame>, stopOnPause: bool)
    requires Growing(polls) && k < |polls| && -1 <= after
    requires sent == UpToStop(After(polls[k], after), stopOnPause) && Ended(sent, stopOnPause)
    ensures sent == UpToStop(After(polls[|polls| - 1], after), stopOnPause)
  {
    hide UpToStop, Ended, After, InSequence;
    GrowingChain(polls, k, |polls| - 1);
    NextPoll(polls, k);
    NextPoll(polls, |polls| - 1);
    hide Growing;
    PollContinues(polls[k], polls[|polls| - 1], after, sent, stopOnPause);
  }

  /** A connection polls from where it is and moves its cursor on, until a frame ends it or it is dropped:
      it sends what a single read of the buffer at its last poll would send, up to the first frame that
      ends it. */
  method Tail(polls: seq<seq<Frame>>, after: int, stopOnPause: bool) returns (sent: seq<Frame>)
    requires Growing(polls) && polls != [] && -1 <= after
    ensures sent == UpToStop(After(polls[|polls| - 1], after), stopOnPause)
  {
    hide UpToStop, Ended, After, Growing;
    sent := [];
    var cursor := after;
    NothingSent(after, stopOnPause);
    for k := 0 to |polls|
      invariant CaughtUp(polls, k, after, sent, cursor, stopOnPause)
    {
      var more := SendUpToStop(After(polls[k], cursor), stopOnPause);
      PollOnce(polls, k, after, sent, cursor, more, stopOnPause);
      sent := sent + more;
      if Ended(sent, stopOnPause) {
        EndedAtLast(polls, k, after, sent, stopOnPause);
        return;
      }
      cursor := if more == [] then cursor else more[|more| - 1].seqNo;
    }
  }

  lemma OneFrame(frame: Frame, stopOnPause: bool)
    ensures UpToStop([frame], stopOnPause) == [frame]
    ensures Ended([frame], stopOnPause) == Stops(frame.body, stopOnPause)
    ensures UpToStop([], stopOnPause) == [] && !Ended([], stopOnPause)
  {
    assert [frame][1..] == [];
  }

  lemma EndedLast(frames: seq<Frame>, frame: Frame, stopOnPause: bool)
    ensures Ended(frames + [frame], stopOnPause) == Stops(frame.body, stopOnPause)
  {
  }

  method SendUpToStop(frames: seq<Frame>, stopOnPause: bool) returns (sent: seq<Frame>)
    ensures sent == UpToStop(frames, stopOnPause)
  {
    sent := [];
    if frames != [] {
      OneFrame(frames[0], stopOnPause);
    }
    hide UpToStop, Ended, Stops;
    for i := 0 to |frames|
      invariant sent == frames[..i] && sent == UpToStop(frames[..i], stopOnPause) && !Ended(sent, stopOnPause)
    {
      UpToStopGrows(frames[..i], [frames[i]], stopOnPause);
      OneFrame(frames[i], stopOnPause);
      EndedLast(sent, frames[i], stopOnPause);
      assert frames[..i + 1] == frames[..i] + [frames[i]];
      sent := sent + [frames[i]];
      if Stops(frames[i].body, stopOnPause) {
        UpToStopGrows(frames[..i + 1], frames[i + 1..], stopOnPause);
        assert frames == frames[..i + 1] + frames[i + 1..];
        return;
      }
    }
    assert frames[..|frames|] == frames;
  }
}
