// Contextual prefixes for the chunks of a document: at most five calls at a time, and a circuit
// breaker that gives up after three failures in a row.  A call's `then` and `finally` handlers
// run as separate events, in any order the calls complete.
module ContextGenerator {
  import opened Wrappers
  import opened Sums

  const MAX_CONCURRENT: nat := 5
  const BREAKER_THRESHOLD: nat := 3

  /** A call not made yet, waiting for its reply, replied to, and finished. */
  datatype Phase = Waiting | InFlight | Settled | Done

  /** `replies[i]` is what call `i` came back with; `outcomes` lists, in the order the replies
      were handled, which ones carried a prefix. */
  datatype State = State(
    chunks: seq<string>,
    results: seq<Option<string>>,
    running: nat,
    nextIdx: nat,
    failures: nat,
    open: bool,
    completed: nat,
    resolved: bool,
    calls: seq<Phase>,
    replies: seq<Option<string>>,
    outcomes: seq<bool>)

  /** The reply to call `idx`, an empty text when it failed, and the end of its handling. */
  datatype Event = Then(idx: nat, text: string) | Finally(idx: nat)

  // ---------------------------------------------------------------- steps

  predicate Shaped(s: State) {
    |s.results| == |s.calls| == |s.replies| == |s.chunks|
  }

  function Filled(chunks: seq<string>, results: seq<Option<string>>): (r: seq<Option<string>>)
    requires |chunks| == |results|
    ensures |r| == |results|
  {
    seq(|results|, i requires 0 <= i < |results| => if results[i].None? then Some(chunks[i]) else results[i])
  }

  function Fill(s: State): State
    requires Shaped(s)
  {
    s.(results := Filled(s.chunks, s.results), completed := |s.chunks|, resolved := true)
  }

  function StartOne(s: State): (t: State)
    requires Shaped(s) && s.nextIdx < |s.chunks|
    ensures Shaped(t)
  {
    s.(running := s.running + 1, nextIdx := s.nextIdx + 1, calls := s.calls[s.nextIdx := InFlight])
  }

  /** Calls are made while there is room and a chunk left. */
  function StartCalls(s: State): (t: State)
    requires Shaped(s)
    ensures Shaped(t)
    decreases |s.chunks| - s.nextIdx
  {
    if s.running < MAX_CONCURRENT && s.nextIdx < |s.chunks|
    then StartCalls(StartOne(s))
    else s
  }

  function Next(s: State): State
    requires Shaped(s)
  {
    if s.open then Fill(s)
    else
      var t := StartCalls(s);
      if |s.chunks| == 0 then t.(resolved := true) else t
  }

  function Init(chunks: seq<string>): State {
    Next(State(chunks, seq(|chunks|, _ => None), 0, 0, 0, false, 0, false, seq(|chunks|, _ => Waiting), seq(|chunks|, _ => None), []))
  }

  /** What a reply makes of its chunk. */
  function Contextual(text: string, chunk: string): string {
    if text != "" then text + "\n\n" + chunk else chunk
  }

  function OnThen(s: State, i: nat, text: string): State
    requires Shaped(s) && i < |s.calls|
  {
    var failures := if text != "" then 0 else s.failures + 1;
    s.(results := s.results[i := Some(Contextual(text, s.chunks[i]))],
       failures := failures,
       open := s.open || failures >= BREAKER_THRESHOLD,
       calls := s.calls[i := Settled],
       replies := s.replies[i := Some(text)],
       outcomes := s.outcomes + [text != ""])
  }

  function Finished(s: State, i: nat): State
    requires Shaped(s) && i < |s.calls| && s.running > 0
  {
    s.(running := s.running - 1, completed := s.completed + 1, calls := s.calls[i := Done])
  }

  function OnFinally(s: State, i: nat): State
    requires Shaped(s) && i < |s.calls| && s.running > 0
  {
    var t := Finished(s, i);
    if t.completed >= |t.chunks| then t.(resolved := true) else Next(t)
  }

  predicate Enabled(s: State, e: Event) {
    && e.idx < |s.calls|
    && s.calls[e.idx] == if e.Then? then InFlight else Settled
  }

  /** An event that cannot happen now changes nothing. */
  function Step(s: State, e: Event): (t: State)
    requires Shaped(s)
    ensures Shaped(t)
  {
    if !Enabled(s, e) then s
    else
      match e
      case Then(i, text) => OnThen(s, i, text)
      case Finally(i) => if s.running > 0 then OnFinally(s, i) else s
  }

  function Run(chunks: seq<string>, events: seq<Event>): (s: State)
    ensures Shaped(s)
  {
    if events == [] then Init(chunks)
    else Step(Run(chunks, events[..|events| - 1]), events[|events| - 1])
  }

  // ---------------------------------------------------------------- the invariant

  const RUNNING: Phase -> nat := (p: Phase) => if p == InFlight || p == Settled then 1 else 0
  /** Events handled for a call. */
  const HANDLED: Phase -> nat := (p: Phase) => if p == Done then 2 else if p == Settled then 1 else 0
  const FINISHED: Phase -> nat := (p: Phase) => if p == Done then 1 else 0

  /** Calls are made in order; `running` counts the unfinished ones, never more than five. */
  predicate Counted(s: State) {
    && Shaped(s)
    && s.nextIdx <= |s.chunks|
    && (forall i :: 0 <= i < |s.calls| ==> (s.calls[i] == Waiting <==> i >= s.nextIdx))
    && s.running == Sum(s.calls, RUNNING) <= MAX_CONCURRENT
    && s.running + Sum(s.calls, FINISHED) == s.nextIdx
  }

  /** The promise is resolved exactly when enough is completed, and until then a call is running. */
  predicate Progressing(s: State) {
    && (s.resolved <==> s.completed >= |s.chunks|)
    && (!s.resolved ==> s.completed == Sum(s.calls, FINISHED) && s.running > 0)
  }

  /** What slot `i` must hold: its own call's result once that is there, and by the time the
      promise is resolved at least its chunk's own content. */
  function Expected(s: State, i: nat): Option<string>
    requires Shaped(s) && i < |s.chunks|
  {
    if s.replies[i].Some? then Some(Contextual(s.replies[i].value, s.chunks[i]))
    else if s.resolved then Some(s.chunks[i])
    else None
  }

  predicate SlotsOk(s: State) {
    && Shaped(s)
    && (forall i :: 0 <= i < |s.chunks| ==> s.results[i] == Expected(s, i))
    && (forall i :: 0 <= i < |s.chunks| ==> (s.replies[i].Some? <==> s.calls[i] == Settled || s.calls[i] == Done))
  }

  function TrailingFailures(outcomes: seq<bool>): nat {
    if outcomes == [] || outcomes[|outcomes| - 1] then 0 else 1 + TrailingFailures(outcomes[..|outcomes| - 1])
  }

  /** Three replies handled in a row carried no prefix. */
  predicate ThreeInARow(outcomes: seq<bool>) {
    exists i {:trigger outcomes[i]} :: 0 <= i < |outcomes| - 2 && !outcomes[i] && !outcomes[i + 1] && !outcomes[i + 2]
  }

  predicate BreakerOk(s: State) {
    s.failures == TrailingFailures(s.outcomes) && (s.open <==> ThreeInARow(s.outcomes))
  }

  predicate Inv(s: State) {
    Counted(s) && Progressing(s) && SlotsOk(s) && BreakerOk(s)
  }

  // ---------------------------------------------------------------- starting calls

  /** Everything but who is running stays. */
  predicate OnlyStarts(s: State, t: State) {
    && t == s.(running := t.running, nextIdx := t.nextIdx, calls := t.calls)
    && |t.calls| == |s.calls| && s.nextIdx <= t.nextIdx
    && forall i :: 0 <= i < |s.calls| ==>
         t.calls[i] == if s.nextIdx <= i < t.nextIdx then InFlight else s.calls[i]
  }

  lemma StartsOne(s: State)
    requires Counted(s) && s.running < MAX_CONCURRENT && s.nextIdx < |s.chunks|
    ensures
      var t := s.(running := s.running + 1, nextIdx := s.nextIdx + 1, calls := s.calls[s.nextIdx := InFlight]);
      && Counted(t) && OnlyStarts(s, t)
      && Sum(t.calls, FINISHED) == Sum(s.calls, FINISHED) && Sum(t.calls, HANDLED) == Sum(s.calls, HANDLED)
  {
    SumUpdate(s.calls, s.nextIdx, InFlight, RUNNING);
    SumUpdate(s.calls, s.nextIdx, InFlight, FINISHED);
    SumUpdate(s.calls, s.nextIdx, InFlight, HANDLED);
  }

  /** Calls are started in order until five run or no chunk is left. */
  lemma {:induction false} StartsInOrder(s: State)
    requires Counted(s)
    ensures
      var t := StartCalls(s);
      && Counted(t) && OnlyStarts(s, t)
      && Sum(t.calls, FINISHED) == Sum(s.calls, FINISHED) && Sum(t.calls, HANDLED) == Sum(s.calls, HANDLED)
      && (t.running == MAX_CONCURRENT || t.nextIdx == |s.chunks|)
    decreases |s.chunks| - s.nextIdx
  {
    if s.running < MAX_CONCURRENT && s.nextIdx < |s.chunks| {
      var t := StartOne(s);
      StartsOne(s);
      StartsInOrder(t);
      StartsOn(s, t, StartCalls(t));
    }
  }

  lemma StartsOn(s: State, t: State, u: State)
    requires OnlyStarts(s, t) && OnlyStarts(t, u)
    ensures OnlyStarts(s, u)
  {
  }

  // ---------------------------------------------------------------- every event keeps the invariant

  lemma {:induction false} AllWaiting(calls: seq<Phase>)
    requires forall i :: 0 <= i < |calls| ==> calls[i] == Waiting
    ensures Sum(calls, RUNNING) == Sum(calls, FINISHED) == Sum(calls, HANDLED) == 0
  {
    if calls != [] {
      AllWaiting(calls[..|calls| - 1]);
    }
  }

  lemma InitKeeps(chunks: seq<string>)
    ensures Inv(Init(chunks)) && Init(chunks).chunks == chunks && Init(chunks).completed == 0
  {
    var s := State(chunks, seq(|chunks|, _ => None), 0, 0, 0, false, 0, false,
                   seq(|chunks|, _ => Waiting), seq(|chunks|, _ => None), []);
    AllWaiting(s.calls);
    StartsInOrder(s);
  }

  /** While some chunk is not finished and none is running, a new call can start. */
  lemma TryNextKeeps(s: State)
    requires Counted(s) && SlotsOk(s) && BreakerOk(s) && !s.resolved
    requires s.completed == Sum(s.calls, FINISHED) < |s.chunks|
    ensures Inv(Next(s)) && Next(s).chunks == s.chunks
  {
    if !s.open {
      StartsInOrder(s);
    }
  }

  lemma FinishedCounts(s: State, i: nat)
    requires Inv(s) && i < |s.calls| && s.calls[i] == Settled && s.running > 0
    ensures
      var t := Finished(s, i);
      && Counted(t) && SlotsOk(t) && BreakerOk(t)
      && (s.resolved || t.completed == Sum(t.calls, FINISHED))
  {
    SumUpdate(s.calls, i, Done, RUNNING);
    SumUpdate(s.calls, i, Done, FINISHED);
  }

  lemma FinallyKeeps(s: State, i: nat)
    requires Inv(s) && i < |s.calls| && s.calls[i] == Settled && s.running > 0
    ensures Inv(OnFinally(s, i)) && OnFinally(s, i).chunks == s.chunks
  {
    var t := Finished(s, i);
    FinishedCounts(s, i);
    if t.completed < |t.chunks| {
      TryNextKeeps(t);
    } else {
      AllSettled(t);
    }
  }

  /** Once as many calls are done as there are chunks, every slot is its own call's. */
  lemma AllSettled(s: State)
    requires Counted(s) && SlotsOk(s) && s.completed >= |s.chunks|
    requires s.resolved || s.completed == Sum(s.calls, FINISHED)
    ensures SlotsOk(s.(resolved := true))
  {
    if !s.resolved {
      assert s.nextIdx == |s.chunks| && s.running == 0;
      NoneRunning(s.calls);
    }
  }

  lemma {:induction false} NoneRunning(calls: seq<Phase>)
    requires Sum(calls, RUNNING) == 0
    ensures forall i :: 0 <= i < |calls| ==> calls[i] == Waiting || calls[i] == Done
  {
    if calls != [] {
      NoneRunning(calls[..|calls| - 1]);
    }
  }

  lemma {:induction false} SomeRunning(calls: seq<Phase>) returns (i: nat)
    requires Sum(calls, RUNNING) > 0
    ensures i < |calls| && (calls[i] == InFlight || calls[i] == Settled)
  {
    var last := |calls| - 1;
    if calls[last] == InFlight || calls[last] == Settled {
      i := last;
    } else {
      i := SomeRunning(calls[..last]);
    }
  }

  lemma FailuresAtEnd(outcomes: seq<bool>)
    ensures TrailingFailures(outcomes) >= 3 <==>
      |outcomes| >= 3 && !outcomes[|outcomes| - 1] && !outcomes[|outcomes| - 2] && !outcomes[|outcomes| - 3]
  {
    if outcomes != [] && !outcomes[|outcomes| - 1] {
      var o1 := outcomes[..|outcomes| - 1];
      if o1 != [] && !o1[|o1| - 1] {
        var o2 := o1[..|o1| - 1];
        assert TrailingFailures(outcomes) == 2 + TrailingFailures(o2);
      }
    }
  }

  lemma BreakerStep(outcomes: seq<bool>, ok: bool)
    ensures
      var after := outcomes + [ok];
      && TrailingFailures(after) == (if ok then 0 else TrailingFailures(outcomes) + 1)
      && (ThreeInARow(after) <==> ThreeInARow(outcomes) || TrailingFailures(after) >= 3)
  {
    var after := outcomes + [ok];
    assert after[..|after| - 1] == outcomes;
    FailuresAtEnd(after);
    if ThreeInARow(outcomes) {
      var i :| 0 <= i < |outcomes| - 2 && !outcomes[i] && !outcomes[i + 1] && !outcomes[i + 2];
      assert !after[i] && !after[i + 1] && !after[i + 2];
    }
    if TrailingFailures(after) >= 3 {
      assert !after[|after| - 3] && !after[|after| - 3 + 1] && !after[|after| - 3 + 2];
    }
  }

  lemma ThenCounts(s: State, i: nat, text: string)
    requires Counted(s) && Progressing(s) && i < |s.calls| && s.calls[i] == InFlight
    ensures Counted(OnThen(s, i, text)) && Progressing(OnThen(s, i, text))
  {
    SumUpdate(s.calls, i, Settled, RUNNING);
    SumUpdate(s.calls, i, Settled, FINISHED);
  }

  lemma ThenSlots(s: State, i: nat, text: string)
    requires SlotsOk(s) && i < |s.calls| && s.calls[i] == InFlight
    ensures SlotsOk(OnThen(s, i, text))
  {
    var t := OnThen(s, i, text);
    forall j | 0 <= j < |s.chunks| ensures t.results[j] == Expected(t, j) {
      assert s.results[j] == Expected(s, j);
    }
  }

  lemma ThenKeeps(s: State, i: nat, text: string)
    requires Inv(s) && i < |s.calls| && s.calls[i] == InFlight
    ensures Inv(OnThen(s, i, text))
  {
    ThenCounts(s, i, text);
    ThenSlots(s, i, text);
    BreakerStep(s.outcomes, text != "");
  }

  lemma StepKeeps(s: State, e: Event)
    requires Inv(s)
    ensures Inv(Step(s, e)) && Step(s, e).chunks == s.chunks
  {
    if Enabled(s, e) {
      match e
      case Then(i, text) => ThenKeeps(s, i, text);
      case Finally(i) =>
        if s.running > 0 {
          FinallyKeeps(s, i);
        }
    }
  }

  lemma {:induction false} RunKeeps(chunks: seq<string>, events: seq<Event>)
    ensures Inv(Run(chunks, events)) && Run(chunks, events).chunks == chunks
  {
    if events == [] {
      InitKeeps(chunks);
    } else {
      RunKeeps(chunks, events[..|events| - 1]);
      StepKeeps(Run(chunks, events[..|events| - 1]), events[|events| - 1]);
    }
  }

  // ---------------------------------------------------------------- what every run achieves

  /** In every run at most five calls are running, and they were made in order, each once. */
  lemma AtMostFive(chunks: seq<string>, events: seq<Event>)
    ensures
      var s := Run(chunks, events);
      && s.running <= 5 && s.running == Sum(s.calls, RUNNING)
      && s.nextIdx <= |chunks| == |s.calls|
      && forall i :: 0 <= i < |chunks| ==> (s.calls[i] == Waiting <==> i >= s.nextIdx)
  {
    RunKeeps(chunks, events);
  }

  function Rank(p: Phase): nat {
    match p
    case Waiting => 0
    case InFlight => 1
    case Settled => 2
    case Done => 3
  }

  /** Calls only go forward, and while `frozen` none is made. */
  predicate Forward(before: seq<Phase>, after: seq<Phase>, frozen: bool) {
    && |after| == |before|
    && forall i :: 0 <= i < |before| ==>
         && Rank(before[i]) <= Rank(after[i])
         && (frozen && before[i] == Waiting ==> after[i] == Waiting)
  }

  lemma StartsForward(s: State)
    requires Counted(s) && OnlyStarts(s, StartCalls(s))
    ensures Forward(s.calls, StartCalls(s).calls, false)
  {
  }

  lemma FinallyForward(s: State, i: nat)
    requires Inv(s) && i < |s.calls| && s.calls[i] == Settled && s.running > 0
    ensures Forward(s.calls, OnFinally(s, i).calls, s.open)
    ensures s.open ==> OnFinally(s, i).open && OnFinally(s, i).nextIdx == s.nextIdx
  {
    var t := Finished(s, i);
    assert Forward(s.calls, t.calls, true);
    if t.completed < |t.chunks| && !t.open {
      FinishedCounts(s, i);
      StartsInOrder(t);
      StartsForward(t);
    }
  }

  /** No call is ever made twice, and none after the breaker has opened. */
  lemma OnlyForward(s: State, e: Event)
    requires Inv(s)
    ensures Forward(s.calls, Step(s, e).calls, s.open)
    ensures s.open ==> Step(s, e).open && Step(s, e).nextIdx == s.nextIdx
  {
    if Enabled(s, e) && e.Finally? && s.running > 0 {
      FinallyForward(s, e.idx);
    }
  }

  /** The breaker is open exactly when three replies in a row, in the order they were handled,
      carried no prefix. */
  lemma BreakerOpensIff(chunks: seq<string>, events: seq<Event>)
    ensures Run(chunks, events).open <==> ThreeInARow(Texts(chunks, events))
  {
    RunKeeps(chunks, events);
    RepliesTold(chunks, events);
  }

  /** No call waits without need: until the promise is resolved or the breaker opens, five are running
      or all have been made. */
  predicate Busy(s: State) {
    !s.open && !s.resolved ==> s.running == 5 || s.nextIdx == |s.chunks|
  }

  lemma BusyStep(s: State, e: Event)
    requires Inv(s) && Busy(s)
    ensures Busy(Step(s, e))
  {
    if Enabled(s, e) && e.Finally? && s.running > 0 {
      FinishedCounts(s, e.idx);
      StartsInOrder(Finished(s, e.idx));
    }
  }

  lemma {:induction false} AlwaysBusy(chunks: seq<string>, events: seq<Event>)
    ensures Busy(Run(chunks, events)) && Run(chunks, events).chunks == chunks
  {
    if events == [] {
      InitKeeps(chunks);
      var s := State(chunks, seq(|chunks|, _ => None), 0, 0, 0, false, 0, false,
                     seq(|chunks|, _ => Waiting), seq(|chunks|, _ => None), []);
      AllWaiting(s.calls);
      StartsInOrder(s);
    } else {
      var front := events[..|events| - 1];
      AlwaysBusy(chunks, front);
      RunKeeps(chunks, front);
      BusyStep(Run(chunks, front), events[|events| - 1]);
      StepKeeps(Run(chunks, front), events[|events| - 1]);
    }
  }

  /** Once the breaker is open, the end of any call resolves the promise. */
  lemma OpenGivesUp(chunks: seq<string>, events: seq<Event>, i: nat)
    requires var s := Run(chunks, events); s.open && i < |chunks| && Enabled(s, Finally(i))
    ensures Step(Run(chunks, events), Finally(i)).resolved
  {
    RunKeeps(chunks, events);
    RunningSome(Run(chunks, events).calls, i);
  }

  /** A call that is running gets this reply. */
  predicate Replied(s: State, e: Event) {
    e.Then? && e.idx < |s.calls| && s.calls[e.idx] == InFlight
  }

  /** The text call `i` came back with in the run, if it has. */
  function ReplyTo(chunks: seq<string>, events: seq<Event>, i: nat): Option<string> {
    if events == [] then None
    else
      var front, e := events[..|events| - 1], events[|events| - 1];
      if Replied(Run(chunks, front), e) && e.idx == i then Some(e.text) else ReplyTo(chunks, front, i)
  }

  /** For every reply, in the order they came, whether it had a text. */
  function Texts(chunks: seq<string>, events: seq<Event>): seq<bool> {
    if events == [] then []
    else
      var front, e := events[..|events| - 1], events[|events| - 1];
      Texts(chunks, front) + if Replied(Run(chunks, front), e) then [e.text != ""] else []
  }

  lemma RepliesStep(s: State, e: Event)
    requires Inv(s)
    ensures
      var t := Step(s, e);
      if Replied(s, e) then t.replies == s.replies[e.idx := Some(e.text)] && t.outcomes == s.outcomes + [e.text != ""]
      else t.replies == s.replies && t.outcomes == s.outcomes
  {
    if Enabled(s, e) && e.Finally? && s.running > 0 {
      FinishedCounts(s, e.idx);
      StartsInOrder(Finished(s, e.idx));
    }
  }

  lemma {:induction false} RepliesTold(chunks: seq<string>, events: seq<Event>)
    ensures
      var s := Run(chunks, events);
      && s.chunks == chunks && s.outcomes == Texts(chunks, events)
      && |s.replies| == |chunks| && (forall i :: 0 <= i < |chunks| ==> s.replies[i] == ReplyTo(chunks, events, i))
  {
    RunKeeps(chunks, events);
    if events == [] {
      var s := State(chunks, seq(|chunks|, _ => None), 0, 0, 0, false, 0, false,
                     seq(|chunks|, _ => Waiting), seq(|chunks|, _ => None), []);
      AllWaiting(s.calls);
      StartsInOrder(s);
    } else {
      var front := events[..|events| - 1];
      RepliesTold(chunks, front);
      RunKeeps(chunks, front);
      RepliesStep(Run(chunks, front), events[|events| - 1]);
    }
  }

  /** When the promise is resolved, and ever after, each slot holds its chunk's content, behind the text
      its own call came back with and an empty line, if that was not empty; with the breaker closed no
      call is missing. */
  lemma ResolvedContents(chunks: seq<string>, events: seq<Event>)
    ensures
      var s := Run(chunks, events);
      s.resolved ==> |s.results| == |chunks| && forall i :: 0 <= i < |chunks| ==>
        s.results[i] == match ReplyTo(chunks, events, i)
                        case Some(text) => Some(if |text| > 0 then text + "\n\n" + chunks[i] else chunks[i])
                        case None => Some(chunks[i])
    ensures
      var s := Run(chunks, events);
      s.resolved && !s.open ==> forall i :: 0 <= i < |chunks| ==> ReplyTo(chunks, events, i).Some?
  {
    RunKeeps(chunks, events);
    RepliesTold(chunks, events);
    ClosedMeansAll(chunks, events);
    var s := Run(chunks, events);
    if s.resolved {
      forall i | 0 <= i < |chunks|
        ensures s.results[i] == Expected(s, i)
      {
      }
    }
  }

  predicate AllDone(s: State) {
    forall i :: 0 <= i < |s.calls| ==> s.calls[i] == Done
  }

  /** Without the breaker the promise resolves only when every call has been handled. */
  lemma {:induction false} ClosedMeansAll(chunks: seq<string>, events: seq<Event>)
    ensures
      var s := Run(chunks, events);
      s.resolved && !s.open ==> AllDone(s)
  {
    RunKeeps(chunks, events);
    if events != [] {
      var s, e := Run(chunks, events[..|events| - 1]), events[|events| - 1];
      RunKeeps(chunks, events[..|events| - 1]);
      ClosedMeansAll(chunks, events[..|events| - 1]);
      ClosedStep(s, e);
    } else {
      InitKeeps(chunks);
    }
  }

  lemma ClosedStep(s: State, e: Event)
    requires Inv(s)
    requires s.resolved && !s.open ==> AllDone(s)
    ensures Step(s, e).resolved && !Step(s, e).open ==> AllDone(Step(s, e))
  {
    if Enabled(s, e) && e.Finally? && s.running > 0 && !s.resolved {
      var t := Finished(s, e.idx);
      FinishedCounts(s, e.idx);
      if t.completed >= |t.chunks| {
        assert t.nextIdx == |t.chunks| && t.running == 0;
        NoneRunning(t.calls);
      } else if !t.open {
        StartsInOrder(t);
      }
    }
  }

  /** Every event of the run could happen when it did. */
  predicate AllEnabled(chunks: seq<string>, events: seq<Event>) {
    events == []
    || (AllEnabled(chunks, events[..|events| - 1])
        && Enabled(Run(chunks, events[..|events| - 1]), events[|events| - 1]))
  }

  lemma HandledStep(s: State, e: Event)
    requires Inv(s) && Enabled(s, e)
    ensures Sum(Step(s, e).calls, HANDLED) == Sum(s.calls, HANDLED) + 1
  {
    if e.Then? {
      SumUpdate(s.calls, e.idx, Settled, HANDLED);
    } else {
      RunningSome(s.calls, e.idx);
      SumUpdate(s.calls, e.idx, Done, HANDLED);
      FinishedCounts(s, e.idx);
      StartsInOrder(Finished(s, e.idx));
    }
  }

  lemma {:induction false} RunningSome(calls: seq<Phase>, i: nat)
    requires i < |calls| && calls[i] == Settled
    ensures Sum(calls, RUNNING) > 0
  {
    if i < |calls| - 1 {
      RunningSome(calls[..|calls| - 1], i);
    }
  }

  lemma {:induction false} HandledAll(chunks: seq<string>, events: seq<Event>)
    requires AllEnabled(chunks, events)
    ensures Sum(Run(chunks, events).calls, HANDLED) == |events|
  {
    if events == [] {
      var s := State(chunks, seq(|chunks|, _ => None), 0, 0, 0, false, 0, false,
                     seq(|chunks|, _ => Waiting), seq(|chunks|, _ => None), []);
      AllWaiting(s.calls);
      StartsInOrder(s);
    } else {
      HandledAll(chunks, events[..|events| - 1]);
      RunKeeps(chunks, events[..|events| - 1]);
      HandledStep(Run(chunks, events[..|events| - 1]), events[|events| - 1]);
    }
  }

  lemma {:induction false} HandledAtMostTwice(calls: seq<Phase>)
    ensures Sum(calls, HANDLED) <= 2 * |calls|
  {
    if calls != [] {
      HandledAtMostTwice(calls[..|calls| - 1]);
    }
  }

  /** Every run ends after at most two events a chunk, and when nothing more can happen the
      promise is resolved: so it resolves in every fair run. */
  lemma AlwaysResolves(chunks: seq<string>, events: seq<Event>)
    requires AllEnabled(chunks, events)
    ensures |events| <= 2 * |chunks|
    ensures !Run(chunks, events).resolved ==> exists e :: Enabled(Run(chunks, events), e)
  {
    var s := Run(chunks, events);
    RunKeeps(chunks, events);
    HandledAll(chunks, events);
    HandledAtMostTwice(s.calls);
    if !s.resolved {
      var i := SomeRunning(s.calls);
      assert Enabled(s, if s.calls[i] == InFlight then Then(i, "") else Finally(i));
    }
  }

  // ---------------------------------------------------------------- the callbacks in place

  /** The shared variables of one call of `generateContextualPrefixes`, changed in place by its
      callbacks. */
  class Generator {
    const chunks: seq<string>
    const results: array<Option<string>>
    var running: nat
    var nextIdx: nat
    var consecutiveFailures: nat
    var circuitOpen: bool
    var completed: nat
    var resolved: bool
    ghost var calls: seq<Phase>
    ghost var replies: seq<Option<string>>
    ghost var outcomes: seq<bool>

    ghost function Abs(): State
      reads this, results
    {
      State(chunks, results[..], running, nextIdx, consecutiveFailures, circuitOpen, completed, resolved,
            calls, replies, outcomes)
    }

    constructor (chunks: seq<string>)
      ensures this.chunks == chunks && fresh(results) && Abs() == Init(chunks)
    {
      this.chunks := chunks;
      results := new Option<string>[|chunks|](_ => None);
      running, nextIdx, consecutiveFailures, circuitOpen := 0, 0, 0, false;
      completed, resolved := 0, false;
      calls, replies, outcomes := seq(|chunks|, _ => Waiting), seq(|chunks|, _ => None), [];
      new;
      assert results[..] == seq(|chunks|, _ => None);
      TryNext();
    }

    method FillRemaining()
      requires Shaped(Abs())
      modifies this, results
      ensures Abs() == Fill(old(Abs()))
    {
      ghost var before := results[..];
      for i := 0 to |chunks|
        invariant Abs() == old(Abs()).(results := results[..])
        invariant forall k :: 0 <= k < results.Length ==>
          results[k] == if k < i then Filled(chunks, before)[k] else before[k]
      {
        if results[i].None? {
          results[i] := Some(chunks[i]);
        }
      }
      assert results[..] == Filled(chunks, before);
      completed := |chunks|;
      resolved := true;
    }

    method TryNext()
      requires Shaped(Abs())
      modifies this, results
      ensures Abs() == Next(old(Abs()))
    {
      if circuitOpen {
        FillRemaining();
        return;
      }
      while running < MAX_CONCURRENT && nextIdx < |chunks|
        invariant Shaped(Abs()) && StartCalls(Abs()) == StartCalls(old(Abs()))
        invariant results[..] == old(results[..])
        decreases |chunks| - nextIdx
      {
        calls := calls[nextIdx := InFlight];
        running, nextIdx := running + 1, nextIdx + 1;
      }
      if |chunks| == 0 {
        resolved := true;
      }
    }

    /** The `then` handler of call `idx`; `text` is empty when the call failed. */
    method Then(idx: nat, text: string)
      requires Shaped(Abs()) && idx < |chunks|
      modifies this, results
      ensures Abs() == OnThen(old(Abs()), idx, text)
    {
      if text != "" {
        consecutiveFailures := 0;
        results[idx] := Some(text + "\n\n" + chunks[idx]);
      } else {
        results[idx] := Some(chunks[idx]);
        consecutiveFailures := consecutiveFailures + 1;
      }
      if consecutiveFailures >= BREAKER_THRESHOLD && !circuitOpen {
        circuitOpen := true;
      }
      calls, replies, outcomes := calls[idx := Settled], replies[idx := Some(text)], outcomes + [text != ""];
    }

    method Finally(idx: nat)
      requires Shaped(Abs()) && idx < |chunks| && running > 0
      modifies this, results
      ensures Abs() == OnFinally(old(Abs()), idx)
    {
      running := running - 1;
      completed := completed + 1;
      calls := calls[idx := Done];
      if completed >= |chunks| {
        resolved := true;
      } else {
        TryNext();
      }
    }
  }
}
