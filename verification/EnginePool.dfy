// The worker pool as an event-driven state machine.
//
// A worker is known by the number it was spawned with.  Each has its own pending map, which
// its message, error and exit handlers keep hold of even after the slot it served has been
// given to a successor; `slots[i]` is the worker that dispatch uses for index i.
module EnginePool {
  import opened Sums

  type Wid = nat
  type ReqId = nat

  /** `settled` counts, for every request, how often its promise was resolved or rejected. */
  datatype State = State(
    maxPending: nat,
    idx: nat,
    msgId: nat,
    pendingTotal: int,
    destroyed: bool,
    slots: seq<Wid>,
    home: map<Wid, nat>,
    pending: map<Wid, set<ReqId>>,
    timers: set<(Wid, ReqId)>,
    exited: set<Wid>,
    nextWid: nat,
    settled: multiset<ReqId>)

  datatype Event =
    | Dispatch                       // round robin
    | Create                         // a request that creates a calculator, on the worker whose turn it is
    | DispatchTo(index: nat)         // a request for the worker that holds a calculator
    | Message(w: Wid, id: ReqId)     // a reply, maybe late
    | Timeout(w: Wid, id: ReqId)
    | WorkerError(w: Wid)
    | Exit(w: Wid)
    | Destroy

  // ---------------------------------------------------------------- steps

  /** The constructor: one worker after the other is spawned into its slot. */
  function Initial(size: nat, maxPending: nat): State {
    if size == 0 then State(maxPending, 0, 0, 0, false, [], map[], map[], {}, {}, 0, multiset{})
    else
      var s := Initial(size - 1, maxPending);
      s.(slots := s.slots + [s.nextWid],
         home := s.home[s.nextWid := |s.slots|],
         pending := s.pending[s.nextWid := {}],
         nextWid := s.nextWid + 1)
  }

  lemma InitialNone(maxPending: nat)
    ensures Initial(0, maxPending) == State(maxPending, 0, 0, 0, false, [], map[], map[], {}, {}, 0, multiset{})
  {
  }

  lemma InitialNext(size: nat, maxPending: nat)
    ensures var s := Initial(size, maxPending);
            Initial(size + 1, maxPending)
              == s.(slots := s.slots + [s.nextWid],
                    home := s.home[s.nextWid := |s.slots|],
                    pending := s.pending[s.nextWid := {}],
                    nextWid := s.nextWid + 1)
  {
  }

  /** Whether a dispatch is turned away, because the pool is gone or the queue full. */
  predicate Refuses(s: State) {
    s.destroyed || s.pendingTotal >= s.maxPending
  }

  function StepDispatchTo(s: State, i: nat): State
    requires i < |s.slots| && s.slots[i] in s.pending
  {
    if Refuses(s) then s
    else
      var w := s.slots[i];
      s.(msgId := s.msgId + 1,
         pendingTotal := s.pendingTotal + 1,
         pending := s.pending[w := s.pending[w] + {s.msgId}],
         timers := s.timers + {(w, s.msgId)})
  }

  function TimersOf(w: Wid, ids: set<ReqId>): set<(Wid, ReqId)> {
    set id | id in ids :: (w, id)
  }

  /** The requests leave the worker's map, their timers are gone and their promises settled. */
  function Release(s: State, w: Wid, ids: set<ReqId>): State
    requires w in s.pending
  {
    s.(pendingTotal := s.pendingTotal - |ids|,
       pending := s.pending[w := s.pending[w] - ids],
       timers := s.timers - TimersOf(w, ids),
       settled := s.settled + multiset(ids))
  }

  function Settle(s: State, w: Wid, id: ReqId): State
    requires w in s.pending
  {
    Release(s, w, {id})
  }

  /** Every request of worker `w` is rejected. */
  function RejectAll(s: State, w: Wid): State
    requires w in s.pending
  {
    Release(s, w, s.pending[w])
  }

  function Spawn(s: State, i: nat): State
    requires i < |s.slots|
  {
    s.(slots := s.slots[i := s.nextWid],
       home := s.home[s.nextWid := i],
       pending := s.pending[s.nextWid := {}],
       nextWid := s.nextWid + 1)
  }

  function StepExit(s: State, w: Wid): State
    requires w in s.pending && w in s.home && s.home[w] < |s.slots|
  {
    var cleared := RejectAll(s, w).(exited := s.exited + {w});
    if s.destroyed then cleared else Spawn(cleared, s.home[w])
  }

  function RejectSlot(s: State, w: Wid): State {
    if w in s.pending then RejectAll(s, w) else s
  }

  /** The loop of destroy over the first `n` slots. */
  function RejectSlots(s: State, n: nat): (r: State)
    requires n <= |s.slots|
    ensures r.slots == s.slots && r.pending.Keys == s.pending.Keys
    ensures r.exited == s.exited && r.home == s.home && r.destroyed == s.destroyed
  {
    if n == 0 then s else RejectSlot(RejectSlots(s, n - 1), s.slots[n - 1])
  }

  predicate CanDispatchTo(s: State, i: nat) {
    i < |s.slots| && s.slots[i] in s.pending
  }

  predicate CanExit(s: State, w: Wid) {
    w in s.pending && w !in s.exited && w in s.home && s.home[w] < |s.slots|
  }

  /** An event that cannot occur in state `s` leaves it as it is. */
  function Step(s: State, e: Event): State {
    match e
    case Dispatch =>
      if !Refuses(s) && |s.slots| > 0 && CanDispatchTo(s, s.idx % |s.slots|)
      then StepDispatchTo(s.(idx := s.idx + 1), s.idx % |s.slots|) else s
    case Create =>
      if |s.slots| > 0 && CanDispatchTo(s, s.idx % |s.slots|)
      then StepDispatchTo(s.(idx := s.idx + 1), s.idx % |s.slots|) else s
    case DispatchTo(i) => if CanDispatchTo(s, i) then StepDispatchTo(s, i) else s
    case Message(w, id) => if w in s.pending && id in s.pending[w] then Settle(s, w, id) else s
    case Timeout(w, id) => if w in s.pending && (w, id) in s.timers then Settle(s, w, id) else s
    case WorkerError(w) => if w in s.pending then RejectAll(s, w) else s
    case Exit(w) => if CanExit(s, w) then StepExit(s, w) else s
    case Destroy => RejectSlots(s.(destroyed := true), |s.slots|)
  }

  function Run(s: State, events: seq<Event>): State {
    if |events| == 0 then s else Step(Run(s, events[..|events| - 1]), events[|events| - 1])
  }

  // ---------------------------------------------------------------- the invariant

  /** Slots and workers fit together: a worker that has not exited serves its home slot. */
  ghost predicate Shape(s: State) {
    && s.home.Keys == s.pending.Keys
    && s.exited <= s.pending.Keys
    && (forall w :: w in s.pending ==> w < s.nextWid && s.home[w] < |s.slots|)
    && (forall i :: 0 <= i < |s.slots| ==> s.slots[i] in s.pending && s.home[s.slots[i]] == i)
    && (forall w :: w in s.pending && w !in s.exited ==> s.slots[s.home[w]] == w)
    && (!s.destroyed ==> forall i :: 0 <= i < |s.slots| ==> s.slots[i] !in s.exited)
  }

  function Size(pending: map<Wid, set<ReqId>>): Wid -> nat {
    (w: Wid) => if w in pending then |pending[w]| else 0
  }

  /** The counter is the sum of the sizes of the maps dispatch uses; the others are empty. */
  ghost predicate Counted(s: State) {
    && s.pendingTotal == Sum(s.slots, Size(s.pending))
    && (forall w :: w in s.pending && w in s.exited ==> s.pending[w] == {})
    && (s.destroyed ==> forall w :: w in s.pending ==> s.pending[w] == {})
  }

  ghost predicate WithinQueue(s: State) {
    0 <= s.pendingTotal <= s.maxPending
  }

  /** A timer is live exactly for the pending requests. */
  ghost predicate Timed(s: State) {
    forall w: Wid, id: ReqId :: (w, id) in s.timers <==> w in s.pending && id in s.pending[w]
  }

  ghost predicate IsPending(pending: map<Wid, set<ReqId>>, id: ReqId) {
    exists w :: w in pending && id in pending[w]
  }

  /** Every request accepted so far waits in exactly one map or has been settled once. */
  ghost predicate SettledOnce(s: State) {
    && (forall v, w, id :: v in s.pending && w in s.pending && id in s.pending[v] && id in s.pending[w] ==> v == w)
    && (forall id: ReqId :: IsPending(s.pending, id) ==> id < s.msgId)
    && (forall id: ReqId ::
          s.settled[id] == if id < s.msgId && !IsPending(s.pending, id) then 1 else 0)
  }

  ghost predicate Inv(s: State) {
    Shape(s) && Counted(s) && WithinQueue(s) && Timed(s) && SettledOnce(s)
  }

  // ---------------------------------------------------------------- sums over slots

  lemma {:induction false} SumSame(slots: seq<Wid>, f: Wid -> nat, g: Wid -> nat)
    requires forall i :: 0 <= i < |slots| ==> f(slots[i]) == g(slots[i])
    ensures Sum(slots, f) == Sum(slots, g)
  {
    if |slots| > 0 {
      SumSame(slots[..|slots| - 1], f, g);
    }
  }

  lemma {:induction false} SumOneChange(slots: seq<Wid>, i: nat, f: Wid -> nat, g: Wid -> nat)
    requires i < |slots|
    requires forall k :: 0 <= k < |slots| && k != i ==> f(slots[k]) == g(slots[k])
    ensures Sum(slots, g) + f(slots[i]) == Sum(slots, f) + g(slots[i])
  {
    if i == |slots| - 1 {
      SumSame(slots[..i], f, g);
    } else {
      SumOneChange(slots[..|slots| - 1], i, f, g);
    }
  }

  lemma {:induction false} SumZero(slots: seq<Wid>, f: Wid -> nat)
    requires forall i :: 0 <= i < |slots| ==> f(slots[i]) == 0
    ensures Sum(slots, f) == 0
  {
    if |slots| > 0 {
      SumZero(slots[..|slots| - 1], f);
    }
  }

  /** A part is at most the whole. */
  lemma {:induction false} SumAtLeast(slots: seq<Wid>, i: nat, f: Wid -> nat)
    requires i < |slots|
    ensures f(slots[i]) <= Sum(slots, f)
  {
    if i < |slots| - 1 {
      SumAtLeast(slots[..|slots| - 1], i, f);
    }
  }

  /** Changing the map of a live worker changes the sum by the difference in size. */
  lemma SumMapChange(s: State, w: Wid, ids: set<ReqId>)
    requires Shape(s) && w in s.pending && s.slots[s.home[w]] == w
    ensures Sum(s.slots, Size(s.pending[w := ids])) + |s.pending[w]| == Sum(s.slots, Size(s.pending)) + |ids|
  {
    SumOneChange(s.slots, s.home[w], Size(s.pending), Size(s.pending[w := ids]));
  }

  // ---------------------------------------------------------------- preservation

  lemma {:induction false} InitialShape(size: nat, maxPending: nat)
    ensures var s := Initial(size, maxPending);
            && |s.slots| == size && s.nextWid == size && s.home.Keys == s.pending.Keys
            && (forall i :: 0 <= i < size ==> s.slots[i] == i && i in s.pending && s.home[i] == i && s.pending[i] == {})
            && (forall w :: w in s.pending ==> w < size)
            && s == State(maxPending, 0, 0, 0, false, s.slots, s.home, s.pending, {}, {}, size, multiset{})
  {
    if size > 0 {
      InitialShape(size - 1, maxPending);
    }
  }

  lemma InitialCounted(size: nat, maxPending: nat)
    ensures Counted(Initial(size, maxPending))
  {
    InitialShape(size, maxPending);
    var s := Initial(size, maxPending);
    SumZero(s.slots, Size(s.pending));
  }

  lemma InitialSettled(size: nat, maxPending: nat)
    ensures SettledOnce(Initial(size, maxPending)) && Timed(Initial(size, maxPending))
  {
    InitialShape(size, maxPending);
    var s := Initial(size, maxPending);
    assert forall w :: w in s.pending ==> s.pending[w] == {};
  }

  lemma InitialInv(size: nat, maxPending: nat)
    ensures Inv(Initial(size, maxPending))
  {
    InitialCounted(size, maxPending);
    InitialSettled(size, maxPending);
    InitialShape(size, maxPending);
  }

  lemma AdvanceKeeps(s: State)
    requires Inv(s)
    ensures Inv(s.(idx := s.idx + 1))
  {
  }

  lemma DispatchCounted(s: State, i: nat)
    requires Shape(s) && Counted(s) && WithinQueue(s) && SettledOnce(s) && i < |s.slots| && !Refuses(s)
    ensures Counted(StepDispatchTo(s, i)) && WithinQueue(StepDispatchTo(s, i))
  {
    var w := s.slots[i];
    assert s.msgId !in s.pending[w] by {
      assert s.msgId in s.pending[w] ==> IsPending(s.pending, s.msgId);
    }
    SumMapChange(s, w, s.pending[w] + {s.msgId});
  }

  lemma DispatchSettled(s: State, i: nat)
    requires SettledOnce(s) && i < |s.slots| && s.slots[i] in s.pending && !Refuses(s)
    ensures SettledOnce(StepDispatchTo(s, i))
  {
    var w := s.slots[i];
    var s' := StepDispatchTo(s, i);
    assert forall v :: v in s.pending ==> s'.pending[v] == s.pending[v] + if v == w then {s.msgId} else {};
    forall id: ReqId ensures IsPending(s'.pending, id) <==> IsPending(s.pending, id) || id == s.msgId {
      if id == s.msgId {
        assert id in s'.pending[w];
      } else if IsPending(s.pending, id) {
        var v :| v in s.pending && id in s.pending[v];
        assert id in s'.pending[v];
      }
    }
    assert forall v :: v in s.pending && s.msgId in s.pending[v] ==> IsPending(s.pending, s.msgId);
  }

  lemma DispatchShape(s: State, i: nat)
    requires Shape(s) && Timed(s) && i < |s.slots|
    ensures Shape(StepDispatchTo(s, i)) && Timed(StepDispatchTo(s, i))
  {
  }

  lemma DispatchToKeeps(s: State, i: nat)
    requires Inv(s) && i < |s.slots|
    ensures Inv(StepDispatchTo(s, i))
  {
    if !Refuses(s) {
      DispatchShape(s, i);
      DispatchCounted(s, i);
      DispatchSettled(s, i);
    }
  }

  lemma ReleaseSum(s: State, w: Wid, ids: set<ReqId>)
    requires Shape(s) && Counted(s) && w in s.pending && ids <= s.pending[w]
    ensures Release(s, w, ids).pendingTotal == Sum(s.slots, Size(Release(s, w, ids).pending))
    ensures |ids| <= s.pendingTotal
  {
    if ids == {} {
      assert s.pending[w := s.pending[w] - ids] == s.pending;
    } else {
      assert s.slots[s.home[w]] == w;
      SumMapChange(s, w, s.pending[w] - ids);
      SumAtLeast(s.slots, s.home[w], Size(s.pending));
    }
  }

  lemma ReleaseCounted(s: State, w: Wid, ids: set<ReqId>)
    requires Shape(s) && Counted(s) && WithinQueue(s) && w in s.pending && ids <= s.pending[w]
    ensures Counted(Release(s, w, ids)) && WithinQueue(Release(s, w, ids))
  {
    ReleaseSum(s, w, ids);
  }

  lemma ReleaseTimed(s: State, w: Wid, ids: set<ReqId>)
    requires Timed(s) && w in s.pending
    ensures Timed(Release(s, w, ids))
  {
  }

  lemma ReleaseSettled(s: State, w: Wid, ids: set<ReqId>)
    requires SettledOnce(s) && w in s.pending && ids <= s.pending[w]
    ensures SettledOnce(Release(s, w, ids))
  {
    var s' := Release(s, w, ids);
    assert forall v :: v in s.pending ==> s'.pending[v] == s.pending[v] - if v == w then ids else {};
    forall id: ReqId ensures IsPending(s'.pending, id) <==> IsPending(s.pending, id) && id !in ids {
      if id in ids {
        assert id in s.pending[w];
      } else if IsPending(s.pending, id) {
        var v :| v in s.pending && id in s.pending[v];
        assert id in s'.pending[v];
      }
    }
    assert forall id :: id in ids ==> IsPending(s.pending, id);
  }

  lemma ReleaseShape(s: State, w: Wid, ids: set<ReqId>)
    requires Shape(s) && w in s.pending
    ensures Shape(Release(s, w, ids))
  {
  }

  lemma ReleaseKeeps(s: State, w: Wid, ids: set<ReqId>)
    requires Inv(s) && w in s.pending && ids <= s.pending[w]
    ensures Inv(Release(s, w, ids))
  {
    ReleaseShape(s, w, ids);
    ReleaseCounted(s, w, ids);
    ReleaseTimed(s, w, ids);
    ReleaseSettled(s, w, ids);
  }

  lemma SpawnShape(s: State, w: Wid)
    requires Shape(s) && !s.destroyed && w in s.pending && w !in s.exited
    ensures Shape(Spawn(s.(exited := s.exited + {w}), s.home[w]))
  {
  }

  lemma SpawnCounted(s: State, w: Wid)
    requires Shape(s) && Counted(s) && !s.destroyed && w in s.pending && w !in s.exited && s.pending[w] == {}
    ensures Counted(Spawn(s.(exited := s.exited + {w}), s.home[w]))
  {
    var i := s.home[w];
    var s' := Spawn(s.(exited := s.exited + {w}), i);
    assert s.slots[i] == w;
    SumUpdate(s.slots, i, s.nextWid, Size(s'.pending));
    SumSame(s.slots, Size(s.pending), Size(s'.pending));
  }

  lemma SpawnSettled(s: State, i: nat)
    requires SettledOnce(s) && Timed(s) && i < |s.slots| && s.nextWid !in s.pending
    ensures SettledOnce(Spawn(s, i)) && Timed(Spawn(s, i))
  {
    var s' := Spawn(s, i);
    forall id: ReqId ensures IsPending(s'.pending, id) <==> IsPending(s.pending, id) {
      if IsPending(s.pending, id) {
        var v :| v in s.pending && id in s.pending[v];
        assert id in s'.pending[v];
      }
    }
  }

  lemma ExitKeeps(s: State, w: Wid)
    requires Inv(s) && w in s.pending && w !in s.exited
    ensures Inv(StepExit(s, w))
  {
    ReleaseKeeps(s, w, s.pending[w]);
    var cleared := RejectAll(s, w);
    if !s.destroyed {
      SpawnShape(cleared, w);
      SpawnCounted(cleared, w);
      SpawnSettled(cleared.(exited := s.exited + {w}), s.home[w]);
    }
  }

  lemma {:induction false} RejectSlotsClears(s: State, n: nat)
    requires n <= |s.slots|
    ensures forall i :: 0 <= i < n && s.slots[i] in s.pending ==> RejectSlots(s, n).pending[s.slots[i]] == {}
  {
    if n > 0 {
      RejectSlotsClears(s, n - 1);
    }
  }

  lemma RejectSlotKeeps(s: State, w: Wid)
    requires Inv(s)
    ensures Inv(RejectSlot(s, w))
  {
    if w in s.pending {
      ReleaseKeeps(s, w, s.pending[w]);
    }
  }

  lemma {:induction false} RejectSlotsKeeps(s: State, n: nat)
    requires Inv(s) && n <= |s.slots|
    ensures Inv(RejectSlots(s, n))
  {
    hide Inv;
    if n > 0 {
      RejectSlotsKeeps(s, n - 1);
      RejectSlotKeeps(RejectSlots(s, n - 1), s.slots[n - 1]);
    }
  }

  /** Marking the pool destroyed commutes with clearing the maps. */
  lemma {:induction false} DestroyedFlag(s: State, n: nat)
    requires n <= |s.slots|
    ensures RejectSlots(s.(destroyed := true), n) == RejectSlots(s, n).(destroyed := true)
  {
    if n > 0 {
      DestroyedFlag(s, n - 1);
    }
  }

  lemma AllCleared(s: State)
    requires Shape(s) && Counted(s) && forall i :: 0 <= i < |s.slots| ==> s.pending[s.slots[i]] == {}
    ensures s.pendingTotal == 0 && forall w :: w in s.pending ==> s.pending[w] == {}
  {
    SumZero(s.slots, Size(s.pending));
  }

  lemma DestroyKeeps(s: State)
    requires Inv(s)
    ensures Inv(Step(s, Destroy))
  {
    DestroyedFlag(s, |s.slots|);
    RejectSlotsKeeps(s, |s.slots|);
    RejectSlotsClears(s, |s.slots|);
    AllCleared(RejectSlots(s, |s.slots|));
  }

  /** The index round robin picks always has a worker. */
  lemma RoundRobinIndex(s: State)
    requires Inv(s) && |s.slots| > 0
    ensures CanDispatchTo(s, s.idx % |s.slots|)
  {
  }

  lemma DispatchKeeps(s: State)
    requires Inv(s)
    ensures Inv(Step(s, Dispatch)) && Inv(Step(s, Create))
  {
    hide Inv;
    if |s.slots| > 0 {
      AdvanceKeeps(s);
      RoundRobinIndex(s);
      DispatchToKeeps(s.(idx := s.idx + 1), s.idx % |s.slots|);
    }
  }

  /** A timer names a pending request, so a timeout settles one like a reply does. */
  lemma TimeoutKeeps(s: State, w: Wid, id: ReqId)
    requires Inv(s)
    ensures Inv(Step(s, Timeout(w, id)))
  {
    if w in s.pending && (w, id) in s.timers {
      ReleaseKeeps(s, w, {id});
    }
  }

  lemma StepKeeps(s: State, e: Event)
    requires Inv(s)
    ensures Inv(Step(s, e))
  {
    hide Inv;
    match e
    case Dispatch => DispatchKeeps(s);
    case Create => DispatchKeeps(s);
    case DispatchTo(i) => if CanDispatchTo(s, i) { DispatchToKeeps(s, i); }
    case Message(w, id) => if w in s.pending && id in s.pending[w] { ReleaseKeeps(s, w, {id}); }
    case Timeout(w, id) => TimeoutKeeps(s, w, id);
    case WorkerError(w) => if w in s.pending { ReleaseKeeps(s, w, s.pending[w]); }
    case Exit(w) => if CanExit(s, w) { ExitKeeps(s, w); }
    case Destroy => DestroyKeeps(s);
  }

  // ---------------------------------------------------------------- runs

  lemma {:induction false} RunKeeps(size: nat, maxPending: nat, events: seq<Event>)
    ensures Inv(Run(Initial(size, maxPending), events))
  {
    if |events| == 0 {
      InitialInv(size, maxPending);
    } else {
      RunKeeps(size, maxPending, events[..|events| - 1]);
      StepKeeps(Run(Initial(size, maxPending), events[..|events| - 1]), events[|events| - 1]);
    }
  }

  /** In every run the counter equals the sum of the pending maps, those of replaced workers being
      empty, and stays within the queue limit, timers are live exactly for pending requests, every
      accepted request is pending in one map or settled exactly once, and a pending one can still be
      settled by its timer. */
  lemma PoolSound(size: nat, maxPending: nat, events: seq<Event>)
    ensures var s := Run(Initial(size, maxPending), events);
            && s.pendingTotal == Sum(s.slots, Size(s.pending))
            && (forall w :: w in s.pending && w !in s.slots ==> s.pending[w] == {})
            && 0 <= s.pendingTotal <= s.maxPending
            && (forall w: Wid, id: ReqId :: (w, id) in s.timers <==> w in s.pending && id in s.pending[w])
            && (forall id: ReqId ::
                  s.settled[id] == if id < s.msgId && !IsPending(s.pending, id) then 1 else 0)
            && (forall w, id :: w in s.pending && id in s.pending[w] ==> Step(s, Timeout(w, id)).settled[id] == 1)
  {
    RunKeeps(size, maxPending, events);
    var s := Run(Initial(size, maxPending), events);
    NoneElsewhere(s);
    forall w, id | w in s.pending && id in s.pending[w] ensures Step(s, Timeout(w, id)).settled[id] == 1 {
      TimerSettles(s, w, id);
    }
  }

  lemma NoneElsewhere(s: State)
    requires Shape(s) && Counted(s)
    ensures forall w :: w in s.pending && w !in s.slots ==> s.pending[w] == {}
  {
  }

  lemma TimerSettles(s: State, w: Wid, id: ReqId)
    requires Timed(s) && SettledOnce(s) && w in s.pending && id in s.pending[w]
    ensures Step(s, Timeout(w, id)).settled[id] == 1
  {
    assert IsPending(s.pending, id);
    assert (w, id) in s.timers;
  }

  /** These requests of `w`, and no others, are settled for good between the two states. */
  ghost predicate Settles(s: State, s': State, w: Wid, ids: set<ReqId>) {
    && w in s.pending && ids <= s.pending[w] && w in s'.pending && s'.pending[w] == s.pending[w] - ids
    && (forall v :: v in s.pending && v != w ==> v in s'.pending && s'.pending[v] == s.pending[v])
    && (forall id :: id in ids ==> s.settled[id] == 0 && s'.settled[id] == 1)
    && (forall id :: id !in ids ==> s'.settled[id] == s.settled[id])
    && s'.msgId == s.msgId
  }

  lemma ReleaseSettles(s: State, w: Wid, ids: set<ReqId>)
    requires Inv(s) && w in s.pending && ids <= s.pending[w]
    ensures Settles(s, Release(s, w, ids), w, ids)
  {
    forall id | id in ids ensures s.settled[id] == 0 {
      assert IsPending(s.pending, id);
    }
  }

  lemma HandlersRelease(s: State, w: Wid, id: ReqId)
    requires Timed(s) && w in s.pending
    ensures id in s.pending[w] ==> Step(s, Message(w, id)) == Release(s, w, {id}) == Step(s, Timeout(w, id))
    ensures id !in s.pending[w] ==> Step(s, Message(w, id)) == s
    ensures Step(s, WorkerError(w)) == Release(s, w, s.pending[w])
  {
    hide TimersOf;
  }

  /** In every run a reply and a timeout settle their request, and an error all those of its worker. */
  lemma HandlersSettle(size: nat, maxPending: nat, events: seq<Event>, w: Wid, id: ReqId)
    requires var s := Run(Initial(size, maxPending), events); w in s.pending
    ensures var s := Run(Initial(size, maxPending), events);
            && (id in s.pending[w] ==> Settles(s, Step(s, Message(w, id)), w, {id}))
            && (id in s.pending[w] ==> Settles(s, Step(s, Timeout(w, id)), w, {id}))
            && (id !in s.pending[w] ==> Step(s, Message(w, id)) == s)
            && Settles(s, Step(s, WorkerError(w)), w, s.pending[w])
  {
    RunKeeps(size, maxPending, events);
    var s := Run(Initial(size, maxPending), events);
    HandlersRelease(s, w, id);
    hide Settles, Release, Step, Inv;
    ReleaseSettles(s, w, s.pending[w]);
    if id in s.pending[w] {
      ReleaseSettles(s, w, {id});
    }
  }

  /** The worker's slot belongs to a new one, which has no requests. */
  ghost predicate Replaced(s: State, s': State, w: Wid) {
    && w in s.home && s.home[w] < |s.slots| && s.slots[s.home[w]] == w && s.nextWid !in s.pending
    && s'.slots == s.slots[s.home[w] := s.nextWid]
    && s.nextWid in s'.pending && s'.pending[s.nextWid] == {}
  }

  lemma ExitOf(s: State, w: Wid)
    requires Shape(s) && w in s.pending && w !in s.exited
    ensures if s.destroyed then Step(s, Exit(w)) == Release(s, w, s.pending[w]).(exited := s.exited + {w})
            else Replaced(s, Step(s, Exit(w)), w)
  {
    hide TimersOf;
  }

  lemma ExitLeaves(s: State, w: Wid)
    requires Shape(s) && w in s.pending && w !in s.exited
    ensures var s', r := Step(s, Exit(w)), Release(s, w, s.pending[w]);
            && s'.settled == r.settled && s'.msgId == r.msgId
            && forall v :: v in s.pending ==> v in s'.pending && s'.pending[v] == r.pending[v]
  {
    hide TimersOf;
  }

  lemma ExitSettles(s: State, w: Wid)
    requires Inv(s) && w in s.pending && w !in s.exited
    ensures Settles(s, Step(s, Exit(w)), w, s.pending[w])
  {
    ReleaseSettles(s, w, s.pending[w]);
    ExitLeaves(s, w);
    hide Step, Release, Inv;
  }

  /** In every run, an exit rejects what its worker still had, and gives its slot to a new worker
      without requests, unless the pool is destroyed. */
  lemma ExitReplaces(size: nat, maxPending: nat, events: seq<Event>, w: Wid)
    requires var s := Run(Initial(size, maxPending), events); w in s.pending && w !in s.exited
    ensures var s := Run(Initial(size, maxPending), events);
            var s' := Step(s, Exit(w));
            && Settles(s, s', w, s.pending[w])
            && (if Destroy in events then s'.slots == s.slots && s'.pending.Keys == s.pending.Keys
                else Replaced(s, s', w))
  {
    RunKeeps(size, maxPending, events);
    RunFrame(size, maxPending, events);
    var s := Run(Initial(size, maxPending), events);
    ExitSettles(s, w);
    ExitOf(s, w);
    hide Settles, Replaced, Step, Inv;
  }

  ghost predicate Drained(s: State, accepted: nat) {
    && s.destroyed && s.pendingTotal == 0 && s.msgId == accepted
    && (forall w :: w in s.pending ==> s.pending[w] == {})
    && s.timers == {}
  }

  lemma NoTimers(s: State)
    requires Timed(s) && forall w :: w in s.pending ==> s.pending[w] == {}
    ensures s.timers == {}
  {
    forall t ensures t !in s.timers {
      assert t == (t.0, t.1);
    }
  }

  lemma DrainedReleases(s: State, w: Wid, accepted: nat)
    requires Drained(s, accepted) && w in s.pending
    ensures Drained(RejectAll(s, w), accepted)
  {
  }

  lemma DrainedStays(s: State, e: Event, accepted: nat)
    requires Inv(s) && Drained(s, accepted)
    ensures Drained(Step(s, e), accepted)
  {
    match e
    case Destroy => DestroyDrains(s);
    case WorkerError(w) => if w in s.pending { DrainedReleases(s, w, accepted); }
    case Exit(w) => if w in s.pending { DrainedReleases(s, w, accepted); }
    case _ =>
  }

  lemma DestroyDrains(s: State)
    requires Inv(s)
    ensures Drained(Step(s, Destroy), s.msgId)
  {
    DestroyKeeps(s);
    MsgIdKept(s.(destroyed := true), |s.slots|);
    var s' := Step(s, Destroy);
    AllCleared(s');
    NoTimers(s');
  }

  lemma {:induction false} MsgIdKept(s: State, n: nat)
    requires n <= |s.slots|
    ensures RejectSlots(s, n).msgId == s.msgId
  {
    if n > 0 {
      MsgIdKept(s, n - 1);
    }
  }

  /** From destroy on, whatever events still come: nothing is pending, no timer is live, no
      further request is accepted, and each one ever accepted has been settled exactly once. */
  lemma {:induction false} DestroyIsFinal(size: nat, maxPending: nat, events: seq<Event>, later: seq<Event>)
    ensures var at := Run(Initial(size, maxPending), events);
            var s := Run(Step(at, Destroy), later);
            && Inv(s) && Drained(s, at.msgId)
            && forall id: ReqId :: id < at.msgId ==> s.settled[id] == 1
  {
    var at := Run(Initial(size, maxPending), events);
    RunKeeps(size, maxPending, events);
    if |later| == 0 {
      DestroyKeeps(at);
      DestroyDrains(at);
    } else {
      DestroyIsFinal(size, maxPending, events, later[..|later| - 1]);
      var before := Run(Step(at, Destroy), later[..|later| - 1]);
      StepKeeps(before, later[|later| - 1]);
      DrainedStays(before, later[|later| - 1], at.msgId);
    }
  }

  // ---------------------------------------------------------------- which requests are accepted, and by whom

  /** The slots stay, and the pool is destroyed from the first Destroy on. */
  lemma {:induction false} RunFrame(size: nat, maxPending: nat, events: seq<Event>)
    ensures var s := Run(Initial(size, maxPending), events);
            |s.slots| == size && s.maxPending == maxPending && (s.destroyed <==> Destroy in events)
  {
    if events == [] {
      InitialShape(size, maxPending);
    } else {
      var front, e := events[..|events| - 1], events[|events| - 1];
      RunFrame(size, maxPending, front);
      assert events == front + [e];
      StepFrame(Run(Initial(size, maxPending), front), e);
    }
  }

  lemma StepFrame(s: State, e: Event)
    ensures var s' := Step(s, e);
            |s'.slots| == |s.slots| && s'.maxPending == s.maxPending && (s'.destroyed <==> s.destroyed || e == Destroy)
  {
    if e.Destroy? {
      Untouched(s.(destroyed := true), |s.slots|);
    }
  }

  lemma {:induction false} Untouched(s: State, n: nat)
    requires n <= |s.slots|
    ensures RejectSlots(s, n).maxPending == s.maxPending && RejectSlots(s, n).idx == s.idx
         && RejectSlots(s, n).msgId == s.msgId
  {
    if n > 0 {
      Untouched(s, n - 1);
    }
  }

  predicate Requests(e: Event, size: nat) {
    match e
    case Dispatch => size > 0
    case Create => size > 0
    case DispatchTo(i) => i < size
    case _ => false
  }

  ghost predicate Accepted(s: State, e: Event) {
    Step(s, e).msgId == s.msgId + 1
  }

  lemma AcceptsUnlessFull(s: State, e: Event)
    requires Requests(e, |s.slots|) && forall i :: 0 <= i < |s.slots| ==> s.slots[i] in s.pending
    ensures Accepted(s, e) <==> !s.destroyed && s.pendingTotal < s.maxPending
  {
  }

  lemma CountedSum(s: State)
    requires Inv(s)
    ensures s.pendingTotal == Sum(s.slots, Size(s.pending))
  {
  }

  /** In every run a request is accepted exactly if the pool has not been destroyed and fewer are
      pending than the queue may hold. */
  lemma AcceptedIff(size: nat, maxPending: nat, events: seq<Event>, e: Event)
    requires Requests(e, size)
    ensures var s := Run(Initial(size, maxPending), events);
            Accepted(s, e) <==> Destroy !in events && Sum(s.slots, Size(s.pending)) < maxPending
  {
    var s := Run(Initial(size, maxPending), events);
    RunFrame(size, maxPending, events);
    RunKeeps(size, maxPending, events);
    ShapeHasAll(s);
    AcceptsUnlessFull(s, e);
    CountedSum(s);
    hide Inv, Step, Accepted;
  }

  /** The request goes to the worker in slot `i`: it alone waits for one more reply, under a timer. */
  ghost predicate GoesTo(s: State, s': State, i: nat) {
    && i < |s.slots| && s.slots[i] in s.pending
    && s'.pending == s.pending[s.slots[i] := s.pending[s.slots[i]] + {s.msgId}]
    && s'.timers == s.timers + {(s.slots[i], s.msgId)}
    && s'.slots == s.slots && s'.settled == s.settled
  }

  /** A dispatch that is accepted takes a turn, and so does a creation, accepted or not. */
  ghost predicate TakesTurn(s: State, e: Event) {
    e.Create? || (e.Dispatch? && Accepted(s, e))
  }

  /** How many turns have been taken. */
  ghost function Turns(size: nat, maxPending: nat, events: seq<Event>): nat {
    if events == [] then 0
    else
      var front, e := events[..|events| - 1], events[|events| - 1];
      Turns(size, maxPending, front) + if TakesTurn(Run(Initial(size, maxPending), front), e) then 1 else 0
  }

  lemma {:induction false} TurnsCounted(size: nat, maxPending: nat, events: seq<Event>)
    requires size > 0
    ensures Run(Initial(size, maxPending), events).idx == Turns(size, maxPending, events)
  {
    hide Step, TakesTurn;
    if events == [] {
      InitialShape(size, maxPending);
    } else {
      var front, e := events[..|events| - 1], events[|events| - 1];
      TurnsCounted(size, maxPending, front);
      RunFrame(size, maxPending, front);
      RunKeeps(size, maxPending, front);
      TurnCounted(Run(Initial(size, maxPending), front), e);
    }
  }

  lemma TurnCounted(s: State, e: Event)
    requires Inv(s) && |s.slots| > 0
    ensures Step(s, e).idx == s.idx + if TakesTurn(s, e) then 1 else 0
  {
    hide Inv, RejectSlots, TimersOf;
    RoundRobinIndex(s);
    Untouched(s.(destroyed := true), |s.slots|);
  }

  lemma RequestGoes(s: State, e: Event)
    requires Requests(e, |s.slots|) && Accepted(s, e)
    requires forall i :: 0 <= i < |s.slots| ==> s.slots[i] in s.pending
    ensures GoesTo(s, Step(s, e), if e.DispatchTo? then e.index else s.idx % |s.slots|)
  {
  }

  lemma ShapeHasAll(s: State)
    requires Inv(s)
    ensures forall i :: 0 <= i < |s.slots| ==> s.slots[i] in s.pending
  {
  }

  /** In every run the turns go round: the request of turn k, if accepted, goes to the worker then in
      slot k modulo the size of the pool, and one for a given slot to the worker in that slot. */
  lemma InTurn(size: nat, maxPending: nat, events: seq<Event>, e: Event)
    requires Requests(e, size) && Accepted(Run(Initial(size, maxPending), events), e)
    ensures var s := Run(Initial(size, maxPending), events);
            GoesTo(s, Step(s, e), if e.DispatchTo? then e.index else Turns(size, maxPending, events) % size)
  {
    var s := Run(Initial(size, maxPending), events);
    hide Inv, Step, GoesTo, Accepted;
    RunFrame(size, maxPending, events);
    RunKeeps(size, maxPending, events);
    TurnsCounted(size, maxPending, events);
    ShapeHasAll(s);
    RequestGoes(s, e);
  }

  ghost predicate TurnAt(size: nat, maxPending: nat, events: seq<Event>, p: nat)
    requires p < |events|
  {
    TakesTurn(Run(Initial(size, maxPending), events[..p]), events[p])
  }

  lemma {:induction false} NoTurns(size: nat, maxPending: nat, events: seq<Event>, p: nat, q: nat)
    requires p <= q <= |events| && forall i: nat :: p <= i < q ==> !TurnAt(size, maxPending, events, i)
    ensures Turns(size, maxPending, events[..q]) == Turns(size, maxPending, events[..p])
  {
    if p < q {
      NoTurns(size, maxPending, events, p, q - 1);
      assert events[..q][..q - 1] == events[..q - 1];
      assert !TurnAt(size, maxPending, events, q - 1);
    }
  }

  /** `picks` are the places of turns in a row, whatever other events lie between them. */
  ghost predicate InARow(size: nat, maxPending: nat, events: seq<Event>, picks: seq<nat>) {
    && (forall j :: 0 <= j < |picks| ==> picks[j] < |events| && TurnAt(size, maxPending, events, picks[j]))
    && (forall j :: 0 < j < |picks| ==> picks[j - 1] < picks[j])
    && (forall j, i: nat :: 0 < j < |picks| && picks[j - 1] < i < picks[j] ==> !TurnAt(size, maxPending, events, i))
  }

  lemma {:induction false} TurnOfPick(size: nat, maxPending: nat, events: seq<Event>, picks: seq<nat>, j: nat)
    requires InARow(size, maxPending, events, picks) && j < |picks|
    ensures Turns(size, maxPending, events[..picks[j]]) == Turns(size, maxPending, events[..picks[0]]) + j
  {
    hide TakesTurn, Run;
    if j > 0 {
      TurnOfPick(size, maxPending, events, picks, j - 1);
      var p := picks[j - 1];
      assert events[..p + 1][..p] == events[..p] && TurnAt(size, maxPending, events, p);
      assert forall i: nat :: p + 1 <= i < picks[j] ==> !TurnAt(size, maxPending, events, i);
      NoTurns(size, maxPending, events, p + 1, picks[j]);
    }
  }

  /** The `j`-th place after `r`, counted round. */
  function Around(r: nat, j: nat, n: nat): nat
    requires r < n && j < n
  {
    if r + j < n then r + j else r + j - n
  }

  lemma Multiple(n: nat, d: int)
    ensures d >= 1 ==> n * d >= n
    ensures d <= -1 ==> n * d <= 0 - n
  {
  }

  lemma Quotient(n: nat, d: int, r: int, r': int)
    requires 0 <= r < n && 0 <= r' < n && n * d == r - r'
    ensures r == r'
  {
    Multiple(n, d);
  }

  lemma Distributes(n: nat, d: int, d': int)
    ensures n * (d - d') == n * d - n * d' && n * (d + 1) == n * d + n
  {
  }

  lemma AroundIsRemainder(t: nat, j: nat, n: nat)
    requires j < n
    ensures (t + j) % n == Around(t % n, j, n)
  {
    var a, q, q' := t + j, t / n, (t + j) / n;
    assert t == n * q + t % n && a == n * q' + a % n;
    Distributes(n, q, q');
    Distributes(n, q + 1, q');
    var d := if t % n + j < n then q - q' else q + 1 - q';
    Quotient(n, d, a % n, Around(t % n, j, n));
  }

  lemma TookTurn(size: nat, maxPending: nat, events: seq<Event>, picks: seq<nat>, j: nat)
    requires size > 0 && InARow(size, maxPending, events, picks) && j < |picks|
    requires Accepted(Run(Initial(size, maxPending), events[..picks[j]]), events[picks[j]])
    ensures
      var t := Turns(size, maxPending, events[..picks[0]]);
      GoesTo(Run(Initial(size, maxPending), events[..picks[j]]), Run(Initial(size, maxPending), events[..picks[j] + 1]), (t + j) % size)
  {
    hide GoesTo, Accepted, Step, Run, Turns;
    TurnOfPick(size, maxPending, events, picks, j);
    assert TurnAt(size, maxPending, events, picks[j]);
    assert !events[picks[j]].DispatchTo?;
    InTurn(size, maxPending, events[..picks[j]], events[picks[j]]);
    RunNext(size, maxPending, events, picks[j]);
  }

  lemma RunNext(size: nat, maxPending: nat, events: seq<Event>, p: nat)
    requires p < |events|
    ensures Run(Initial(size, maxPending), events[..p + 1]) == Step(Run(Initial(size, maxPending), events[..p]), events[p])
  {
    hide Step;
    assert events[..p + 1][..p] == events[..p];
  }

  predicate EachOnce(order: seq<nat>, n: nat) {
    && |order| == n
    && (forall j, k :: 0 <= j < k < n ==> order[j] != order[k])
    && (forall i: nat :: i < n ==> i in order)
  }

  lemma RoundOnce(t: nat, n: nat) returns (order: seq<nat>)
    requires n > 0
    ensures EachOnce(order, n) && forall j :: 0 <= j < n ==> order[j] == (t + j) % n
  {
    order := seq(n, j requires 0 <= j < n => Around(t % n, j, n));
    forall j | 0 <= j < n ensures order[j] == (t + j) % n {
      AroundIsRemainder(t, j, n);
    }
    forall i: nat | i < n ensures i in order {
      var j := if i >= t % n then i - t % n else i + n - t % n;
      assert order[j] == i;
    }
  }

  /** As many turns in a row as there are workers, each with a request that is accepted, use every slot
      exactly once: `order` names them. */
  lemma EverySlotOnce(size: nat, maxPending: nat, events: seq<Event>, picks: seq<nat>) returns (order: seq<nat>)
    requires |picks| == size > 0 && InARow(size, maxPending, events, picks)
    requires forall j :: 0 <= j < size ==> Accepted(Run(Initial(size, maxPending), events[..picks[j]]), events[picks[j]])
    ensures EachOnce(order, size)
    ensures forall j :: 0 <= j < size ==>
      GoesTo(Run(Initial(size, maxPending), events[..picks[j]]), Run(Initial(size, maxPending), events[..picks[j] + 1]), order[j])
  {
    hide GoesTo, Accepted, Run, Turns, EachOnce;
    order := RoundOnce(Turns(size, maxPending, events[..picks[0]]), size);
    assert |order| == size by { OnceEach(order, size); }
    forall j | 0 <= j < size
      ensures GoesTo(Run(Initial(size, maxPending), events[..picks[j]]), Run(Initial(size, maxPending), events[..picks[j] + 1]), order[j])
    {
      TookTurn(size, maxPending, events, picks, j);
    }
  }

  lemma OnceEach(order: seq<nat>, n: nat)
    requires EachOnce(order, n)
    ensures |order| == n
  {
  }

  /** Two workers and room for one request. */
  function Two(idx: nat, ids: nat, first: set<ReqId>, settled: multiset<ReqId>): State {
    State(1, idx, ids, |first|, false, [0, 1], map[0 := 0, 1 := 1], map[0 := first, 1 := {}], TimersOf(0, first), {}, 2, settled)
  }

  lemma TwoAtFirst()
    ensures Initial(2, 1) == Two(0, 0, {}, multiset{})
  {
    InitialNext(0, 1);
    InitialNext(1, 1);
    assert TimersOf(0, {}) == {};
  }

  lemma DispatchToFirst(idx: nat, ids: nat, settled: multiset<ReqId>)
    requires idx % 2 == 0
    ensures Step(Two(idx, ids, {}, settled), Dispatch) == Two(idx + 1, ids + 1, {ids}, settled)
  {
    assert TimersOf(0, {}) == {} && TimersOf(0, {ids}) == {(0, ids)};
  }

  lemma CreateRefused(idx: nat, ids: nat, id: ReqId, settled: multiset<ReqId>)
    ensures Step(Two(idx, ids, {id}, settled), Create) == Two(idx + 1, ids, {id}, settled)
  {
  }

  lemma FirstAnswers(idx: nat, ids: nat, id: ReqId, settled: multiset<ReqId>)
    ensures Step(Two(idx, ids, {id}, settled), Message(0, id)) == Two(idx, ids, {}, settled + multiset{id})
  {
    assert TimersOf(0, {id}) == {(0, id)} && TimersOf(0, {}) == {};
    assert {id} - {id} == {};
    assert multiset({id}) == multiset{id};
  }

  lemma TwoHas(idx: nat, ids: nat, first: set<ReqId>, settled: multiset<ReqId>)
    ensures var s := Two(idx, ids, first, settled); s.pending == map[0 := first, 1 := {}] && s.msgId == ids
  {
  }

  /** A creation that is refused because the queue is full still takes its turn: of two workers the same
      one gets the request before it and the one after. */
  lemma RefusedCreationTakesTurn()
    ensures
      var s1 := Step(Initial(2, 1), Dispatch);
      var s2 := Step(s1, Create);
      var s3 := Step(Step(s2, Message(0, 0)), Dispatch);
      && s1.pending == map[0 := {0}, 1 := {}] && s1.msgId == s2.msgId == 1
      && s3.pending == map[0 := {1}, 1 := {}]
  {
    hide *;
    var none, one := multiset{}, multiset{} + multiset{0};
    TwoAtFirst();
    DispatchToFirst(0, 0, none);
    CreateRefused(1, 1, 0, none);
    FirstAnswers(2, 1, 0, none);
    DispatchToFirst(2, 1, one);
    TwoHas(1, 1, {0}, none);
    TwoHas(2, 1, {0}, none);
    TwoHas(3, 2, {1}, one);
  }

  // ---------------------------------------------------------------- the class

  lemma OneMoreGone(w: Wid, all: set<ReqId>, todo: set<ReqId>, id: ReqId)
    requires todo <= all && id in todo
    ensures TimersOf(w, all - (todo - {id})) == TimersOf(w, all - todo) + {(w, id)}
    ensures multiset(all - (todo - {id})) == multiset(all - todo) + multiset{id}
  {
    assert all - (todo - {id}) == (all - todo) + {id};
  }

  /** The pool object; its methods are dispatch, destroy and the event handlers. */
  class Pool {
    const maxPending: nat
    var idx: nat
    var msgId: nat
    var pendingTotal: int
    var destroyed: bool
    const workers: array<Wid>
    var home: map<Wid, nat>             // the index each worker's handlers were created with
    var pending: map<Wid, set<ReqId>>   // the pending map each worker's handlers hold
    var timers: set<(Wid, ReqId)>
    var exited: set<Wid>
    var nextWid: nat
    ghost var settled: multiset<ReqId>

    ghost function Abs(): State
      reads this, workers
    {
      State(maxPending, idx, msgId, pendingTotal, destroyed, workers[..], home, pending, timers,
            exited, nextWid, settled)
    }

    constructor (size: nat, maxQueueDepth: nat)
      ensures fresh(workers) && workers.Length == size
      ensures Abs() == Initial(size, if maxQueueDepth > 0 then maxQueueDepth else size * 64)
    {
      maxPending := if maxQueueDepth > 0 then maxQueueDepth else size * 64;
      idx, msgId, pendingTotal, destroyed := 0, 0, 0, false;
      workers := new Wid[size];
      home, pending, timers, exited, nextWid, settled := map[], map[], {}, {}, 0, multiset{};
      new;
      hide Initial;
      ghost var m := maxPending;
      InitialNone(m);
      for i := 0 to size
        invariant nextWid == i && m == maxPending
        invariant State(m, idx, msgId, pendingTotal, destroyed, workers[..i], home, pending, timers,
                        exited, nextWid, settled) == Initial(i, m)
      {
        InitialNext(i, m);
        ghost var before := workers[..i];
        workers[i] := nextWid;
        home := home[nextWid := i];
        pending := pending[nextWid := {}];
        nextWid := nextWid + 1;
        assert workers[..i + 1] == before + [i];
      }
      assert workers[..size] == workers[..];
    }

    method Dispatch() returns (accepted: bool)
      requires Shape(Abs()) && workers.Length > 0
      modifies this
      ensures accepted == !Refuses(old(Abs()))
      ensures Abs() == Step(old(Abs()), Event.Dispatch)
    {
      if destroyed || pendingTotal >= maxPending {
        return false;
      }
      var i := idx % workers.Length;
      idx := idx + 1;
      accepted := DispatchTo(i);
    }

    /** createCalculator takes its turn before it can be refused. */
    method CreateCalculator() returns (index: nat, accepted: bool)
      requires Shape(Abs()) && workers.Length > 0
      modifies this
      ensures accepted == !Refuses(old(Abs())) && index == old(idx) % workers.Length
      ensures Abs() == Step(old(Abs()), Event.Create)
    {
      index := idx % workers.Length;
      idx := idx + 1;
      accepted := DispatchTo(index);
    }

    method DispatchTo(i: nat) returns (accepted: bool)
      requires Shape(Abs()) && i < workers.Length
      modifies this
      ensures accepted == !Refuses(old(Abs()))
      ensures Abs() == Step(old(Abs()), Event.DispatchTo(i))
    {
      if destroyed || pendingTotal >= maxPending {
        return false;
      }
      var id := msgId;
      msgId := msgId + 1;
      var w := workers[i];
      assert w == Abs().slots[i];
      pendingTotal := pendingTotal + 1;
      timers := timers + {(w, id)};
      pending := pending[w := pending[w] + {id}];
      accepted := true;
    }

    method OnMessage(w: Wid, id: ReqId)
      requires w in pending
      modifies this
      ensures Abs() == Step(old(Abs()), Message(w, id))
    {
      if id !in pending[w] {
        return;
      }
      pendingTotal := pendingTotal - 1;
      pending := pending[w := pending[w] - {id}];
      timers := timers - {(w, id)};
      settled := settled + multiset{id};
      assert TimersOf(w, {id}) == {(w, id)};
    }

    /** Only a live timer fires. */
    method OnTimeout(w: Wid, id: ReqId)
      requires w in pending && (w, id) in timers
      modifies this
      ensures Abs() == Step(old(Abs()), Timeout(w, id))
    {
      pendingTotal := pendingTotal - 1;
      pending := pending[w := pending[w] - {id}];
      timers := timers - {(w, id)};
      settled := settled + multiset{id};
      assert TimersOf(w, {id}) == {(w, id)};
    }

    /** The loop that the error and exit handlers and destroy run over one pending map. */
    method RejectMap(w: Wid)
      requires w in pending
      modifies this`pendingTotal, this`pending, this`timers, this`settled
      ensures Abs() == RejectAll(old(Abs()), w)
    {
      pendingTotal := pendingTotal - |pending[w]|;
      var todo := pending[w];
      while todo != {}
        invariant pending == old(pending) && todo <= pending[w]
        invariant pendingTotal == old(pendingTotal) - |pending[w]|
        invariant timers == old(timers) - TimersOf(w, pending[w] - todo)
        invariant settled == old(settled) + multiset(pending[w] - todo)
        decreases todo
      {
        var id :| id in todo;
        OneMoreGone(w, pending[w], todo, id);
        timers := timers - {(w, id)};
        settled := settled + multiset{id};
        todo := todo - {id};
      }
      assert pending[w] - todo == pending[w] && pending[w] - pending[w] == {};
      pending := pending[w := {}];
    }

    method OnError(w: Wid)
      requires w in pending
      modifies this
      ensures Abs() == Step(old(Abs()), WorkerError(w))
    {
      RejectMap(w);
    }

    method OnExit(w: Wid)
      requires Shape(Abs()) && w in pending && w !in exited
      modifies this, workers
      ensures Abs() == Step(old(Abs()), Exit(w))
    {
      assert Abs().slots == workers[..];
      RejectMap(w);
      exited := exited + {w};
      if !destroyed {
        var index := home[w];
        workers[index] := nextWid;
        home := home[nextWid := index];
        pending := pending[nextWid := {}];
        nextWid := nextWid + 1;
      }
    }

    method Destroy()
      requires Shape(Abs())
      modifies this
      ensures Abs() == Step(old(Abs()), Event.Destroy)
    {
      destroyed := true;
      ghost var start := Abs();
      for i := 0 to workers.Length
        invariant Abs() == RejectSlots(start, i)
      {
        assert Abs().slots[i] in pending;
        RejectMap(workers[i]);
      }
    }
  }
}
