// Any number of debitWallet transactions, top-ups and cap changes, interleaved statement by
// statement.  Row locks serialise the transactions of one account; nothing else does.  The
// main result is that every interleaving equals the debits run one at a time.
module WalletConcurrency {
  import opened Wrappers
  import opened WalletLedger

  type Pid = nat

  /** How far a transaction is, with the values its session has read so far. */
  datatype Stage =
    | Begun
    | RowLocked(wallet: Wallet)
    | BalanceOk(wallet: Wallet)
    | CapOk
    | Updated(newBalance: nat)
    | EventLogged(newBalance: nat, event: nat)
    | RowWritten(newBalance: nat, event: nat)

  datatype Request = Request(account: Account, cost: int, month: int)

  datatype Tx = Tx(req: Request, stage: Stage)

  datatype Reply = Done(out: Outcome) | Threw

  /** `ops` is the history of operations in the order they took effect, and `point[p]` the
      place in it of the call that `p` made. */
  datatype Sys = Sys(
    db: Db,
    locks: map<Account, Pid>,
    txs: map<Pid, Tx>,
    requests: map<Pid, Request>,
    replies: map<Pid, Reply>,
    nextEvent: nat,
    ops: seq<Op>,
    point: map<Pid, nat>)

  datatype Action =
    | Begin(p: Pid, req: Request)
    | LockRow(p: Pid)
    | CheckBalance(p: Pid)
    | CheckCap(p: Pid)
    | UpdateWallet(p: Pid)
    | InsertEvent(p: Pid)
    | InsertRow(p: Pid)
    | Commit(p: Pid)
    | Fail(p: Pid)
    | TopUp(account: Account, cents: nat)
    | SetCap(account: Account, cap: Option<nat>)

  function Start(db0: Db): Sys {
    Sys(db0, map[], map[], map[], map[], 0, [], map[])
  }

  // ---------------------------------------------------------------- steps

  predicate At(s: Sys, p: Pid) {
    p in s.txs
  }

  function DebitOp(req: Request, event: nat): Op {
    OpDebit(req.account, req.cost, req.month, event)
  }

  /** The transaction ends: its lock goes, and the caller gets a reply. */
  function End(s: Sys, p: Pid, reply: Reply): Sys
    requires At(s, p)
  {
    var a := s.txs[p].req.account;
    s.(locks := if a in s.locks && s.locks[a] == p then s.locks - {a} else s.locks,
       txs := s.txs - {p},
       replies := s.replies[p := reply])
  }

  /** A refused debit takes effect as an operation that changes nothing. */
  function Refuse(s: Sys, p: Pid, out: Outcome): Sys
    requires At(s, p)
  {
    End(s.(ops := s.ops + [DebitOp(s.txs[p].req, 0)], point := s.point[p := |s.ops|]), p, Done(out))
  }

  function To(s: Sys, p: Pid, stage: Stage): Sys
    requires At(s, p)
  {
    s.(txs := s.txs[p := s.txs[p].(stage := stage)])
  }

  function StepBegin(s: Sys, p: Pid, req: Request): Sys {
    if p in s.requests then s
    else if req.cost <= 0 then
      s.(requests := s.requests[p := req],
         replies := s.replies[p := Done(ZeroCost)],
         ops := s.ops + [DebitOp(req, 0)],
         point := s.point[p := |s.ops|])
    else
      s.(requests := s.requests[p := req], txs := s.txs[p := Tx(req, Begun)])
  }

  function StepLockRow(s: Sys, p: Pid): Sys
    requires At(s, p) && s.txs[p].stage.Begun?
  {
    var a := s.txs[p].req.account;
    if a !in s.db.wallets then Refuse(s, p, NoWallet)
    else if a in s.locks then s  // waits
    else To(s.(locks := s.locks[a := p]), p, RowLocked(s.db.wallets[a]))
  }

  function StepCheckBalance(s: Sys, p: Pid): Sys
    requires At(s, p) && s.txs[p].stage.RowLocked?
  {
    var tx := s.txs[p];
    if tx.req.cost >= 0 && BalanceGate(tx.stage.wallet, tx.req.cost) then To(s, p, BalanceOk(tx.stage.wallet))
    else Refuse(s, p, Insufficient)
  }

  function StepCheckCap(s: Sys, p: Pid): Sys
    requires At(s, p) && s.txs[p].stage.BalanceOk?
  {
    var tx := s.txs[p];
    if tx.req.cost >= 0
       && CapGate(tx.stage.wallet, s.db.ledger, tx.req.account, tx.req.cost, tx.req.month)
    then To(s, p, CapOk)
    else Refuse(s, p, CapExceeded)
  }

  /** The UPDATE subtracts from the balance the row has now, not from the one read. */
  function StepUpdateWallet(s: Sys, p: Pid): Sys
    requires At(s, p) && s.txs[p].stage.CapOk?
  {
    var req := s.txs[p].req;
    if req.account in s.db.wallets && 0 <= req.cost <= Micros(s.db.wallets[req.account].balance)
    then To(s, p, Updated(Stored(Micros(s.db.wallets[req.account].balance) - req.cost)))
    else End(s, p, Threw)  // the CHECK on the balance column
  }

  /** Sequence values are handed out for good, even if the transaction rolls back. */
  function StepInsertEvent(s: Sys, p: Pid): Sys
    requires At(s, p) && s.txs[p].stage.Updated?
  {
    To(s.(nextEvent := s.nextEvent + 1), p, EventLogged(s.txs[p].stage.newBalance, s.nextEvent))
  }

  function StepInsertRow(s: Sys, p: Pid): Sys
    requires At(s, p) && s.txs[p].stage.EventLogged?
  {
    To(s, p, RowWritten(s.txs[p].stage.newBalance, s.txs[p].stage.event))
  }

  /** The uncommitted writes of the transaction become visible. */
  function StepCommit(s: Sys, p: Pid): Sys
    requires At(s, p) && s.txs[p].stage.RowWritten?
  {
    var req, nb, ev := s.txs[p].req, s.txs[p].stage.newBalance, s.txs[p].stage.event;
    if req.account in s.db.wallets && req.cost >= 0 then
      var db := Db(s.db.wallets[req.account := s.db.wallets[req.account].(balance := nb)],
                   s.db.ledger + [Debit(req.account, req.cost, nb, ev, req.month)],
                   s.db.events[ev := Usage(req.account, req.cost)]);
      End(s.(db := db, ops := s.ops + [DebitOp(req, ev)], point := s.point[p := |s.ops|]),
          p, Done(Debited(nb)))
    else End(s, p, Threw)
  }

  /** An update from elsewhere needs the row lock too. */
  function StepOther(s: Sys, op: Op): Sys {
    if op.account in s.locks then s
    else s.(db := Apply(s.db, op), ops := s.ops + [op])
  }

  function Step(s: Sys, a: Action): Sys {
    match a
    case Begin(p, req) => StepBegin(s, p, req)
    case LockRow(p) => if At(s, p) && s.txs[p].stage.Begun? then StepLockRow(s, p) else s
    case CheckBalance(p) => if At(s, p) && s.txs[p].stage.RowLocked? then StepCheckBalance(s, p) else s
    case CheckCap(p) => if At(s, p) && s.txs[p].stage.BalanceOk? then StepCheckCap(s, p) else s
    case UpdateWallet(p) => if At(s, p) && s.txs[p].stage.CapOk? then StepUpdateWallet(s, p) else s
    case InsertEvent(p) => if At(s, p) && s.txs[p].stage.Updated? then StepInsertEvent(s, p) else s
    case InsertRow(p) => if At(s, p) && s.txs[p].stage.EventLogged? then StepInsertRow(s, p) else s
    case Commit(p) => if At(s, p) && s.txs[p].stage.RowWritten? then StepCommit(s, p) else s
    case Fail(p) => if At(s, p) then End(s, p, Threw) else s
    case TopUp(acct, cents) => StepOther(s, OpCredit(acct, cents))
    case SetCap(acct, cap) => StepOther(s, OpSetCap(acct, cap))
  }

  function Run(s: Sys, acts: seq<Action>): Sys {
    if |acts| == 0 then s
    else Step(Run(s, acts[..|acts| - 1]), acts[|acts| - 1])
  }

  // ---------------------------------------------------------------- the invariant

  /** What a transaction that holds its lock knows about the committed tables. */
  ghost predicate Knows(db: Db, nextEvent: nat, tx: Tx) {
    var a, cost, month := tx.req.account, tx.req.cost, tx.req.month;
    && a in db.wallets
    && cost > 0
    && match tx.stage
       case Begun => true
       case RowLocked(w) => w == db.wallets[a]
       case BalanceOk(w) => w == db.wallets[a] && BalanceGate(w, cost)
       case CapOk => Answer(db, a, cost, month).Debited?
       case Updated(nb) => Answer(db, a, cost, month) == Debited(nb)
       case EventLogged(nb, ev) => Answer(db, a, cost, month) == Debited(nb) && ev < nextEvent && ev !in db.events
       case RowWritten(nb, ev) => Answer(db, a, cost, month) == Debited(nb) && ev < nextEvent && ev !in db.events
  }

  predicate HasEvent(st: Stage) {
    st.EventLogged? || st.RowWritten?
  }

  ghost predicate LocksMatch(s: Sys) {
    && (forall a :: a in s.locks ==> s.locks[a] in s.txs && s.txs[s.locks[a]].req.account == a
                                     && !s.txs[s.locks[a]].stage.Begun?)
    && (forall p :: p in s.txs && !s.txs[p].stage.Begun?
          ==> s.txs[p].req.account in s.locks && s.locks[s.txs[p].req.account] == p
              && Knows(s.db, s.nextEvent, s.txs[p]))
    && (forall p :: p in s.txs ==> s.txs[p].req.cost > 0)
  }

  ghost predicate IdsFresh(s: Sys) {
    && (forall e :: e in s.db.events ==> e < s.nextEvent)
    && (forall p, q :: p in s.txs && q in s.txs && p != q
          && HasEvent(s.txs[p].stage) && HasEvent(s.txs[q].stage)
          ==> s.txs[p].stage.event != s.txs[q].stage.event)
  }

  /** The tables are what the history produces when run sequentially. */
  ghost predicate Replays(db0: Db, s: Sys) {
    s.db == Replay(db0, s.ops) && FreshIds(db0, s.ops)
  }

  /** The reply a caller got is the answer of the sequential history at its point. */
  ghost predicate ReplySound(db0: Db, s: Sys, p: Pid)
    requires p in s.replies
  {
    s.replies[p].Done? ==>
      && p in s.requests && p in s.point && s.point[p] < |s.ops|
      && s.ops[s.point[p]].OpDebit?
      && s.ops[s.point[p]] == DebitOp(s.requests[p], s.ops[s.point[p]].event)
      && AnswerOf(Replay(db0, s.ops[..s.point[p]]), s.ops[s.point[p]]) == s.replies[p].out
  }

  ghost predicate RepliesSound(db0: Db, s: Sys) {
    && (forall p :: p in s.replies ==> p in s.requests && ReplySound(db0, s, p))
    && (forall p :: p in s.txs ==> p in s.requests && s.requests[p] == s.txs[p].req && p !in s.replies)
  }

  ghost predicate Inv(db0: Db, s: Sys) {
    LocksMatch(s) && IdsFresh(s) && Replays(db0, s) && RepliesSound(db0, s)
  }

  // ---------------------------------------------------------------- preservation

  lemma FreshIdsStep(db0: Db, ops: seq<Op>, op: Op)
    requires FreshIds(db0, ops)
    requires op.OpDebit? && AnswerOf(Replay(db0, ops), op).Debited? ==> op.event !in Replay(db0, ops).events
    ensures FreshIds(db0, ops + [op])
  {
    var all := ops + [op];
    forall i | 0 <= i < |all| && all[i].OpDebit? && AnswerOf(Replay(db0, all[..i]), all[i]).Debited?
      ensures all[i].event !in Replay(db0, all[..i]).events
    {
      assert all[..i] == if i < |ops| then ops[..i] else ops;
    }
  }

  /** The history grows by one operation, and the earlier replies stay right. */
  lemma GrowHistory(db0: Db, s: Sys, op: Op)
    requires Replays(db0, s)
    requires op.OpDebit? && AnswerOf(s.db, op).Debited? ==> op.event !in s.db.events
    ensures Replay(db0, s.ops + [op]) == Apply(s.db, op)
    ensures FreshIds(db0, s.ops + [op])
    ensures forall k: nat :: k <= |s.ops| ==> (s.ops + [op])[..k] == s.ops[..k]
    ensures s.ops[..|s.ops|] == s.ops
  {
    ReplayStep(db0, s.ops, op);
    FreshIdsStep(db0, s.ops, op);
  }

  lemma RepliesKept(db0: Db, s: Sys, s': Sys, op: Op)
    requires RepliesSound(db0, s)
    requires s'.ops == s.ops || s'.ops == s.ops + [op]
    requires forall q :: q in s.replies ==>
      && q in s'.replies && s'.replies[q] == s.replies[q]
      && (q in s.point ==> q in s'.point && s'.point[q] == s.point[q])
      && (q in s.requests ==> q in s'.requests && s'.requests[q] == s.requests[q])
    ensures forall q :: q in s.replies ==> ReplySound(db0, s', q)
  {
    forall q | q in s.replies && s.replies[q].Done? ensures ReplySound(db0, s', q) {
      assert ReplySound(db0, s, q);
      assert s'.ops[..s.point[q]] == s.ops[..s.point[q]];
    }
  }

  lemma BeginLocks(s: Sys, p: Pid, req: Request)
    requires LocksMatch(s) && p !in s.txs && req.cost > 0
    ensures LocksMatch(s.(requests := s.requests[p := req], txs := s.txs[p := Tx(req, Begun)]))
  {
    assert forall a :: a in s.locks ==> s.locks[a] != p;
  }

  /** A free event is answered at once, without a transaction. */
  lemma FreeCallKeeps(db0: Db, s: Sys, p: Pid, req: Request)
    requires Inv(db0, s) && p !in s.requests && req.cost <= 0
    ensures Inv(db0, StepBegin(s, p, req))
  {
    var s' := StepBegin(s, p, req);
    assert p !in s.replies && p !in s.txs;
    GrowHistory(db0, s, DebitOp(req, 0));
    RepliesKept(db0, s, s', DebitOp(req, 0));
    assert ReplySound(db0, s', p);
    assert s'.db == s.db && s'.txs == s.txs && s'.locks == s.locks && s'.nextEvent == s.nextEvent;
  }

  lemma BeginReplies(db0: Db, s: Sys, p: Pid, req: Request)
    requires RepliesSound(db0, s) && p !in s.requests && req.cost > 0
    ensures RepliesSound(db0, StepBegin(s, p, req))
  {
    assert p !in s.replies && p !in s.txs;
    RepliesKept(db0, s, StepBegin(s, p, req), DebitOp(req, 0));
  }

  lemma BeginKeeps(db0: Db, s: Sys, p: Pid, req: Request)
    requires Inv(db0, s)
    ensures Inv(db0, StepBegin(s, p, req))
  {
    if p !in s.requests {
      if req.cost <= 0 {
        FreeCallKeeps(db0, s, p, req);
      } else {
        BeginReplies(db0, s, p, req);
        BeginLocks(s, p, req);
        assert p !in s.txs && IdsFresh(StepBegin(s, p, req)) && Replays(db0, StepBegin(s, p, req));
      }
    }
  }

  lemma EndLocks(s: Sys, p: Pid, reply: Reply)
    requires LocksMatch(s) && IdsFresh(s) && At(s, p)
    ensures LocksMatch(End(s, p, reply)) && IdsFresh(End(s, p, reply))
  {
    var s' := End(s, p, reply);
    forall q | q in s'.txs && !s'.txs[q].stage.Begun?
      ensures s'.txs[q].req.account in s'.locks && s'.locks[s'.txs[q].req.account] == q
              && Knows(s'.db, s'.nextEvent, s'.txs[q])
    {
      assert s.locks[s.txs[q].req.account] == q;
    }
  }

  lemma RefuseReplies(db0: Db, s: Sys, p: Pid, out: Outcome)
    requires RepliesSound(db0, s) && Replays(db0, s) && At(s, p)
    requires AnswerOf(s.db, DebitOp(s.txs[p].req, 0)) == out && !out.Debited?
    ensures RepliesSound(db0, Refuse(s, p, out))
  {
    hide Replay, AnswerOf;
    var s' := Refuse(s, p, out);
    RepliesKept(db0, s, s', DebitOp(s.txs[p].req, 0));
    assert ReplySound(db0, s', p);
  }

  lemma RefuseKeeps(db0: Db, s: Sys, p: Pid, out: Outcome)
    requires Inv(db0, s) && At(s, p)
    requires AnswerOf(s.db, DebitOp(s.txs[p].req, 0)) == out && !out.Debited?
    ensures Inv(db0, Refuse(s, p, out))
  {
    hide RepliesSound;
    var s' := Refuse(s, p, out);
    RefuseReplies(db0, s, p, out);
    GrowHistory(db0, s, DebitOp(s.txs[p].req, 0));
    EndLocks(s, p, Done(out));
    assert s'.db == s.db && s'.txs == End(s, p, Done(out)).txs && s'.locks == End(s, p, Done(out)).locks;
  }

  function Moved(s: Sys, p: Pid, stage: Stage, n: nat): Sys
    requires At(s, p)
  {
    To(s.(locks := s.locks[s.txs[p].req.account := p], nextEvent := n), p, stage)
  }

  lemma KnowsLater(db: Db, n: nat, n': nat, tx: Tx)
    requires Knows(db, n, tx) && n <= n'
    ensures Knows(db, n', tx)
  {
  }

  lemma MoveLocks(s: Sys, p: Pid, stage: Stage, n: nat)
    requires LocksMatch(s) && At(s, p) && !stage.Begun?
    requires s.txs[p].req.account in s.locks ==> s.locks[s.txs[p].req.account] == p
    requires n >= s.nextEvent && Knows(s.db, n, s.txs[p].(stage := stage))
    ensures LocksMatch(Moved(s, p, stage, n))
  {
    var s' := Moved(s, p, stage, n);
    forall q | q in s'.txs && !s'.txs[q].stage.Begun?
      ensures s'.txs[q].req.account in s'.locks && s'.locks[s'.txs[q].req.account] == q
              && Knows(s'.db, n, s'.txs[q])
    {
      if q != p {
        assert s.locks[s.txs[q].req.account] == q;
        KnowsLater(s.db, s.nextEvent, n, s.txs[q]);
      }
    }
  }

  lemma MoveReplies(db0: Db, s: Sys, p: Pid, stage: Stage, n: nat)
    requires RepliesSound(db0, s) && At(s, p)
    ensures RepliesSound(db0, Moved(s, p, stage, n))
  {
    RepliesKept(db0, s, Moved(s, p, stage, n), DebitOp(s.txs[p].req, 0));
  }

  /** A step that only moves transaction `p` on, with what it knows still true of the tables. */
  lemma MoveKeeps(db0: Db, s: Sys, p: Pid, stage: Stage, n: nat)
    requires Inv(db0, s) && At(s, p) && !stage.Begun?
    requires s.txs[p].req.account in s.locks ==> s.locks[s.txs[p].req.account] == p
    requires n >= s.nextEvent && Knows(s.db, n, s.txs[p].(stage := stage))
    requires HasEvent(stage) ==>
      forall q :: q in s.txs && q != p && HasEvent(s.txs[q].stage) ==> s.txs[q].stage.event != stage.event
    ensures Inv(db0, Moved(s, p, stage, n))
  {
    var s' := Moved(s, p, stage, n);
    MoveLocks(s, p, stage, n);
    MoveReplies(db0, s, p, stage, n);
    assert IdsFresh(s');
  }

  lemma LockRowKeeps(db0: Db, s: Sys, p: Pid)
    requires Inv(db0, s) && At(s, p) && s.txs[p].stage.Begun?
    ensures Inv(db0, StepLockRow(s, p))
  {
    var a := s.txs[p].req.account;
    if a !in s.db.wallets {
      RefuseKeeps(db0, s, p, NoWallet);
    } else if a !in s.locks {
      MoveKeeps(db0, s, p, RowLocked(s.db.wallets[a]), s.nextEvent);
    }
  }

  /** A transaction past its lock step holds its account's lock, so setting it again is no change. */
  lemma HoldsLock(s: Sys, p: Pid)
    requires LocksMatch(s) && At(s, p) && !s.txs[p].stage.Begun?
    ensures s.txs[p].req.account in s.locks && s.locks[s.txs[p].req.account] == p
    ensures s.locks[s.txs[p].req.account := p] == s.locks
    ensures Knows(s.db, s.nextEvent, s.txs[p])
  {
  }

  lemma CheckBalanceKeeps(db0: Db, s: Sys, p: Pid)
    requires Inv(db0, s) && At(s, p) && s.txs[p].stage.RowLocked?
    ensures Inv(db0, StepCheckBalance(s, p))
  {
    HoldsLock(s, p);
    var w := s.txs[p].stage.wallet;
    if BalanceGate(w, s.txs[p].req.cost) {
      MoveKeeps(db0, s, p, BalanceOk(w), s.nextEvent);
    } else {
      RefuseKeeps(db0, s, p, Insufficient);
    }
  }

  lemma CheckCapKeeps(db0: Db, s: Sys, p: Pid)
    requires Inv(db0, s) && At(s, p) && s.txs[p].stage.BalanceOk?
    ensures Inv(db0, StepCheckCap(s, p))
  {
    HoldsLock(s, p);
    var tx := s.txs[p];
    if CapGate(tx.stage.wallet, s.db.ledger, tx.req.account, tx.req.cost, tx.req.month) {
      MoveKeeps(db0, s, p, CapOk, s.nextEvent);
    } else {
      RefuseKeeps(db0, s, p, CapExceeded);
    }
  }

  /** Past both gates the UPDATE finds the balance the gates saw. */
  lemma UpdateKnows(s: Sys, p: Pid) returns (next: Stage)
    requires LocksMatch(s) && At(s, p) && s.txs[p].stage.CapOk?
    ensures next.Updated? && Knows(s.db, s.nextEvent, s.txs[p].(stage := next))
    ensures StepUpdateWallet(s, p) == To(s, p, next)
  {
    HoldsLock(s, p);
    var req := s.txs[p].req;
    next := Updated(Stored(Micros(s.db.wallets[req.account].balance) - req.cost));
  }

  lemma UpdateWalletKeeps(db0: Db, s: Sys, p: Pid)
    requires Inv(db0, s) && At(s, p) && s.txs[p].stage.CapOk?
    ensures Inv(db0, StepUpdateWallet(s, p))
  {
    var stage := UpdateKnows(s, p);
    HoldsLock(s, p);
    MoveKeeps(db0, s, p, stage, s.nextEvent);
  }

  /** The sequence hands out an id nobody has. */
  lemma InsertKnows(s: Sys, p: Pid) returns (next: Stage)
    requires LocksMatch(s) && IdsFresh(s) && At(s, p) && s.txs[p].stage.Updated?
    ensures next == EventLogged(s.txs[p].stage.newBalance, s.nextEvent)
    ensures Knows(s.db, s.nextEvent + 1, s.txs[p].(stage := next))
    ensures StepInsertEvent(s, p) == Moved(s, p, next, s.nextEvent + 1)
    ensures forall q :: q in s.txs && q != p && HasEvent(s.txs[q].stage) ==> s.txs[q].stage.event != s.nextEvent
  {
    HoldsLock(s, p);
    EventsBelow(s);
    assert s.nextEvent !in s.db.events;
    next := EventLogged(s.txs[p].stage.newBalance, s.nextEvent);
  }

  lemma InsertEventKeeps(db0: Db, s: Sys, p: Pid)
    requires Inv(db0, s) && At(s, p) && s.txs[p].stage.Updated?
    ensures Inv(db0, StepInsertEvent(s, p))
  {
    var stage := InsertKnows(s, p);
    HoldsLock(s, p);
    MoveKeeps(db0, s, p, stage, s.nextEvent + 1);
  }

  lemma InsertRowKeeps(db0: Db, s: Sys, p: Pid)
    requires Inv(db0, s) && At(s, p) && s.txs[p].stage.EventLogged?
    ensures Inv(db0, StepInsertRow(s, p))
  {
    HoldsLock(s, p);
    MoveKeeps(db0, s, p, RowWritten(s.txs[p].stage.newBalance, s.txs[p].stage.event), s.nextEvent);
  }

  lemma EventsBelow(s: Sys)
    requires LocksMatch(s)
    ensures forall q :: q in s.txs && HasEvent(s.txs[q].stage) ==> s.txs[q].stage.event < s.nextEvent
  {
    forall q | q in s.txs && HasEvent(s.txs[q].stage) ensures s.txs[q].stage.event < s.nextEvent {
      assert Knows(s.db, s.nextEvent, s.txs[q]);
    }
  }

  lemma FailKeeps(db0: Db, s: Sys, p: Pid)
    requires Inv(db0, s) && At(s, p)
    ensures Inv(db0, End(s, p, Threw))
  {
    var s' := End(s, p, Threw);
    EndLocks(s, p, Threw);
    RepliesKept(db0, s, s', DebitOp(s.txs[p].req, 0));
  }

  /** What a lock holder knows is about its own account, so it survives operations on others. */
  lemma KnowsFrame(db: Db, op: Op, n: nat, tx: Tx)
    requires Knows(db, n, tx) && op.account != tx.req.account
    requires op.OpDebit? && AnswerOf(db, op).Debited? && HasEvent(tx.stage) ==> op.event != tx.stage.event
    ensures Knows(Apply(db, op), n, tx)
  {
    AnswerFrame(db, op, tx.req.account, tx.req.cost, tx.req.month);
  }

  /** Operations on an unlocked account, or by the lock holder as it ends, leave the others' knowledge. */
  lemma OthersKnow(s: Sys, op: Op, q: Pid)
    requires LocksMatch(s) && IdsFresh(s) && q in s.txs && !s.txs[q].stage.Begun?
    requires op.account != s.txs[q].req.account
    requires op.OpDebit? && AnswerOf(s.db, op).Debited? && HasEvent(s.txs[q].stage)
      ==> op.event != s.txs[q].stage.event
    ensures Knows(Apply(s.db, op), s.nextEvent, s.txs[q])
  {
    assert Knows(s.db, s.nextEvent, s.txs[q]);
    KnowsFrame(s.db, op, s.nextEvent, s.txs[q]);
  }

  lemma CommitIsApply(s: Sys, p: Pid)
    requires LocksMatch(s) && At(s, p) && s.txs[p].stage.RowWritten?
    ensures var op := DebitOp(s.txs[p].req, s.txs[p].stage.event);
            && StepCommit(s, p).db == Apply(s.db, op)
            && AnswerOf(s.db, op) == Debited(s.txs[p].stage.newBalance)
            && op.event !in s.db.events && op.event < s.nextEvent
            && StepCommit(s, p) == End(s.(db := Apply(s.db, op), ops := s.ops + [op],
                 point := s.point[p := |s.ops|]), p, Done(AnswerOf(s.db, op)))
  {
    HoldsLock(s, p);
  }

  lemma CommitLocks(s: Sys, p: Pid)
    requires LocksMatch(s) && IdsFresh(s) && At(s, p) && s.txs[p].stage.RowWritten?
    ensures LocksMatch(StepCommit(s, p)) && IdsFresh(StepCommit(s, p))
  {
    var op := DebitOp(s.txs[p].req, s.txs[p].stage.event);
    var s' := StepCommit(s, p);
    CommitIsApply(s, p);
    HoldsLock(s, p);
    forall q | q in s'.txs && !s'.txs[q].stage.Begun?
      ensures s'.txs[q].req.account in s'.locks && s'.locks[s'.txs[q].req.account] == q
              && Knows(s'.db, s'.nextEvent, s'.txs[q])
    {
      HoldsLock(s, q);
      OthersKnow(s, op, q);
    }
  }

  lemma CommitKeeps(db0: Db, s: Sys, p: Pid)
    requires Inv(db0, s) && At(s, p) && s.txs[p].stage.RowWritten?
    ensures Inv(db0, StepCommit(s, p))
  {
    var op := DebitOp(s.txs[p].req, s.txs[p].stage.event);
    CommitIsApply(s, p);
    CommitLocks(s, p);
    GrowHistory(db0, s, op);
    RepliesKept(db0, s, StepCommit(s, p), op);
    assert ReplySound(db0, StepCommit(s, p), p);
  }

  lemma OtherKeeps(db0: Db, s: Sys, op: Op)
    requires Inv(db0, s) && !op.OpDebit?
    ensures Inv(db0, StepOther(s, op))
  {
    if op.account !in s.locks {
      var s' := StepOther(s, op);
      GrowHistory(db0, s, op);
      RepliesKept(db0, s, s', op);
      assert LocksMatch(s') by {
        forall q | q in s'.txs && !s'.txs[q].stage.Begun?
          ensures Knows(s'.db, s'.nextEvent, s'.txs[q])
        {
          HoldsLock(s, q);
          OthersKnow(s, op, q);
        }
      }
    }
  }

  lemma TxStepKeeps(db0: Db, s: Sys, a: Action)
    requires Inv(db0, s) && !a.Begin? && !a.TopUp? && !a.SetCap? && At(s, a.p)
    ensures Inv(db0, Step(s, a))
  {
    var p := a.p;
    match a
    case LockRow(_) => if s.txs[p].stage.Begun? { LockRowKeeps(db0, s, p); }
    case CheckBalance(_) => if s.txs[p].stage.RowLocked? { CheckBalanceKeeps(db0, s, p); }
    case CheckCap(_) => if s.txs[p].stage.BalanceOk? { CheckCapKeeps(db0, s, p); }
    case Commit(_) => if s.txs[p].stage.RowWritten? { CommitKeeps(db0, s, p); }
    case UpdateWallet(_) => if s.txs[p].stage.CapOk? { UpdateWalletKeeps(db0, s, p); }
    case InsertEvent(_) => if s.txs[p].stage.Updated? { InsertEventKeeps(db0, s, p); }
    case InsertRow(_) => if s.txs[p].stage.EventLogged? { InsertRowKeeps(db0, s, p); }
    case Fail(_) => FailKeeps(db0, s, p);
  }

  lemma StepKeeps(db0: Db, s: Sys, a: Action)
    requires Inv(db0, s)
    ensures Inv(db0, Step(s, a))
  {
    match a
    case Begin(p, req) => BeginKeeps(db0, s, p, req);
    case TopUp(acct, cents) => OtherKeeps(db0, s, OpCredit(acct, cents));
    case SetCap(acct, cap) => OtherKeeps(db0, s, OpSetCap(acct, cap));
    case _ => if At(s, a.p) { TxStepKeeps(db0, s, a); }
  }

  lemma {:induction false} RunKeeps(db0: Db, acts: seq<Action>)
    requires Initial(db0)
    ensures Inv(db0, Run(Start(db0), acts))
  {
    if |acts| > 0 {
      RunKeeps(db0, acts[..|acts| - 1]);
      StepKeeps(db0, Run(Start(db0), acts[..|acts| - 1]), acts[|acts| - 1]);
    }
  }

  // ---------------------------------------------------------------- the results

  /** Every interleaving is equivalent to a sequential history: the tables are the ones that
      history leaves, and every caller got the answer that history gives its call. */
  lemma Serializable(db0: Db, acts: seq<Action>)
    requires Initial(db0)
    ensures var s := Run(Start(db0), acts);
            && s.db == Replay(db0, s.ops)
            && FreshIds(db0, s.ops)
            && forall p :: p in s.replies ==> ReplySound(db0, s, p)
  {
    RunKeeps(db0, acts);
  }

  /** The step that answers `p`, unless with an error, puts its operation at the end of the history. */
  lemma AnsweredNow(s: Sys, act: Action, p: Pid)
    requires p !in s.replies && p in Step(s, act).replies && Step(s, act).replies[p].Done?
    ensures var s' := Step(s, act);
            && p in s'.point && s'.point[p] == |s.ops| && |s'.ops| > |s.ops| && s'.ops[..|s.ops|] == s.ops
  {
    hide Apply, CapGate, BalanceGate, Stored;
  }

  /** In every interleaving, whatever a caller is told is what the tables call for at the moment it is
      told: no wallet, too little in it, a month that would go above its cap, or a debit. */
  lemma RepliesJustified(db0: Db, acts: seq<Action>, act: Action, p: Pid)
    requires Initial(db0)
    requires var s := Run(Start(db0), acts); p !in s.replies && p in Step(s, act).replies && Step(s, act).replies[p].Done?
    ensures var s := Run(Start(db0), acts);
            var s' := Step(s, act);
            && p in s'.requests
            && var req := s'.requests[p];
               Justified(s.db, req.account, req.cost, req.month, s'.replies[p].out)
  {
    RunKeeps(db0, acts);
    var s := Run(Start(db0), acts);
    StepKeeps(db0, s, act);
    var s' := Step(s, act);
    assert ReplySound(db0, s', p);
    AnsweredNow(s, act, p);
    var req := s'.requests[p];
    AnswerIff(s.db, req.account, req.cost, req.month, s'.replies[p].out);
  }

  /** In every interleaving the ledger, the usage events and the balances agree, and each
      ledger row is sound. */
  lemma InterleavedBooks(db0: Db, acts: seq<Action>)
    requires Initial(db0)
    ensures Books(db0, Run(Start(db0), acts).db)
  {
    RunKeeps(db0, acts);
    ReplayKeepsBooks(db0, Run(Start(db0), acts).ops);
  }

  /** In every interleaving in which caps are never lowered, no month of any account exceeds
      its cap. */
  lemma InterleavedCaps(db0: Db, acts: seq<Action>)
    requires Initial(db0) && CapsOnlyRise(db0, Run(Start(db0), acts).ops)
    ensures CapsHold(Run(Start(db0), acts).db)
  {
    RunKeeps(db0, acts);
    HistoryWithinCaps(db0, Run(Start(db0), acts).ops);
  }

  /** In every interleaving the balance differs from opening + credits - debits by at most half
      a balance unit a debit, and matches after every row exactly when all debits are whole. */
  lemma InterleavedBalance(db0: Db, acts: seq<Action>, a: Account)
    requires Initial(db0) && a in Run(Start(db0), acts).db.wallets
    ensures var db := Run(Start(db0), acts).db;
            var open := Opening(db0, a);
            && -50 * DebitCount(db.ledger, a)
               <= Micros(db.wallets[a].balance) - Expected(open, db.ledger, a)
               <= 50 * DebitCount(db.ledger, a)
            && (LawAtEveryRow(open, db.ledger, a) <==> WholeDebits(db.ledger, a))
  {
    RunKeeps(db0, acts);
    HistoryBalance(db0, Run(Start(db0), acts).ops, a);
  }
}
