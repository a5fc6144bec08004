// Reconcile passes that overlap: any number of processes replay failed debits at the same time,
// with one advisory lock an account.  A pass does not read a row's status again under the lock;
// here is exactly when that makes it debit a row twice.
module OverlappingPasses {
  import opened Wrappers
  import opened WalletLedger
  import opened FailedDebits
  import opened Sums

  type Pid = nat

  datatype Books = Books(
    db: Db,
    rows: seq<FailedRow>,
    charges: seq<Charge>,
    passes: map<Pid, Pass>,
    locks: map<Account, Pid>)

  datatype Move =
    | Record(account: Account, cost: nat, at: nat)
    | Ledger(op: Op)
    | Begin(p: Pid, cutoff: nat, limit: nat)
    | Lock(p: Pid, free: bool)
    | Replay(p: Pid, month: int, event: nat, fault: Fault)
    | Mark(p: Pid, stored: bool)
    | End(p: Pid)

  // ---------------------------------------------------------------- steps

  /** Pass `p` is working on a row. */
  predicate Busy(s: Books, p: Pid) {
    && p in s.passes && !s.passes[p].NoPass? && s.passes[p].todo != []
    && s.passes[p].todo[0] < |s.rows|
  }

  function RowOf(s: Books, p: Pid): nat
    requires Busy(s, p)
  {
    s.passes[p].todo[0]
  }

  function AccountOf(s: Books, p: Pid): Account
    requires Busy(s, p)
  {
    s.rows[RowOf(s, p)].account
  }

  predicate Holding(s: Books, p: Pid) {
    Busy(s, p) && (s.passes[p].Locked? || s.passes[p].Marking?)
  }

  /** On to the next row; the lock is given back. */
  function Next(s: Books, p: Pid): Books
    requires Busy(s, p)
  {
    s.(passes := s.passes[p := Choosing(s.passes[p].todo[1..])], locks := s.locks - {AccountOf(s, p)})
  }

  /** Two accounts may share a lock key, so a lock can be taken although the account is free. */
  function StepLock(s: Books, p: Pid, free: bool): Books {
    if Busy(s, p) && s.passes[p].Choosing? then
      if free && AccountOf(s, p) !in s.locks then
        s.(passes := s.passes[p := Locked(s.passes[p].todo)], locks := s.locks[AccountOf(s, p) := p])
      else s.(passes := s.passes[p := Choosing(s.passes[p].todo[1..])])
    else s
  }

  predicate Debits(s: Books, p: Pid) {
    Busy(s, p) && s.passes[p].Locked?
  }

  function OpOf(s: Books, p: Pid, month: int, event: nat): Op
    requires Busy(s, p)
  {
    RowOp(s.rows[RowOf(s, p)], month, event)
  }

  /** The debit takes money off the account. */
  predicate GoesThrough(s: Books, m: Move) {
    && m.Replay? && Debits(s, m.p) && !m.fault.ThrewBefore?
    && AnswerOf(s.db, OpOf(s, m.p, m.month, m.event)).Debited?
  }

  function ChargedFor(s: Books, r: nat, op: Op): Books
    requires op.OpDebit? && op.cost >= 0
  {
    if AnswerOf(s.db, op).Debited? then
      s.(db := Apply(s.db, op), charges := s.charges + [Charge(OfRow(r), op.cost)])
    else s
  }

  function StepDebit(s: Books, p: Pid, month: int, event: nat, fault: Fault): Books {
    if !Debits(s, p) then s
    else
      var op := OpOf(s, p, month, event);
      match fault
      case NoFault =>
        ChargedFor(s, RowOf(s, p), op).(passes := s.passes[p := Marking(s.passes[p].todo, AnswerOf(s.db, op))])
      case ThrewBefore => Next(s, p)
      case ThrewAfterCommit => Next(ChargedFor(s, RowOf(s, p), op), p)
  }

  /** The status a row gets, whatever it had: the UPDATE asks for its id alone. */
  function StatusAfter(out: Outcome, status: Status): Status {
    if IsOk(out) then Reconciled else if IsFinalRefusal(out) then Waived else status
  }

  function StepMark(s: Books, p: Pid, stored: bool): Books {
    if Busy(s, p) && s.passes[p].Marking? then
      var r := RowOf(s, p);
      var row := s.rows[r].(status := StatusAfter(s.passes[p].out, s.rows[r].status));
      Next(s, p).(rows := if stored then s.rows[r := row] else s.rows)
    else s
  }

  /** The pass is over or its process dies; a lock it holds is given back. */
  function StepEnd(s: Books, p: Pid): Books {
    s.(passes := s.passes - {p}, locks := if Holding(s, p) then s.locks - {AccountOf(s, p)} else s.locks)
  }

  function Step(s: Books, m: Move): Books {
    match m
    case Record(account, cost, at) => s.(rows := s.rows + [FailedRow(account, cost, at, Pending)])
    case Ledger(op) => s.(db := Apply(s.db, op))
    case Begin(p, cutoff, limit) =>
      if p in s.passes then s else s.(passes := s.passes[p := Choosing(Select(s.rows, cutoff, limit))])
    case Lock(p, free) => StepLock(s, p, free)
    case Replay(p, month, event, fault) => StepDebit(s, p, month, event, fault)
    case Mark(p, stored) => StepMark(s, p, stored)
    case End(p) => StepEnd(s, p)
  }

  function Start(db: Db): Books {
    Books(db, [], [], map[], map[])
  }

  function Run(db: Db, moves: seq<Move>): Books {
    if moves == [] then Start(db) else Step(Run(db, moves[..|moves| - 1]), moves[|moves| - 1])
  }

  /** How often row `r` was debited. */
  function Times(s: Books, r: nat): nat {
    Sum(s.charges, IsOf(OfRow(r)))
  }

  /** The mark of a debit is settled by the tables the debit found, whatever has happened since: the row
      becomes reconciled or waived even if another pass has given it a status meanwhile. */
  lemma MarkSettled(s: Books, p: Pid, month: int, event: nat, t: Books)
    requires Debits(s, p) && p in t.passes && t.passes[p] == Step(s, Replay(p, month, event, NoFault)).passes[p]
    requires RowOf(s, p) < |t.rows|
    ensures
      var r := RowOf(s, p);
      var row, end := s.rows[r], Step(t, Mark(p, true)).rows[r];
      && end.status == (
           if row.cost == 0 || (MoneyFor(s.db, row) && RoomInMonth(s.db, row, month)) then Reconciled
           else if !MoneyFor(s.db, row) then Waived
           else t.rows[r].status)
      && Step(t, Mark(p, true)).rows == t.rows[r := t.rows[r].(status := end.status)]
      && Step(t, Mark(p, false)).rows == t.rows
  {
    var row := s.rows[RowOf(s, p)];
    AnswerIff(s.db, row.account, row.cost, month, AnswerOf(s.db, RowOp(row, month, event)));
  }

  // ---------------------------------------------------------------- what every run keeps

  /** The rows of a pass are there and differ, and whoever works on one under a lock is alone. */
  ghost predicate Orderly(s: Books) {
    forall p :: p in s.passes ==> PassOrderly(s, p)
  }

  ghost predicate PassOrderly(s: Books, p: Pid)
    requires p in s.passes
  {
    var pass := s.passes[p];
    !pass.NoPass? ==>
      && (forall k :: 0 <= k < |pass.todo| ==> pass.todo[k] < |s.rows|)
      && (!pass.Choosing? ==> pass.todo != [] && AccountOf(s, p) in s.locks && s.locks[AccountOf(s, p)] == p)
      && (pass.Marking? && pass.out.Debited? ==> s.rows[RowOf(s, p)].cost > 0)
      && (pass.Marking? && IsOk(pass.out) && s.rows[RowOf(s, p)].cost > 0 ==> pass.out.Debited?)
  }

  lemma {:induction false} OrderlyRun(db: Db, moves: seq<Move>)
    ensures Orderly(Run(db, moves))
  {
    if moves != [] {
      var front := moves[..|moves| - 1];
      OrderlyRun(db, front);
      OrderlyStep(Run(db, front), moves[|moves| - 1]);
    }
  }

  /** The move is one of pass `p`. */
  predicate IsBy(m: Move, p: Pid) {
    !m.Record? && !m.Ledger? && m.p == p
  }

  lemma OthersStay(s: Books, m: Move, p: Pid)
    requires p in Step(s, m).passes && !IsBy(m, p)
    ensures p in s.passes && Step(s, m).passes[p] == s.passes[p]
  {
  }

  /** Accounts stay with their rows. */
  lemma AccountsStay(s: Books, m: Move)
    ensures |Step(s, m).rows| >= |s.rows|
    ensures forall r :: 0 <= r < |s.rows| ==>
      Step(s, m).rows[r].account == s.rows[r].account && Step(s, m).rows[r].cost == s.rows[r].cost
  {
  }

  /** No move takes away the lock of another pass. */
  lemma LocksStay(s: Books, m: Move, a: Account)
    requires a in s.locks && !IsBy(m, s.locks[a]) && Orderly(s)
    ensures a in Step(s, m).locks && Step(s, m).locks[a] == s.locks[a]
  {
    if (m.Mark? || m.Replay? || m.End?) && m.p in s.passes {
      assert PassOrderly(s, m.p);
    }
  }

  lemma OtherOrderly(s: Books, m: Move, p: Pid)
    requires Orderly(s) && p in Step(s, m).passes && !IsBy(m, p)
    ensures PassOrderly(Step(s, m), p)
  {
    OthersStay(s, m, p);
    AccountsStay(s, m);
    assert PassOrderly(s, p);
    if Holding(s, p) {
      LocksStay(s, m, AccountOf(s, p));
    }
  }

  lemma OwnOrderly(s: Books, m: Move, p: Pid)
    requires Orderly(s) && p in Step(s, m).passes && IsBy(m, p)
    ensures PassOrderly(Step(s, m), p)
  {
    if p in s.passes {
      assert PassOrderly(s, p);
    }
  }

  lemma OrderlyStep(s: Books, m: Move)
    requires Orderly(s)
    ensures Orderly(Step(s, m))
  {
    forall p | p in Step(s, m).passes ensures PassOrderly(Step(s, m), p) {
      if IsBy(m, p) {
        OwnOrderly(s, m, p);
      } else {
        OtherOrderly(s, m, p);
      }
    }
  }

  lemma OneHolder(s: Books, p: Pid, q: Pid)
    requires Orderly(s) && p in s.passes && q in s.passes && Holding(s, p) && Holding(s, q) && RowOf(s, p) == RowOf(s, q)
    ensures p == q
  {
    assert PassOrderly(s, p) && PassOrderly(s, q);
  }

  // ---------------------------------------------------------------- what can get lost

  /** Pass `p` has debited its row and not yet marked it. */
  predicate Owing(s: Books, p: Pid) {
    Busy(s, p) && s.passes[p].Marking? && s.passes[p].out.Debited?
  }

  /** The moves whose effect their pass does not get to record: a COMMIT whose answer is lost, a
      status update that fails after a debit, a pass that dies in between. */
  predicate Slips(s: Books, m: Move) {
    match m
    case Replay(_, _, _, fault) => GoesThrough(s, m) && fault.ThrewAfterCommit?
    case Mark(p, stored) => !stored && Owing(s, p)
    case End(p) => Owing(s, p)
    case _ => false
  }

  predicate NoneSlips(db: Db, moves: seq<Move>) {
    moves != [] ==>
      var front := moves[..|moves| - 1];
      NoneSlips(db, front) && !Slips(Run(db, front), moves[|moves| - 1])
  }

  /** The rows that are marked reconciled, or were at some time. */
  function Once(db: Db, moves: seq<Move>): set<nat> {
    if moves == [] then {} else Once(db, moves[..|moves| - 1]) + Marked(Run(db, moves))
  }

  function Marked(s: Books): set<nat> {
    set r: nat | r < |s.rows| && s.rows[r].status.Reconciled?
  }

  // ---------------------------------------------------------------- which rows have been debited

  /** A row once reconciled, or debited and about to be marked, has been debited; unless something
      slipped, no other row has. */
  ghost predicate Known(s: Books, once: set<nat>, clean: bool) {
    && (forall r :: r in once ==> r < |s.rows| && RowKnown(s, r))
    && Marked(s) <= once
    && (forall p :: p in s.passes && Owing(s, p) ==> Times(s, RowOf(s, p)) >= 1)
    && (clean ==> forall r: nat :: Times(s, r) >= 1 ==> r in once || OwedBySome(s, r))
  }

  predicate RowKnown(s: Books, r: nat)
    requires r < |s.rows|
  {
    !s.rows[r].status.Pending? && (s.rows[r].cost > 0 ==> Times(s, r) >= 1)
  }

  predicate OwedBySome(s: Books, r: nat) {
    exists p :: p in s.passes && Owing(s, p) && RowOf(s, p) == r
  }

  lemma ChargedTimes(s: Books, r: nat, op: Op, q: nat)
    requires op.OpDebit? && op.cost >= 0
    ensures Times(ChargedFor(s, r, op), q) == Times(s, q) + if q == r && AnswerOf(s.db, op).Debited? then 1 else 0
  {
    if AnswerOf(s.db, op).Debited? {
      SumAppend(s.charges, Charge(OfRow(r), op.cost), IsOf(OfRow(q)));
    }
  }

  /** Only a debit that goes through debits a row, and just its own. */
  lemma TimesStep(s: Books, m: Move, q: nat)
    ensures Times(Step(s, m), q) == Times(s, q) + if GoesThrough(s, m) && RowOf(s, m.p) == q then 1 else 0
  {
    if m.Replay? && Debits(s, m.p) {
      ChargedTimes(s, RowOf(s, m.p), OpOf(s, m.p, m.month, m.event), q);
    }
  }

  /** Only a status update changes a row. */
  lemma RowsStep(s: Books, m: Move, r: nat)
    requires r < |s.rows|
    ensures r < |Step(s, m).rows|
    ensures
      var marks := m.Mark? && m.stored && Busy(s, m.p) && s.passes[m.p].Marking? && RowOf(s, m.p) == r;
      Step(s, m).rows[r] == if marks then s.rows[r].(status := StatusAfter(s.passes[m.p].out, s.rows[r].status)) else s.rows[r]
  {
  }

  lemma OnceStep(s: Books, once: set<nat>, clean: bool, m: Move)
    requires Orderly(s) && Known(s, once, clean)
    ensures forall r :: r in once + Marked(Step(s, m)) ==> r < |Step(s, m).rows| && RowKnown(Step(s, m), r)
  {
    var s' := Step(s, m);
    forall r | r in once + Marked(s') ensures r < |s'.rows| && RowKnown(s', r) {
      TimesStep(s, m, r);
      if r < |s.rows| {
        RowsStep(s, m, r);
        if r !in once {
          assert !s.rows[r].status.Reconciled? by { assert r !in Marked(s); }
          assert m.Mark? && PassOrderly(s, m.p);
          assert s.rows[r].cost > 0 ==> Owing(s, m.p);
        }
      }
    }
  }

  /** A pass that owes now owed before, or has just debited. */
  lemma OwesSince(s: Books, m: Move, p: Pid)
    requires p in Step(s, m).passes && Owing(Step(s, m), p) && IsBy(m, p)
    ensures GoesThrough(s, m) || (p in s.passes && Owing(s, p))
    ensures Busy(s, p) && RowOf(s, p) == RowOf(Step(s, m), p)
  {
  }

  lemma OwingStep(s: Books, once: set<nat>, clean: bool, m: Move, p: Pid)
    requires Orderly(s) && Known(s, once, clean) && p in Step(s, m).passes && Owing(Step(s, m), p)
    ensures Times(Step(s, m), RowOf(Step(s, m), p)) >= 1
  {
    var r := RowOf(Step(s, m), p);
    TimesStep(s, m, r);
    if IsBy(m, p) {
      OwesSince(s, m, p);
    } else {
      OthersStay(s, m, p);
      assert PassOrderly(s, p);
    }
  }

  /** What a pass owes it still owes, unless it just marked the row or slipped. */
  lemma OwedStep(s: Books, m: Move, p: Pid)
    requires p in s.passes && Owing(s, p) && !Slips(s, m)
    ensures
      var s' := Step(s, m);
      || (p in s'.passes && Owing(s', p) && RowOf(s', p) == RowOf(s, p))
      || RowOf(s, p) in Marked(s')
  {
  }

  /** A debit that goes through and does not slip is owed until it is marked. */
  lemma ThroughOwes(s: Books, m: Move)
    requires GoesThrough(s, m) && !Slips(s, m)
    ensures OwedBySome(Step(s, m), RowOf(s, m.p))
  {
    var s' := Step(s, m);
    assert m.p in s'.passes && Owing(s', m.p) && RowOf(s', m.p) == RowOf(s, m.p);
  }

  lemma AllDebitedKnown(s: Books, once: set<nat>, m: Move, r: nat)
    requires Known(s, once, true) && !Slips(s, m) && Times(Step(s, m), r) >= 1
    ensures r in once + Marked(Step(s, m)) || OwedBySome(Step(s, m), r)
  {
    hide Step, Slips, Times, Marked;
    TimesStep(s, m, r);
    if GoesThrough(s, m) && RowOf(s, m.p) == r {
      ThroughOwes(s, m);
    } else if r !in once {
      var p :| p in s.passes && Owing(s, p) && RowOf(s, p) == r;
      OwedStep(s, m, p);
    }
  }

  lemma KnownStep(s: Books, once: set<nat>, clean: bool, m: Move)
    requires Orderly(s) && Known(s, once, clean)
    ensures Known(Step(s, m), once + Marked(Step(s, m)), clean && !Slips(s, m))
  {
    var s' := Step(s, m);
    OnceStep(s, once, clean, m);
    forall p | p in s'.passes && Owing(s', p) ensures Times(s', RowOf(s', p)) >= 1 {
      OwingStep(s, once, clean, m, p);
    }
    if clean && !Slips(s, m) {
      forall r: nat | Times(s', r) >= 1 ensures r in once + Marked(s') || OwedBySome(s', r) {
        AllDebitedKnown(s, once, m, r);
      }
    }
  }

  lemma {:induction false} KnownRun(db: Db, moves: seq<Move>)
    ensures Known(Run(db, moves), Once(db, moves), NoneSlips(db, moves))
  {
    if moves != [] {
      var front := moves[..|moves| - 1];
      KnownRun(db, front);
      OrderlyRun(db, front);
      KnownStep(Run(db, front), Once(db, front), NoneSlips(db, front), moves[|moves| - 1]);
    }
  }

  /** Whoever is about to debit a row is the only one at it: it has been debited before exactly if
      it was reconciled before. */
  lemma DebitedBefore(s: Books, once: set<nat>, p: Pid)
    requires Orderly(s) && Known(s, once, true) && Debits(s, p) && s.rows[RowOf(s, p)].cost > 0
    ensures Times(s, RowOf(s, p)) >= 1 <==> RowOf(s, p) in once
  {
    var r := RowOf(s, p);
    if Times(s, r) >= 1 && r !in once {
      var q :| q in s.passes && Owing(s, q) && RowOf(s, q) == r;
      OneHolder(s, p, q);
    }
  }

  // ---------------------------------------------------------------- the results

  /** No debit goes through on a row that was reconciled before. */
  predicate NoneRepeated(db: Db, moves: seq<Move>) {
    moves != [] ==>
      var front, m := moves[..|moves| - 1], moves[|moves| - 1];
      NoneRepeated(db, front) && !(GoesThrough(Run(db, front), m) && RowOf(Run(db, front), m.p) in Once(db, front))
  }

  ghost predicate AtMostOnce(s: Books) {
    forall r: nat :: Times(s, r) <= 1
  }

  lemma ThroughCosts(s: Books, m: Move)
    requires GoesThrough(s, m)
    ensures s.rows[RowOf(s, m.p)].cost > 0
  {
  }

  /** However the passes overlap, and if nothing slipped: every row was debited at most once exactly
      if no debit went through on a row that had been marked reconciled before.  This is what the
      passes do not look at: the status is not read again under the lock. */
  lemma {:induction false} AtMostOnceIff(db: Db, moves: seq<Move>)
    requires NoneSlips(db, moves)
    ensures AtMostOnce(Run(db, moves)) <==> NoneRepeated(db, moves)
  {
    if moves != [] {
      var front, m := moves[..|moves| - 1], moves[|moves| - 1];
      var s := Run(db, front);
      AtMostOnceIff(db, front);
      KnownRun(db, front);
      OrderlyRun(db, front);
      forall q: nat ensures Times(Step(s, m), q) == Times(s, q) + if GoesThrough(s, m) && RowOf(s, m.p) == q then 1 else 0 {
        TimesStep(s, m, q);
      }
      if GoesThrough(s, m) {
        ThroughCosts(s, m);
        DebitedBefore(s, Once(db, front), m.p);
      }
    }
  }

  /** So at the moment of a debit: the row is pending exactly if it has been neither debited nor
      waived. */
  lemma PendingIff(db: Db, moves: seq<Move>, p: Pid)
    requires NoneSlips(db, moves) && Debits(Run(db, moves), p)
    requires Run(db, moves).rows[RowOf(Run(db, moves), p)].cost > 0
    ensures
      var s := Run(db, moves);
      var r := RowOf(s, p);
      s.rows[r].status.Pending? <==> Times(s, r) == 0 && !s.rows[r].status.Waived?
  {
    KnownRun(db, moves);
    OrderlyRun(db, moves);
    var s := Run(db, moves);
    DebitedBefore(s, Once(db, moves), p);
    assert s.rows[RowOf(s, p)].status.Reconciled? ==> RowOf(s, p) in Marked(s);
  }

  /** Every debit that goes through finds its row pending. */
  predicate FindsPending(db: Db, moves: seq<Move>) {
    moves != [] ==>
      var front, m := moves[..|moves| - 1], moves[|moves| - 1];
      var s := Run(db, front);
      FindsPending(db, front) && (GoesThrough(s, m) ==> s.rows[RowOf(s, m.p)].status.Pending?)
  }

  /** Every debit that goes through is the first of its row, and the row has not been waived. */
  predicate FirstAndNotWaived(db: Db, moves: seq<Move>) {
    moves != [] ==>
      var front, m := moves[..|moves| - 1], moves[|moves| - 1];
      var s := Run(db, front);
      && FirstAndNotWaived(db, front)
      && (GoesThrough(s, m) ==> Times(s, RowOf(s, m.p)) == 0 && !s.rows[RowOf(s, m.p)].status.Waived?)
  }

  /** No row is debited twice, or after it was waived, exactly if every debit that goes through
      finds its row still pending. */
  lemma {:induction false} StaleIff(db: Db, moves: seq<Move>)
    requires NoneSlips(db, moves)
    ensures FirstAndNotWaived(db, moves) <==> FindsPending(db, moves)
  {
    if moves != [] {
      var front, m := moves[..|moves| - 1], moves[|moves| - 1];
      StaleIff(db, front);
      if GoesThrough(Run(db, front), m) {
        ThroughCosts(Run(db, front), m);
        PendingIff(db, front, m.p);
      }
    }
  }

  // ---------------------------------------------------------------- if the status were read again

  /** Every debit, whatever its answer, is made on a pending row. */
  predicate ReadAgain(db: Db, moves: seq<Move>) {
    moves != [] ==>
      var front, m := moves[..|moves| - 1], moves[|moves| - 1];
      var s := Run(db, front);
      ReadAgain(db, front) && (m.Replay? && Debits(s, m.p) ==> s.rows[RowOf(s, m.p)].status.Pending?)
  }

  ghost predicate WaivedUnpaid(s: Books) {
    && (forall r: nat :: r < |s.rows| && s.rows[r].status.Waived? ==> Times(s, r) == 0)
    && (forall p :: p in s.passes && Busy(s, p) && s.passes[p].Marking? ==> s.rows[RowOf(s, p)].status.Pending?)
  }

  /** A pass about to mark was so before, or has just made its debit. */
  lemma MarksSince(s: Books, m: Move, p: Pid)
    requires p in Step(s, m).passes && Busy(Step(s, m), p) && Step(s, m).passes[p].Marking? && IsBy(m, p)
    ensures Busy(s, p) && RowOf(s, p) == RowOf(Step(s, m), p)
    ensures (m.Replay? && Debits(s, p)) || (s.passes[p].Marking? && !m.Mark?)
  {
  }

  lemma MarkingStep(s: Books, m: Move, p: Pid)
    requires Orderly(s) && WaivedUnpaid(s) && p in Step(s, m).passes
    requires m.Replay? && Debits(s, m.p) ==> s.rows[RowOf(s, m.p)].status.Pending?
    requires Busy(Step(s, m), p) && Step(s, m).passes[p].Marking?
    ensures Step(s, m).rows[RowOf(Step(s, m), p)].status.Pending?
  {
    if IsBy(m, p) {
      MarksSince(s, m, p);
      RowsStep(s, m, RowOf(s, p));
    } else {
      OthersStay(s, m, p);
      assert PassOrderly(s, p);
      RowsStep(s, m, RowOf(s, p));
      if m.Mark? && Holding(s, m.p) && RowOf(s, m.p) == RowOf(s, p) {
        OneHolder(s, m.p, p);
      }
    }
  }

  lemma WaivedStep(s: Books, once: set<nat>, m: Move, r: nat)
    requires Orderly(s) && Known(s, once, true) && WaivedUnpaid(s) && r < |Step(s, m).rows|
    requires m.Replay? && Debits(s, m.p) ==> s.rows[RowOf(s, m.p)].status.Pending?
    requires Step(s, m).rows[r].status.Waived?
    ensures Times(Step(s, m), r) == 0
  {
    TimesStep(s, m, r);
    if r < |s.rows| {
      RowsStep(s, m, r);
      if !s.rows[r].status.Waived? && Times(s, r) >= 1 {
        assert s.rows[r].status.Pending? && r !in once;
        var q :| q in s.passes && Owing(s, q) && RowOf(s, q) == r;
        OneHolder(s, m.p, q);
      }
    }
  }

  lemma {:induction false} WaivedRun(db: Db, moves: seq<Move>)
    requires NoneSlips(db, moves) && ReadAgain(db, moves)
    ensures WaivedUnpaid(Run(db, moves))
  {
    if moves != [] {
      var front, m := moves[..|moves| - 1], moves[|moves| - 1];
      var s := Run(db, front);
      WaivedRun(db, front);
      KnownRun(db, front);
      OrderlyRun(db, front);
      forall r: nat | r < |Step(s, m).rows| && Step(s, m).rows[r].status.Waived? ensures Times(Step(s, m), r) == 0 {
        WaivedStep(s, Once(db, front), m, r);
      }
      forall p | p in Step(s, m).passes && Busy(Step(s, m), p) && Step(s, m).passes[p].Marking?
        ensures Step(s, m).rows[RowOf(Step(s, m), p)].status.Pending?
      {
        MarkingStep(s, m, p);
      }
    }
  }

  lemma {:induction false} ReadAgainFinds(db: Db, moves: seq<Move>)
    requires ReadAgain(db, moves) && NoneSlips(db, moves)
    ensures NoneRepeated(db, moves)
  {
    if moves != [] {
      var front, m := moves[..|moves| - 1], moves[|moves| - 1];
      ReadAgainFinds(db, front);
      KnownRun(db, front);
    }
  }

  /** With the status read again under the lock, overlapping passes do no harm: a row is debited at
      most once, a waived row never, a reconciled one exactly once. */
  lemma ReadAgainSuffices(db: Db, moves: seq<Move>, r: nat)
    requires NoneSlips(db, moves) && ReadAgain(db, moves) && r < |Run(db, moves).rows|
    ensures
      var s := Run(db, moves);
      && Times(s, r) <= 1
      && (s.rows[r].status.Waived? ==> Times(s, r) == 0)
      && (s.rows[r].status.Reconciled? && s.rows[r].cost > 0 ==> Times(s, r) == 1)
  {
    ReadAgainFinds(db, moves);
    AtMostOnceIff(db, moves);
    WaivedRun(db, moves);
    KnownRun(db, moves);
    var s := Run(db, moves);
    assert s.rows[r].status.Reconciled? ==> r in Marked(s);
  }

  // ---------------------------------------------------------------- it does happen

  lemma Then(db: Db, front: seq<Move>, m: Move)
    ensures Run(db, front + [m]) == Step(Run(db, front), m)
  {
    assert (front + [m])[..|front|] == front;
  }

  /** One wallet with `units` of balance. */
  function Funded(units: nat): Db {
    Db(map["acme" := Wallet(units, None)], [], map[])
  }

  const ROW := FailedRow("acme", 1_000, 0, Pending)
  const DONE := ROW.(status := Reconciled)

  /** Two passes begin while the row is pending; the first debits it and marks it. */
  const FIRST_DONE := [
    Record("acme", 1_000, 0), Begin(0, 1, 9), Begin(1, 1, 9),
    Lock(0, true), Replay(0, 0, 1, NoFault), Mark(0, true), Lock(1, true)]

  lemma Prefixes(db: Db, moves: seq<Move>, k: nat)
    requires k < |moves|
    ensures Run(db, moves[..k + 1]) == Step(Run(db, moves[..k]), moves[k])
  {
    assert moves[..k] + [moves[k]] == moves[..k + 1];
    Then(db, moves[..k], moves[k]);
  }

  lemma SelectsIt()
    ensures Select([ROW], 1, 9) == [0]
  {
    assert AllEligible([ROW], 0, 1) == [];
    assert AllEligible([ROW], 1, 1) == [0];
  }

  function Recorded(units: nat): Books {
    Books(Funded(units), [ROW], [], map[], map[])
  }

  function BothChosen(units: nat): Books {
    Recorded(units).(passes := map[0 := Choosing([0]), 1 := Choosing([0])])
  }

  lemma BothChoose(units: nat)
    ensures Step(Step(Recorded(units), Begin(0, 1, 9)), Begin(1, 1, 9)) == BothChosen(units)
  {
    SelectsIt();
  }

  lemma BothBegin(units: nat)
    ensures Run(Funded(units), FIRST_DONE[..3]) == BothChosen(units)
  {
    Prefixes(Funded(units), FIRST_DONE, 0);
    Prefixes(Funded(units), FIRST_DONE, 1);
    Prefixes(Funded(units), FIRST_DONE, 2);
    BothChoose(units);
    assert FIRST_DONE[..0] == [];
    assert Step(Start(Funded(units)), FIRST_DONE[0]) == Recorded(units);
  }

  function Debited(units: nat): Db {
    Apply(Funded(units), OpDebit("acme", 1_000, 0, 1))
  }

  function FirstDebited(units: nat): Books
    requires units >= 10
  {
    Books(Debited(units), [ROW], [Charge(OfRow(0), 1_000)],
          map[0 := Marking([0], WalletLedger.Debited(units - 10)), 1 := Choosing([0])], map["acme" := 0])
  }

  lemma LocksIt(units: nat)
    ensures Step(BothChosen(units), Lock(0, true))
         == BothChosen(units).(passes := map[0 := Locked([0]), 1 := Choosing([0])], locks := map["acme" := 0])
  {
  }

  lemma DebitsIt(units: nat)
    requires units >= 10
    ensures Step(Step(BothChosen(units), Lock(0, true)), Replay(0, 0, 1, NoFault)) == FirstDebited(units)
  {
    LocksIt(units);
    assert Answer(Funded(units), "acme", 1_000, 0) == WalletLedger.Debited(units - 10);
  }

  lemma FirstDebits(units: nat)
    requires units >= 10
    ensures Run(Funded(units), FIRST_DONE[..5]) == FirstDebited(units)
  {
    hide Step, Run, Debited, Apply, Answer, Funded;
    BothBegin(units);
    Prefixes(Funded(units), FIRST_DONE, 3);
    Prefixes(Funded(units), FIRST_DONE, 4);
    DebitsIt(units);
  }

  function FirstMarked(units: nat): Books {
    Books(Debited(units), [DONE], [Charge(OfRow(0), 1_000)], map[0 := Choosing([]), 1 := Choosing([0])], map[])
  }

  lemma MarksIt(units: nat)
    requires units >= 10
    ensures Step(FirstDebited(units), Mark(0, true)) == FirstMarked(units)
  {
    hide Apply, Answer;
    assert [ROW][0 := DONE] == [DONE] && [0][1..] == [];
    assert map["acme" := 0] - {"acme"} == map[];
  }

  lemma SecondLocks(units: nat)
    ensures Step(FirstMarked(units), Lock(1, true))
         == FirstMarked(units).(passes := map[0 := Choosing([]), 1 := Locked([0])], locks := map["acme" := 1])
  {
    hide Debited, Apply, Answer;
  }

  /** The second pass holds the lock and still has the row, which is reconciled by now. */
  lemma FirstDone(units: nat)
    requires units >= 10
    ensures Run(Funded(units), FIRST_DONE)
         == Books(Debited(units), [DONE], [Charge(OfRow(0), 1_000)],
                  map[0 := Choosing([]), 1 := Locked([0])], map["acme" := 1])
  {
    hide Debited, Apply, Answer, Step, Run;
    FirstDebits(units);
    Prefixes(Funded(units), FIRST_DONE, 5);
    Prefixes(Funded(units), FIRST_DONE, 6);
    MarksIt(units);
    SecondLocks(units);
    assert FIRST_DONE[..7] == FIRST_DONE;
  }

  lemma SecondAnswer(units: nat)
    requires units >= 10
    ensures Answer(Debited(units), "acme", 1_000, 0)
         == if units >= 20 then WalletLedger.Debited(units - 20) else Insufficient
  {
    assert Answer(Funded(units), "acme", 1_000, 0) == WalletLedger.Debited(units - 10);
  }

  /** With enough money left it debits the row a second time. */
  lemma DebitedTwice(units: nat)
    requires units >= 20
    ensures Run(Funded(units), FIRST_DONE + [Replay(1, 0, 2, NoFault)]).charges
         == [Charge(OfRow(0), 1_000), Charge(OfRow(0), 1_000)]
  {
    FirstDone(units);
    Then(Funded(units), FIRST_DONE, Replay(1, 0, 2, NoFault));
    SecondAnswer(units);
  }

  /** With less it marks the row waived although it has been debited. */
  lemma DebitedAndWaived(units: nat)
    requires 10 <= units < 20
    ensures
      var s := Run(Funded(units), FIRST_DONE + [Replay(1, 0, 2, NoFault)] + [Mark(1, true)]);
      s.rows == [ROW.(status := Waived)] && s.charges == [Charge(OfRow(0), 1_000)]
  {
    FirstDone(units);
    Then(Funded(units), FIRST_DONE, Replay(1, 0, 2, NoFault));
    Then(Funded(units), FIRST_DONE + [Replay(1, 0, 2, NoFault)], Mark(1, true));
    SecondAnswer(units);
  }
}
