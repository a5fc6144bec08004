// What happens to a charge that could not be made: chat.js debits, the recorder keeps a row
// for a debit that failed, and the reconciler replays the rows.  A debit itself is atomic
// here, which WalletConcurrency.Serializable justifies.
//
// `slipped` totals what went wrong in ways the callers cannot see: a COMMIT that took effect
// although its caller got an error, and a row that was debited but never marked.
module FailedDebits {
  import opened Wrappers
  import opened WalletLedger
  import opened Sums

  datatype Status = Pending | Reconciled | Waived

  datatype FailedRow = FailedRow(account: Account, cost: nat, createdAt: nat, status: Status)

  datatype CallState = Paid | Unrecorded | Recorded(row: nat) | Lost

  /** One finished or finishing chat call of a non-admin with an account. */
  datatype Call = Call(account: Account, cost: nat, state: CallState)

  datatype Source = OfCall(call: nat) | OfRow(row: nat)

  /** A ledger debit with the provenance its metadata column gives. */
  datatype Charge = Charge(source: Source, amount: nat)

  /** A reconcile pass; the head of `todo` is the row being worked on. */
  datatype Pass = NoPass | Choosing(todo: seq<nat>) | Locked(todo: seq<nat>) | Marking(todo: seq<nat>, out: Outcome)

  datatype Sys = Sys(
    db: Db,
    calls: seq<Call>,
    rows: seq<FailedRow>,
    charges: seq<Charge>,
    pass: Pass,
    slipped: nat)

  /** How a call of debitWallet can go wrong: before it changes anything, or with a COMMIT
      that the database carried out but the caller saw fail. */
  datatype Fault = NoFault | ThrewBefore | ThrewAfterCommit

  datatype Action =
    | ChatDebit(account: Account, cost: nat, month: int, event: nat, fault: Fault)
    | ChatRecord(call: nat, at: nat, stored: bool)
    | Other(op: Op)
    | StartPass(cutoff: nat, limit: nat)
    | TryLock(acquired: bool)
    | RowDebit(month: int, event: nat, fault: Fault)
    | RowMark(stored: bool)
    | EndPass

  // ---------------------------------------------------------------- steps

  predicate IsOk(out: Outcome) {
    out.Debited? || out.ZeroCost?
  }

  /** The reasons the reconciler's pattern accepts as final. */
  predicate IsFinalRefusal(out: Outcome) {
    out.Insufficient? || out.NoWallet?
  }

  /** debitWallet on behalf of `source`, whether or not its caller learns of it. */
  function Charged(s: Sys, source: Source, op: Op): Sys
    requires op.OpDebit? && op.cost >= 0
  {
    if AnswerOf(s.db, op).Debited? then
      s.(db := Apply(s.db, op), charges := s.charges + [Charge(source, op.cost)])
    else s
  }

  function StepChatDebit(s: Sys, account: Account, cost: nat, month: int, event: nat, fault: Fault): Sys {
    var op := OpDebit(account, cost, month, event);
    var out := AnswerOf(s.db, op);
    var c := |s.calls|;
    match fault
    case NoFault =>
      Charged(s, OfCall(c), op)
      .(calls := s.calls + [Call(account, cost, if IsOk(out) then Paid else Unrecorded)])
    case ThrewBefore =>
      s.(calls := s.calls + [Call(account, cost, Unrecorded)])
    case ThrewAfterCommit =>
      Charged(s, OfCall(c), op)
      .(calls := s.calls + [Call(account, cost, Unrecorded)],
        slipped := s.slipped + if out.Debited? then cost else 0)
  }

  function StepChatRecord(s: Sys, c: nat, at: nat, stored: bool): Sys {
    if c < |s.calls| && s.calls[c].state.Unrecorded? then
      if stored then
        s.(rows := s.rows + [FailedRow(s.calls[c].account, s.calls[c].cost, at, Pending)],
           calls := s.calls[c := s.calls[c].(state := Recorded(|s.rows|))])
      else
        s.(calls := s.calls[c := s.calls[c].(state := Lost)])
    else s
  }

  predicate Eligible(row: FailedRow, cutoff: nat) {
    row.status.Pending? && row.createdAt < cutoff
  }

  predicate OldestFirst(rows: seq<FailedRow>, ids: seq<nat>) {
    && (forall k :: 0 <= k < |ids| ==> ids[k] < |rows|)
    && (forall j, k :: 0 <= j < k < |ids| ==> ids[j] != ids[k] && rows[ids[j]].createdAt <= rows[ids[k]].createdAt)
  }

  /** `r` among `ids`, behind those that are not younger. */
  function ByAge(rows: seq<FailedRow>, ids: seq<nat>, r: nat): (all: seq<nat>)
    requires OldestFirst(rows, ids) && r < |rows| && r !in ids
    ensures OldestFirst(rows, all) && |all| == |ids| + 1
    ensures forall id: nat :: id in all <==> id in ids || id == r
  {
    if ids == [] then [r]
    else
      var last := ids[|ids| - 1];
      if rows[last].createdAt <= rows[r].createdAt then ids + [r]
      else
        assert forall id: nat :: id in ids <==> id in ids[..|ids| - 1] || id == last;
        var front := ByAge(rows, ids[..|ids| - 1], r);
        assert forall k :: 0 <= k < |front| ==> front[k] in front;
        front + [last]
  }

  /** The eligible ones of the first `n` rows, oldest first. */
  function AllEligible(rows: seq<FailedRow>, n: nat, cutoff: nat): (ids: seq<nat>)
    requires n <= |rows|
    ensures OldestFirst(rows, ids)
    ensures forall r: nat :: r in ids <==> r < n && Eligible(rows[r], cutoff)
  {
    if n == 0 then []
    else
      var ids := AllEligible(rows, n - 1, cutoff);
      if Eligible(rows[n - 1], cutoff) then ByAge(rows, ids, n - 1) else ids
  }

  /** The `limit` oldest pending rows from before the cut-off. */
  function Select(rows: seq<FailedRow>, cutoff: nat, limit: nat): (ids: seq<nat>)
    ensures |ids| <= limit && OldestFirst(rows, ids)
    ensures forall k :: 0 <= k < |ids| ==> rows[ids[k]].status.Pending? && rows[ids[k]].createdAt < cutoff
    ensures forall r: nat :: r < |rows| && rows[r].status.Pending? && rows[r].createdAt < cutoff && r !in ids ==>
      |ids| == limit && forall k :: 0 <= k < |ids| ==> rows[ids[k]].createdAt <= rows[r].createdAt
  {
    var ids := AllEligible(rows, |rows|, cutoff);
    assert forall k :: 0 <= k < |ids| ==> ids[k] in ids;
    if |ids| <= limit then ids else ids[..limit]
  }

  function StepStartPass(s: Sys, cutoff: nat, limit: nat): Sys {
    if s.pass.NoPass? then s.(pass := Choosing(Select(s.rows, cutoff, limit))) else s
  }

  function StepTryLock(s: Sys, acquired: bool): Sys {
    if s.pass.Choosing? && s.pass.todo != [] then
      s.(pass := if acquired then Locked(s.pass.todo) else Choosing(s.pass.todo[1..]))
    else s
  }

  function RowOp(row: FailedRow, month: int, event: nat): Op {
    OpDebit(row.account, row.cost, month, event)
  }

  function StepRowDebit(s: Sys, month: int, event: nat, fault: Fault): Sys {
    if s.pass.Locked? && s.pass.todo != [] && s.pass.todo[0] < |s.rows| then
      var r := s.pass.todo[0];
      var op := RowOp(s.rows[r], month, event);
      var out := AnswerOf(s.db, op);
      match fault
      case NoFault => Charged(s, OfRow(r), op).(pass := Marking(s.pass.todo, out))
      case ThrewBefore => s.(pass := Choosing(s.pass.todo[1..]))
      case ThrewAfterCommit =>
        Charged(s, OfRow(r), op)
        .(pass := Choosing(s.pass.todo[1..]),
          slipped := s.slipped + if out.Debited? then s.rows[r].cost else 0)
    else s
  }

  function Unmarked(s: Sys): nat {
    if s.pass.Marking? && s.pass.todo != [] && s.pass.todo[0] < |s.rows| && s.pass.out.Debited?
    then s.rows[s.pass.todo[0]].cost else 0
  }

  function StepRowMark(s: Sys, stored: bool): Sys {
    if s.pass.Marking? && s.pass.todo != [] && s.pass.todo[0] < |s.rows| then
      var r, next := s.pass.todo[0], Choosing(s.pass.todo[1..]);
      if IsOk(s.pass.out) then
        if stored then s.(rows := s.rows[r := s.rows[r].(status := Reconciled)], pass := next)
        else s.(pass := next, slipped := s.slipped + Unmarked(s))
      else if IsFinalRefusal(s.pass.out) && stored then
        s.(rows := s.rows[r := s.rows[r].(status := Waived)], pass := next)
      else s.(pass := next)
    else s
  }

  /** The pass is over, or its process dies; a row debited and not yet marked slips. */
  function StepEndPass(s: Sys): Sys {
    s.(pass := NoPass, slipped := s.slipped + Unmarked(s))
  }

  function Step(s: Sys, a: Action): Sys {
    match a
    case ChatDebit(account, cost, month, event, fault) => StepChatDebit(s, account, cost, month, event, fault)
    case ChatRecord(c, at, stored) => StepChatRecord(s, c, at, stored)
    case Other(op) => if op.OpDebit? then s else s.(db := Apply(s.db, op))
    case StartPass(cutoff, limit) => StepStartPass(s, cutoff, limit)
    case TryLock(acquired) => StepTryLock(s, acquired)
    case RowDebit(month, event, fault) => StepRowDebit(s, month, event, fault)
    case RowMark(stored) => StepRowMark(s, stored)
    case EndPass => StepEndPass(s)
  }

  function Start(db: Db): Sys {
    Sys(db, [], [], [], NoPass, 0)
  }

  function Run(s: Sys, acts: seq<Action>): Sys {
    if |acts| == 0 then s else Step(Run(s, acts[..|acts| - 1]), acts[|acts| - 1])
  }

  // ---------------------------------------------------------------- how a row is settled

  /** The account's money covers the row. */
  predicate MoneyFor(db: Db, row: FailedRow) {
    row.account in db.wallets && db.wallets[row.account].balance > 0 && 100 * db.wallets[row.account].balance >= row.cost
  }

  /** The month has room for the row under the account's cap, if that has one. */
  ghost predicate RoomInMonth(db: Db, row: FailedRow, month: int) {
    row.account in db.wallets && db.wallets[row.account].cap.Some? ==>
      Sum(db.ledger, SinceMonth(row.account, month)) + row.cost <= db.wallets[row.account].cap.value
  }

  /** A debit the caller learns of and its mark, whatever happens in between: the row ends reconciled
      exactly if it costs nothing or there was money for it and room in the month, waived exactly if
      there was no money for it, and pending if only the cap was in the way. */
  lemma RowSettled(s: Sys, month: int, event: nat, t: Sys)
    requires s.pass.Locked? && s.pass.todo != [] && s.pass.todo[0] < |s.rows|
    requires t.pass == Step(s, RowDebit(month, event, NoFault)).pass
    requires s.pass.todo[0] < |t.rows| && t.rows[s.pass.todo[0]] == s.rows[s.pass.todo[0]]
    ensures
      var row, end := s.rows[s.pass.todo[0]], Step(t, RowMark(true)).rows[s.pass.todo[0]];
      && end == row.(status := end.status)
      && (if row.cost == 0 || (MoneyFor(s.db, row) && RoomInMonth(s.db, row, month)) then end.status.Reconciled?
          else if !MoneyFor(s.db, row) then end.status.Waived?
          else end == row)
      && Step(t, RowMark(false)).rows == t.rows
  {
    var row := s.rows[s.pass.todo[0]];
    AnswerIff(s.db, row.account, row.cost, month, AnswerOf(s.db, RowOp(row, month, event)));
  }

  // ---------------------------------------------------------------- totals

  function ChargeWeight(): Charge -> nat { (c: Charge) => c.amount }
  function PendingWeight(): FailedRow -> nat { (r: FailedRow) => if r.status.Pending? then r.cost else 0 }
  function WaivedWeight(): FailedRow -> nat { (r: FailedRow) => if r.status.Waived? then r.cost else 0 }
  function LostWeight(): Call -> nat { (c: Call) => if c.state.Lost? then c.cost else 0 }
  function FinishedWeight(): Call -> nat { (c: Call) => if c.state.Unrecorded? then 0 else c.cost }
  function DebitWeight(): Row -> nat { (r: Row) => if r.Debit? then r.amount else 0 }
  function IsOf(source: Source): Charge -> nat { (c: Charge) => if c.source == source then 1 else 0 }

  /** Everything charged, still owed, written off or lost. */
  function Accounted(s: Sys): nat {
    Sum(s.charges, ChargeWeight()) + Sum(s.rows, PendingWeight()) + Sum(s.rows, WaivedWeight())
    + Sum(s.calls, LostWeight())
  }

  /** What the finished calls cost. */
  function Finished(s: Sys): nat {
    Sum(s.calls, FinishedWeight())
  }

  /** How often `source` was charged. */
  function Times(s: Sys, source: Source): nat {
    Sum(s.charges, IsOf(source))
  }

  ghost predicate Law(s: Sys) {
    Accounted(s) == Finished(s) + Unmarked(s) + s.slipped
  }

  ghost predicate LedgerAgrees(db0: Db, s: Sys) {
    Sum(s.db.ledger, DebitWeight()) == Sum(db0.ledger, DebitWeight()) + Sum(s.charges, ChargeWeight())
  }

  /** The rows a pass still has are pending and different from one another. */
  ghost predicate PassSound(s: Sys) {
    !s.pass.NoPass? ==>
      && (forall k :: 0 <= k < |s.pass.todo| ==> s.pass.todo[k] < |s.rows| && s.rows[s.pass.todo[k]].status.Pending?)
      && (forall j, k :: 0 <= j < k < |s.pass.todo| ==> s.pass.todo[j] != s.pass.todo[k])
      && (!s.pass.Choosing? ==> s.pass.todo != [])
      && (s.pass.Marking? ==> (s.pass.out.ZeroCost? <==> s.rows[s.pass.todo[0]].cost == 0))
  }

  /** How often a row has been charged when nothing slipped. */
  function RowDue(s: Sys, r: nat): nat
    requires r < |s.rows|
  {
    if s.rows[r].cost > 0
       && (s.rows[r].status.Reconciled?
           || (s.pass.Marking? && s.pass.todo != [] && s.pass.todo[0] == r && s.pass.out.Debited?))
    then 1 else 0
  }

  ghost predicate ChargedOnce(s: Sys) {
    s.slipped == 0 ==>
      && (forall r :: 0 <= r < |s.rows| ==> Times(s, OfRow(r)) == RowDue(s, r))
      && (forall c :: 0 <= c < |s.calls| ==>
            Times(s, OfCall(c)) == if s.calls[c].state.Paid? && s.calls[c].cost > 0 then 1 else 0)
  }

  ghost predicate SourcesKnown(s: Sys) {
    && (forall r: nat :: r >= |s.rows| ==> Times(s, OfRow(r)) == 0)
    && (forall c: nat :: c >= |s.calls| ==> Times(s, OfCall(c)) == 0)
  }

  ghost predicate Inv(db0: Db, s: Sys) {
    Law(s) && LedgerAgrees(db0, s) && PassSound(s) && ChargedOnce(s) && SourcesKnown(s)
  }

  // ---------------------------------------------------------------- preservation

  lemma ChargedTotals(s: Sys, source: Source, op: Op)
    requires op.OpDebit? && op.cost >= 0
    ensures var s' := Charged(s, source, op);
            var amount := if AnswerOf(s.db, op).Debited? then op.cost else 0;
            && Sum(s'.charges, ChargeWeight()) == Sum(s.charges, ChargeWeight()) + amount
            && Sum(s'.db.ledger, DebitWeight()) == Sum(s.db.ledger, DebitWeight()) + amount
            && s' == s.(db := s'.db, charges := s'.charges)
  {
    if AnswerOf(s.db, op).Debited? {
      var s' := Charged(s, source, op);
      SumAppend(s.charges, Charge(source, op.cost), ChargeWeight());
      SumAppend(s.db.ledger, s'.db.ledger[|s.db.ledger|], DebitWeight());
    }
  }

  lemma ChargedTimes(s: Sys, source: Source, op: Op)
    requires op.OpDebit? && op.cost >= 0
    ensures forall x: Source ::
      (Times(Charged(s, source, op), x) == Times(s, x) + (if x == source && AnswerOf(s.db, op).Debited? then 1 else 0))
  {
    if AnswerOf(s.db, op).Debited? {
      forall x: Source
        ensures Times(Charged(s, source, op), x) == Times(s, x) + (if x == source then 1 else 0)
      {
        SumAppend(s.charges, Charge(source, op.cost), IsOf(x));
      }
    }
  }

  /** An accepted debit takes the whole cost, a refused one nothing. */
  lemma AllOrNothing(db: Db, op: Op)
    requires op.OpDebit? && op.cost >= 0
    ensures IsOk(AnswerOf(db, op)) ==> (if AnswerOf(db, op).Debited? then op.cost else 0) == op.cost
    ensures !IsOk(AnswerOf(db, op)) ==> !AnswerOf(db, op).Debited?
  {
  }

  lemma CallAppended(s: Sys, call: Call)
    ensures Sum(s.calls + [call], LostWeight()) == Sum(s.calls, LostWeight()) + LostWeight()(call)
    ensures Sum(s.calls + [call], FinishedWeight()) == Sum(s.calls, FinishedWeight()) + FinishedWeight()(call)
  {
    SumAppend(s.calls, call, LostWeight());
    SumAppend(s.calls, call, FinishedWeight());
  }

  lemma ChatDebitParts(s: Sys, account: Account, cost: nat, month: int, event: nat, fault: Fault)
    ensures
      var s', op := StepChatDebit(s, account, cost, month, event, fault), OpDebit(account, cost, month, event);
      var mid, out := Charged(s, OfCall(|s.calls|), op), AnswerOf(s.db, op);
      var call := Call(account, cost, if fault.NoFault? && IsOk(out) then Paid else Unrecorded);
      && s'.calls == s.calls + [call] && s'.rows == s.rows && s'.pass == s.pass && Unmarked(s') == Unmarked(s)
      && s'.charges == (if fault.ThrewBefore? then s.charges else mid.charges)
      && s'.db == (if fault.ThrewBefore? then s.db else mid.db)
      && s'.slipped == s.slipped + if fault.ThrewAfterCommit? && out.Debited? then cost else 0
  {
    hide Apply, Answer;
  }

  lemma ChatDebitTotals(db0: Db, s: Sys, account: Account, cost: nat, month: int, event: nat, fault: Fault)
    requires Law(s) && LedgerAgrees(db0, s)
    ensures var s' := StepChatDebit(s, account, cost, month, event, fault); Law(s') && LedgerAgrees(db0, s')
  {
    var op := OpDebit(account, cost, month, event);
    ChatDebitParts(s, account, cost, month, event, fault);
    ChargedTotals(s, OfCall(|s.calls|), op);
    AllOrNothing(s.db, op);
    hide Apply, Answer, StepChatDebit, Charged, Unmarked, Sum;
    CallAppended(s, Call(account, cost, if fault.NoFault? && IsOk(AnswerOf(s.db, op)) then Paid else Unrecorded));
  }

  lemma ChatDebitOnce(s: Sys, account: Account, cost: nat, month: int, event: nat, fault: Fault)
    requires ChargedOnce(s) && SourcesKnown(s)
    ensures var s' := StepChatDebit(s, account, cost, month, event, fault); ChargedOnce(s') && SourcesKnown(s')
  {
    var n := |s.calls|;
    var op := OpDebit(account, cost, month, event);
    var s' := StepChatDebit(s, account, cost, month, event, fault);
    ChargedTimes(s, OfCall(n), op);
    forall x: Source ensures Times(s', x)
      == Times(s, x) + (if x == OfCall(n) && !fault.ThrewBefore? && AnswerOf(s.db, op).Debited? then 1 else 0)
    {
      assert s'.charges == if fault.ThrewBefore? then s.charges else Charged(s, OfCall(n), op).charges;
    }
    forall r | 0 <= r < |s'.rows| ensures RowDue(s', r) == RowDue(s, r) {}
    assert forall c :: 0 <= c < n ==> s'.calls[c] == s.calls[c];
  }

  lemma ChatDebitPass(s: Sys, account: Account, cost: nat, month: int, event: nat, fault: Fault)
    requires PassSound(s)
    ensures PassSound(StepChatDebit(s, account, cost, month, event, fault))
  {
  }

  lemma ChatDebitKeeps(db0: Db, s: Sys, account: Account, cost: nat, month: int, event: nat, fault: Fault)
    requires Inv(db0, s)
    ensures Inv(db0, StepChatDebit(s, account, cost, month, event, fault))
  {
    hide Law, LedgerAgrees, PassSound, ChargedOnce, SourcesKnown;
    ChatDebitTotals(db0, s, account, cost, month, event, fault);
    ChatDebitOnce(s, account, cost, month, event, fault);
    ChatDebitPass(s, account, cost, month, event, fault);
  }

  lemma ChatRecordTotals(db0: Db, s: Sys, c: nat, at: nat, stored: bool)
    requires Law(s) && LedgerAgrees(db0, s) && PassSound(s)
    ensures var s' := StepChatRecord(s, c, at, stored); Law(s') && LedgerAgrees(db0, s')
  {
    if c < |s.calls| && s.calls[c].state.Unrecorded? {
      var s' := StepChatRecord(s, c, at, stored);
      SumUpdate(s.calls, c, s'.calls[c], LostWeight());
      SumUpdate(s.calls, c, s'.calls[c], FinishedWeight());
      if stored {
        SumAppend(s.rows, s'.rows[|s.rows|], PendingWeight());
        SumAppend(s.rows, s'.rows[|s.rows|], WaivedWeight());
      }
    }
  }

  lemma ChatRecordOnce(s: Sys, c: nat, at: nat, stored: bool)
    requires PassSound(s) && ChargedOnce(s) && SourcesKnown(s)
    ensures var s' := StepChatRecord(s, c, at, stored); PassSound(s') && ChargedOnce(s') && SourcesKnown(s')
  {
  }

  lemma ChatRecordKeeps(db0: Db, s: Sys, c: nat, at: nat, stored: bool)
    requires Inv(db0, s)
    ensures Inv(db0, StepChatRecord(s, c, at, stored))
  {
    ChatRecordTotals(db0, s, c, at, stored);
    ChatRecordOnce(s, c, at, stored);
  }

  lemma OtherKeeps(db0: Db, s: Sys, op: Op)
    requires Inv(db0, s) && !op.OpDebit?
    ensures Inv(db0, s.(db := Apply(s.db, op)))
  {
    if op.OpCredit? {
      SumAppend(s.db.ledger, Apply(s.db, op).ledger[|s.db.ledger|], DebitWeight());
    }
  }

  predicate AtRow(s: Sys) {
    !s.pass.NoPass? && s.pass.todo != [] && s.pass.todo[0] < |s.rows|
  }

  lemma RowDebitTotals(db0: Db, s: Sys, month: int, event: nat, fault: Fault)
    requires Law(s) && LedgerAgrees(db0, s) && AtRow(s) && s.pass.Locked?
    ensures var s' := StepRowDebit(s, month, event, fault); Law(s') && LedgerAgrees(db0, s')
  {
    hide Apply, Answer;
    var r := s.pass.todo[0];
    var op := RowOp(s.rows[r], month, event);
    var s', mid := StepRowDebit(s, month, event, fault), Charged(s, OfRow(r), op);
    ChargedTotals(s, OfRow(r), op);
    assert s'.rows == s.rows && s'.calls == s.calls;
    assert s'.charges == if fault.ThrewBefore? then s.charges else mid.charges;
    assert s'.db == if fault.ThrewBefore? then s.db else mid.db;
    assert Unmarked(s) == 0;
  }

  lemma RowDebitOnce(s: Sys, month: int, event: nat, fault: Fault)
    requires PassSound(s) && ChargedOnce(s) && SourcesKnown(s) && AtRow(s) && s.pass.Locked?
    ensures var s' := StepRowDebit(s, month, event, fault); ChargedOnce(s') && SourcesKnown(s')
  {
    var r := s.pass.todo[0];
    var op := RowOp(s.rows[r], month, event);
    var s' := StepRowDebit(s, month, event, fault);
    ChargedTimes(s, OfRow(r), op);
    forall x: Source ensures Times(s', x)
      == Times(s, x) + (if x == OfRow(r) && !fault.ThrewBefore? && AnswerOf(s.db, op).Debited? then 1 else 0)
    {
      assert s'.charges == if fault.ThrewBefore? then s.charges else Charged(s, OfRow(r), op).charges;
    }
    assert s.rows[r].status.Pending?;
    if s'.slipped == 0 {
      forall q | 0 <= q < |s.rows| ensures Times(s', OfRow(q)) == RowDue(s', q) {
        assert Times(s, OfRow(q)) == RowDue(s, q);
      }
    }
  }

  lemma RowDebitKeeps(db0: Db, s: Sys, month: int, event: nat, fault: Fault)
    requires Inv(db0, s)
    ensures Inv(db0, StepRowDebit(s, month, event, fault))
  {
    if AtRow(s) && s.pass.Locked? {
      RowDebitTotals(db0, s, month, event, fault);
      RowDebitOnce(s, month, event, fault);
    }
  }

  lemma RowMarkTotals(db0: Db, s: Sys, stored: bool)
    requires Law(s) && PassSound(s) && AtRow(s) && s.pass.Marking?
    ensures Law(StepRowMark(s, stored))
  {
    var r := s.pass.todo[0];
    var s' := StepRowMark(s, stored);
    if s'.rows != s.rows {
      SumUpdate(s.rows, r, s'.rows[r], PendingWeight());
      SumUpdate(s.rows, r, s'.rows[r], WaivedWeight());
    }
  }

  lemma RowMarkOnce(s: Sys, stored: bool)
    requires PassSound(s) && ChargedOnce(s) && SourcesKnown(s) && AtRow(s) && s.pass.Marking?
    ensures var s' := StepRowMark(s, stored); PassSound(s') && ChargedOnce(s') && SourcesKnown(s')
  {
    var r := s.pass.todo[0];
    var s' := StepRowMark(s, stored);
    assert forall k :: 0 <= k < |s'.pass.todo| ==> s'.pass.todo[k] == s.pass.todo[k + 1] && s.pass.todo[k + 1] != r;
    assert s'.charges == s.charges;
    if s'.slipped == 0 {
      forall q | 0 <= q < |s.rows| ensures Times(s', OfRow(q)) == RowDue(s', q) {
        assert Times(s, OfRow(q)) == RowDue(s, q);
      }
    }
  }

  lemma RowMarkKeeps(db0: Db, s: Sys, stored: bool)
    requires Inv(db0, s)
    ensures Inv(db0, StepRowMark(s, stored))
  {
    if AtRow(s) && s.pass.Marking? {
      RowMarkTotals(db0, s, stored);
      RowMarkOnce(s, stored);
    }
  }

  /** A pass that owes nothing may give way to another one. */
  lemma PassChanges(db0: Db, s: Sys, pass: Pass)
    requires Inv(db0, s) && Unmarked(s) == 0 && !pass.Marking? && PassSound(s.(pass := pass))
    ensures Inv(db0, s.(pass := pass))
  {
    hide PassSound, Select;
    var s' := s.(pass := pass);
    assert forall x: Source :: Times(s', x) == Times(s, x);
    assert forall r :: 0 <= r < |s.rows| ==> RowDue(s', r) == RowDue(s, r);
  }

  lemma StartPassKeeps(db0: Db, s: Sys, cutoff: nat, limit: nat)
    requires Inv(db0, s)
    ensures Inv(db0, StepStartPass(s, cutoff, limit))
  {
    if s.pass.NoPass? {
      hide Inv;
      var pass := Choosing(Select(s.rows, cutoff, limit));
      assert PassSound(s.(pass := pass));
      PassChanges(db0, s, pass);
    }
  }

  lemma TryLockKeeps(db0: Db, s: Sys, acquired: bool)
    requires Inv(db0, s)
    ensures Inv(db0, StepTryLock(s, acquired))
  {
    if s.pass.Choosing? && s.pass.todo != [] {
      PassMoves(s, acquired);
      PassChanges(db0, s, StepTryLock(s, acquired).pass);
    }
  }

  lemma PassMoves(s: Sys, acquired: bool)
    requires PassSound(s) && s.pass.Choosing? && s.pass.todo != []
    ensures PassSound(StepTryLock(s, acquired)) && !StepTryLock(s, acquired).pass.Marking?
  {
  }

  lemma EndPassKeeps(db0: Db, s: Sys)
    requires Inv(db0, s)
    ensures Inv(db0, StepEndPass(s))
  {
    if Unmarked(s) == 0 {
      assert StepEndPass(s) == s.(pass := NoPass);
      PassChanges(db0, s, NoPass);
    }
  }

  lemma StepKeeps(db0: Db, s: Sys, a: Action)
    requires Inv(db0, s)
    ensures Inv(db0, Step(s, a))
  {
    hide Inv;
    match a
    case ChatDebit(account, cost, month, event, fault) => ChatDebitKeeps(db0, s, account, cost, month, event, fault);
    case ChatRecord(c, at, stored) => ChatRecordKeeps(db0, s, c, at, stored);
    case Other(op) => if !op.OpDebit? { OtherKeeps(db0, s, op); }
    case RowDebit(month, event, fault) => RowDebitKeeps(db0, s, month, event, fault);
    case RowMark(stored) => RowMarkKeeps(db0, s, stored);
    case StartPass(cutoff, limit) => StartPassKeeps(db0, s, cutoff, limit);
    case TryLock(acquired) => TryLockKeeps(db0, s, acquired);
    case EndPass => EndPassKeeps(db0, s);
  }

  lemma {:induction false} RunKeeps(db0: Db, acts: seq<Action>)
    ensures Inv(db0, Run(Start(db0), acts))
  {
    if |acts| > 0 {
      RunKeeps(db0, acts[..|acts| - 1]);
      StepKeeps(db0, Run(Start(db0), acts[..|acts| - 1]), acts[|acts| - 1]);
    }
  }

  // ---------------------------------------------------------------- the results

  /** The steps whose effect the caller cannot see. */
  ghost predicate Slips(s: Sys, a: Action) {
    match a
    case ChatDebit(account, cost, month, event, fault) =>
      fault.ThrewAfterCommit? && Answer(s.db, account, cost, month).Debited?
    case RowDebit(month, event, fault) =>
      && fault.ThrewAfterCommit? && AtRow(s) && s.pass.Locked?
      && AnswerOf(s.db, RowOp(s.rows[s.pass.todo[0]], month, event)).Debited?
    case RowMark(stored) => !stored && Unmarked(s) > 0
    case EndPass => Unmarked(s) > 0
    case _ => false
  }

  lemma SlipStep(s: Sys, a: Action)
    ensures Step(s, a).slipped >= s.slipped
    ensures Step(s, a).slipped > s.slipped <==> Slips(s, a)
  {
  }

  ghost predicate NoneSlips(db0: Db, acts: seq<Action>) {
    |acts| > 0 ==>
      var before := acts[..|acts| - 1];
      !Slips(Run(Start(db0), before), acts[|acts| - 1]) && NoneSlips(db0, before)
  }

  /** Nothing has slipped exactly when no step so far was one of those. */
  lemma {:induction false} SlippedIff(db0: Db, acts: seq<Action>)
    ensures Run(Start(db0), acts).slipped == 0 <==> NoneSlips(db0, acts)
  {
    if |acts| > 0 {
      SlippedIff(db0, acts[..|acts| - 1]);
      SlipStep(Run(Start(db0), acts[..|acts| - 1]), acts[|acts| - 1]);
    }
  }

  /** In every run with one pass at a time: ledger debits + pending + waived + lost equal the
      cost of the finished calls, plus the row debited a moment ago and about to be marked,
      plus what slipped.  So the books close exactly when nothing slipped. */
  lemma Conservation(db0: Db, acts: seq<Action>)
    ensures var s := Run(Start(db0), acts);
            && Accounted(s) == Finished(s) + Unmarked(s) + s.slipped
            && (Accounted(s) == Finished(s) + Unmarked(s) <==> s.slipped == 0)
            && Sum(s.db.ledger, DebitWeight()) == Sum(db0.ledger, DebitWeight()) + Sum(s.charges, ChargeWeight())
  {
    RunKeeps(db0, acts);
  }

  /** The books close exactly if no step was one whose effect its caller could not see. */
  lemma BooksCloseIff(db0: Db, acts: seq<Action>)
    ensures var s := Run(Start(db0), acts);
            Accounted(s) == Finished(s) + Unmarked(s) <==> NoneSlips(db0, acts)
  {
    Conservation(db0, acts);
    SlippedIff(db0, acts);
  }

  /** While nothing has slipped, a row is debited at most once, a waived row never, and a call
      not both directly and through its row. */
  lemma AtMostOnce(db0: Db, acts: seq<Action>, r: nat)
    requires Run(Start(db0), acts).slipped == 0 && r < |Run(Start(db0), acts).rows|
    ensures var s := Run(Start(db0), acts);
            && Times(s, OfRow(r)) <= 1
            && (s.rows[r].status.Waived? ==> Times(s, OfRow(r)) == 0)
            && (s.rows[r].status.Reconciled? && s.rows[r].cost > 0 ==> Times(s, OfRow(r)) == 1)
            && forall c :: 0 <= c < |s.calls| && s.calls[c].state == Recorded(r) ==> Times(s, OfCall(c)) == 0
  {
    RunKeeps(db0, acts);
    var s := Run(Start(db0), acts);
    assert PassSound(s) && Times(s, OfRow(r)) == RowDue(s, r);
  }

  /** A row's status changes at most once, from pending; nothing else about a row ever changes. */
  lemma StatusMoves(db0: Db, acts: seq<Action>, a: Action, r: nat)
    requires r < |Run(Start(db0), acts).rows|
    ensures var s := Run(Start(db0), acts);
            var s' := Run(Start(db0), acts + [a]);
            && |s'.rows| >= |s.rows|
            && s'.rows[r] == s.rows[r].(status := s'.rows[r].status)
            && (s'.rows[r].status != s.rows[r].status ==> s.rows[r].status.Pending?)
  {
    RunKeeps(db0, acts);
    assert (acts + [a])[..|acts + [a]| - 1] == acts;
    StatusStep(Run(Start(db0), acts), a, r);
  }

  lemma StatusStep(s: Sys, a: Action, r: nat)
    requires PassSound(s) && r < |s.rows|
    ensures
      var s' := Step(s, a);
      && |s'.rows| >= |s.rows|
      && s'.rows[r] == s.rows[r].(status := s'.rows[r].status)
      && (s'.rows[r].status != s.rows[r].status ==> s.rows[r].status.Pending?)
  {
  }
}
