// One pass of the reconciler as a loop over the rows it selected, whatever fails on the way.
module ReconcilePass {
  import opened WalletLedger
  import opened FailedDebits
  import opened Sums

  datatype Counters = Counters(scanned: nat, reconciled: nat, waived: nat, failed: nat)

  datatype Verdict = AsReconciled | AsWaived | AsFailed

  /** What a row's replay counts as; `out` is the answer of its debit, if the caller got one. */
  function VerdictOf(fault: Fault, out: Outcome, stored: bool): Verdict {
    if !fault.NoFault? || !stored then AsFailed
    else if IsOk(out) then AsReconciled
    else if IsFinalRefusal(out) then AsWaived
    else AsFailed
  }

  function StatusFor(v: Verdict): Status {
    match v
    case AsReconciled => Reconciled
    case AsWaived => Waived
    case AsFailed => Pending
  }

  /** Debited, but the row is still pending. */
  function SlipOf(fault: Fault, out: Outcome, stored: bool, cost: nat): nat {
    if !fault.ThrewBefore? && out.Debited? && VerdictOf(fault, out, stored) != AsReconciled then cost else 0
  }

  function ReconciledOne(): FailedRow -> nat { (r: FailedRow) => if r.status.Reconciled? then 1 else 0 }
  function WaivedOne(): FailedRow -> nat { (r: FailedRow) => if r.status.Waived? then 1 else 0 }

  /** How many of the rows belong to accounts another session has locked. */
  function Skipped(rows: seq<FailedRow>, ids: seq<nat>, busy: set<Account>): nat
    requires forall k :: 0 <= k < |ids| ==> ids[k] < |rows|
  {
    if |ids| == 0 then 0
    else Skipped(rows, ids[..|ids| - 1], busy) + if rows[ids[|ids| - 1]].account in busy then 1 else 0
  }

  /** What debits, pending and waived rows add up to. */
  function Owed(db: Db, rows: seq<FailedRow>): nat {
    Sum(db.ledger, DebitWeight()) + Sum(rows, PendingWeight()) + Sum(rows, WaivedWeight())
  }

  /** Nothing owed appears or vanishes except what slips, and the statuses move as often as counted. */
  ghost predicate Tally(db0: Db, rows0: seq<FailedRow>, db: Db, rows: seq<FailedRow>, reconciled: nat, waived: nat,
                        slipped: nat) {
    && Owed(db, rows) == Owed(db0, rows0) + slipped
    && Sum(rows, ReconciledOne()) == Sum(rows0, ReconciledOne()) + reconciled
    && Sum(rows, WaivedOne()) == Sum(rows0, WaivedOne()) + waived
  }

  /** A pass may change only the statuses of the rows it selected and could lock. */
  ghost predicate OnlyStatuses(before: seq<FailedRow>, after: seq<FailedRow>, ids: seq<nat>, busy: set<Account>) {
    && |after| == |before|
    && (forall r :: 0 <= r < |after| ==> after[r] == before[r].(status := after[r].status))
    && (forall r :: 0 <= r < |after| && (r !in ids || before[r].account in busy) ==> after[r] == before[r])
  }

  /** After the rows in `done`: each is counted as skipped, reconciled, waived or failed. */
  ghost predicate Progress(s: Pass, t: Pass, done: seq<nat>, busy: set<Account>)
    requires Within(s.rows, done)
  {
    && OnlyStatuses(s.rows, t.rows, done, busy)
    && t.counters.scanned == s.counters.scanned
    && t.counters.reconciled + t.counters.waived + t.counters.failed + Skipped(s.rows, done, busy) == |done|
    && Tally(s.db, s.rows, t.db, t.rows, t.counters.reconciled, t.counters.waived, t.slipped)
  }

  function Count(c: Counters, v: Verdict): Counters {
    match v
    case AsReconciled => c.(reconciled := c.reconciled + 1)
    case AsWaived => c.(waived := c.waived + 1)
    case AsFailed => c.(failed := c.failed + 1)
  }

  // ---------------------------------------------------------------- what a pass computes

  /** `slipped` is what has been debited for rows that are still pending. */
  datatype Pass = Pass(db: Db, rows: seq<FailedRow>, nextEvent: nat, counters: Counters, slipped: nat)

  ghost predicate Within(rows: seq<FailedRow>, ids: seq<nat>) {
    forall k :: 0 <= k < |ids| ==> ids[k] < |rows|
  }

  /** One row, debited and marked, or as far as that got. */
  function Replayed(s: Pass, r: nat, month: int, fault: Fault, stored: bool): (t: Pass)
    requires r < |s.rows|
    ensures |t.rows| == |s.rows|
  {
    var row := s.rows[r];
    var op := RowOp(row, month, s.nextEvent);
    var verdict := VerdictOf(fault, AnswerOf(s.db, op), stored);
    Pass(
      if fault.ThrewBefore? then s.db else Apply(s.db, op),
      s.rows[r := row.(status := StatusFor(verdict))],
      if fault.ThrewBefore? then s.nextEvent else s.nextEvent + 1,
      Count(s.counters, verdict),
      s.slipped + SlipOf(fault, AnswerOf(s.db, op), stored, row.cost))
  }

  /** The rows `ids` in turn; the k-th ends as `faults(k)` and `stored(k)` say. */
  function After(s: Pass, ids: seq<nat>, month: int, busy: set<Account>, faults: nat -> Fault, stored: nat -> bool): (t: Pass)
    requires forall k :: 0 <= k < |ids| ==> ids[k] < |s.rows|
    ensures |t.rows| == |s.rows|
  {
    if |ids| == 0 then s
    else
      var k := |ids| - 1;
      var t := After(s, ids[..k], month, busy, faults, stored);
      if t.rows[ids[k]].account in busy then t else Replayed(t, ids[k], month, faults(k), stored(k))
  }

  lemma ReplayedTally(s: Pass, r: nat, month: int, fault: Fault, stored: bool)
    requires r < |s.rows| && s.rows[r].status.Pending?
    ensures
      var t := Replayed(s, r, month, fault, stored);
      var v := VerdictOf(fault, AnswerOf(s.db, RowOp(s.rows[r], month, s.nextEvent)), stored);
      Tally(s.db, s.rows, t.db, t.rows, if v.AsReconciled? then 1 else 0, if v.AsWaived? then 1 else 0,
            t.slipped - s.slipped)
  {
    var t := Replayed(s, r, month, fault, stored);
    DebitTotal(s.db, RowOp(s.rows[r], month, s.nextEvent));
    MarkTotals(s.rows, r, t.rows[r]);
  }

  lemma SkippedNext(rows: seq<FailedRow>, done: seq<nat>, r: nat, busy: set<Account>)
    requires Within(rows, done) && r < |rows|
    ensures Within(rows, done + [r])
    ensures Skipped(rows, done + [r], busy) == Skipped(rows, done, busy) + if rows[r].account in busy then 1 else 0
  {
    assert (done + [r])[..|done|] == done;
  }

  lemma ProgressStep(s: Pass, t: Pass, done: seq<nat>, r: nat, month: int, busy: set<Account>, fault: Fault, stored: bool)
    requires Within(s.rows, done) && Progress(s, t, done, busy)
    requires r < |s.rows| && r !in done && s.rows[r].status.Pending? && s.rows[r].account !in busy
    ensures Within(s.rows, done + [r]) && Progress(s, Replayed(t, r, month, fault, stored), done + [r], busy)
  {
    SkippedNext(s.rows, done, r, busy);
    assert t.rows[r] == s.rows[r];
    ReplayedTally(t, r, month, fault, stored);
  }

  /** A pass that starts with its counters at 0 counts every row once, changes only statuses of rows
      it could lock, and leaves debits, pending and waived rows the same sum but for what slipped. */
  lemma {:induction false} PassTally(s: Pass, ids: seq<nat>, month: int, busy: set<Account>, faults: nat -> Fault,
                                     stored: nat -> bool)
    requires s.counters == Counters(s.counters.scanned, 0, 0, 0) && s.slipped == 0
    requires Within(s.rows, ids) && forall k :: 0 <= k < |ids| ==> s.rows[ids[k]].status.Pending?
    requires forall i, j :: 0 <= i < j < |ids| ==> ids[i] != ids[j]
    ensures Progress(s, After(s, ids, month, busy, faults, stored), ids, busy)
    ensures (forall k :: stored(k) && !faults(k).ThrewAfterCommit?) ==>
      After(s, ids, month, busy, faults, stored).slipped == 0
  {
    if ids != [] {
      var k := |ids| - 1;
      PassTally(s, ids[..k], month, busy, faults, stored);
      assert ids == ids[..k] + [ids[k]];
      var t := After(s, ids[..k], month, busy, faults, stored);
      if s.rows[ids[k]].account in busy {
        SkippedNext(s.rows, ids[..k], ids[k], busy);
      } else {
        ProgressStep(s, t, ids[..k], ids[k], month, busy, faults(k), stored(k));
      }
    }
  }

  /** The tables call for this verdict. */
  ghost predicate VerdictFits(db: Db, row: FailedRow, month: int, told: bool, verdict: Verdict) {
    && (verdict.AsWaived? <==> told && row.cost > 0 && !MoneyFor(db, row))
    && (verdict.AsReconciled? <==> told && (row.cost == 0 || (MoneyFor(db, row) && RoomInMonth(db, row, month))))
  }

  lemma VerdictIff(db: Db, row: FailedRow, month: int, event: nat, fault: Fault, stored: bool)
    ensures
      VerdictFits(db, row, month, fault.NoFault? && stored, VerdictOf(fault, AnswerOf(db, RowOp(row, month, event)), stored))
  {
    AnswerIff(db, row.account, row.cost, month, AnswerOf(db, RowOp(row, month, event)));
  }

  /** How the k-th row ends is settled by the tables in its turn.  If it can be locked, the caller
      learns of the debit and the mark is stored, it ends reconciled exactly if it costs nothing or
      there is money for it and room in the month, waived exactly if there is no money for it, and it
      stays pending exactly if only the cap is in the way; otherwise it stays as it was. */
  lemma {:induction false} RowEnds(s: Pass, ids: seq<nat>, month: int, busy: set<Account>, faults: nat -> Fault,
                                   stored: nat -> bool, k: nat)
    requires Within(s.rows, ids) && k < |ids| && s.rows[ids[k]].status.Pending?
    requires forall i, j :: 0 <= i < j < |ids| ==> ids[i] != ids[j]
    ensures
      var row := s.rows[ids[k]];
      var turn := After(s, ids[..k], month, busy, faults, stored);
      var told := row.account !in busy && faults(k).NoFault? && stored(k);
      var end := After(s, ids, month, busy, faults, stored).rows[ids[k]];
      && turn.rows[ids[k]] == row && end == row.(status := end.status)
      && (end.status.Reconciled? <==>
            told && (row.cost == 0 || (MoneyFor(turn.db, row) && RoomInMonth(turn.db, row, month))))
      && (end.status.Waived? <==> told && row.cost > 0 && !MoneyFor(turn.db, row))
      && (end.status.Pending? <==>
            !told || (row.cost > 0 && MoneyFor(turn.db, row) && !RoomInMonth(turn.db, row, month)))
  {
    Untouched(s, ids[..k], ids[k], month, busy, faults, stored);
    if k == |ids| - 1 {
      assert ids[..k + 1] == ids;
      var row, turn := s.rows[ids[k]], After(s, ids[..k], month, busy, faults, stored);
      VerdictIff(turn.db, row, month, turn.nextEvent, faults(k), stored(k));
    } else {
      RowEnds(s, ids[..|ids| - 1], month, busy, faults, stored, k);
      assert ids[..|ids| - 1][..k] == ids[..k];
    }
  }

  lemma {:induction false} Untouched(s: Pass, ids: seq<nat>, r: nat, month: int, busy: set<Account>, faults: nat -> Fault,
                                     stored: nat -> bool)
    requires Within(s.rows, ids) && r < |s.rows| && r !in ids
    ensures After(s, ids, month, busy, faults, stored).rows[r] == s.rows[r]
  {
    if ids != [] {
      assert ids[|ids| - 1] in ids;
      Untouched(s, ids[..|ids| - 1], r, month, busy, faults, stored);
    }
  }

  /** No row of the account comes first. */
  predicate NoneBefore(rows: seq<FailedRow>, ids: seq<nat>, a: Account) {
    forall k :: 0 <= k < |ids| ==> ids[k] < |rows| && rows[ids[k]].account != a
  }

  /** Rows of other accounts leave an account's wallet and its month alone. */
  lemma {:induction false} OthersFirst(s: Pass, ids: seq<nat>, month: int, busy: set<Account>, faults: nat -> Fault,
                                       stored: nat -> bool, row: FailedRow)
    requires NoneBefore(s.rows, ids, row.account)
    ensures
      var t := After(s, ids, month, busy, faults, stored);
      && (MoneyFor(t.db, row) <==> MoneyFor(s.db, row))
      && (RoomInMonth(t.db, row, month) <==> RoomInMonth(s.db, row, month))
      && (forall r :: 0 <= r < |t.rows| ==> t.rows[r].account == s.rows[r].account)
  {
    if ids != [] {
      var k := |ids| - 1;
      OthersFirst(s, ids[..k], month, busy, faults, stored, row);
      var t := After(s, ids[..k], month, busy, faults, stored);
      var op := RowOp(t.rows[ids[k]], month, t.nextEvent);
      AnswerFrame(t.db, op, row.account, row.cost, month);
      SpentIsSum(t.db.ledger, row.account, month);
      SpentIsSum(Apply(t.db, op).ledger, row.account, month);
    }
  }

  /** What a month's cap keeps pending is no lost cause: a later pass in which nothing fails reconciles
      it, in a month with room for it, if the account's money is still there and no other row of the
      account comes first. */
  lemma CappedRowLater(s: Pass, ids: seq<nat>, month: int, busy: set<Account>, faults: nat -> Fault, stored: nat -> bool,
                       k: nat, cutoff: nat, limit: nat, later: int, j: nat)
    requires Within(s.rows, ids) && k < |ids| && s.rows[ids[k]].status.Pending?
    requires forall i, j :: 0 <= i < j < |ids| ==> ids[i] != ids[j]
    requires s.rows[ids[k]].account !in busy && faults(k).NoFault? && stored(k)
    requires
      var row, turn := s.rows[ids[k]], After(s, ids[..k], month, busy, faults, stored);
      row.cost > 0 && MoneyFor(turn.db, row) && !RoomInMonth(turn.db, row, month)
    requires
      var row, t := s.rows[ids[k]], After(s, ids, month, busy, faults, stored);
      var again := Select(t.rows, cutoff, limit);
      && j < |again| && again[j] == ids[k] && NoneBefore(t.rows, again[..j], row.account)
      && MoneyFor(t.db, row) && RoomInMonth(t.db, row, later)
    ensures
      var row, t := s.rows[ids[k]], After(s, ids, month, busy, faults, stored);
      && t.rows[ids[k]] == row
      && After(t, Select(t.rows, cutoff, limit), later, {}, _ => NoFault, _ => true).rows[ids[k]]
         == row.(status := Reconciled)
  {
    RowEnds(s, ids, month, busy, faults, stored, k);
    var row, t := s.rows[ids[k]], After(s, ids, month, busy, faults, stored);
    var again := Select(t.rows, cutoff, limit);
    OthersFirst(t, again[..j], later, {}, _ => NoFault, _ => true, row);
    RowEnds(t, again, later, {}, _ => NoFault, _ => true, j);
  }

  class Reconciler {
    var db: Db
    var rows: seq<FailedRow>
    var nextEvent: nat

    constructor (db: Db, rows: seq<FailedRow>, nextEvent: nat)
      ensures this.db == db && this.rows == rows && this.nextEvent == nextEvent
    {
      this.db, this.rows, this.nextEvent := db, rows, nextEvent;
    }

    /** The counters are those of the caller. */
    ghost function State(counters: Counters, slipped: nat): Pass
      reads this
    {
      Pass(db, rows, nextEvent, counters, slipped)
    }

    /** Replay of one pending row, from the debit to the status update; either can fail. */
    method ReplayRow(r: nat, month: int, fault: Fault, stored: bool, ghost counters: Counters, ghost slipped: nat)
      returns (verdict: Verdict)
      requires r < |rows| && rows[r].status.Pending?
      modifies this
      ensures var op := RowOp(old(rows)[r], month, old(nextEvent));
              var out := AnswerOf(old(db), op);
              && verdict == VerdictOf(fault, out, stored)
              && db == (if fault.ThrewBefore? then old(db) else Apply(old(db), op))
              && State(Count(counters, verdict), slipped + SlipOf(fault, out, stored, old(rows)[r].cost))
                 == Replayed(old(State(counters, slipped)), r, month, fault, stored)
              && Tally(old(db), old(rows), db, rows, if verdict.AsReconciled? then 1 else 0,
                       if verdict.AsWaived? then 1 else 0, SlipOf(fault, out, stored, old(rows)[r].cost))
      ensures rows == old(rows)[r := old(rows)[r].(status := StatusFor(verdict))]
      ensures VerdictFits(old(db), old(rows)[r], month, fault.NoFault? && stored, verdict)
    {
      hide Apply, Answer, Tally, MoneyFor, RoomInMonth, DebitWeight, IsFinalRefusal, IsOk;
      var op := RowOp(rows[r], month, nextEvent);
      assert rows[r := rows[r].(status := Pending)] == rows;
      ReplayedTally(State(counters, slipped), r, month, fault, stored);
      VerdictIff(db, rows[r], month, nextEvent, fault, stored);
      verdict := AsFailed;
      if !fault.ThrewBefore? {
        var out := AnswerOf(db, op);
        db, nextEvent := Apply(db, op), nextEvent + 1;
        if fault.NoFault? {
          if IsOk(out) && stored {
            rows := rows[r := rows[r].(status := Reconciled)];
            verdict := AsReconciled;
          } else if !IsOk(out) && IsFinalRefusal(out) && stored {
            rows := rows[r := rows[r].(status := Waived)];
            verdict := AsWaived;
          }
        }
      }
    }

    /** One pass.  `busy` are the accounts whose advisory lock another session holds; `faults` and
        `stored` tell how the debit and the status update of the k-th row end. */
    method ReconcileFailedDebits(cutoff: nat, limit: nat, month: int, busy: set<Account>,
                                 faults: nat -> Fault, stored: nat -> bool)
      returns (result: Counters, ghost slipped: nat)
      modifies this
      ensures var ids := Select(old(rows), cutoff, limit);
              && State(result, slipped)
                 == After(old(State(Counters(|ids|, 0, 0, 0), 0)), ids, month, busy, faults, stored)
              && result.scanned == |ids|
              && result.reconciled + result.waived + result.failed + Skipped(old(rows), ids, busy) == result.scanned
              && OnlyStatuses(old(rows), rows, ids, busy)
      ensures Tally(old(db), old(rows), db, rows, result.reconciled, result.waived, slipped)
      ensures (forall k :: stored(k) && !faults(k).ThrewAfterCommit?) ==> slipped == 0
    {
      hide AnswerOf, Apply, VerdictOf, StatusFor, SlipOf, Tally, OnlyStatuses, Skipped, Replayed, Count, Select, VerdictFits;
      var ids := Select(rows, cutoff, limit);
      result, slipped := Counters(|ids|, 0, 0, 0), 0;
      ghost var s := State(result, slipped);
      PassTally(s, ids, month, busy, faults, stored);
      for k := 0 to |ids|
        invariant State(result, slipped) == After(s, ids[..k], month, busy, faults, stored)
      {
        var r := ids[k];
        assert ids[..k + 1][..k] == ids[..k] && r !in ids[..k];
        Untouched(s, ids[..k], r, month, busy, faults, stored);
        if rows[r].account !in busy {
          ghost var t := Replayed(State(result, slipped), r, month, faults(k), stored(k));
          var verdict := ReplayRow(r, month, faults(k), stored(k), result, slipped);
          result, slipped := Count(result, verdict), t.slipped;
        }
      }
      assert ids[..|ids|] == ids;
    }
  }

  lemma DebitTotal(db: Db, op: Op)
    requires op.OpDebit? && op.cost >= 0
    ensures Sum(Apply(db, op).ledger, DebitWeight())
         == Sum(db.ledger, DebitWeight()) + if AnswerOf(db, op).Debited? then op.cost else 0
  {
    if AnswerOf(db, op).Debited? {
      SumAppend(db.ledger, Apply(db, op).ledger[|db.ledger|], DebitWeight());
    }
  }

  lemma MarkTotals(rows: seq<FailedRow>, r: nat, row: FailedRow)
    requires r < |rows| && rows[r].status.Pending? && row == rows[r].(status := row.status)
    ensures Sum(rows[r := row], PendingWeight())
         == Sum(rows, PendingWeight()) - if row.status.Pending? then 0 else row.cost
    ensures Sum(rows[r := row], WaivedWeight())
         == Sum(rows, WaivedWeight()) + if row.status.Waived? then row.cost else 0
    ensures Sum(rows[r := row], ReconciledOne())
         == Sum(rows, ReconciledOne()) + if row.status.Reconciled? then 1 else 0
    ensures Sum(rows[r := row], WaivedOne())
         == Sum(rows, WaivedOne()) + if row.status.Waived? then 1 else 0
  {
    SumUpdate(rows, r, row, PendingWeight());
    SumUpdate(rows, r, row, WaivedWeight());
    SumUpdate(rows, r, row, ReconciledOne());
    SumUpdate(rows, r, row, WaivedOne());
  }
}
