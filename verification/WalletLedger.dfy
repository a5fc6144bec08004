// The AI wallet tables and one debit as a single atomic operation.
//
// Debit amounts carry six decimals (numeric(12,6)) and are counted in micro-EUR; the wallet
// balance carries four (numeric(12,4)) and is counted in units of 100 micro-EUR, so the
// database rounds the balance it stores to a whole unit.
module WalletLedger {
  import opened Wrappers
  import opened Sums

  type Account = string

  /** A balance in micro-EUR. */
  function Micros(units: int): int {
    100 * units
  }

  /** Credits come in whole cents; a cent is 100 units. */
  function FromCents(cents: nat): nat {
    100 * cents
  }

  /** A whole number of balance units. */
  predicate Whole(micros: int) {
    micros % 100 == 0
  }

  datatype Wallet = Wallet(balance: nat, cap: Option<nat>)

  /** Credit amounts are in units, debit amounts in micro-EUR.  `after` is the balance column of the
      ledger row; `month` is the month of the debiting transaction's own clock. */
  datatype Row =
    | Credit(account: Account, amount: nat, after: nat)
    | Debit(account: Account, amount: nat, after: nat, event: nat, month: int)

  datatype Usage = Usage(account: Account, cost: nat)

  datatype Db = Db(wallets: map<Account, Wallet>, ledger: seq<Row>, events: map<nat, Usage>)

  datatype Outcome = ZeroCost | NoWallet | Insufficient | CapExceeded | Debited(newBalance: nat)

  // ---------------------------------------------------------------- one debit

  /** The units the balance column holds after a value in micro-EUR is written to it:
      nearest, halves away from zero. */
  function Stored(micros: nat): (units: nat)
    ensures micros - 50 < Micros(units) <= micros + 50
  {
    (micros + 50) / 100
  }

  /** The sum the monthly gate reads: debits of `a` dated in month `m` or later. */
  function SpentFrom(ledger: seq<Row>, a: Account, m: int): nat
  {
    if |ledger| == 0 then 0
    else
      var r := ledger[|ledger| - 1];
      SpentFrom(ledger[..|ledger| - 1], a, m)
      + if r.Debit? && r.account == a && r.month >= m then r.amount else 0
  }

  /** The debits of `a` dated in month `m` itself. */
  function SpentIn(ledger: seq<Row>, a: Account, m: int): nat
  {
    if |ledger| == 0 then 0
    else
      var r := ledger[|ledger| - 1];
      SpentIn(ledger[..|ledger| - 1], a, m)
      + if r.Debit? && r.account == a && r.month == m then r.amount else 0
  }

  predicate BalanceGate(w: Wallet, cost: nat) {
    w.balance > 0 && Micros(w.balance) >= cost
  }

  predicate CapGate(w: Wallet, ledger: seq<Row>, a: Account, cost: nat, month: int) {
    w.cap.Some? ==> SpentFrom(ledger, a, month) + cost <= w.cap.value
  }

  /** The answer of a debit that runs alone. */
  function Answer(db: Db, a: Account, cost: int, month: int): Outcome {
    if cost <= 0 then ZeroCost
    else if a !in db.wallets then NoWallet
    else
      var w := db.wallets[a];
      if !BalanceGate(w, cost) then Insufficient
      else if !CapGate(w, db.ledger, a, cost, month) then CapExceeded
      else Debited(Stored(Micros(w.balance) - cost))
  }

  datatype Op =
    | OpDebit(account: Account, cost: int, month: int, event: nat)
    | OpCredit(account: Account, cents: nat)
    | OpSetCap(account: Account, cap: Option<nat>)

  function AnswerOf(db: Db, op: Op): Outcome
    requires op.OpDebit?
  {
    Answer(db, op.account, op.cost, op.month)
  }

  function Apply(db: Db, op: Op): Db {
    match op
    case OpDebit(a, cost, month, event) =>
      var out := Answer(db, a, cost, month);
      if out.Debited? then
        Db(db.wallets[a := db.wallets[a].(balance := out.newBalance)],
           db.ledger + [Debit(a, cost, out.newBalance, event, month)],
           db.events[event := Usage(a, cost)])
      else db
    case OpCredit(a, cents) =>
      var amount := FromCents(cents);
      var w := if a in db.wallets then db.wallets[a] else Wallet(0, None);
      var after := w.balance + amount;
      db.(wallets := db.wallets[a := w.(balance := after)],
          ledger := db.ledger + [Credit(a, amount, after)])
    case OpSetCap(a, cap) =>
      var w := if a in db.wallets then db.wallets[a] else Wallet(0, None);
      db.(wallets := db.wallets[a := w.(cap := cap)])
  }

  /** Operations one after the other. */
  function Replay(db: Db, ops: seq<Op>): Db {
    if |ops| == 0 then db
    else Apply(Replay(db, ops[..|ops| - 1]), ops[|ops| - 1])
  }

  lemma ReplayStep(db: Db, ops: seq<Op>, op: Op)
    ensures Replay(db, ops + [op]) == Apply(Replay(db, ops), op)
  {
    assert (ops + [op])[..|ops + [op]| - 1] == ops;
  }

  lemma SpentStep(ledger: seq<Row>, r: Row, a: Account, m: int)
    ensures SpentFrom(ledger + [r], a, m)
         == SpentFrom(ledger, a, m) + if r.Debit? && r.account == a && r.month >= m then r.amount else 0
    ensures SpentIn(ledger + [r], a, m)
         == SpentIn(ledger, a, m) + if r.Debit? && r.account == a && r.month == m then r.amount else 0
  {
    assert (ledger + [r])[..|ledger + [r]| - 1] == ledger;
  }

  lemma {:induction false} SpentInAtMostFrom(ledger: seq<Row>, a: Account, m: int)
    ensures SpentIn(ledger, a, m) <= SpentFrom(ledger, a, m)
  {
    if |ledger| > 0 {
      SpentInAtMostFrom(ledger[..|ledger| - 1], a, m);
    }
  }

  // ---------------------------------------------------------------- why a debit is answered what

  /** What a ledger row counts against a debit of `a` in this month. */
  function SinceMonth(a: Account, month: int): Row -> nat {
    (r: Row) => if r.Debit? && r.account == a && r.month >= month then r.amount else 0
  }

  /** The tables call for this answer: a wallet has to be there, with a balance above 0 that covers
      the cost, and the month's debits may not go above its cap with it. */
  ghost predicate Justified(db: Db, a: Account, cost: int, month: int, out: Outcome) {
    match out
    case ZeroCost => cost <= 0
    case NoWallet => cost > 0 && a !in db.wallets
    case Insufficient =>
      cost > 0 && a in db.wallets && (db.wallets[a].balance == 0 || 100 * db.wallets[a].balance < cost)
    case CapExceeded =>
      && cost > 0 && a in db.wallets && db.wallets[a].balance > 0 && 100 * db.wallets[a].balance >= cost
      && db.wallets[a].cap.Some? && Sum(db.ledger, SinceMonth(a, month)) + cost > db.wallets[a].cap.value
    case Debited(newBalance) =>
      && cost > 0 && a in db.wallets && db.wallets[a].balance > 0 && 100 * db.wallets[a].balance >= cost
      && (db.wallets[a].cap.Some? ==> Sum(db.ledger, SinceMonth(a, month)) + cost <= db.wallets[a].cap.value)
      && -50 < 100 * newBalance - (100 * db.wallets[a].balance - cost) <= 50
  }

  lemma {:induction false} SpentIsSum(ledger: seq<Row>, a: Account, month: int)
    ensures SpentFrom(ledger, a, month) == Sum(ledger, SinceMonth(a, month))
  {
    if |ledger| > 0 {
      SpentIsSum(ledger[..|ledger| - 1], a, month);
    }
  }

  /** A debit is answered what the tables call for, and they call for one answer only. */
  lemma AnswerIff(db: Db, a: Account, cost: int, month: int, out: Outcome)
    ensures Answer(db, a, cost, month) == out <==> Justified(db, a, cost, month, out)
  {
    SpentIsSum(db.ledger, a, month);
  }

  // ---------------------------------------------------------------- what a history has done

  /** The cap that was set last. */
  function LastCap(db0: Db, ops: seq<Op>, a: Account): Option<nat> {
    if ops == [] then if a in db0.wallets then db0.wallets[a].cap else None
    else
      var op := ops[|ops| - 1];
      if op.OpSetCap? && op.account == a then op.cap else LastCap(db0, ops[..|ops| - 1], a)
  }

  function PaidCents(ops: seq<Op>, a: Account): nat {
    if ops == [] then 0
    else
      var op := ops[|ops| - 1];
      PaidCents(ops[..|ops| - 1], a) + if op.OpCredit? && op.account == a then op.cents else 0
  }

  /** What the debits of `a` that went through cost. */
  function Charged(db0: Db, ops: seq<Op>, a: Account): int {
    if ops == [] then 0
    else
      var before, op := ops[..|ops| - 1], ops[|ops| - 1];
      Charged(db0, before, a)
      + if op.OpDebit? && op.account == a && AnswerOf(Replay(db0, before), op).Debited? then op.cost else 0
  }

  /** After every sequential history an account has the cap that was set last, and its rows hold what
      was paid in, a cent being 10,000 micro-EUR, and what its debits cost. */
  lemma {:induction false} HistoryTold(db0: Db, ops: seq<Op>, a: Account)
    requires Initial(db0)
    ensures
      var db := Replay(db0, ops);
      && (if a in db.wallets then db.wallets[a].cap else None) == LastCap(db0, ops, a)
      && 100 * Credits(db.ledger, a) == 10_000 * PaidCents(ops, a)
      && Debits(db.ledger, a) == Charged(db0, ops, a)
  {
    if ops != [] {
      var before, op := ops[..|ops| - 1], ops[|ops| - 1];
      HistoryTold(db0, before, a);
      RowTotals(Replay(db0, before), op, a);
    }
  }

  lemma RowTotals(db: Db, op: Op, a: Account)
    ensures
      var db' := Apply(db, op);
      && Credits(db'.ledger, a) == Credits(db.ledger, a) + (if op.OpCredit? && op.account == a then 100 * op.cents else 0)
      && Debits(db'.ledger, a) == Debits(db.ledger, a)
           + (if op.OpDebit? && op.account == a && AnswerOf(db, op).Debited? then op.cost else 0)
  {
    var db' := Apply(db, op);
    if |db'.ledger| > |db.ledger| {
      assert db'.ledger[..|db.ledger|] == db.ledger;
    }
  }

  /** An operation on one account does not change what another account's debit answers. */
  lemma AnswerFrame(db: Db, op: Op, a: Account, cost: int, month: int)
    requires op.account != a
    ensures a in Apply(db, op).wallets <==> a in db.wallets
    ensures a in db.wallets ==> Apply(db, op).wallets[a] == db.wallets[a]
    ensures SpentFrom(Apply(db, op).ledger, a, month) == SpentFrom(db.ledger, a, month)
    ensures Answer(Apply(db, op), a, cost, month) == Answer(db, a, cost, month)
  {
    var after := Apply(db, op);
    if |after.ledger| > |db.ledger| {
      SpentStep(db.ledger, after.ledger[|db.ledger|], a, month);
      assert after.ledger == db.ledger + [after.ledger[|db.ledger|]];
    }
  }

  // ---------------------------------------------------------------- the books

  function Opening(db0: Db, a: Account): nat {
    if a in db0.wallets then db0.wallets[a].balance else 0
  }

  /** The balance the ledger rows alone say account `a` has. */
  function Running(open: nat, rows: seq<Row>, a: Account): nat {
    if |rows| == 0 then open
    else
      var before := Running(open, rows[..|rows| - 1], a);
      var r := rows[|rows| - 1];
      if r.account != a then before
      else if r.Credit? then before + r.amount
      else if r.amount <= Micros(before) then Stored(Micros(before) - r.amount)
      else 0
  }

  function Credits(rows: seq<Row>, a: Account): nat {
    if |rows| == 0 then 0
    else Credits(rows[..|rows| - 1], a)
         + var r := rows[|rows| - 1]; if r.Credit? && r.account == a then r.amount else 0
  }

  function Debits(rows: seq<Row>, a: Account): nat {
    if |rows| == 0 then 0
    else Debits(rows[..|rows| - 1], a)
         + var r := rows[|rows| - 1]; if r.Debit? && r.account == a then r.amount else 0
  }

  function DebitCount(rows: seq<Row>, a: Account): nat {
    if |rows| == 0 then 0
    else DebitCount(rows[..|rows| - 1], a)
         + var r := rows[|rows| - 1]; if r.Debit? && r.account == a then 1 else 0
  }

  /** A database as the histories start: balances, but no rows yet. */
  ghost predicate Initial(db0: Db) {
    && db0.ledger == []
    && db0.events == map[]
  }

  /** Row `i` is what its own commit produced, paid out of money that was there. */
  ghost predicate RowSound(db0: Db, db: Db, i: nat)
    requires i < |db.ledger|
  {
    var r := db.ledger[i];
    var open := Opening(db0, r.account);
    && r.after == Running(open, db.ledger[..i + 1], r.account)
    && (r.Debit? ==>
          && 0 < r.amount <= Micros(Running(open, db.ledger[..i], r.account))
          && r.event in db.events
          && db.events[r.event] == Usage(r.account, r.amount))
  }

  /** Every stored balance is the one the account's own rows add up to. */
  ghost predicate BalancesAgree(db0: Db, db: Db) {
    && (forall a :: a in db0.wallets ==> a in db.wallets)
    && (forall i :: 0 <= i < |db.ledger| ==> db.ledger[i].account in db.wallets)
    && (forall a :: a in db.wallets ==>
          db.wallets[a].balance == Running(Opening(db0, a), db.ledger, a))
  }

  /** Debit rows and usage events correspond one to one. */
  ghost predicate EventsMatch(db: Db) {
    && (forall i :: 0 <= i < |db.ledger| && db.ledger[i].Debit? ==> db.ledger[i].event in db.events)
    && (forall i, j :: 0 <= i < j < |db.ledger| && db.ledger[i].Debit? && db.ledger[j].Debit?
          ==> db.ledger[i].event != db.ledger[j].event)
    && (forall e :: e in db.events ==>
          exists i :: 0 <= i < |db.ledger| && db.ledger[i].Debit? && db.ledger[i].event == e)
  }

  ghost predicate RowsSound(db0: Db, db: Db) {
    forall i: nat :: i < |db.ledger| ==> RowSound(db0, db, i)
  }

  /** The ledger, the usage events and the balances tell the same story. */
  ghost predicate Books(db0: Db, db: Db) {
    BalancesAgree(db0, db) && EventsMatch(db) && RowsSound(db0, db)
  }

  /** Every debit that goes through brings an event id not used before, as a sequence does. */
  ghost predicate FreshIds(db0: Db, ops: seq<Op>) {
    forall i :: 0 <= i < |ops| && ops[i].OpDebit? && AnswerOf(Replay(db0, ops[..i]), ops[i]).Debited?
      ==> ops[i].event !in Replay(db0, ops[..i]).events
  }

  lemma RunningStep(open: nat, rows: seq<Row>, r: Row, a: Account)
    ensures Running(open, rows + [r], a)
         == var before := Running(open, rows, a);
            if r.account != a then before
            else if r.Credit? then before + r.amount
            else if r.amount <= Micros(before) then Stored(Micros(before) - r.amount)
            else 0
  {
    assert (rows + [r])[..|rows + [r]| - 1] == rows;
  }

  lemma {:induction false} RunningWithoutRows(open: nat, rows: seq<Row>, a: Account)
    requires forall i :: 0 <= i < |rows| ==> rows[i].account != a
    ensures Running(open, rows, a) == open
  {
    if |rows| > 0 {
      RunningWithoutRows(open, rows[..|rows| - 1], a);
    }
  }

  /** Appending a row leaves the earlier rows sound. */
  lemma RowSoundKept(db0: Db, db: Db, db': Db, i: nat)
    requires i < |db.ledger| && RowSound(db0, db, i)
    requires |db.ledger| <= |db'.ledger| && db'.ledger[..|db.ledger|] == db.ledger
    requires forall e :: e in db.events ==> e in db'.events && db'.events[e] == db.events[e]
    ensures RowSound(db0, db', i)
  {
    assert db'.ledger[i] == db.ledger[i];
    assert db'.ledger[..i + 1] == db.ledger[..i + 1];
    assert db'.ledger[..i] == db.ledger[..i];
  }

  /** The balance of an account as the books have it, whether or not it has a wallet row yet. */
  lemma BalanceBefore(db0: Db, db: Db, a: Account)
    requires Initial(db0) && BalancesAgree(db0, db)
    ensures Running(Opening(db0, a), db.ledger, a) == if a in db.wallets then db.wallets[a].balance else 0
  {
    if a !in db.wallets {
      RunningWithoutRows(Opening(db0, a), db.ledger, a);
    }
  }

  /** An operation that writes a row appends exactly one, and the row carries the new balance. */
  lemma AppendedRow(db0: Db, db: Db, op: Op) returns (r: Row)
    requires Initial(db0) && BalancesAgree(db0, db)
    requires |Apply(db, op).ledger| > |db.ledger|
    ensures Apply(db, op).ledger == db.ledger + [r]
    ensures r.account == op.account && op.account in Apply(db, op).wallets
    ensures r.after == Apply(db, op).wallets[op.account].balance
    ensures r.after == Running(Opening(db0, op.account), db.ledger + [r], op.account)
  {
    hide SpentFrom;
    var db' := Apply(db, op);
    r := db'.ledger[|db.ledger|];
    BalanceBefore(db0, db, op.account);
    RunningStep(Opening(db0, op.account), db.ledger, r, op.account);
  }

  lemma ApplyKeepsBalances(db0: Db, db: Db, op: Op)
    requires Initial(db0) && BalancesAgree(db0, db)
    ensures BalancesAgree(db0, Apply(db, op))
  {
    hide Running, Answer;
    var db' := Apply(db, op);
    if |db'.ledger| > |db.ledger| {
      var r := AppendedRow(db0, db, op);
      forall a | a in db'.wallets && a != op.account
        ensures db'.wallets[a].balance == Running(Opening(db0, a), db'.ledger, a)
      {
        RunningStep(Opening(db0, a), db.ledger, r, a);
      }
    } else {
      assert db'.ledger == db.ledger;
      BalanceBefore(db0, db, op.account);
    }
  }

  lemma ApplyKeepsEvents(db: Db, op: Op)
    requires EventsMatch(db)
    requires op.OpDebit? && AnswerOf(db, op).Debited? ==> op.event !in db.events
    ensures EventsMatch(Apply(db, op))
  {
    var db' := Apply(db, op);
    var n := |db.ledger|;
    assert forall i :: 0 <= i < n ==> db'.ledger[i] == db.ledger[i];
    forall e | e in db'.events
      ensures exists i :: 0 <= i < |db'.ledger| && db'.ledger[i].Debit? && db'.ledger[i].event == e
    {
      if e in db.events {
        var i :| 0 <= i < n && db.ledger[i].Debit? && db.ledger[i].event == e;
        assert db'.ledger[i].event == e;
      } else {
        assert db'.ledger[n].event == e;
      }
    }
  }

  /** A debit row is paid out of the balance there was, and has its usage event. */
  lemma NewDebitPaid(db: Db, op: Op)
    requires |Apply(db, op).ledger| > |db.ledger|
    ensures
      var db' := Apply(db, op);
      var r := db'.ledger[|db.ledger|];
      r.Debit? ==>
        && r.account in db.wallets && 0 < r.amount <= Micros(db.wallets[r.account].balance)
        && r.event in db'.events && db'.events[r.event] == Usage(r.account, r.amount)
  {
    hide SpentFrom, Stored;
  }

  lemma NewRowSound(db0: Db, db: Db, op: Op)
    requires Initial(db0) && BalancesAgree(db0, db)
    requires |Apply(db, op).ledger| > |db.ledger|
    ensures RowSound(db0, Apply(db, op), |db.ledger|)
  {
    hide Running, Apply;
    var r := AppendedRow(db0, db, op);
    var ledger := Apply(db, op).ledger;
    assert ledger[..|db.ledger|] == db.ledger && ledger[..|db.ledger| + 1] == ledger;
    BalanceBefore(db0, db, r.account);
    NewDebitPaid(db, op);
  }

  lemma ApplyKeepsRows(db0: Db, db: Db, op: Op)
    requires Initial(db0) && Books(db0, db)
    requires op.OpDebit? && AnswerOf(db, op).Debited? ==> op.event !in db.events
    ensures RowsSound(db0, Apply(db, op))
  {
    hide Running, SpentFrom, Stored;
    var db' := Apply(db, op);
    var n := |db.ledger|;
    if |db'.ledger| > n {
      NewRowSound(db0, db, op);
    }
    forall i: nat | i < n ensures RowSound(db0, db', i) {
      RowSoundKept(db0, db, db', i);
    }
    assert |db'.ledger| <= n + 1;
  }

  lemma {:induction false} ReplayKeepsBooks(db0: Db, ops: seq<Op>)
    requires Initial(db0) && FreshIds(db0, ops)
    ensures Books(db0, Replay(db0, ops))
  {
    if |ops| > 0 {
      var before := ops[..|ops| - 1];
      forall i | 0 <= i < |before| ensures before[..i] == ops[..i] {}
      ReplayKeepsBooks(db0, before);
      var db, op := Replay(db0, before), ops[|ops| - 1];
      ApplyKeepsBalances(db0, db, op);
      ApplyKeepsEvents(db, op);
      ApplyKeepsRows(db0, db, op);
    }
  }

  // ---------------------------------------------------------------- the balance law

  /** Debits were always paid out of money that was there. */
  ghost predicate Covered(open: nat, rows: seq<Row>, a: Account) {
    forall i :: 0 <= i < |rows| && rows[i].account == a && rows[i].Debit?
      ==> rows[i].amount <= Micros(Running(open, rows[..i], a))
  }

  lemma CoveredPrefix(open: nat, rows: seq<Row>, a: Account, n: nat)
    requires n <= |rows| && Covered(open, rows, a)
    ensures Covered(open, rows[..n], a)
  {
    forall i | 0 <= i < n && rows[..n][i].account == a && rows[..n][i].Debit?
      ensures rows[..n][i].amount <= Micros(Running(open, rows[..n][..i], a))
    {
      assert rows[..n][..i] == rows[..i];
    }
  }

  /** opening + credits - debits in micro-EUR, the balance the books should show. */
  function Expected(open: nat, rows: seq<Row>, a: Account): int {
    Micros(open) + Micros(Credits(rows, a)) - Debits(rows, a)
  }

  /** Each debit moves the stored balance off the exact one by at most half a unit. */
  lemma {:induction false} BalanceLawWithinRounding(open: nat, rows: seq<Row>, a: Account)
    requires Covered(open, rows, a)
    ensures Micros(Running(open, rows, a)) - Expected(open, rows, a) <= 50 * DebitCount(rows, a)
    ensures Expected(open, rows, a) - Micros(Running(open, rows, a)) <= 50 * DebitCount(rows, a)
  {
    if |rows| > 0 {
      CoveredPrefix(open, rows, a, |rows| - 1);
      BalanceLawWithinRounding(open, rows[..|rows| - 1], a);
    }
  }

  /** The balance is the exact one now, and was after every earlier row. */
  ghost predicate LawAtEveryRow(open: nat, rows: seq<Row>, a: Account) {
    && Micros(Running(open, rows, a)) == Expected(open, rows, a)
    && (|rows| > 0 ==> LawAtEveryRow(open, rows[..|rows| - 1], a))
  }

  ghost predicate WholeDebits(rows: seq<Row>, a: Account) {
    forall i :: 0 <= i < |rows| && rows[i].Debit? && rows[i].account == a
      ==> Whole(rows[i].amount)
  }

  lemma StoredExactly(micros: nat)
    ensures Micros(Stored(micros)) == micros <==> Whole(micros)
  {
  }

  predicate WholeIfDebit(r: Row, a: Account) {
    r.Debit? && r.account == a ==> Whole(r.amount)
  }

  lemma LastRowExact(open: nat, rows: seq<Row>, a: Account)
    requires |rows| > 0 && Covered(open, rows, a)
    requires var before := rows[..|rows| - 1]; Micros(Running(open, before, a)) == Expected(open, before, a)
    ensures Micros(Running(open, rows, a)) == Expected(open, rows, a) <==> WholeIfDebit(rows[|rows| - 1], a)
  {
    var before, r := rows[..|rows| - 1], rows[|rows| - 1];
    if r.Debit? && r.account == a {
      assert r.amount <= Micros(Running(open, before, a));
      StoredExactly(Micros(Running(open, before, a)) - r.amount);
    }
  }

  lemma LastRowWhole(rows: seq<Row>, a: Account)
    requires |rows| > 0
    ensures WholeDebits(rows, a) <==> WholeDebits(rows[..|rows| - 1], a) && WholeIfDebit(rows[|rows| - 1], a)
  {
    assert rows == rows[..|rows| - 1] + [rows[|rows| - 1]];
  }

  /** balance = opening + credits - debits after every row, exactly when every debit is a
      whole number of the balance column's units. */
  lemma {:induction false} BalanceLawIffWhole(open: nat, rows: seq<Row>, a: Account)
    requires Covered(open, rows, a)
    ensures LawAtEveryRow(open, rows, a) <==> WholeDebits(rows, a)
  {
    if |rows| > 0 {
      var before := rows[..|rows| - 1];
      CoveredPrefix(open, rows, a, |rows| - 1);
      BalanceLawIffWhole(open, before, a);
      LastRowWhole(rows, a);
      if LawAtEveryRow(open, before, a) {
        LastRowExact(open, rows, a);
      }
    }
  }

  /** A debit of 40 micro-EUR is written to the ledger and leaves the balance where it was. */
  lemma TinyDebitIsFree()
    ensures var db := Db(map["acme" := Wallet(10_000, None)], [], map[]);
            var after := Apply(db, OpDebit("acme", 40, 0, 7));
            && after.wallets["acme"].balance == 10_000
            && Debits(after.ledger, "acme") == 40
            && !LawAtEveryRow(10_000, after.ledger, "acme")
  {
    var db := Db(map["acme" := Wallet(10_000, None)], [], map[]);
    var after := Apply(db, OpDebit("acme", 40, 0, 7));
    assert Answer(db, "acme", 40, 0) == Debited(10_000);
    assert after.ledger == [Debit("acme", 40, 10_000, 7, 0)];
    assert after.ledger[..0] == [];
  }

  /** Over every sequential history: the balance agrees with the ledger up to half a unit a
      debit, and agrees with it after every row exactly when all debits are whole units. */
  lemma HistoryBalance(db0: Db, ops: seq<Op>, a: Account)
    requires Initial(db0) && FreshIds(db0, ops)
    requires a in Replay(db0, ops).wallets
    ensures var db := Replay(db0, ops);
            var open := Opening(db0, a);
            && -50 * DebitCount(db.ledger, a)
               <= Micros(db.wallets[a].balance) - Expected(open, db.ledger, a)
               <= 50 * DebitCount(db.ledger, a)
            && (LawAtEveryRow(open, db.ledger, a) <==> WholeDebits(db.ledger, a))
            && (WholeDebits(db.ledger, a) ==> Micros(db.wallets[a].balance) == Expected(open, db.ledger, a))
  {
    var db := Replay(db0, ops);
    var open := Opening(db0, a);
    ReplayKeepsBooks(db0, ops);
    forall i | 0 <= i < |db.ledger| && db.ledger[i].account == a && db.ledger[i].Debit?
      ensures db.ledger[i].amount <= Micros(Running(open, db.ledger[..i], a))
    {
      assert RowSound(db0, db, i);
    }
    BalanceLawWithinRounding(open, db.ledger, a);
    BalanceLawIffWhole(open, db.ledger, a);
  }

  // ---------------------------------------------------------------- the monthly cap

  /** No month's debits exceed the cap the account has. */
  ghost predicate CapsHold(db: Db) {
    forall a, m :: a in db.wallets && db.wallets[a].cap.Some?
      ==> SpentIn(db.ledger, a, m) <= db.wallets[a].cap.value
  }

  /** No cap at all counts as the highest cap. */
  predicate CapRises(before: Option<nat>, after: Option<nat>) {
    after.None? || (before.Some? && before.value <= after.value)
  }

  function CapOf(db: Db, a: Account): Option<nat> {
    if a in db.wallets then db.wallets[a].cap else None
  }

  ghost predicate CapsOnlyRise(db0: Db, ops: seq<Op>) {
    forall i :: 0 <= i < |ops| && ops[i].OpSetCap?
      ==> CapRises(CapOf(Replay(db0, ops[..i]), ops[i].account), ops[i].cap)
  }

  /** Whatever caps were before, a debit that goes through ends with its month within the
      cap it was checked against. */
  lemma DebitWithinCap(db: Db, op: Op)
    requires op.OpDebit? && AnswerOf(db, op).Debited? && db.wallets[op.account].cap.Some?
    ensures SpentIn(Apply(db, op).ledger, op.account, op.month) <= db.wallets[op.account].cap.value
    ensures SpentFrom(Apply(db, op).ledger, op.account, op.month) <= db.wallets[op.account].cap.value
  {
    var r := Apply(db, op).ledger[|db.ledger|];
    SpentStep(db.ledger, r, op.account, op.month);
    SpentInAtMostFrom(db.ledger, op.account, op.month);
  }

  lemma ApplyKeepsCaps(db: Db, op: Op)
    requires CapsHold(db)
    requires op.OpSetCap? ==> CapRises(CapOf(db, op.account), op.cap)
    ensures CapsHold(Apply(db, op))
  {
    var db' := Apply(db, op);
    forall a, m | a in db'.wallets && db'.wallets[a].cap.Some?
      ensures SpentIn(db'.ledger, a, m) <= db'.wallets[a].cap.value
    {
      if |db'.ledger| > |db.ledger| {
        var r := db'.ledger[|db.ledger|];
        assert db'.ledger == db.ledger + [r];
        SpentStep(db.ledger, r, a, m);
        if r.Debit? && r.account == a && r.month == m {
          DebitWithinCap(db, op);
        }
      }
    }
  }

  lemma {:induction false} HistoryWithinCaps(db0: Db, ops: seq<Op>)
    requires Initial(db0) && CapsOnlyRise(db0, ops)
    ensures CapsHold(Replay(db0, ops))
  {
    if |ops| > 0 {
      var before := ops[..|ops| - 1];
      forall i | 0 <= i < |before| ensures before[..i] == ops[..i] {}
      HistoryWithinCaps(db0, before);
      ApplyKeepsCaps(Replay(db0, before), ops[|ops| - 1]);
    }
  }
}
