// Calculator slots: size classes, the table of slots in use, and an upload on its own.
module CalculatorSlots {
  import opened Wrappers
  import opened Sums

  type Account = nat

  // ---------------------------------------------------------------- size classes

  datatype SizeClass = Small | Medium | Large

  function ComputeSizeClass(sheets: nat, expressions: nat): SizeClass {
    if sheets >= 50 || expressions >= 5000 then Large
    else if sheets <= 10 && expressions <= 500 then Small
    else Medium
  }

  function SlotsForClass(c: SizeClass): nat {
    match c
    case Small => 1
    case Medium => 3
    case Large => 8
  }

  function SlotsFor(sheets: nat, expressions: nat): nat {
    SlotsForClass(ComputeSizeClass(sheets, expressions))
  }

  /** A larger calculator never takes fewer slots, and none takes no slot. */
  lemma SlotsGrow(sheets: nat, expressions: nat, sheets': nat, expressions': nat)
    requires sheets <= sheets' && expressions <= expressions'
    ensures 1 <= SlotsFor(sheets, expressions) <= SlotsFor(sheets', expressions') <= 8
  {
  }

  /** Up to 10 sheets and 500 expressions take one slot, 50 sheets or 5000 expressions eight, all
      between three. */
  lemma SlotsIff(sheets: nat, expressions: nat)
    ensures SlotsFor(sheets, expressions) == 1 <==> sheets <= 10 && expressions <= 500
    ensures SlotsFor(sheets, expressions) == 8 <==> sheets >= 50 || expressions >= 5000
    ensures SlotsFor(sheets, expressions) in {1, 3, 8}
  {
  }

  // ---------------------------------------------------------------- tables

  /** A row of calculator_slots; the table has at most one per config. */
  datatype Row = Row(account: Account, slots: nat)

  datatype Config = Config(account: Account, test: bool, created: int, sheets: nat, expressions: nat)

  type Rows = seq<Option<Row>>

  function Weight(a: Account): Option<Row> -> nat {
    (r: Option<Row>) => if r.Some? && r.value.account == a then r.value.slots else 0
  }

  function Used(rows: Rows, a: Account): nat {
    Sum(rows, Weight(a))
  }

  /** Old enough, not a test, of this account, and without a slot row. */
  predicate Orphan(c: Option<Config>, row: Option<Row>, a: Account, now: int) {
    row.None? && c.Some? && c.value.account == a && !c.value.test && c.value.created < now - 30
  }

  /** A config found without a slot row, and the slots its stored data asks for. */
  datatype Found = Found(config: nat, slots: nat)

  /** The orphans among the first `n` configs, in order. */
  function Orphans(configs: seq<Option<Config>>, rows: Rows, a: Account, now: int, n: nat): seq<Found>
    requires n <= |configs| == |rows|
  {
    if n == 0 then []
    else
      Orphans(configs, rows, a, now, n - 1)
      + if Orphan(configs[n - 1], rows[n - 1], a, now)
        then [Found(n - 1, SlotsFor(configs[n - 1].value.sheets, configs[n - 1].value.expressions))]
        else []
  }

  /** INSERT ... ON CONFLICT DO NOTHING */
  function InsertRow(rows: Rows, a: Account, o: Found): (r: Rows)
    ensures |r| == |rows|
  {
    if o.config < |rows| && rows[o.config].None? then rows[o.config := Some(Row(a, o.slots))] else rows
  }

  function InsertRows(rows: Rows, a: Account, os: seq<Found>): (r: Rows)
    ensures |r| == |rows|
  {
    if os == [] then rows else InsertRow(InsertRows(rows, a, os[..|os| - 1]), a, os[|os| - 1])
  }

  // ---------------------------------------------------------------- what reconciliation achieves

  /** The table with a row added for every orphan of `a`, and no other change. */
  function Reconciled(configs: seq<Option<Config>>, rows: Rows, a: Account, now: int): (r: Rows)
    requires |configs| == |rows|
    ensures |r| == |rows|
  {
    seq(|rows|, i requires 0 <= i < |rows| =>
      if Orphan(configs[i], rows[i], a, now)
      then Some(Row(a, SlotsFor(configs[i].value.sheets, configs[i].value.expressions)))
      else rows[i])
  }

  lemma {:induction false} InsertOrphansUpTo(configs: seq<Option<Config>>, rows: Rows, a: Account, now: int, n: nat)
    requires n <= |configs| == |rows|
    ensures InsertRows(rows, a, Orphans(configs, rows, a, now, n))
         == Reconciled(configs, rows, a, now)[..n] + rows[n..]
  {
    var all := Reconciled(configs, rows, a, now);
    if n == 0 {
      assert rows == all[..0] + rows[0..];
    } else {
      InsertOrphansUpTo(configs, rows, a, now, n - 1);
      OneFurther(all, rows, n);
      var before, os := Orphans(configs, rows, a, now, n - 1), Orphans(configs, rows, a, now, n);
      if Orphan(configs[n - 1], rows[n - 1], a, now) {
        assert os[..|os| - 1] == before;
        assert all[n - 1] == Some(Row(a, os[|os| - 1].slots));
      } else {
        assert os == before;
      }
    }
  }

  lemma OneFurther<T>(xs: seq<T>, ys: seq<T>, n: nat)
    requires 0 < n <= |xs| == |ys|
    ensures
      var mixed := xs[..n - 1] + ys[n - 1..];
      && |mixed| == |xs| && mixed[n - 1] == ys[n - 1]
      && xs[..n] + ys[n..] == mixed[n - 1 := xs[n - 1]]
      && (xs[n - 1] == ys[n - 1] ==> xs[..n] + ys[n..] == mixed)
  {
  }

  /** Inserting the orphans one by one adds exactly their rows. */
  lemma InsertingReconciles(configs: seq<Option<Config>>, rows: Rows, a: Account, now: int)
    requires |configs| == |rows|
    ensures InsertRows(rows, a, Orphans(configs, rows, a, now, |rows|)) == Reconciled(configs, rows, a, now)
  {
    InsertOrphansUpTo(configs, rows, a, now, |rows|);
    var all := Reconciled(configs, rows, a, now);
    assert all[..|rows|] + rows[|rows|..] == all;
  }

  /** Reconciling leaves no orphan, changes no existing row, and does nothing the second time. */
  lemma ReconcileIdempotent(configs: seq<Option<Config>>, rows: Rows, a: Account, now: int)
    requires |configs| == |rows|
    ensures
      var r := Reconciled(configs, rows, a, now);
      && (forall i :: 0 <= i < |rows| && rows[i].Some? ==> r[i] == rows[i])
      && (forall i :: 0 <= i < |rows| ==> !Orphan(configs[i], r[i], a, now))
      && Reconciled(configs, r, a, now) == r
  {
  }

  /** A config that exists is given a row exactly if it has none, belongs to the account, is no test and
      was created more than 30 seconds ago; the row takes the slots its stored data asks for. */
  lemma GivenRowIff(configs: seq<Option<Config>>, rows: Rows, a: Account, now: int, i: nat)
    requires i < |configs| == |rows|
    ensures
      var r := Reconciled(configs, rows, a, now);
      && (r[i] != rows[i] <==>
            && rows[i].None? && configs[i].Some? && configs[i].value.account == a
            && !configs[i].value.test && now - configs[i].value.created > 30)
      && (r[i] != rows[i] ==> r[i] == Some(Row(a, SlotsFor(configs[i].value.sheets, configs[i].value.expressions))))
  {
  }

  /** The slots of the account's configs that should have a row and have none. */
  function MissingSlots(configs: seq<Option<Config>>, rows: Rows, a: Account, now: int, n: nat): nat
    requires n <= |configs| == |rows|
  {
    if n == 0 then 0
    else
      MissingSlots(configs, rows, a, now, n - 1)
      + match configs[n - 1]
        case Some(Config(owner, false, created, sheets, expressions)) =>
          if owner == a && now - created > 30 && rows[n - 1] == None then SlotsFor(sheets, expressions) else 0
        case _ => 0
  }

  lemma {:induction false} UsedUpTo(configs: seq<Option<Config>>, rows: Rows, a: Account, now: int, n: nat)
    requires n <= |configs| == |rows|
    ensures Used(Reconciled(configs, rows, a, now)[..n], a) == Used(rows[..n], a) + MissingSlots(configs, rows, a, now, n)
  {
    if n > 0 {
      UsedUpTo(configs, rows, a, now, n - 1);
      var r := Reconciled(configs, rows, a, now);
      assert r[..n][..n - 1] == r[..n - 1] && rows[..n][..n - 1] == rows[..n - 1];
    }
  }

  /** So these slots are what reconciling adds to the account's use. */
  lemma UsedReconciled(configs: seq<Option<Config>>, rows: Rows, a: Account, now: int)
    requires |configs| == |rows|
    ensures Used(Reconciled(configs, rows, a, now), a) == Used(rows, a) + MissingSlots(configs, rows, a, now, |rows|)
  {
    UsedUpTo(configs, rows, a, now, |rows|);
    var r := Reconciled(configs, rows, a, now);
    assert r[..|rows|] == r && rows[..|rows|] == rows;
  }

  /** None are added if the account's configs are tests, young or have rows already. */
  lemma {:induction false} NothingMissing(configs: seq<Option<Config>>, rows: Rows, a: Account, now: int, n: nat)
    requires n <= |configs| == |rows|
    requires forall i :: 0 <= i < n && configs[i].Some? && configs[i].value.account == a ==>
      configs[i].value.test || now - configs[i].value.created <= 30 || rows[i].Some?
    ensures MissingSlots(configs, rows, a, now, n) == 0
  {
    if n > 0 {
      NothingMissing(configs, rows, a, now, n - 1);
    }
  }

  /** Other accounts are not charged for it. */
  lemma ReconcileElsewhere(configs: seq<Option<Config>>, rows: Rows, a: Account, now: int, b: Account)
    requires |configs| == |rows| && a != b
    ensures Used(Reconciled(configs, rows, a, now), b) == Used(rows, b)
  {
    var r := Reconciled(configs, rows, a, now);
    SumMonotone(r, rows, Weight(b));
    SumMonotone(rows, r, Weight(b));
  }

  // ---------------------------------------------------------------- sums

  /** Row by row no more of `a` in `r` than in `t`. */
  predicate Below(r: Rows, t: Rows, a: Account) {
    |r| == |t| && forall i :: 0 <= i < |r| ==> Weight(a)(r[i]) <= Weight(a)(t[i])
  }

  lemma UsedMonotone(r: Rows, t: Rows, a: Account)
    requires Below(r, t, a)
    ensures Used(r, a) <= Used(t, a)
  {
    SumMonotone(r, t, Weight(a));
  }

  // ---------------------------------------------------------------- one session alone

  datatype Outcome = Stored(sizeClass: SizeClass, slots: nat) | Rejected | RolledBack

  /** What an upload does to the table when no other session is active and nothing fails. */
  function Uploaded(configs: seq<Option<Config>>, rows: Rows, a: Account, now: int, c: nat, need: nat): Rows
    requires |configs| == |rows| && c < |rows|
  {
    Reconciled(configs, rows, a, now)[c := Some(Row(a, need))]
  }

  class SlotTable {
    var rows: Rows
    const configs: seq<Option<Config>>
    const quotas: map<Account, int>

    predicate Valid()
      reads this
    {
      |rows| == |configs|
    }

    method ReconcileOrphanedSlots(a: Account, now: int)
      requires Valid()
      modifies this
      ensures Valid() && rows == Reconciled(configs, old(rows), a, now)
    {
      var os := Orphans(configs, rows, a, now, |rows|);
      for j := 0 to |os|
        invariant Valid() && rows == InsertRows(old(rows), a, os[..j])
      {
        assert os[..j + 1][..j] == os[..j];
        rows := InsertRow(rows, a, os[j]);
      }
      assert os[..|os|] == os;
      InsertingReconciles(configs, old(rows), a, now);
    }

    /** `_quotaQuery` */
    method QuotaAllows(a: Account, need: nat) returns (ok: bool)
      requires Valid()
      ensures ok <==> a in quotas && Used(rows, a) + need <= quotas[a]
    {
      ok := a in quotas && quotas[a] - Used(rows, a) >= need;
    }

    /** The upload transaction; a failure of the database rolls everything back.  Accepted, it
        leaves the account within its allowance; refused, it keeps the reconciled rows. */
    method AtomicCheckAndUpsertSlot(c: nat, a: Account, sheets: nat, expressions: nat, now: int)
      returns (out: Outcome)
      requires Valid() && c < |rows|
      modifies this
      ensures Valid()
      ensures out.RolledBack? ==> rows == old(rows)
      ensures out.Rejected? ==> rows == Reconciled(configs, old(rows), a, now)
      ensures out.Rejected? ==> a !in quotas || Used(rows, a) + SlotsFor(sheets, expressions) > quotas[a]
      ensures out.Stored? ==> rows == Uploaded(configs, old(rows), a, now, c, out.slots)
      ensures out.Stored? ==> out.slots == SlotsForClass(out.sizeClass) == SlotsFor(sheets, expressions)
      ensures out.Stored? ==> a in quotas && Used(rows, a) <= quotas[a]
      ensures !out.RolledBack? ==>
        (out.Rejected? <==>
          a !in quotas
          || Used(old(rows), a) + MissingSlots(configs, old(rows), a, now, |old(rows)|) + SlotsFor(sheets, expressions) > quotas[a])
    {
      var sizeClass := ComputeSizeClass(sheets, expressions);
      var slots := SlotsForClass(sizeClass);
      var before := rows;
      UsedReconciled(configs, rows, a, now);
      ReconcileOrphanedSlots(a, now);
      var allowed := QuotaAllows(a, slots);
      var broken: bool := *;
      if broken {
        rows := before;
        return RolledBack;
      }
      if !allowed {
        return Rejected;
      }
      SumUpdate(rows, c, Some(Row(a, slots)), Weight(a));
      rows := rows[c := Some(Row(a, slots))];
      broken := *;
      if broken {
        rows := before;
        return RolledBack;
      }
      out := Stored(sizeClass, slots);
    }
  }
}
