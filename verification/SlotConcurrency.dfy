// Uploads, quota checks and recomputations of calculator slots, any number of them interleaved
// statement by statement.  An advisory lock per account serialises uploads and quota checks; the
// recomputation after a PATCH takes no lock.
module SlotConcurrency {
  import opened Wrappers
  import opened Sums
  import opened CalculatorSlots

  type Pid = nat

  // ---------------------------------------------------------------- the machine

  datatype Stage =
    | Begun
    | Locked
    | Reconciling(orphans: seq<Found>)
    | Checked(allowance: int)
    | Upserted(allowance: int)
    | Refused
    | Aborted

  /** An open transaction: an upload of config `target`, or only a quota check; `written` holds
      its uncommitted rows. */
  datatype Tx = Tx(account: Account, target: Option<nat>, need: nat, stage: Stage, written: map<nat, Row>)

  datatype Reply = Accepted | QuotaExceeded | Threw

  datatype Sys = Sys(
    rows: Rows,
    configs: seq<Option<Config>>,
    quotas: map<Account, int>,
    now: int,
    locks: map<Account, Pid>,
    txs: map<Pid, Tx>,
    replies: map<Pid, Reply>)

  datatype Action =
    | Begin(p: Pid, account: Account, target: Option<nat>, sheets: nat, expressions: nat)
    | TakeLock(p: Pid)
    | SelectOrphans(p: Pid)
    | InsertOrphan(p: Pid)
    | CheckQuota(p: Pid)
    | Upsert(p: Pid)
    | Commit(p: Pid)
    | Fail(p: Pid)
    | Patch(config: nat, account: Account, sheets: nat, expressions: nat)
    | SetConfig(config: nat, contents: Option<Config>)
    | SetQuota(account: Account, allowance: Option<int>)
    | Tick(now: int)

  /** The table as a transaction sees it: committed rows under its own. */
  function Overlay(rows: Rows, written: map<nat, Row>): (r: Rows)
    ensures |r| == |rows|
  {
    seq(|rows|, i requires 0 <= i < |rows| => if i in written then Some(written[i]) else rows[i])
  }

  function View(s: Sys, p: Pid): Rows
    requires p in s.txs
  {
    Overlay(s.rows, s.txs[p].written)
  }

  /** No other transaction has written the row of config `c`. */
  predicate Unwritten(s: Sys, c: nat, p: Pid) {
    forall q :: q in s.txs && q != p ==> c !in s.txs[q].written
  }

  predicate Untouched(s: Sys, c: nat) {
    forall q :: q in s.txs ==> c !in s.txs[q].written
  }

  predicate At(s: Sys, p: Pid) {
    p in s.txs && |s.configs| == |s.rows|
  }

  function Move(s: Sys, p: Pid, stage: Stage): Sys
    requires At(s, p)
  {
    s.(txs := s.txs[p := s.txs[p].(stage := stage)])
  }

  function Write(s: Sys, p: Pid, c: nat, row: Row, stage: Stage): Sys
    requires At(s, p)
  {
    s.(txs := s.txs[p := s.txs[p].(written := s.txs[p].written[c := row], stage := stage)])
  }

  function End(s: Sys, p: Pid, reply: Reply): Sys
    requires At(s, p)
  {
    var a := s.txs[p].account;
    s.(locks := if a in s.locks && s.locks[a] == p then s.locks - {a} else s.locks,
       txs := s.txs - {p},
       replies := s.replies[p := reply])
  }

  /** An INSERT for a config that is gone violates the foreign key, and PostgreSQL has then aborted
      the transaction; whether the program goes on or not, ROLLBACK is all that is left. */
  predicate Exists(s: Sys, c: nat) {
    c < |s.configs| == |s.rows| && s.configs[c].Some?
  }

  function DoInsertOrphan(s: Sys, p: Pid): Sys
    requires At(s, p) && s.txs[p].stage.Reconciling? && |s.txs[p].stage.orphans| > 0
  {
    var tx := s.txs[p];
    var c, rest := tx.stage.orphans[0].config, Reconciling(tx.stage.orphans[1..]);
    if !Exists(s, c) then Move(s, p, Aborted)
    else if !Unwritten(s, c, p) then s
    else if View(s, p)[c].Some? then Move(s, p, rest)
    else Write(s, p, c, Row(tx.account, tx.stage.orphans[0].slots), rest)
  }

  function DoCheckQuota(s: Sys, p: Pid): Sys
    requires At(s, p) && s.txs[p].stage == Reconciling([])
  {
    var tx := s.txs[p];
    if tx.account !in s.quotas then Move(s, p, Refused)
    else if s.quotas[tx.account] - Used(View(s, p), tx.account) < tx.need then Move(s, p, Refused)
    else Move(s, p, Checked(s.quotas[tx.account]))
  }

  function DoUpsert(s: Sys, p: Pid): Sys
    requires At(s, p) && s.txs[p].stage.Checked? && s.txs[p].target.Some?
  {
    var tx := s.txs[p];
    var c := tx.target.value;
    if !Exists(s, c) then Move(s, p, Aborted)
    else if !Unwritten(s, c, p) then s
    else Write(s, p, c, Row(tx.account, tx.need), Upserted(tx.stage.allowance))
  }

  /** What COMMIT replies: Checked is the last stage of a mere check, Upserted that of an upload. */
  function CommitReply(s: Sys, p: Pid): Option<Reply>
    requires At(s, p)
  {
    match s.txs[p].stage
    case Refused => Some(QuotaExceeded)
    case Checked(_) => if s.txs[p].target.None? then Some(Accepted) else None
    case Upserted(_) => Some(Accepted)
    case _ => None
  }

  /** PATCH computes the row anew, with no lock and no check. */
  function DoPatch(s: Sys, c: nat, row: Row): Sys {
    if c >= |s.rows| || c >= |s.configs| || s.configs[c].None? || !Untouched(s, c) then s
    else s.(rows := s.rows[c := Some(row)])
  }

  /** A deleted config takes its slot row with it. */
  function DoSetConfig(s: Sys, c: nat, contents: Option<Config>): Sys {
    if c >= |s.rows| || c >= |s.configs| || !Untouched(s, c) then s
    else s.(configs := s.configs[c := contents], rows := if contents.None? then s.rows[c := None] else s.rows)
  }

  function DoBegin(s: Sys, p: Pid, tx: Tx): Sys {
    if p in s.txs || p in s.replies then s else s.(txs := s.txs[p := tx])
  }

  function DoTakeLock(s: Sys, p: Pid): Sys
    requires At(s, p) && s.txs[p].stage == Begun
  {
    var a := s.txs[p].account;
    if a in s.locks then s else Move(s, p, Locked).(locks := s.locks[a := p])
  }

  function DoSelect(s: Sys, p: Pid): Sys
    requires At(s, p)
  {
    Move(s, p, Reconciling(Orphans(s.configs, View(s, p), s.txs[p].account, s.now, |s.rows|)))
  }

  function DoCommit(s: Sys, p: Pid): Sys
    requires At(s, p)
  {
    var reply := CommitReply(s, p);
    if reply.None? then s else End(s, p, reply.value).(rows := View(s, p))
  }

  /** One statement of one session.  An action that is not possible now changes nothing. */
  function Step(s: Sys, act: Action): (s': Sys)
    requires |s.configs| == |s.rows|
    ensures |s'.configs| == |s'.rows|
  {
    match act
    case Begin(p, a, target, sheets, expressions) =>
      DoBegin(s, p, Tx(a, target, SlotsFor(sheets, expressions), Begun, map[]))
    case TakeLock(p) => if At(s, p) && s.txs[p].stage == Begun then DoTakeLock(s, p) else s
    case SelectOrphans(p) => if At(s, p) && s.txs[p].stage == Locked then DoSelect(s, p) else s
    case InsertOrphan(p) =>
      if At(s, p) && s.txs[p].stage.Reconciling? && |s.txs[p].stage.orphans| > 0 then DoInsertOrphan(s, p) else s
    case CheckQuota(p) =>
      if At(s, p) && s.txs[p].stage == Reconciling([]) then DoCheckQuota(s, p) else s
    case Upsert(p) =>
      if At(s, p) && s.txs[p].stage.Checked? && s.txs[p].target.Some? then DoUpsert(s, p) else s
    case Commit(p) => if At(s, p) then DoCommit(s, p) else s
    case Fail(p) => if At(s, p) then End(s, p, Threw) else s
    case Patch(c, a, sheets, expressions) => DoPatch(s, c, Row(a, SlotsFor(sheets, expressions)))
    case SetConfig(c, contents) => DoSetConfig(s, c, contents)
    case SetQuota(a, allowance) =>
      s.(quotas := if allowance.Some? then s.quotas[a := allowance.value] else s.quotas - {a})
    case Tick(now) => if now >= s.now then s.(now := now) else s
  }

  // ---------------------------------------------------------------- invariants

  /** Past the first statement a transaction holds its account's lock. */
  predicate LocksHeld(s: Sys) {
    forall p :: p in s.txs && s.txs[p].stage != Begun ==>
      s.txs[p].account in s.locks && s.locks[s.txs[p].account] == p
  }

  /** Before the first statement nothing is written; later only rows of the own account are. */
  predicate OwnRows(s: Sys) {
    forall p, c :: p in s.txs && c in s.txs[p].written ==>
      s.txs[p].stage != Begun && s.txs[p].written[c].account == s.txs[p].account
  }

  /** Two open transactions never write the same row. */
  predicate OneWriter(s: Sys) {
    forall p, q, c :: p in s.txs && q in s.txs && p != q && c in s.txs[p].written ==> c !in s.txs[q].written
  }

  /** Reconciliation only ever adds a row where there is none. */
  predicate FreshRow(s: Sys, p: Pid, c: nat)
    requires p in s.txs
  {
    || (s.txs[p].stage.Upserted? && s.txs[p].target == Some(c))
    || (c < |s.rows| && s.rows[c].None?)
  }

  predicate FreshRows(s: Sys) {
    forall p, c :: p in s.txs && c in s.txs[p].written ==> FreshRow(s, p, c)
  }

  predicate Structure(s: Sys) {
    && |s.configs| == |s.rows|
    && LocksHeld(s) && OwnRows(s) && OneWriter(s) && FreshRows(s)
  }

  // ---------------------------------------------------------------- views

  lemma OverlayWrite(rows: Rows, written: map<nat, Row>, c: nat, row: Row)
    requires c < |rows|
    ensures Overlay(rows, written[c := row]) == Overlay(rows, written)[c := Some(row)]
  {
  }

  lemma OverlayUnder(rows: Rows, written: map<nat, Row>, c: nat, row: Option<Row>)
    requires c < |rows| && c !in written
    ensures Overlay(rows[c := row], written) == Overlay(rows, written)[c := row]
  {
  }

  // ---------------------------------------------------------------- the structure is kept

  /** Past its first statement, before its last. */
  predicate Running(stage: Stage) {
    stage != Begun && !stage.Upserted?
  }

  lemma MoveKeeps(s: Sys, p: Pid, stage: Stage)
    requires Structure(s) && At(s, p) && Running(s.txs[p].stage) && Running(stage)
    ensures Structure(Move(s, p, stage))
  {
  }

  lemma WriteKeeps(s: Sys, p: Pid, c: nat, row: Row, stage: Stage)
    requires Structure(s) && At(s, p) && Running(s.txs[p].stage) && stage != Begun
    requires c < |s.rows| && Unwritten(s, c, p) && row.account == s.txs[p].account
    requires (stage.Upserted? && s.txs[p].target == Some(c)) || s.rows[c].None?
    ensures Structure(Write(s, p, c, row, stage))
  {
  }

  lemma EndKeeps(s: Sys, p: Pid, reply: Reply)
    requires Structure(s) && At(s, p)
    ensures Structure(End(s, p, reply))
  {
  }

  lemma CommitKeeps(s: Sys, p: Pid)
    requires Structure(s) && At(s, p)
    ensures Structure(DoCommit(s, p))
  {
    var reply := CommitReply(s, p);
    if reply.Some? {
      var s' := DoCommit(s, p);
      EndKeeps(s, p, reply.value);
      forall q, c | q in s'.txs && c in s'.txs[q].written ensures FreshRow(s', q, c) {
        assert FreshRow(s, q, c) && c !in s.txs[p].written;
      }
    }
  }

  lemma TableKeeps(s: Sys, c: nat, row: Option<Row>)
    requires Structure(s) && c < |s.rows| && Untouched(s, c)
    ensures Structure(s.(rows := s.rows[c := row]))
  {
    var s' := s.(rows := s.rows[c := row]);
    forall p, d | p in s'.txs && d in s'.txs[p].written ensures FreshRow(s', p, d) {
      assert FreshRow(s, p, d);
    }
  }

  lemma PatchKeeps(s: Sys, c: nat, row: Row)
    requires Structure(s)
    ensures Structure(DoPatch(s, c, row))
  {
    if c < |s.rows| && Untouched(s, c) {
      TableKeeps(s, c, Some(row));
    }
  }

  lemma SetConfigKeeps(s: Sys, c: nat, contents: Option<Config>)
    requires Structure(s)
    ensures Structure(DoSetConfig(s, c, contents))
  {
    if c < |s.rows| && Untouched(s, c) {
      TableKeeps(s, c, None);
    }
  }

  lemma BeginKeeps(s: Sys, p: Pid, tx: Tx)
    requires Structure(s) && tx.stage == Begun && tx.written == map[]
    ensures Structure(DoBegin(s, p, tx))
  {
    var s' := DoBegin(s, p, tx);
    forall q, c | q in s'.txs && c in s'.txs[q].written ensures FreshRow(s', q, c) {
      assert FreshRow(s, q, c);
    }
  }

  lemma LockExclusive(s: Sys, p: Pid)
    requires LocksHeld(s) && OneWriter(s) && At(s, p) && s.txs[p].stage == Begun
    ensures LocksHeld(DoTakeLock(s, p)) && OneWriter(DoTakeLock(s, p))
  {
  }

  lemma LockKeeps(s: Sys, p: Pid)
    requires Structure(s) && At(s, p) && s.txs[p].stage == Begun
    ensures Structure(DoTakeLock(s, p))
  {
    LockExclusive(s, p);
    var s' := DoTakeLock(s, p);
    forall q, c | q in s'.txs && c in s'.txs[q].written ensures FreshRow(s', q, c) {
      assert FreshRow(s, q, c);
    }
  }

  lemma InsertOrphanKeeps(s: Sys, p: Pid)
    requires Structure(s) && At(s, p) && s.txs[p].stage.Reconciling? && |s.txs[p].stage.orphans| > 0
    ensures Structure(DoInsertOrphan(s, p))
  {
    var c, rest := s.txs[p].stage.orphans[0].config, Reconciling(s.txs[p].stage.orphans[1..]);
    MoveKeeps(s, p, rest);
    MoveKeeps(s, p, Aborted);
    if c < |s.rows| && s.configs[c].Some? && Unwritten(s, c, p) && View(s, p)[c].None? {
      WriteKeeps(s, p, c, Row(s.txs[p].account, s.txs[p].stage.orphans[0].slots), rest);
    }
  }

  lemma CheckKeeps(s: Sys, p: Pid)
    requires Structure(s) && At(s, p) && s.txs[p].stage == Reconciling([])
    ensures Structure(DoCheckQuota(s, p))
  {
    MoveKeeps(s, p, Refused);
    if s.txs[p].account in s.quotas {
      MoveKeeps(s, p, Checked(s.quotas[s.txs[p].account]));
    }
  }

  lemma UpsertKeeps(s: Sys, p: Pid)
    requires Structure(s) && At(s, p) && s.txs[p].stage.Checked? && s.txs[p].target.Some?
    ensures Structure(DoUpsert(s, p))
  {
    var tx := s.txs[p];
    MoveKeeps(s, p, Aborted);
    if tx.target.value < |s.rows| && Unwritten(s, tx.target.value, p) {
      WriteKeeps(s, p, tx.target.value, Row(tx.account, tx.need), Upserted(tx.stage.allowance));
    }
  }

  lemma StructureKept(s: Sys, act: Action)
    requires Structure(s)
    ensures Structure(Step(s, act))
  {
    match act
    case Begin(p, a, target, sheets, expressions) =>
      BeginKeeps(s, p, Tx(a, target, SlotsFor(sheets, expressions), Begun, map[]));
    case TakeLock(p) =>
      if At(s, p) && s.txs[p].stage == Begun { LockKeeps(s, p); }
    case SelectOrphans(p) =>
      if At(s, p) && s.txs[p].stage == Locked {
        MoveKeeps(s, p, Reconciling(Orphans(s.configs, View(s, p), s.txs[p].account, s.now, |s.rows|)));
      }
    case InsertOrphan(p) =>
      if At(s, p) && s.txs[p].stage.Reconciling? && |s.txs[p].stage.orphans| > 0 { InsertOrphanKeeps(s, p); }
    case CheckQuota(p) =>
      if At(s, p) && s.txs[p].stage == Reconciling([]) { CheckKeeps(s, p); }
    case Upsert(p) =>
      if At(s, p) && s.txs[p].stage.Checked? && s.txs[p].target.Some? { UpsertKeeps(s, p); }
    case Commit(p) =>
      if At(s, p) { CommitKeeps(s, p); }
    case Fail(p) =>
      if At(s, p) { EndKeeps(s, p, Threw); }
    case Patch(c, a, sheets, expressions) => PatchKeeps(s, c, Row(a, SlotsFor(sheets, expressions)));
    case SetConfig(c, contents) => SetConfigKeeps(s, c, contents);
    case SetQuota(a, allowance) =>
    case Tick(now) =>
  }

  // ---------------------------------------------------------------- what changes the account's use

  /** The slots of its account as an open transaction sees them. */
  function UsedBy(s: Sys, p: Pid): nat
    requires p in s.txs
  {
    Used(View(s, p), s.txs[p].account)
  }

  /** It has passed the quota gate. */
  predicate Gated(s: Sys, p: Pid) {
    p in s.txs && (s.txs[p].stage.Checked? || s.txs[p].stage.Upserted?)
  }

  predicate PatchOf(act: Action, a: Account) {
    act.Patch? && act.account == a
  }

  lemma RowUsed(s: Sys, c: nat, row: Option<Row>, q: Pid)
    requires q in s.txs && c < |s.rows| && Untouched(s, c)
    ensures
      var s', a := s.(rows := s.rows[c := row]), s.txs[q].account;
      UsedBy(s', q) + Weight(a)(s.rows[c]) == UsedBy(s, q) + Weight(a)(row)
  {
    OverlayUnder(s.rows, s.txs[q].written, c, row);
    SumUpdate(View(s, q), c, row, Weight(s.txs[q].account));
  }

  /** Deleting a config gives its slots back, and takes no others. */
  lemma DeletionFrees(s: Sys, c: nat, a: Account)
    requires |s.configs| == |s.rows| && c < |s.rows| && Untouched(s, c)
    ensures
      var t := Step(s, SetConfig(c, None));
      t.configs[c] == None && Used(t.rows, a) + Weight(a)(s.rows[c]) == Used(s.rows, a)
  {
    SumUpdate(s.rows, c, None, Weight(a));
  }

  /** Another transaction's commit never adds to the use of an account whose lock is held. */
  lemma CommitUsed(s: Sys, p: Pid, q: Pid)
    requires Structure(s) && At(s, p) && Gated(s, q) && p != q
    ensures q in DoCommit(s, p).txs && UsedBy(DoCommit(s, p), q) <= UsedBy(s, q)
  {
    var s', a := DoCommit(s, p), s.txs[q].account;
    if CommitReply(s, p).Some? {
      assert s.txs[p].account != a;
      forall i | 0 <= i < |s.rows| ensures Weight(a)(View(s', q)[i]) <= Weight(a)(View(s, q)[i]) {
        assert i in s.txs[p].written ==> s.txs[p].written[i].account != a;
      }
      UsedMonotone(View(s', q), View(s, q), a);
    }
  }

  lemma TableUsed(s: Sys, act: Action, q: Pid)
    requires Structure(s) && q in s.txs && (act.Patch? || act.SetConfig?) && !PatchOf(act, s.txs[q].account)
    ensures q in Step(s, act).txs && UsedBy(Step(s, act), q) <= UsedBy(s, q)
  {
    if act.config < |s.rows| && Untouched(s, act.config) {
      if act.Patch? {
        RowUsed(s, act.config, Some(Row(act.account, SlotsFor(act.sheets, act.expressions))), q);
      } else {
        RowUsed(s, act.config, None, q);
      }
    }
  }

  /** Actions of other sessions leave the transaction itself alone. */
  lemma TxStays(s: Sys, act: Action, q: Pid)
    requires |s.configs| == |s.rows| && Gated(s, q) && Gated(Step(s, act), q) && act != Upsert(q)
    ensures Step(s, act).txs[q] == s.txs[q]
  {
    if IsBy(act, q) {
      OwnStays(s, act, q);
    } else {
      hide Orphans, Used, Overlay, SlotsFor, Exists, Unwritten, Untouched;
    }
  }

  predicate IsBy(act: Action, p: Pid) {
    !act.Patch? && !act.SetConfig? && !act.SetQuota? && !act.Tick? && act.p == p
  }

  /** Of its own actions only the upsert goes on past the gate. */
  lemma OwnStays(s: Sys, act: Action, q: Pid)
    requires |s.configs| == |s.rows| && Gated(s, q) && Gated(Step(s, act), q) && act != Upsert(q) && IsBy(act, q)
    ensures Step(s, act) == s
  {
    hide Orphans, Used, Overlay, SlotsFor, Exists, Unwritten, Untouched;
  }

  /** Only a PATCH of the same account adds to what a transaction past the gate sees in use, its own
      upsert aside. */
  lemma NoGrowth(s: Sys, act: Action, q: Pid)
    requires Structure(s) && Gated(s, q) && Gated(Step(s, act), q)
    requires act != Upsert(q) && !PatchOf(act, s.txs[q].account)
    ensures UsedBy(Step(s, act), q) <= UsedBy(s, q)
  {
    TxStays(s, act, q);
    if act.Commit? && At(s, act.p) && act.p != q {
      CommitUsed(s, act.p, q);
    } else if act.Patch? || act.SetConfig? {
      TableUsed(s, act, q);
    } else {
      RowsStay(s, act, q);
    }
  }

  lemma RowsStay(s: Sys, act: Action, q: Pid)
    requires Structure(s) && Gated(s, q) && Gated(Step(s, act), q)
    requires !act.Patch? && !act.SetConfig? && (act.Commit? ==> act.p == q || !At(s, act.p))
    ensures Step(s, act).rows == s.rows
  {
  }

  lemma UpsertUsed(s: Sys, p: Pid)
    requires Structure(s) && At(s, p) && s.txs[p].stage.Checked? && Gated(Step(s, Upsert(p)), p)
    requires Step(s, Upsert(p)).txs[p].stage.Upserted?
    ensures
      var s', tx := Step(s, Upsert(p)), s.txs[p];
      && tx.target.Some? && tx.target.value < |s.rows|
      && s'.txs[p].account == tx.account && s'.txs[p].stage == Upserted(tx.stage.allowance)
      && UsedBy(s', p) + Weight(tx.account)(View(s, p)[tx.target.value]) == UsedBy(s, p) + tx.need
  {
    var tx := s.txs[p];
    var c, row := tx.target.value, Row(tx.account, tx.need);
    OverlayWrite(s.rows, tx.written, c, row);
    SumUpdate(View(s, p), c, Some(row), Weight(tx.account));
  }

  // ---------------------------------------------------------------- whole runs

  function Start(rows: Rows, configs: seq<Option<Config>>, quotas: map<Account, int>, now: int): Sys {
    Sys(rows, configs, quotas, now, map[], map[], map[])
  }

  function Run(s: Sys, acts: seq<Action>): (r: Sys)
    requires |s.configs| == |s.rows|
    ensures |r.configs| == |r.rows|
  {
    if acts == [] then s else Step(Run(s, acts[..|acts| - 1]), acts[|acts| - 1])
  }

  lemma {:induction false} RunKeeps(s: Sys, acts: seq<Action>)
    requires Structure(s)
    ensures Structure(Run(s, acts))
  {
    if acts != [] {
      RunKeeps(s, acts[..|acts| - 1]);
      StructureKept(Run(s, acts[..|acts| - 1]), acts[|acts| - 1]);
    }
  }

  /** The slots `p` found free at its quota check beyond those it needs. */
  function Slack(s0: Sys, acts: seq<Action>, p: Pid): int
    requires |s0.configs| == |s0.rows|
  {
    if acts == [] then 0
    else
      var front, act := acts[..|acts| - 1], acts[|acts| - 1];
      var s := Run(s0, front);
      if act == CheckQuota(p) && Gated(Step(s, act), p) && !Gated(s, p)
      then Step(s, act).txs[p].stage.allowance - UsedBy(s, p) - s.txs[p].need
      else Slack(s0, front, p)
  }

  /** The slots of the row its upsert replaced. */
  function Freed(s0: Sys, acts: seq<Action>, p: Pid): nat
    requires |s0.configs| == |s0.rows|
  {
    if acts == [] then 0
    else
      var front, act := acts[..|acts| - 1], acts[|acts| - 1];
      var s := Run(s0, front);
      if !Gated(s, p) then 0
      else if act == Upsert(p) && s.txs[p].stage.Checked? && s.txs[p].target.Some? && s.txs[p].target.value < |s.rows|
      then Weight(s.txs[p].account)(View(s, p)[s.txs[p].target.value])
      else Freed(s0, front, p)
  }

  /** By how much others have changed, since its check, what the account has in use. */
  function Drift(s0: Sys, acts: seq<Action>, p: Pid): int
    requires |s0.configs| == |s0.rows|
  {
    if acts == [] then 0
    else
      var front, act := acts[..|acts| - 1], acts[|acts| - 1];
      var s, s' := Run(s0, front), Step(Run(s0, front), act);
      if !Gated(s, p) || !Gated(s', p) then 0
      else Drift(s0, front, p) + if act == Upsert(p) then 0 else UsedBy(s', p) - UsedBy(s, p)
  }

  /** No PATCH of its account has come since its check. */
  predicate NoPatchSince(s0: Sys, acts: seq<Action>, p: Pid)
    requires |s0.configs| == |s0.rows|
  {
    acts != [] ==>
      var front, act := acts[..|acts| - 1], acts[|acts| - 1];
      var s := Run(s0, front);
      Gated(s, p) ==> NoPatchSince(s0, front, p) && !PatchOf(act, s.txs[p].account)
  }

  /** What a transaction past the gate sees in use, to the slot. */
  predicate Accounted(s0: Sys, acts: seq<Action>, p: Pid)
    requires |s0.configs| == |s0.rows|
  {
    var s := Run(s0, acts);
    Gated(s, p) ==>
      && Slack(s0, acts, p) >= 0
      && UsedBy(s, p) == s.txs[p].stage.allowance - Slack(s0, acts, p) + Drift(s0, acts, p)
                         - if s.txs[p].stage.Checked? then s.txs[p].need else Freed(s0, acts, p)
  }

  lemma GateEntry(s: Sys, act: Action, p: Pid)
    requires |s.configs| == |s.rows| && !Gated(s, p) && Gated(Step(s, act), p)
    ensures act == CheckQuota(p) && At(s, p) && s.txs[p].stage == Reconciling([])
  {
    hide Orphans, Used, Overlay, SlotsFor, Exists, Unwritten, Untouched;
  }

  lemma GateStep(s: Sys, act: Action, p: Pid)
    requires |s.configs| == |s.rows| && !Gated(s, p) && Gated(Step(s, act), p)
    ensures act == CheckQuota(p) && p in s.txs
    ensures
      var tx, tx' := s.txs[p], Step(s, act).txs[p];
      && tx' == tx.(stage := tx'.stage) && tx'.stage.Checked? && UsedBy(Step(s, act), p) == UsedBy(s, p)
      && tx'.stage.allowance - UsedBy(s, p) >= tx.need
  {
    GateEntry(s, act, p);
  }

  /** An upsert that waits, or comes too late, changes nothing. */
  lemma UpsertElse(s: Sys, p: Pid)
    requires |s.configs| == |s.rows| && Gated(s, p) && Gated(Step(s, Upsert(p)), p)
    requires !(s.txs[p].stage.Checked? && Step(s, Upsert(p)).txs[p].stage.Upserted?)
    ensures Step(s, Upsert(p)) == s
  {
  }

  lemma {:induction false} AllAccounted(s0: Sys, acts: seq<Action>, p: Pid)
    requires Structure(s0) && s0.txs == map[]
    ensures Accounted(s0, acts, p)
  {
    hide Orphans, Used, Overlay, SlotsFor, LocksHeld, OwnRows, OneWriter, FreshRows, Step;
    if acts != [] {
      var front, act := acts[..|acts| - 1], acts[|acts| - 1];
      var s := Run(s0, front);
      AllAccounted(s0, front, p);
      RunKeeps(s0, front);
      if Gated(Step(s, act), p) {
        if !Gated(s, p) {
          GateStep(s, act, p);
        } else if act == Upsert(p) {
          if s.txs[p].stage.Checked? && Step(s, act).txs[p].stage.Upserted? {
            UpsertUsed(s, p);
          } else {
            UpsertElse(s, p);
          }
        } else {
          TxStays(s, act, p);
        }
      }
    }
  }

  lemma {:induction false} NoDrift(s0: Sys, acts: seq<Action>, p: Pid)
    requires Structure(s0) && s0.txs == map[] && Gated(Run(s0, acts), p) && NoPatchSince(s0, acts, p)
    ensures Drift(s0, acts, p) <= 0
  {
    if acts != [] {
      var front, act := acts[..|acts| - 1], acts[|acts| - 1];
      var s := Run(s0, front);
      if Gated(s, p) {
        NoDrift(s0, front, p);
        RunKeeps(s0, front);
        if act != Upsert(p) {
          NoGrowth(s, act, p);
        }
      }
    }
  }

  /** In every interleaving: an upload that commits takes its account over the allowance it read if
      and only if others raised the account's use since its check by more than the slack it found
      there and the slots of the row it replaced. */
  lemma OverrunIff(rows: Rows, configs: seq<Option<Config>>, quotas: map<Account, int>, now: int, acts: seq<Action>, p: Pid)
    requires |rows| == |configs|
    requires
      var s := Run(Start(rows, configs, quotas, now), acts);
      p in s.txs && s.txs[p].stage.Upserted?
    ensures
      var s0 := Start(rows, configs, quotas, now);
      var s, tx := Run(s0, acts), Run(s0, acts).txs[p];
      var s' := Step(s, Commit(p));
      && p in s'.replies && s'.replies[p] == Accepted
      && (Used(s'.rows, tx.account) > tx.stage.allowance <==>
            Drift(s0, acts, p) > Slack(s0, acts, p) + Freed(s0, acts, p))
  {
    AllAccounted(Start(rows, configs, quotas, now), acts, p);
  }

  /** Without a PATCH of the account since the check, an accepted upload never does, re-uploads
      included. */
  lemma NoOverrun(rows: Rows, configs: seq<Option<Config>>, quotas: map<Account, int>, now: int, acts: seq<Action>, p: Pid)
    requires |rows| == |configs|
    requires
      var s0 := Start(rows, configs, quotas, now);
      var s := Run(s0, acts);
      p in s.txs && s.txs[p].stage.Upserted? && NoPatchSince(s0, acts, p)
    ensures
      var s := Run(Start(rows, configs, quotas, now), acts);
      var s' := Step(s, Commit(p));
      && p in s'.replies && s'.replies[p] == Accepted
      && Used(s'.rows, s.txs[p].account) <= s.txs[p].stage.allowance
  {
    OverrunIff(rows, configs, quotas, now, acts, p);
    AllAccounted(Start(rows, configs, quotas, now), acts, p);
    NoDrift(Start(rows, configs, quotas, now), acts, p);
  }

  /** A mere check answers ok exactly for a need that still fits, unless others used up more than
      the slack it found while it was committing. */
  lemma CheckFits(rows: Rows, configs: seq<Option<Config>>, quotas: map<Account, int>, now: int, acts: seq<Action>, p: Pid)
    requires |rows| == |configs|
    requires
      var s := Run(Start(rows, configs, quotas, now), acts);
      p in s.txs && s.txs[p].stage.Checked? && s.txs[p].target.None?
    ensures
      var s0 := Start(rows, configs, quotas, now);
      var s, tx := Run(s0, acts), Run(s0, acts).txs[p];
      var s' := Step(s, Commit(p));
      && p in s'.replies && s'.replies[p] == Accepted
      && (Used(s'.rows, tx.account) + tx.need <= tx.stage.allowance <==> Drift(s0, acts, p) <= Slack(s0, acts, p))
  {
    AllAccounted(Start(rows, configs, quotas, now), acts, p);
  }

  /** A commit changes no existing row except the one an upload is for, and adds rows only for
      its own account. */
  lemma CommitOnlyAdds(s: Sys, p: Pid, c: nat)
    requires Structure(s) && At(s, p) && c < |s.rows|
    ensures
      var s', tx := Step(s, Commit(p)), s.txs[p];
      && (s'.rows[c] == s.rows[c] || (s'.rows[c].Some? && s'.rows[c].value.account == tx.account))
      && (s.rows[c].Some? && s'.rows[c] != s.rows[c] ==> tx.stage.Upserted? && tx.target == Some(c))
  {
    if c in s.txs[p].written {
      assert FreshRow(s, p, c);
    }
  }

  // ---------------------------------------------------------------- reconciling without interference

  /** `k` INSERTs of the same transaction, with nothing in between. */
  function InsertNext(s: Sys, p: Pid, k: nat): (r: Sys)
    requires |s.configs| == |s.rows|
    ensures |r.configs| == |r.rows|
  {
    if k == 0 then s else Step(InsertNext(s, p, k - 1), InsertOrphan(p))
  }

  predicate Insertable(s: Sys, p: Pid, os: seq<Found>) {
    forall o :: o in os ==>
      o.config < |s.rows| && o.config < |s.configs| && s.configs[o.config].Some? && Unwritten(s, o.config, p)
  }

  /** `r` differs from `s` in the transaction of `p` only. */
  ghost predicate OnlyOf(s: Sys, r: Sys, p: Pid) {
    && r.rows == s.rows && r.configs == s.configs
    && forall q :: q != p ==> (q in r.txs <==> q in s.txs) && (q in s.txs ==> r.txs[q] == s.txs[q])
  }

  lemma InsertsNext(s: Sys, p: Pid)
    requires At(s, p) && s.txs[p].stage.Reconciling? && |s.txs[p].stage.orphans| > 0
    requires Insertable(s, p, s.txs[p].stage.orphans)
    ensures
      var os, r := s.txs[p].stage.orphans, Step(s, InsertOrphan(p));
      && At(r, p) && r.txs[p].stage == Reconciling(os[1..]) && OnlyOf(s, r, p)
      && r.txs[p].account == s.txs[p].account
      && View(r, p) == InsertRow(View(s, p), s.txs[p].account, os[0])
  {
    var o := s.txs[p].stage.orphans[0];
    assert o in s.txs[p].stage.orphans;
    if View(s, p)[o.config].None? {
      OverlayWrite(s.rows, s.txs[p].written, o.config, Row(s.txs[p].account, o.slots));
    }
  }

  lemma InsertableStays(s: Sys, r: Sys, p: Pid, os: seq<Found>)
    requires Insertable(s, p, os) && OnlyOf(s, r, p)
    ensures forall k :: 0 <= k <= |os| ==> Insertable(r, p, os[k..])
  {
    forall o | o in os ensures Unwritten(r, o.config, p) {
      assert Unwritten(s, o.config, p);
    }
  }

  lemma {:induction false} InsertsAlone(s: Sys, p: Pid, os: seq<Found>, k: nat)
    requires At(s, p) && s.txs[p].stage == Reconciling(os) && Insertable(s, p, os) && k <= |os|
    ensures
      var r := InsertNext(s, p, k);
      && At(r, p) && r.txs[p].stage == Reconciling(os[k..]) && OnlyOf(s, r, p)
      && r.txs[p].account == s.txs[p].account
      && View(r, p) == InsertRows(View(s, p), s.txs[p].account, os[..k])
  {
    if k > 0 {
      InsertsAlone(s, p, os, k - 1);
      var r := InsertNext(s, p, k - 1);
      InsertableStays(s, r, p, os);
      InsertsNext(r, p);
      assert os[k - 1..][0] == os[k - 1] && os[k - 1..][1..] == os[k..];
      assert os[..k][..k - 1] == os[..k - 1];
    }
  }

  /** Undisturbed, the SELECT and its INSERTs show the transaction the reconciled table. */
  lemma ReconcilesBeforeCheck(s: Sys, p: Pid)
    requires At(s, p) && s.txs[p].stage == Locked
    requires forall c: nat :: c < |s.rows| && s.configs[c].Some? ==> Unwritten(s, c, p)
    ensures
      var t := Step(s, SelectOrphans(p));
      t.txs[p].stage.Reconciling? && |t.configs| == |t.rows|
    ensures
      var t := Step(s, SelectOrphans(p));
      var r := InsertNext(t, p, |t.txs[p].stage.orphans|);
      && At(r, p) && r.txs[p].stage == Reconciling([])
      && View(r, p) == Reconciled(s.configs, View(s, p), s.txs[p].account, s.now)
  {
    var t, a, rows := Step(s, SelectOrphans(p)), s.txs[p].account, View(s, p);
    var os := Orphans(s.configs, rows, a, s.now, |rows|);
    OrphansExist(s.configs, rows, a, s.now, |rows|);
    InsertsAlone(t, p, os, |os|);
    assert os[..|os|] == os && os[|os|..] == [];
    InsertingReconciles(s.configs, rows, a, s.now);
  }

  /** So an undisturbed check or upload is refused exactly if the account has no quota, or what its rows
      take, its configs without a row would take and it asks for is more than that. */
  lemma RefusedIff(s: Sys, p: Pid)
    requires At(s, p) && s.txs[p].stage == Locked
    requires forall c: nat :: c < |s.rows| && s.configs[c].Some? ==> Unwritten(s, c, p)
    ensures
      var t := Step(s, SelectOrphans(p));
      t.txs[p].stage.Reconciling? && |t.configs| == |t.rows|
    ensures
      var t := Step(s, SelectOrphans(p));
      var u := Step(InsertNext(t, p, |t.txs[p].stage.orphans|), CheckQuota(p));
      var a, rows := s.txs[p].account, View(s, p);
      && At(u, p) && (u.txs[p].stage.Checked? || u.txs[p].stage == Refused)
      && (u.txs[p].stage == Refused <==>
            || a !in s.quotas
            || Used(rows, a) + MissingSlots(s.configs, rows, a, s.now, |rows|) + s.txs[p].need > s.quotas[a])
  {
    hide Orphans, Reconciled, Used;
    var t, a := Step(s, SelectOrphans(p)), s.txs[p].account;
    ReconcilesBeforeCheck(s, p);
    UsedReconciled(s.configs, View(s, p), a, s.now);
    InsertsKeep(t, p, |t.txs[p].stage.orphans|);
  }

  lemma {:induction false} InsertsKeep(s: Sys, p: Pid, k: nat)
    requires At(s, p)
    ensures
      var r := InsertNext(s, p, k);
      At(r, p) && r.quotas == s.quotas && r.txs[p].account == s.txs[p].account && r.txs[p].need == s.txs[p].need
  {
    hide Step;
    if k > 0 {
      InsertsKeep(s, p, k - 1);
      InsertKeeps(InsertNext(s, p, k - 1), p);
    }
  }

  lemma InsertKeeps(s: Sys, p: Pid)
    requires At(s, p)
    ensures
      var r := Step(s, InsertOrphan(p));
      At(r, p) && r.quotas == s.quotas && r.txs[p].account == s.txs[p].account && r.txs[p].need == s.txs[p].need
  {
    hide Overlay, Exists, Unwritten;
  }

  lemma {:induction false} OrphansExist(configs: seq<Option<Config>>, rows: Rows, a: Account, now: int, n: nat)
    requires n <= |configs| == |rows|
    ensures forall o :: o in Orphans(configs, rows, a, now, n) ==> o.config < n && configs[o.config].Some?
  {
    if n > 0 {
      OrphansExist(configs, rows, a, now, n - 1);
    }
  }

  // ---------------------------------------------------------------- PATCH is not bounded

  /** An upload that was checked to fill the allowance exactly, and a PATCH that gives another
      config of the account its first row before the upload commits: accepted, and over by the
      slots of that row. */
  lemma PatchBetween(s: Sys, p: Pid, c: nat, sheets: nat, expressions: nat)
    requires Structure(s) && At(s, p) && s.txs[p].stage.Checked? && s.txs[p].target.Some?
    requires
      var t := s.txs[p].target.value;
      t < |s.rows| && s.configs[t].Some? && Unwritten(s, t, p) && View(s, p)[t].None? && c != t
    requires c < |s.rows| && s.configs[c].Some? && s.rows[c].None? && Untouched(s, c)
    requires Used(View(s, p), s.txs[p].account) + s.txs[p].need == s.txs[p].stage.allowance
    ensures
      var a := s.txs[p].account;
      var s3 := Step(Step(Step(s, Patch(c, a, sheets, expressions)), Upsert(p)), Commit(p));
      && p in s3.replies && s3.replies[p] == Accepted
      && Used(s3.rows, a) == s.txs[p].stage.allowance + SlotsFor(sheets, expressions)
  {
    var a, t := s.txs[p].account, s.txs[p].target.value;
    var s1 := Step(s, Patch(c, a, sheets, expressions));
    RowUsed(s, c, Some(Row(a, SlotsFor(sheets, expressions))), p);
    assert View(s1, p)[t] == View(s, p)[t];
    UpsertAndCommit(s1, p, t);
  }

  lemma UpsertAndCommit(s: Sys, p: Pid, t: nat)
    requires At(s, p) && s.txs[p].stage.Checked? && s.txs[p].target == Some(t)
    requires t < |s.rows| && s.configs[t].Some? && Unwritten(s, t, p) && View(s, p)[t].None?
    ensures
      var tx, s' := s.txs[p], Step(Step(s, Upsert(p)), Commit(p));
      && p in s'.replies && s'.replies[p] == Accepted
      && Used(s'.rows, tx.account) == Used(View(s, p), tx.account) + tx.need
  {
    var tx := s.txs[p];
    OverlayWrite(s.rows, tx.written, t, Row(tx.account, tx.need));
    SumUpdate(View(s, p), t, Some(Row(tx.account, tx.need)), Weight(tx.account));
  }

  // ---------------------------------------------------------------- such a run

  const SMALL := Some(Config(0, false, 0, 1, 0))

  /** Two configs and an allowance of one slot; a session at `stage` of uploading the first config. */
  function Uploading(rows: Rows, stage: Stage, written: map<nat, Row>): Sys {
    Sys(rows, [SMALL, SMALL], map[0 := 1], 0, if stage == Begun then map[] else map[0 := 0],
        map[0 := Tx(0, Some(0), 1, stage, written)], map[])
  }

  const EMPTY := Start([None, None], [SMALL, SMALL], map[0 := 1], 0)
  const ONE: Row := Row(0, 1)

  const OVERRUN := [
    Begin(0, 0, Some(0), 1, 0), TakeLock(0), SelectOrphans(0), CheckQuota(0), Patch(1, 0, 1, 0), Upsert(0), Commit(0)]

  lemma RunNext(s0: Sys, acts: seq<Action>, k: nat)
    requires |s0.configs| == |s0.rows| && k < |acts|
    ensures Run(s0, acts[..k + 1]) == Step(Run(s0, acts[..k]), acts[k])
  {
    assert acts[..k + 1][..k] == acts[..k];
  }

  lemma OverBegin()
    ensures Run(EMPTY, OVERRUN[..1]) == Uploading([None, None], Begun, map[])
  {
    RunNext(EMPTY, OVERRUN, 0);
  }

  lemma OverLock()
    ensures Run(EMPTY, OVERRUN[..2]) == Uploading([None, None], Locked, map[])
  {
    OverBegin();
    RunNext(EMPTY, OVERRUN, 1);
  }

  lemma OverSelect()
    ensures Run(EMPTY, OVERRUN[..3]) == Uploading([None, None], Reconciling([]), map[])
  {
    OverLock();
    RunNext(EMPTY, OVERRUN, 2);
    NoneFound();
  }

  lemma NoneFound()
    ensures DoSelect(Uploading([None, None], Locked, map[]), 0) == Uploading([None, None], Reconciling([]), map[])
  {
    assert Overlay([None, None], map[]) == [None, None];
    NoOrphans([SMALL, SMALL], [None, None], SMALL);
  }

  lemma GatePasses()
    ensures DoCheckQuota(Uploading([None, None], Reconciling([]), map[]), 0) == Uploading([None, None], Checked(1), map[])
  {
    assert Overlay([None, None], map[]) == [None, None];
    NothingUsed();
  }

  lemma OverCheck()
    ensures Run(EMPTY, OVERRUN[..4]) == Uploading([None, None], Checked(1), map[])
  {
    OverSelect();
    RunNext(EMPTY, OVERRUN, 3);
    GatePasses();
  }

  lemma OverPatch()
    ensures Run(EMPTY, OVERRUN[..5]) == Uploading([None, Some(ONE)], Checked(1), map[])
  {
    OverCheck();
    RunNext(EMPTY, OVERRUN, 4);
    PatchedBetween();
  }

  lemma PatchedBetween()
    ensures DoPatch(Uploading([None, None], Checked(1), map[]), 1, ONE) == Uploading([None, Some(ONE)], Checked(1), map[])
  {
  }

  lemma OverUpsert()
    ensures Run(EMPTY, OVERRUN[..6]) == Uploading([None, Some(ONE)], Upserted(1), map[0 := ONE])
  {
    OverPatch();
    RunNext(EMPTY, OVERRUN, 5);
  }

  /** So, from empty tables and an allowance of one slot, a PATCH of the other config between check
      and upsert lets an upload be accepted that leaves two slots in use. */
  lemma PatchOverruns()
    ensures
      var s := Run(EMPTY, OVERRUN);
      0 in s.replies && s.replies[0] == Accepted && Used(s.rows, 0) == 2
  {
    OverUpsert();
    RunNext(EMPTY, OVERRUN, 6);
    assert OVERRUN[..7] == OVERRUN;
    assert Overlay([None, Some(ONE)], map[0 := ONE]) == [Some(ONE), Some(ONE)];
    BothUsed();
  }

  lemma BothUsed()
    ensures Used([Some(ONE), Some(ONE)], 0) == 2
  {
    var rows: Rows := [Some(ONE), Some(ONE)];
    assert rows[..1][..0] == [] && rows[..1] == [Some(ONE)] && Sum(rows[..1], Weight(0)) == 1;
  }

  lemma NoOrphans(configs: seq<Option<Config>>, rows: Rows, config: Option<Config>)
    requires config == Some(Config(0, false, 0, 1, 0)) && configs == [config, config] && |rows| == 2
    ensures Orphans(configs, rows, 0, 0, 2) == []
  {
    assert Orphans(configs, rows, 0, 0, 1) == [];
  }

  lemma NothingUsed()
    ensures Used([None, None], 0) == 0
  {
    var rows: Rows := [None, None];
    assert rows[..1][..0] == [] && Sum(rows[..1], Weight(0)) == 0;
  }
}
