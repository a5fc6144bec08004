// Orphans whose config is deleted between the SELECT that finds them and their INSERT: the error is
// caught in the loop, but the transaction is lost with it.
module VanishedConfigs {
  import opened Wrappers
  import opened CalculatorSlots
  import opened SlotConcurrency

  /** The statement that is an INSERT of `p` for a config that is gone. */
  predicate InsertFails(s: Sys, act: Action, p: Pid) {
    At(s, p) &&
    match act
    case InsertOrphan(q) =>
      && q == p && s.txs[p].stage.Reconciling? && |s.txs[p].stage.orphans| > 0
      && !Exists(s, s.txs[p].stage.orphans[0].config)
    case Upsert(q) =>
      q == p && s.txs[p].stage.Checked? && s.txs[p].target.Some? && !Exists(s, s.txs[p].target.value)
    case _ => false
  }

  /** An INSERT of `p` has failed. */
  predicate InsertFailed(s0: Sys, acts: seq<Action>, p: Pid)
    requires |s0.configs| == |s0.rows|
  {
    acts != [] &&
    var front, act := acts[..|acts| - 1], acts[|acts| - 1];
    InsertFailed(s0, front, p) || InsertFails(Run(s0, front), act, p)
  }

  /** A session is running or has its reply; it is aborted exactly if an INSERT of it failed, and then
      it has no reply but an error. */
  predicate Told(s: Sys, p: Pid, failed: bool) {
    && !(p in s.txs && p in s.replies)
    && (p in s.txs ==> (s.txs[p].stage.Aborted? <==> failed))
    && (p !in s.txs && p !in s.replies ==> !failed)
    && (p in s.replies && failed ==> s.replies[p] == Threw)
  }

  lemma ToldNext(s: Sys, act: Action, p: Pid, failed: bool)
    requires |s.configs| == |s.rows| && Told(s, p, failed)
    ensures Told(Step(s, act), p, failed || InsertFails(s, act, p))
  {
    hide Orphans, Used, Overlay, SlotsFor, Unwritten, Untouched;
  }

  lemma {:induction false} ToldInRun(s0: Sys, acts: seq<Action>, p: Pid)
    requires |s0.configs| == |s0.rows| && s0.txs == map[] && s0.replies == map[]
    ensures Told(Run(s0, acts), p, InsertFailed(s0, acts, p))
  {
    if acts != [] {
      ToldInRun(s0, acts[..|acts| - 1], p);
      ToldNext(Run(s0, acts[..|acts| - 1]), acts[|acts| - 1], p, InsertFailed(s0, acts[..|acts| - 1], p));
    }
  }

  /** In every interleaving, once an INSERT of a session has failed because its config was gone, the
      session is answered with an error and nothing else, although the loop over the orphans goes on. */
  lemma OnlyThrows(rows: Rows, configs: seq<Option<Config>>, quotas: map<Account, int>, now: int,
                   acts: seq<Action>, more: seq<Action>, p: Pid)
    requires |rows| == |configs| && InsertFailed(Start(rows, configs, quotas, now), acts, p)
    ensures
      var s := Run(Start(rows, configs, quotas, now), acts + more);
      && (p in s.txs ==> s.txs[p].stage == Aborted)
      && (p in s.replies ==> s.replies[p] == Threw)
  {
    var s0 := Start(rows, configs, quotas, now);
    StillFailed(s0, acts, more, p);
    ToldInRun(s0, acts + more, p);
  }

  lemma {:induction false} StillFailed(s0: Sys, acts: seq<Action>, more: seq<Action>, p: Pid)
    requires |s0.configs| == |s0.rows| && InsertFailed(s0, acts, p)
    ensures InsertFailed(s0, acts + more, p)
  {
    if more == [] {
      assert acts + more == acts;
    } else {
      var front := more[..|more| - 1];
      StillFailed(s0, acts, front, p);
      assert (acts + more)[..|acts + more| - 1] == acts + front;
    }
  }

  /** So a session that is answered with anything else has had no INSERT fail. */
  lemma AnsweredUnharmed(rows: Rows, configs: seq<Option<Config>>, quotas: map<Account, int>, now: int,
                         acts: seq<Action>, p: Pid)
    requires |rows| == |configs|
    requires
      var s := Run(Start(rows, configs, quotas, now), acts);
      p in s.replies && s.replies[p] != Threw
    ensures !InsertFailed(Start(rows, configs, quotas, now), acts, p)
  {
    ToldInRun(Start(rows, configs, quotas, now), acts, p);
  }

  // ---------------------------------------------------------------- a check nobody disturbs

  predicate AllExist(s: Sys, os: seq<Found>) {
    forall j :: 0 <= j < |os| ==> Exists(s, os[j].config)
  }

  predicate FreeOf(s: Sys, p: Pid, os: seq<Found>) {
    forall j :: 0 <= j < |os| ==> Unwritten(s, os[j].config, p)
  }

  /** `r` is `s` but for the stage and the rows written of `p`. */
  ghost predicate Only(s: Sys, r: Sys, p: Pid)
    requires p in s.txs
  {
    && p in r.txs && r == s.(txs := r.txs) && r.txs == s.txs[p := r.txs[p]]
    && r.txs[p] == s.txs[p].(stage := r.txs[p].stage, written := r.txs[p].written)
  }

  lemma InsertOne(s: Sys, r: Sys, p: Pid, os: seq<Found>, k: nat)
    requires At(s, p) && Only(s, r, p) && FreeOf(s, p, os) && k < |os|
    requires r.txs[p].stage == (if AllExist(s, os[..k]) then Reconciling(os[k..]) else Aborted)
    ensures
      var r' := Step(r, InsertOrphan(p));
      && Only(s, r', p)
      && r'.txs[p].stage == (if AllExist(s, os[..k + 1]) then Reconciling(os[k + 1..]) else Aborted)
  {
    hide Overlay, AllExist;
    assert AllExist(s, os[..k + 1]) <==> AllExist(s, os[..k]) && Exists(s, os[k].config) by { OneMore(s, os, k); }
    assert os[k..][0] == os[k] && os[k..][1..] == os[k + 1..];
    assert Unwritten(s, os[k].config, p);
    assert Unwritten(r, os[k].config, p);
  }

  lemma OneMore(s: Sys, os: seq<Found>, k: nat)
    requires k < |os|
    ensures AllExist(s, os[..k + 1]) <==> AllExist(s, os[..k]) && Exists(s, os[k].config)
  {
    hide Exists;
    assert os[..k + 1] == os[..k] + [os[k]];
    assert forall j :: 0 <= j < k ==> os[..k + 1][j] == os[..k][j];
    assert os[..k + 1][k] == os[k];
  }

  lemma {:induction false} InsertsRun(s: Sys, p: Pid, os: seq<Found>, k: nat)
    requires At(s, p) && s.txs[p].stage == Reconciling(os) && FreeOf(s, p, os) && k <= |os|
    ensures
      var r := InsertNext(s, p, k);
      Only(s, r, p) && r.txs[p].stage == (if AllExist(s, os[..k]) then Reconciling(os[k..]) else Aborted)
  {
    hide AllExist, FreeOf, Exists, Step;
    if k == 0 {
      assert AllExist(s, []) && os[..0] == [] && os[0..] == os by { NoneMissing(s); }
    } else {
      InsertsRun(s, p, os, k - 1);
      InsertOne(s, InsertNext(s, p, k - 1), p, os, k - 1);
    }
  }

  lemma NoneMissing(s: Sys)
    ensures AllExist(s, [])
  {
  }

  lemma CheckAnswers(r: Sys, p: Pid)
    requires At(r, p) && r.txs[p].target.None? && p !in r.replies
    ensures
      var t := Step(Step(r, CheckQuota(p)), Commit(p));
      && (r.txs[p].stage == Reconciling([]) ==> p in t.replies && t.replies[p] != Threw)
      && (r.txs[p].stage == Aborted ==> t == r && p in Step(t, Fail(p)).replies && Step(t, Fail(p)).replies[p] == Threw)
  {
  }

  /** Its INSERTs, its query and its COMMIT with nothing in between: a check answers exactly if every
      orphan it selected still has its config; otherwise all it can do is throw, whatever the
      account's quota. */
  lemma AnswersIff(s: Sys, p: Pid, os: seq<Found>)
    requires At(s, p) && s.txs[p].stage == Reconciling(os) && s.txs[p].target.None? && p !in s.replies
    requires FreeOf(s, p, os)
    ensures
      var t := Step(Step(InsertNext(s, p, |os|), CheckQuota(p)), Commit(p));
      && (p in t.replies && t.replies[p] != Threw <==> AllExist(s, os))
      && (!AllExist(s, os) ==> p in Step(t, Fail(p)).replies && Step(t, Fail(p)).replies[p] == Threw)
  {
    hide AllExist, FreeOf, Step;
    InsertsRun(s, p, os, |os|);
    assert os[..|os|] == os && os[|os|..] == [];
    CheckAnswers(InsertNext(s, p, |os|), p);
  }

  // ---------------------------------------------------------------- such a run

  const OLD := Some(Config(0, false, -100, 1, 0))

  function Checking(config: Option<Config>, stage: Stage): Sys {
    Sys([None], [config], map[0 := 5], 0, if stage == Begun then map[] else map[0 := 0],
        map[0 := Tx(0, None, 1, stage, map[])], map[])
  }

  const ONE_ORPHAN := Start([None], [OLD], map[0 := 5], 0)

  const VANISHES := [
    Begin(0, 0, None, 1, 0), TakeLock(0), SelectOrphans(0), SetConfig(0, None), InsertOrphan(0), CheckQuota(0),
    Commit(0), Fail(0)]

  lemma CheckBegins()
    ensures Run(ONE_ORPHAN, VANISHES[..2]) == Checking(OLD, Locked)
  {
    RunNext(ONE_ORPHAN, VANISHES, 0);
    assert Run(ONE_ORPHAN, VANISHES[..1]) == Checking(OLD, Begun);
    RunNext(ONE_ORPHAN, VANISHES, 1);
  }

  lemma OrphanFound()
    ensures DoSelect(Checking(OLD, Locked), 0) == Checking(OLD, Reconciling([Found(0, 1)]))
  {
    assert Overlay([None], map[]) == [None];
    assert Orphans([OLD], [None], 0, 0, 0) == [];
    assert Orphans([OLD], [None], 0, 0, 1) == [Found(0, 1)];
  }

  lemma CheckSelects()
    ensures Run(ONE_ORPHAN, VANISHES[..3]) == Checking(OLD, Reconciling([Found(0, 1)]))
  {
    CheckBegins();
    RunNext(ONE_ORPHAN, VANISHES, 2);
    hide DoSelect;
    OrphanFound();
  }

  lemma Deleted(stage: Stage)
    ensures DoSetConfig(Checking(OLD, stage), 0, None) == Checking(None, stage)
  {
  }

  lemma ConfigGoes()
    ensures Run(ONE_ORPHAN, VANISHES[..4]) == Checking(None, Reconciling([Found(0, 1)]))
  {
    CheckSelects();
    RunNext(ONE_ORPHAN, VANISHES, 3);
    hide DoSetConfig;
    Deleted(Reconciling([Found(0, 1)]));
  }

  lemma InsertAborts()
    ensures Run(ONE_ORPHAN, VANISHES[..5]) == Checking(None, Aborted)
  {
    ConfigGoes();
    RunNext(ONE_ORPHAN, VANISHES, 4);
  }

  lemma QuotaLost()
    ensures Run(ONE_ORPHAN, VANISHES[..6]) == Checking(None, Aborted)
  {
    InsertAborts();
    RunNext(ONE_ORPHAN, VANISHES, 5);
  }

  lemma CommitLost()
    ensures Run(ONE_ORPHAN, VANISHES[..7]) == Checking(None, Aborted)
  {
    QuotaLost();
    RunNext(ONE_ORPHAN, VANISHES, 6);
  }

  /** A check that would fit, on an account that uses nothing, and one old config deleted between the
      SELECT and its INSERT: the check throws. */
  lemma OneBadRowBlocks()
    ensures
      var s := Run(ONE_ORPHAN, VANISHES);
      && 0 in s.replies && s.replies[0] == Threw && s.rows == [None] && s.quotas == map[0 := 5]
  {
    CommitLost();
    RunNext(ONE_ORPHAN, VANISHES, 7);
    assert VANISHES[..8] == VANISHES;
  }
}
