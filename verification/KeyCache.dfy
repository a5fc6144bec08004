// The API key cache: Validate reads through a Redis cache with positive and negative entries
// that expire, while Update and Revoke change the row first and delete the entry afterwards.
// Calls of all three are interleaved step by step under one clock.
module KeyCache {
  import opened Wrappers

  type Hash = nat
  type Pid = nat
  type Account = nat

  /** A row of api_keys: what it yields, when it expires, and whether it is revoked. */
  datatype Row = Row(data: Account, expires: Option<int>, revoked: bool)

  /** What a lookup makes of a row: the account, or None when there is nothing to accept. */
  function Verdict(row: Option<Row>, now: int): Option<Account> {
    if row.None? || row.value.revoked then None
    else if row.value.expires.Some? && now > row.value.expires.value then None
    else Some(row.value.data)
  }

  /** How a verdict came about: the call that looked it up started, read the row at moment number
      `read`, judged it at `checked` and stored it at `stored`; `failed` when the database did. */
  datatype Fill = Fill(started: int, read: nat, checked: int, stored: int, failed: bool)

  /** A cache entry; without `expires` it stays until it is deleted. */
  datatype Entry = Entry(verdict: Option<Account>, fill: Fill, expires: Option<int>)

  datatype Stage =
    | Begun
    | Missed
    | Read(read: nat, row: Option<Row>, failed: bool)
    | Judged(verdict: Option<Account>, read: nat, checked: int, failed: bool)

  datatype Call = Call(hash: Hash, started: int, stage: Stage)

  datatype Reply = Reply(hash: Hash, at: int, verdict: Option<Account>, fill: Fill)

  datatype Moment = Moment(time: int, rows: map<Hash, Row>)

  /** `past` holds the clock and the table after every step so far. */
  datatype Sys = Sys(
    keyTtl: nat,
    negativeTtl: nat,
    now: int,
    rows: map<Hash, Row>,
    cache: map<Hash, Entry>,
    calls: map<Pid, Call>,
    deletions: map<Pid, Hash>,
    replies: map<Pid, Reply>,
    past: seq<Moment>)

  datatype Action =
    | Begin(p: Pid, hash: Hash)
    | GetEntry(p: Pid, reachable: bool)
    | ReadRow(p: Pid, reachable: bool)
    | Judge(p: Pid)
    | SetEntry(p: Pid, reachable: bool)
    | Create(hash: Hash, row: Row)
    | Update(p: Pid, hash: Hash, data: Account)
    | Revoke(p: Pid, hash: Hash)
    | DeleteEntry(p: Pid, reachable: bool)
    | Tick(now: int)

  // ---------------------------------------------------------------- steps

  function RowOf(rows: map<Hash, Row>, h: Hash): Option<Row> {
    if h in rows then Some(rows[h]) else None
  }

  predicate Live(e: Entry, now: int) {
    e.expires.None? || now < e.expires.value
  }

  predicate Cached(s: Sys, h: Hash) {
    h in s.cache && Live(s.cache[h], s.now)
  }

  predicate At(s: Sys, p: Pid, stage: Stage) {
    p in s.calls && s.calls[p].stage == stage
  }

  function Move(s: Sys, p: Pid, stage: Stage): Sys
    requires p in s.calls
  {
    s.(calls := s.calls[p := s.calls[p].(stage := stage)])
  }

  function End(s: Sys, p: Pid, reply: Reply): Sys {
    s.(calls := s.calls - {p}, replies := s.replies[p := reply])
  }

  predicate Fresh(s: Sys, p: Pid) {
    p !in s.calls && p !in s.replies && p !in s.deletions
  }

  function DoGet(s: Sys, p: Pid, reachable: bool): Sys
    requires p in s.calls
  {
    var h := s.calls[p].hash;
    if reachable && Cached(s, h)
    then End(s, p, Reply(h, s.now, s.cache[h].verdict, s.cache[h].fill))
    else Move(s, p, Missed)
  }

  function DoRead(s: Sys, p: Pid, reachable: bool): Sys
    requires p in s.calls && |s.past| > 0
  {
    Move(s, p, Read(|s.past| - 1, RowOf(s.rows, s.calls[p].hash), !reachable))
  }

  function DoJudge(s: Sys, p: Pid): Sys
    requires p in s.calls && s.calls[p].stage.Read?
  {
    var st := s.calls[p].stage;
    Move(s, p, Judged(if st.failed then None else Verdict(st.row, s.now), st.read, s.now, st.failed))
  }

  /** Redis keeps an entry set with expiration 0 forever. */
  function Expiry(s: Sys, verdict: Option<Account>): Option<int> {
    var ttl := if verdict.Some? then s.keyTtl else s.negativeTtl;
    if ttl == 0 then None else Some(s.now + ttl)
  }

  function DoSet(s: Sys, p: Pid, reachable: bool): Sys
    requires p in s.calls && s.calls[p].stage.Judged?
  {
    var h, st := s.calls[p].hash, s.calls[p].stage;
    var fill := Fill(s.calls[p].started, st.read, st.checked, s.now, st.failed);
    var stored := if reachable then s.cache[h := Entry(st.verdict, fill, Expiry(s, st.verdict))] else s.cache;
    End(s, p, Reply(h, s.now, st.verdict, fill)).(cache := stored)
  }

  /** UPDATE ... WHERE revoked_at IS NULL, to be followed by the deletion of the entry. */
  function DoWrite(s: Sys, p: Pid, h: Hash, row: Row): Sys {
    s.(rows := s.rows[h := row], deletions := s.deletions[p := h])
  }

  function Do(s: Sys, act: Action): Sys
    requires |s.past| > 0
  {
    match act
    case Begin(p, h) => if Fresh(s, p) then s.(calls := s.calls[p := Call(h, s.now, Begun)]) else s
    case GetEntry(p, reachable) => if At(s, p, Begun) then DoGet(s, p, reachable) else s
    case ReadRow(p, reachable) => if At(s, p, Missed) then DoRead(s, p, reachable) else s
    case Judge(p) => if p in s.calls && s.calls[p].stage.Read? then DoJudge(s, p) else s
    case SetEntry(p, reachable) =>
      if p in s.calls && s.calls[p].stage.Judged? then DoSet(s, p, reachable) else s
    case Create(h, row) => if h in s.rows || row.revoked then s else s.(rows := s.rows[h := row])
    case Update(p, h, data) =>
      if Fresh(s, p) && h in s.rows && !s.rows[h].revoked
      then DoWrite(s, p, h, s.rows[h].(data := data))
      else s
    case Revoke(p, h) =>
      if Fresh(s, p) && h in s.rows && !s.rows[h].revoked
      then DoWrite(s, p, h, s.rows[h].(revoked := true))
      else s
    case DeleteEntry(p, reachable) =>
      if p in s.deletions
      then s.(deletions := s.deletions - {p}, cache := if reachable then s.cache - {s.deletions[p]} else s.cache)
      else s
    case Tick(now) => if now >= s.now then s.(now := now) else s
  }

  function Step(s: Sys, act: Action): (s': Sys)
    requires |s.past| > 0
    ensures |s'.past| > 0
  {
    var t := Do(s, act);
    t.(past := s.past + [Moment(t.now, t.rows)])
  }

  function Start(keyTtl: nat, negativeTtl: nat, now: int, rows: map<Hash, Row>): Sys {
    Sys(keyTtl, negativeTtl, now, rows, map[], map[], map[], map[], [Moment(now, rows)])
  }

  function Run(s: Sys, acts: seq<Action>): (r: Sys)
    requires |s.past| > 0
    ensures |r.past| > 0
  {
    if acts == [] then s else Step(Run(s, acts[..|acts| - 1]), acts[|acts| - 1])
  }

  // ---------------------------------------------------------------- where verdicts come from

  /** The lookup described by `fill` did happen and gave this verdict. */
  predicate Sound(past: seq<Moment>, h: Hash, verdict: Option<Account>, fill: Fill) {
    && fill.read < |past|
    && fill.started <= past[fill.read].time <= fill.checked <= fill.stored
    && verdict == if fill.failed then None else Verdict(RowOf(past[fill.read].rows, h), fill.checked)
  }

  predicate CallOk(s: Sys, c: Call) {
    && c.started <= s.now
    && match c.stage
       case Begun => true
       case Missed => true
       case Read(read, row, _) =>
         read < |s.past| && c.started <= s.past[read].time <= s.now && row == RowOf(s.past[read].rows, c.hash)
       case Judged(verdict, read, checked, failed) =>
         checked <= s.now && Sound(s.past, c.hash, verdict, Fill(c.started, read, checked, s.now, failed))
  }

  predicate EntryOk(s: Sys, h: Hash, e: Entry) {
    var ttl := if e.verdict.Some? then s.keyTtl else s.negativeTtl;
    && Sound(s.past, h, e.verdict, e.fill)
    && e.fill.stored <= s.now
    && e.expires == if ttl == 0 then None else Some(e.fill.stored + ttl)
  }

  /** A reply rests on a lookup that is recent enough. */
  predicate ReplyOk(s: Sys, r: Reply) {
    var ttl := if r.verdict.Some? then s.keyTtl else s.negativeTtl;
    && Sound(s.past, r.hash, r.verdict, r.fill)
    && (ttl > 0 ==> r.at < r.fill.stored + ttl)
  }

  predicate PastOk(s: Sys) {
    |s.past| > 0 && s.past[|s.past| - 1] == Moment(s.now, s.rows)
  }

  predicate CallsOk(s: Sys) { forall p :: p in s.calls ==> p !in s.replies && CallOk(s, s.calls[p]) }
  predicate EntriesOk(s: Sys) { forall h :: h in s.cache ==> EntryOk(s, h, s.cache[h]) }
  predicate RepliesOk(s: Sys) { forall p :: p in s.replies ==> ReplyOk(s, s.replies[p]) }

  predicate Inv(s: Sys) {
    PastOk(s) && CallsOk(s) && EntriesOk(s) && RepliesOk(s)
  }

  // ---------------------------------------------------------------- every step keeps the invariant

  /** The clock does not run back, and the past only grows. */
  predicate Follows(s: Sys, t: Sys) {
    && t.now >= s.now && t.keyTtl == s.keyTtl && t.negativeTtl == s.negativeTtl
    && t.past == s.past + [Moment(t.now, t.rows)]
  }

  lemma StepFollows(s: Sys, act: Action)
    requires |s.past| > 0
    ensures Follows(s, Step(s, act))
  {
  }

  lemma SoundStays(s: Sys, t: Sys, h: Hash, verdict: Option<Account>, fill: Fill)
    requires Follows(s, t) && Sound(s.past, h, verdict, fill)
    ensures Sound(t.past, h, verdict, fill)
  {
  }

  lemma CallStays(s: Sys, t: Sys, c: Call)
    requires Follows(s, t) && CallOk(s, c)
    ensures CallOk(t, c)
  {
  }

  lemma EntryStays(s: Sys, t: Sys, h: Hash, e: Entry)
    requires Follows(s, t) && EntryOk(s, h, e)
    ensures EntryOk(t, h, e)
  {
    SoundStays(s, t, h, e.verdict, e.fill);
  }

  lemma ReplyStays(s: Sys, t: Sys, r: Reply)
    requires Follows(s, t) && ReplyOk(s, r)
    ensures ReplyOk(t, r)
  {
    SoundStays(s, t, r.hash, r.verdict, r.fill);
  }

  lemma OpenOrAnswered(s: Sys, act: Action, p: Pid)
    requires |s.past| > 0 && (p in s.calls ==> p !in s.replies)
    requires p in Do(s, act).calls
    ensures p !in Do(s, act).replies
  {
  }

  /** What each step does to the call it moves. */
  lemma CallMoves(s: Sys, act: Action, p: Pid)
    requires PastOk(s) && CallsOk(s) && p in Do(s, act).calls
    ensures CallOk(s, Do(s, act).calls[p])
  {
    match act
    case Begin(_, _) =>
    case GetEntry(q, reachable) =>
    case ReadRow(q, reachable) =>
    case Judge(q) =>
    case SetEntry(q, reachable) =>
    case _ =>
  }

  lemma CallsKept(s: Sys, act: Action)
    requires PastOk(s) && CallsOk(s)
    ensures CallsOk(Step(s, act))
  {
    var t := Step(s, act);
    StepFollows(s, act);
    forall p | p in t.calls ensures p !in t.replies && CallOk(t, t.calls[p]) {
      OpenOrAnswered(s, act, p);
      CallMoves(s, act, p);
      CallStays(s, t, t.calls[p]);
    }
  }

  lemma NewEntry(s: Sys, p: Pid, reachable: bool, h: Hash)
    requires CallsOk(s) && EntriesOk(s) && p in s.calls && s.calls[p].stage.Judged?
    requires h in DoSet(s, p, reachable).cache
    ensures EntryOk(s, h, DoSet(s, p, reachable).cache[h])
  {
    assert CallOk(s, s.calls[p]);
  }

  lemma EntriesKept(s: Sys, act: Action)
    requires PastOk(s) && CallsOk(s) && EntriesOk(s)
    ensures EntriesOk(Step(s, act))
  {
    var t := Step(s, act);
    StepFollows(s, act);
    forall h | h in t.cache ensures EntryOk(t, h, t.cache[h]) {
      if act.SetEntry? && act.p in s.calls && s.calls[act.p].stage.Judged? {
        NewEntry(s, act.p, act.reachable, h);
      }
      EntryStays(s, t, h, t.cache[h]);
    }
  }

  lemma CachedReply(s: Sys, p: Pid, reachable: bool, q: Pid)
    requires EntriesOk(s) && RepliesOk(s) && p in s.calls && q in DoGet(s, p, reachable).replies
    ensures ReplyOk(s, DoGet(s, p, reachable).replies[q])
  {
  }

  lemma LookedUpReply(s: Sys, p: Pid, reachable: bool, q: Pid)
    requires CallsOk(s) && RepliesOk(s) && p in s.calls && s.calls[p].stage.Judged?
    requires q in DoSet(s, p, reachable).replies
    ensures ReplyOk(s, DoSet(s, p, reachable).replies[q])
  {
    assert CallOk(s, s.calls[p]);
  }

  lemma RepliesKept(s: Sys, act: Action)
    requires Inv(s)
    ensures RepliesOk(Step(s, act))
  {
    var t := Step(s, act);
    StepFollows(s, act);
    forall q | q in t.replies ensures ReplyOk(t, t.replies[q]) {
      if act.GetEntry? && At(s, act.p, Begun) {
        CachedReply(s, act.p, act.reachable, q);
      } else if act.SetEntry? && act.p in s.calls && s.calls[act.p].stage.Judged? {
        LookedUpReply(s, act.p, act.reachable, q);
      }
      ReplyStays(s, t, t.replies[q]);
    }
  }

  lemma {:induction false} RunKeeps(s: Sys, acts: seq<Action>)
    requires Inv(s)
    ensures Inv(Run(s, acts))
    ensures Run(s, acts).keyTtl == s.keyTtl && Run(s, acts).negativeTtl == s.negativeTtl
  {
    if acts != [] {
      var t, act := Run(s, acts[..|acts| - 1]), acts[|acts| - 1];
      RunKeeps(s, acts[..|acts| - 1]);
      StepFollows(t, act);
      CallsKept(t, act);
      EntriesKept(t, act);
      RepliesKept(t, act);
    }
  }

  // ---------------------------------------------------------------- bounded staleness

  /** An accepted key's data is what its row yielded, unrevoked and unexpired, at a moment
      younger than the cache lifetime plus the call that filled the cache. */
  predicate FromRecentRow(s: Sys, r: Reply) {
    && r.fill.read < |s.past|
    && var moment := s.past[r.fill.read];
    && r.hash in moment.rows
    && var row := moment.rows[r.hash];
    && r.verdict == Some(row.data) && !row.revoked
    && (row.expires.Some? ==> moment.time <= r.fill.checked <= row.expires.value)
    && r.at - moment.time < s.keyTtl + (r.fill.stored - r.fill.started)
  }

  /** A refusal rests on a lookup, as recent by the lifetime of negative entries, that could not reach
      the database or found no row, a revoked one, or one that had expired when it was judged. */
  predicate FromRecentFailure(s: Sys, r: Reply) {
    && r.fill.read < |s.past|
    && var rows := s.past[r.fill.read].rows;
    && (|| r.fill.failed || r.hash !in rows || rows[r.hash].revoked
        || (rows[r.hash].expires.Some? && rows[r.hash].expires.value < r.fill.checked))
    && r.at - s.past[r.fill.read].time < s.negativeTtl + (r.fill.stored - r.fill.started)
  }

  lemma ReplyRests(s: Sys, r: Reply)
    requires ReplyOk(s, r)
    ensures r.verdict.Some? && s.keyTtl > 0 ==> FromRecentRow(s, r)
    ensures r.verdict.None? && s.negativeTtl > 0 ==> FromRecentFailure(s, r)
  {
  }

  /** Bounded staleness in every interleaving, for acceptances and refusals. */
  lemma BoundedStaleness(keyTtl: nat, negativeTtl: nat, now: int, rows: map<Hash, Row>, acts: seq<Action>)
    ensures
      var s := Run(Start(keyTtl, negativeTtl, now, rows), acts);
      && s.keyTtl == keyTtl && s.negativeTtl == negativeTtl
      && forall p :: p in s.replies ==>
           && (s.replies[p].verdict.Some? && keyTtl > 0 ==> FromRecentRow(s, s.replies[p]))
           && (s.replies[p].verdict.None? && negativeTtl > 0 ==> FromRecentFailure(s, s.replies[p]))
  {
    RunKeeps(Start(keyTtl, negativeTtl, now, rows), acts);
    var s := Run(Start(keyTtl, negativeTtl, now, rows), acts);
    forall p | p in s.replies
      ensures s.replies[p].verdict.Some? && keyTtl > 0 ==> FromRecentRow(s, s.replies[p])
      ensures s.replies[p].verdict.None? && negativeTtl > 0 ==> FromRecentFailure(s, s.replies[p])
    {
      ReplyRests(s, s.replies[p]);
    }
  }

  // ---------------------------------------------------------------- a call nobody disturbs

  /** The steps of a call that finds nothing in the cache. */
  function Asked(s: Sys, p: Pid, h: Hash, cache: bool, database: bool, stored: bool): Sys
    requires |s.past| > 0
  {
    Step(Step(Step(Step(Step(s, Begin(p, h)), GetEntry(p, cache)), ReadRow(p, database)), Judge(p)), SetEntry(p, stored))
  }

  predicate Usable(rows: map<Hash, Row>, h: Hash, now: int) {
    h in rows && !rows[h].revoked && (rows[h].expires.Some? ==> now <= rows[h].expires.value)
  }

  /** Its call is at `stage` and nothing else has changed since `s`. */
  predicate Since(s: Sys, t: Sys, p: Pid, h: Hash, stage: Stage) {
    && |t.past| > |s.past| > 0 && t.now == s.now && t.rows == s.rows && t.cache == s.cache && t.replies == s.replies
    && t.keyTtl == s.keyTtl && t.negativeTtl == s.negativeTtl && t.deletions == s.deletions
    && t.calls == s.calls[p := Call(h, s.now, stage)]
  }

  lemma AskedMisses(s: Sys, p: Pid, h: Hash, cache: bool)
    requires |s.past| > 0 && Fresh(s, p) && (cache ==> !Cached(s, h))
    ensures Since(s, Step(Step(s, Begin(p, h)), GetEntry(p, cache)), p, h, Missed)
  {
    assert Since(s, Step(s, Begin(p, h)), p, h, Begun);
  }

  lemma AskedJudges(s: Sys, t: Sys, p: Pid, h: Hash, database: bool)
    requires Since(s, t, p, h, Missed)
    ensures
      var verdict := if database && Usable(s.rows, h, s.now) then Some(s.rows[h].data) else None;
      Since(s, Step(Step(t, ReadRow(p, database)), Judge(p)), p, h, Judged(verdict, |t.past| - 1, s.now, !database))
  {
    var u := Step(t, ReadRow(p, database));
    assert Since(s, u, p, h, Read(|t.past| - 1, RowOf(s.rows, h), !database));
  }

  /** A call that finds nothing in the cache accepts the key exactly if the database answers and has a
      row for it, not revoked and not expired, and then yields that row's data. */
  lemma AcceptedIff(s: Sys, p: Pid, h: Hash, cache: bool, database: bool, stored: bool)
    requires |s.past| > 0 && Fresh(s, p) && (cache ==> !Cached(s, h))
    ensures
      var t := Asked(s, p, h, cache, database, stored);
      && p in t.replies && t.rows == s.rows && t.now == s.now
      && t.replies[p].verdict == if database && Usable(s.rows, h, s.now) then Some(s.rows[h].data) else None
  {
    hide Step, Cached;
    AskedMisses(s, p, h, cache);
    var t := Step(Step(s, Begin(p, h)), GetEntry(p, cache));
    AskedJudges(s, t, p, h, database);
    var verdict := if database && Usable(s.rows, h, s.now) then Some(s.rows[h].data) else None;
    AskedSets(s, Step(Step(t, ReadRow(p, database)), Judge(p)), p, h, verdict, |t.past| - 1, !database, stored);
  }

  lemma AskedSets(s: Sys, t: Sys, p: Pid, h: Hash, verdict: Option<Account>, read: nat, failed: bool, stored: bool)
    requires Since(s, t, p, h, Judged(verdict, read, s.now, failed))
    ensures
      var u := Step(t, SetEntry(p, stored));
      var ttl := if verdict.Some? then s.keyTtl else s.negativeTtl;
      && p in u.replies && u.replies[p].verdict == verdict && u.rows == s.rows && u.now == s.now
      && (stored ==> h in u.cache && u.cache[h].verdict == verdict
                     && u.cache[h].expires == (if ttl == 0 then None else Some(s.now + ttl)))
      && u.deletions == s.deletions && (forall q :: q != p && Fresh(s, q) ==> Fresh(u, q))
  {
  }

  /** For as long as its verdict lives, and no longer, later calls are answered the same without a
      look at the table: the lifetime of keys for an accepted one, that of refusals for a refused one,
      0 being forever. */
  lemma ServedIff(s: Sys, p: Pid, h: Hash, cache: bool, database: bool, later: int, q: Pid)
    requires |s.past| > 0 && Fresh(s, p) && (cache ==> !Cached(s, h)) && Fresh(s, q) && p != q && later >= s.now
    ensures
      var t := Asked(s, p, h, cache, database, true);
      var u := Step(Step(Step(t, Tick(later)), Begin(q, h)), GetEntry(q, true));
      var ttl := if database && Usable(s.rows, h, s.now) then s.keyTtl else s.negativeTtl;
      && (q in u.replies <==> ttl == 0 || later < s.now + ttl)
      && (q in u.replies ==> p in u.replies && u.replies[q].verdict == u.replies[p].verdict)
      && (q !in u.replies ==> At(u, q, Missed))
  {
    hide Cached, Step;
    AskedMisses(s, p, h, cache);
    var t := Step(Step(s, Begin(p, h)), GetEntry(p, cache));
    AskedJudges(s, t, p, h, database);
    var verdict := if database && Usable(s.rows, h, s.now) then Some(s.rows[h].data) else None;
    var judged := Step(Step(t, ReadRow(p, database)), Judge(p));
    AskedSets(s, judged, p, h, verdict, |t.past| - 1, !database, true);
    AskedAgain(Step(judged, SetEntry(p, true)), h, later, q);
  }

  lemma AskedAgain(t: Sys, h: Hash, later: int, q: Pid)
    requires |t.past| > 0 && Fresh(t, q) && later >= t.now && h in t.cache
    ensures
      var u := Step(Step(Step(t, Tick(later)), Begin(q, h)), GetEntry(q, true));
      var e := t.cache[h];
      && (q in u.replies <==> e.expires.None? || later < e.expires.value)
      && (q in u.replies ==> u.replies[q].verdict == e.verdict)
      && (q !in u.replies ==> At(u, q, Missed))
      && (forall p :: p != q ==> (p in t.replies <==> p in u.replies) && (p in t.replies ==> u.replies[p] == t.replies[p]))
  {
    var t1 := Step(t, Tick(later));
    assert t1.cache == t.cache && t1.now == later && Fresh(t1, q) && t1.replies == t.replies;
    var t2 := Step(t1, Begin(q, h));
    assert At(t2, q, Begun) && t2.cache == t.cache && t2.now == later && t2.replies == t.replies;
  }

  lemma WriteThenDelete(s: Sys, p: Pid, h: Hash, write: Action, row: Row)
    requires |s.past| > 0 && Fresh(s, p) && h in s.rows && !s.rows[h].revoked
    requires
      || (write.Update? && write.p == p && write.hash == h && row == Row(write.data, s.rows[h].expires, false))
      || (write.Revoke? && write.p == p && write.hash == h && row == Row(s.rows[h].data, s.rows[h].expires, true))
    ensures
      var t := Step(Step(s, write), DeleteEntry(p, true));
      && t.rows == s.rows[h := row] && !Cached(t, h) && t.now == s.now
      && t.calls == s.calls && t.replies == s.replies && forall q :: Fresh(s, q) ==> Fresh(t, q)
  {
    var u := Step(s, write);
    assert u.rows == s.rows[h := row] && u.deletions == s.deletions[p := h] && u.cache == s.cache && u.now == s.now;
    assert u.calls == s.calls && u.replies == s.replies;
  }

  /** Once Update or Revoke has deleted the entry, a call that nobody disturbs gets the new data, or is
      refused. */
  lemma WriteSeen(s: Sys, p: Pid, h: Hash, data: Account, q: Pid, stored: bool)
    requires |s.past| > 0 && Fresh(s, p) && Fresh(s, q) && Usable(s.rows, h, s.now)
    ensures
      var updated := Step(Step(s, Update(p, h, data)), DeleteEntry(p, true));
      var revoked := Step(Step(s, Revoke(p, h)), DeleteEntry(p, true));
      && q in Asked(updated, q, h, true, true, stored).replies
      && Asked(updated, q, h, true, true, stored).replies[q].verdict == Some(data)
      && q in Asked(revoked, q, h, true, true, stored).replies
      && Asked(revoked, q, h, true, true, stored).replies[q].verdict == None
  {
    hide Step, Cached;
    var row := s.rows[h];
    WriteThenDelete(s, p, h, Update(p, h, data), Row(data, row.expires, false));
    WriteThenDelete(s, p, h, Revoke(p, h), Row(row.data, row.expires, true));
    AcceptedIff(Step(Step(s, Update(p, h, data)), DeleteEntry(p, true)), q, h, true, true, stored);
    AcceptedIff(Step(Step(s, Revoke(p, h)), DeleteEntry(p, true)), q, h, true, true, stored);
  }

  /** A call answered from the cache. */
  lemma AnsweredFromCache(s: Sys, h: Hash, p: Pid)
    requires |s.past| > 0 && Cached(s, h) && Fresh(s, p)
    ensures
      var t := Step(Step(s, Begin(p, h)), GetEntry(p, true));
      t.rows == s.rows && p in t.replies && t.replies[p] == Reply(h, s.now, s.cache[h].verdict, s.cache[h].fill)
  {
  }

  // ---------------------------------------------------------------- revoked for good

  predicate Revoked(s: Sys, h: Hash) {
    h in s.rows && s.rows[h].revoked
  }

  /** A call that has seen the row while it was good, and will accept. */
  predicate WillAccept(s: Sys, c: Call) {
    match c.stage
    case Read(_, row, failed) => !failed && Verdict(row, s.now).Some?
    case Judged(verdict, _, _, _) => verdict.Some?
    case _ => false
  }

  predicate EntryAccepts(s: Sys, h: Hash) {
    Cached(s, h) && s.cache[h].verdict.Some?
  }

  predicate CallAccepts(s: Sys, h: Hash, p: Pid) {
    p in s.calls && s.calls[p].hash == h && WillAccept(s, s.calls[p])
  }

  /** The cache holds the key as good, or some call is about to accept it. */
  ghost predicate CanStillAccept(s: Sys, h: Hash) {
    EntryAccepts(s, h) || exists p :: CallAccepts(s, h, p)
  }

  predicate Accepted(s: Sys, p: Pid, h: Hash) {
    p in s.replies && s.replies[p].hash == h && s.replies[p].verdict.Some?
  }

  /** No call on `h` is accepted in `t` that was not already in `s`. */
  ghost predicate NoNewAccept(s: Sys, t: Sys, h: Hash) {
    forall p :: Accepted(t, p, h) ==> p in s.replies && s.replies[p] == t.replies[p]
  }

  lemma RevokedStays(s: Sys, act: Action, h: Hash)
    requires |s.past| > 0 && Revoked(s, h)
    ensures Revoked(Step(s, act), h)
  {
  }

  lemma NoEntryAppears(s: Sys, act: Action, h: Hash)
    requires |s.past| > 0 && !CanStillAccept(s, h)
    ensures !EntryAccepts(Step(s, act), h)
  {
    if act.SetEntry? && act.p in s.calls && s.calls[act.p].stage.Judged? {
      assert !CallAccepts(s, h, act.p);
    }
  }

  /** A row read after the revocation is not accepted. */
  lemma ReadRevoked(s: Sys, q: Pid, reachable: bool, h: Hash, p: Pid)
    requires |s.past| > 0 && Revoked(s, h) && !CallAccepts(s, h, p)
    ensures !CallAccepts(Step(s, ReadRow(q, reachable)), h, p)
  {
  }

  lemma NoCallTurns(s: Sys, act: Action, h: Hash, p: Pid)
    requires |s.past| > 0 && Revoked(s, h) && !CallAccepts(s, h, p)
    ensures !CallAccepts(Step(s, act), h, p)
  {
    if act.ReadRow? {
      ReadRevoked(s, act.p, act.reachable, h, p);
    } else if act.Tick? {
      LaterTurns(s, act.now, h, p);
    } else {
      hide Verdict, Revoked;
    }
  }

  /** What is not accepted now is not later either. */
  lemma LaterTurns(s: Sys, now: int, h: Hash, p: Pid)
    requires |s.past| > 0 && !CallAccepts(s, h, p)
    ensures !CallAccepts(Step(s, Tick(now)), h, p)
  {
  }

  lemma NoReplyAccepts(s: Sys, act: Action, h: Hash, p: Pid)
    requires |s.past| > 0 && !EntryAccepts(s, h) && !CallAccepts(s, h, p) && Accepted(Step(s, act), p, h)
    ensures p in s.replies && s.replies[p] == Step(s, act).replies[p]
  {
  }

  lemma StaysDead(s: Sys, act: Action, h: Hash)
    requires |s.past| > 0 && Revoked(s, h) && !CanStillAccept(s, h)
    ensures Revoked(Step(s, act), h) && !CanStillAccept(Step(s, act), h) && NoNewAccept(s, Step(s, act), h)
  {
    var t := Step(s, act);
    RevokedStays(s, act, h);
    NoEntryAppears(s, act, h);
    forall p ensures !CallAccepts(t, h, p) {
      NoCallTurns(s, act, h, p);
    }
    forall p | Accepted(t, p, h) ensures p in s.replies && s.replies[p] == t.replies[p] {
      NoReplyAccepts(s, act, h, p);
    }
  }

  lemma {:induction false} DeadForGood(s: Sys, h: Hash, acts: seq<Action>)
    requires |s.past| > 0 && Revoked(s, h) && !CanStillAccept(s, h)
    ensures
      var t := Run(s, acts);
      Revoked(t, h) && !CanStillAccept(t, h) && NoNewAccept(s, t, h)
  {
    if acts != [] {
      DeadForGood(s, h, acts[..|acts| - 1]);
      StaysDead(Run(s, acts[..|acts| - 1]), acts[|acts| - 1], h);
    }
  }

  lemma RunMore(s: Sys, acts: seq<Action>, act: Action)
    requires |s.past| > 0
    ensures Run(s, acts + [act]) == Step(Run(s, acts), act)
  {
    var all := acts + [act];
    assert all[..|all| - 1] == acts && all[|all| - 1] == act;
  }

  lemma RunOne(s: Sys, act: Action)
    requires |s.past| > 0
    ensures Run(s, [act]) == Step(s, act)
  {
    RunMore(s, [], act);
    assert [] + [act] == [act];
  }

  lemma RunTwo(s: Sys, first: Action, second: Action)
    requires |s.past| > 0
    ensures Run(s, [first, second]) == Step(Step(s, first), second)
  {
    RunOne(s, first);
    RunMore(s, [first], second);
    assert [first] + [second] == [first, second];
  }

  /** The key is accepted by a new reply of `p` in the run `acts`. */
  predicate NewAccept(s: Sys, h: Hash, acts: seq<Action>, p: Pid)
    requires |s.past| > 0
  {
    Accepted(Run(s, acts), p, h) && p !in s.replies
  }

  lemma JudgedGoesThrough(s: Sys, h: Hash, p: Pid)
    requires Inv(s) && CallAccepts(s, h, p) && s.calls[p].stage.Judged?
    ensures NewAccept(s, h, [SetEntry(p, true)], p)
  {
    RunOne(s, SetEntry(p, true));
  }

  lemma ReadGoesThrough(s: Sys, h: Hash, p: Pid)
    requires Inv(s) && CallAccepts(s, h, p) && s.calls[p].stage.Read?
    ensures NewAccept(s, h, [Judge(p), SetEntry(p, true)], p)
  {
    var c := s.calls[p];
    RunTwo(s, Judge(p), SetEntry(p, true));
    var t := Step(s, Judge(p));
    assert t.calls[p] == c.(stage := Judged(Verdict(c.stage.row, s.now), c.stage.read, s.now, false));
  }

  lemma CallGoesThrough(s: Sys, h: Hash, p: Pid)
    requires Inv(s) && CallAccepts(s, h, p)
    ensures exists acts :: NewAccept(s, h, acts, p)
  {
    if s.calls[p].stage.Judged? {
      JudgedGoesThrough(s, h, p);
    } else {
      ReadGoesThrough(s, h, p);
    }
  }

  /** Once revoked, a key can be accepted again exactly when the cache still holds it as good or
      some call saw it good and has not answered yet. */
  lemma AcceptedAgainIff(s: Sys, h: Hash, unused: Pid)
    requires Inv(s) && Revoked(s, h) && Fresh(s, unused)
    ensures (exists acts, p :: NewAccept(s, h, acts, p)) <==> CanStillAccept(s, h)
  {
    if CanStillAccept(s, h) {
      if EntryAccepts(s, h) {
        AnsweredFromCache(s, h, unused);
        RunTwo(s, Begin(unused, h), GetEntry(unused, true));
        assert NewAccept(s, h, [Begin(unused, h), GetEntry(unused, true)], unused);
      } else {
        var p :| CallAccepts(s, h, p);
        CallGoesThrough(s, h, p);
      }
    } else {
      forall acts, p ensures !NewAccept(s, h, acts, p) {
        DeadForGood(s, h, acts);
      }
    }
  }

  /** If no call on the key is in flight when the deletion after Revoke happens, no call is ever
      accepted from then on. */
  lemma RevokedForGood(s: Sys, p: Pid, h: Hash, acts: seq<Action>)
    requires Inv(s) && p in s.deletions && s.deletions[p] == h && Revoked(s, h)
    requires forall q :: q in s.calls ==> s.calls[q].hash != h
    ensures NoNewAccept(s, Run(Step(s, DeleteEntry(p, true)), acts), h)
  {
    var t := Step(s, DeleteEntry(p, true));
    assert t.calls == s.calls && t.replies == s.replies && h !in t.cache;
    DeadForGood(t, h, acts);
  }

  /** A call in flight that saw the key good before Revoke makes calls that begin later accepted. */
  lemma InFlightRevives(s: Sys, h: Hash, p: Pid, later: Pid)
    requires Inv(s) && CallAccepts(s, h, p) && s.calls[p].stage.Judged? && Fresh(s, later)
    ensures
      var t := Step(Step(Step(s, SetEntry(p, true)), Begin(later, h)), GetEntry(later, true));
      Accepted(t, later, h) && later !in s.replies
  {
    var t := Step(s, SetEntry(p, true));
    assert Cached(t, h) && t.cache[h].verdict == s.calls[p].stage.verdict && Fresh(t, later);
    AnsweredFromCache(t, h, later);
  }

  // ---------------------------------------------------------------- fresh after Update

  /** What calls on `h` have read, and what is cached for it, was read at moment `k` or later. */
  predicate ReadSince(s: Sys, h: Hash, k: nat) {
    && (h in s.cache ==> s.cache[h].fill.read >= k)
    && forall p :: p in s.calls && s.calls[p].hash == h ==> CallSince(s.calls[p], k)
  }

  predicate CallSince(c: Call, k: nat) {
    match c.stage
    case Read(read, _, _) => read >= k
    case Judged(_, read, _, _) => read >= k
    case _ => true
  }

  /** Every reply on `h` in `t` that is not in `s` rests on a row read at `k` or later. */
  ghost predicate NewRepliesSince(s: Sys, t: Sys, h: Hash, k: nat) {
    forall p :: p in t.replies && t.replies[p].hash == h && !(p in s.replies && s.replies[p] == t.replies[p]) ==>
      t.replies[p].fill.read >= k
  }

  lemma CallSinceKept(s: Sys, act: Action, h: Hash, k: nat, p: Pid)
    requires |s.past| > k && ReadSince(s, h, k)
    requires p in Step(s, act).calls && Step(s, act).calls[p].hash == h
    ensures CallSince(Step(s, act).calls[p], k)
  {
  }

  lemma EntrySinceKept(s: Sys, act: Action, h: Hash, k: nat)
    requires |s.past| > k && ReadSince(s, h, k) && h in Step(s, act).cache
    ensures Step(s, act).cache[h].fill.read >= k
  {
  }

  lemma ReplySinceKept(s: Sys, act: Action, h: Hash, k: nat, p: Pid)
    requires |s.past| > k && ReadSince(s, h, k)
    requires p in Step(s, act).replies && Step(s, act).replies[p].hash == h
    requires !(p in s.replies && s.replies[p] == Step(s, act).replies[p])
    ensures Step(s, act).replies[p].fill.read >= k
  {
  }

  lemma ReadSinceKept(s: Sys, act: Action, h: Hash, k: nat)
    requires |s.past| > k && ReadSince(s, h, k)
    ensures ReadSince(Step(s, act), h, k) && NewRepliesSince(s, Step(s, act), h, k)
  {
    var t := Step(s, act);
    if h in t.cache {
      EntrySinceKept(s, act, h, k);
    }
    forall p | p in t.calls && t.calls[p].hash == h ensures CallSince(t.calls[p], k) {
      CallSinceKept(s, act, h, k, p);
    }
    forall p | p in t.replies && t.replies[p].hash == h && !(p in s.replies && s.replies[p] == t.replies[p])
      ensures t.replies[p].fill.read >= k
    {
      ReplySinceKept(s, act, h, k, p);
    }
  }

  lemma {:induction false} ReadSinceForGood(s: Sys, acts: seq<Action>, h: Hash, k: nat)
    requires |s.past| > k && ReadSince(s, h, k)
    ensures |Run(s, acts).past| > k && ReadSince(Run(s, acts), h, k) && NewRepliesSince(s, Run(s, acts), h, k)
  {
    if acts != [] {
      ReadSinceForGood(s, acts[..|acts| - 1], h, k);
      ReadSinceKept(Run(s, acts[..|acts| - 1]), acts[|acts| - 1], h, k);
      StepFollows(Run(s, acts[..|acts| - 1]), acts[|acts| - 1]);
    }
  }

  /** If no call on the key is in flight when the deletion after Update happens, every later reply
      rests on a row read since. */
  lemma FreshAfterUpdate(s: Sys, p: Pid, h: Hash, acts: seq<Action>)
    requires Inv(s) && p in s.deletions && s.deletions[p] == h
    requires forall q :: q in s.calls ==> s.calls[q].hash != h
    ensures NewRepliesSince(s, Run(Step(s, DeleteEntry(p, true)), acts), h, |s.past| - 1)
  {
    var t := Step(s, DeleteEntry(p, true));
    assert t.calls == s.calls && t.replies == s.replies && h !in t.cache && |t.past| == |s.past| + 1;
    ReadSinceForGood(t, acts, h, |s.past| - 1);
  }

  // ---------------------------------------------------------------- a run without lifetime

  /** One key, nothing cached yet, and one call on it. */
  predicate Calling(s: Sys, now: int, h: Hash, row: Row, stage: Stage) {
    && s.keyTtl == 0 && s.now == now && s.rows == map[h := row] && s.cache == map[] && s.replies == map[]
    && s.deletions == map[] && s.calls == map[1 := Call(h, now, stage)] && |s.past| > 0
  }

  lemma CallBegins(now: int, h: Hash, row: Row)
    ensures Calling(Step(Start(0, 0, now, map[h := row]), Begin(1, h)), now, h, row, Begun)
  {
  }

  lemma CallMisses(s: Sys, now: int, h: Hash, row: Row)
    requires Calling(s, now, h, row, Begun)
    ensures Calling(Step(s, GetEntry(1, true)), now, h, row, Missed)
  {
  }

  lemma CallReads(s: Sys, now: int, h: Hash, row: Row)
    requires Calling(s, now, h, row, Missed)
    ensures Calling(Step(s, ReadRow(1, true)), now, h, row, Read(|s.past| - 1, Some(row), false))
  {
  }

  lemma CallJudges(s: Sys, now: int, h: Hash, row: Row, read: nat)
    requires Calling(s, now, h, row, Read(read, Some(row), false))
    ensures Calling(Step(s, Judge(1)), now, h, row, Judged(Verdict(Some(row), now), read, now, false))
  {
  }

  /** The key is cached, and nothing else is going on. */
  predicate Filled(s: Sys, now: int, h: Hash, row: Row) {
    && s.keyTtl == 0 && s.now == now && s.rows == map[h := row] && h in s.cache
    && s.cache[h].verdict == Some(row.data) && s.cache[h].expires == None
    && Fresh(s, 2) && Fresh(s, 3) && |s.past| > 0
  }

  lemma CallStores(s: Sys, now: int, h: Hash, row: Row, read: nat)
    requires Calling(s, now, h, row, Judged(Some(row.data), read, now, false))
    ensures Filled(Step(s, SetEntry(1, true)), now, h, row)
  {
  }

  function Filling(h: Hash): seq<Action> {
    [Begin(1, h)] + [GetEntry(1, true)] + [ReadRow(1, true)] + [Judge(1)] + [SetEntry(1, true)]
  }

  lemma FilledByRun(now: int, h: Hash, row: Row)
    requires !row.revoked && row.expires.None?
    ensures Filled(Run(Start(0, 0, now, map[h := row]), Filling(h)), now, h, row)
  {
    hide Step, Calling, Filled, Verdict;
    var s := Start(0, 0, now, map[h := row]);
    var a := [Begin(1, h)];
    var b := a + [GetEntry(1, true)];
    var c := b + [ReadRow(1, true)];
    var d := c + [Judge(1)];
    RunOne(s, Begin(1, h));
    CallBegins(now, h, row);
    RunMore(s, a, GetEntry(1, true));
    CallMisses(Run(s, a), now, h, row);
    RunMore(s, b, ReadRow(1, true));
    CallReads(Run(s, b), now, h, row);
    RunMore(s, c, Judge(1));
    CallJudges(Run(s, c), now, h, row, |Run(s, b).past| - 1);
    RunMore(s, d, SetEntry(1, true));
    assert Verdict(Some(row), now) == Some(row.data) by { GoodRow(row, now); }
    CallStores(Run(s, d), now, h, row, |Run(s, b).past| - 1);
  }

  lemma GoodRow(row: Row, now: int)
    requires !row.revoked && row.expires.None?
    ensures Verdict(Some(row), now) == Some(row.data)
  {
  }

  /** Revoked, its entry not deleted, and then asked for much later. */
  function Outliving(h: Hash, later: int): seq<Action> {
    Filling(h) + [Revoke(2, h)] + [DeleteEntry(2, false)] + [Tick(later)] + [Begin(3, h)] + [GetEntry(3, true)]
  }

  lemma OutlivesSteps(s: Sys, now: int, h: Hash, row: Row, later: int)
    requires Filled(s, now, h, row) && !row.revoked && later >= now
    ensures
      var t := Step(Step(Step(s, Revoke(2, h)), DeleteEntry(2, false)), Tick(later));
      h in t.rows && t.rows[h].revoked && Cached(t, h) && t.cache[h].verdict == Some(row.data) && Fresh(t, 3) && |t.past| > 0
  {
    var t1 := Step(s, Revoke(2, h));
    assert h in t1.rows && t1.rows[h].revoked && t1.cache == s.cache && t1.now == s.now && t1.deletions == s.deletions[2 := h];
    assert Fresh(t1, 3);
    var t2 := Step(t1, DeleteEntry(2, false));
    assert t2.rows == t1.rows && t2.cache == s.cache && t2.now == s.now && Fresh(t2, 3);
  }

  /** From an empty cache, with a lifetime of 0: once the deletion after Revoke has failed, the key is
      accepted at any later time, however late. */
  lemma UnboundedWithoutTtl(now: int, h: Hash, row: Row, later: int)
    requires !row.revoked && row.expires.None? && later >= now
    ensures
      var s := Run(Start(0, 0, now, map[h := row]), Outliving(h, later));
      h in s.rows && s.rows[h].revoked && Accepted(s, 3, h)
  {
    hide Step, Cached, Fresh;
    var s := Start(0, 0, now, map[h := row]);
    FilledByRun(now, h, row);
    var t := Run(s, Filling(h));
    OutlivesSteps(t, now, h, row, later);
    RunMore(s, Filling(h), Revoke(2, h));
    RunMore(s, Filling(h) + [Revoke(2, h)], DeleteEntry(2, false));
    RunMore(s, Filling(h) + [Revoke(2, h)] + [DeleteEntry(2, false)], Tick(later));
    RunMore(s, Filling(h) + [Revoke(2, h)] + [DeleteEntry(2, false)] + [Tick(later)], Begin(3, h));
    RunMore(s, Filling(h) + [Revoke(2, h)] + [DeleteEntry(2, false)] + [Tick(later)] + [Begin(3, h)], GetEntry(3, true));
    AnsweredFromCache(Step(Step(Step(t, Revoke(2, h)), DeleteEntry(2, false)), Tick(later)), h, 3);
  }
}
