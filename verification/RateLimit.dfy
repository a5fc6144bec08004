// The per-user sliding-window limiter with its clean-up sweep, and what it promises about the
// full history of admissions.  Times are milliseconds of a clock that does not run back.
module RateLimit {
  import opened Wrappers

  // ---------------------------------------------------------------- histories

  /** The times less than `span` before `now`, in order. */
  function Recent(h: seq<int>, now: int, span: int): seq<int> {
    if h == [] then []
    else
      var last := h[|h| - 1];
      Recent(h[..|h| - 1], now, span) + if now - last < span then [last] else []
  }

  predicate Sorted(h: seq<int>) {
    forall i, j :: 0 <= i < j < |h| ==> h[i] <= h[j]
  }

  predicate Until(h: seq<int>, now: int) {
    forall i :: 0 <= i < |h| ==> h[i] <= now
  }

  /** Everything in `h` is at least `span` before `now`. */
  predicate Past(h: seq<int>, now: int, span: int) {
    forall i :: 0 <= i < |h| ==> now - h[i] >= span
  }

  lemma {:induction false} RecentOfSuffix(h: seq<int>, k: nat, now: int, span: int)
    requires k <= |h| && Past(h[..k], now, span)
    ensures Recent(h[k..], now, span) == Recent(h, now, span)
  {
    if k == |h| {
      assert h[..k] == h;
      NothingRecent(h, now, span);
    } else {
      var front := h[..|h| - 1];
      assert front[..k] == h[..k] && h[k..][..|h[k..]| - 1] == front[k..];
      RecentOfSuffix(front, k, now, span);
    }
  }

  lemma {:induction false} NothingRecent(h: seq<int>, now: int, span: int)
    requires Past(h, now, span)
    ensures Recent(h, now, span) == []
  {
    if h != [] {
      NothingRecent(h[..|h| - 1], now, span);
    }
  }

  /** In a sorted history the recent times are its end. */
  lemma {:induction false} RecentIsSuffix(h: seq<int>, now: int, span: int) returns (k: nat)
    requires Sorted(h)
    ensures k <= |h| && Recent(h, now, span) == h[k..] && Past(h[0..k], now, span)
    ensures forall i :: k <= i < |h| ==> now - h[i] < span
  {
    if h == [] {
      k := 0;
    } else if now - h[|h| - 1] >= span {
      k := |h|;
      assert h[..k] == h && h[k..] == [];
      NothingRecent(h, now, span);
    } else {
      var front := h[..|h| - 1];
      k := RecentIsSuffix(front, now, span);
      assert h[k..] == front[k..] + [h[|h| - 1]];
      assert h[..k] == front[..k];
    }
  }

  // ---------------------------------------------------------------- one user's calls

  datatype Answer = Allowed | Denied(retryAfter: Option<int>)

  /** Rounded up to whole seconds. */
  function CeilSeconds(ms: int): int {
    (ms + 999) / 1000
  }

  /** The answer as the full history determines it. */
  function AnswerFor(h: seq<int>, now: int, limit: int): Answer {
    var recent := Recent(h, now, 60000);
    if |recent| < limit then Allowed
    else if recent == [] then Denied(None)
    else Denied(Some(CeilSeconds(recent[0] + 60000 - now)))
  }

  function Admit(h: seq<int>, now: int, limit: int): seq<int> {
    if AnswerFor(h, now, limit) == Allowed then h + [now] else h
  }

  datatype Request = Request(now: int, limit: int)

  /** The admissions after a series of calls. */
  function Replay(calls: seq<Request>): seq<int> {
    if calls == [] then []
    else
      var last := calls[|calls| - 1];
      Admit(Replay(calls[..|calls| - 1]), last.now, last.limit)
  }

  predicate InOrder(calls: seq<Request>) {
    forall i, j :: 0 <= i < j < |calls| ==> calls[i].now <= calls[j].now
  }

  predicate LimitedTo(calls: seq<Request>, limit: int) {
    forall i :: 0 <= i < |calls| ==> calls[i].limit <= limit
  }

  /** Admissions in the window of a minute that starts at `w`, its end not included. */
  function InMinute(h: seq<int>, w: int): nat {
    if h == [] then 0
    else InMinute(h[..|h| - 1], w) + if w <= h[|h| - 1] < w + 60000 then 1 else 0
  }

  lemma {:induction false} MinuteWithinRecent(h: seq<int>, w: int, now: int)
    requires w <= now < w + 60000
    ensures InMinute(h, w) <= |Recent(h, now, 60000)|
  {
    if h != [] {
      MinuteWithinRecent(h[..|h| - 1], w, now);
    }
  }

  lemma {:induction false} ReplayUntil(calls: seq<Request>)
    requires InOrder(calls)
    ensures Sorted(Replay(calls))
    ensures calls != [] ==> Until(Replay(calls), calls[|calls| - 1].now)
    ensures calls == [] ==> Replay(calls) == []
  {
    if calls != [] {
      var front := calls[..|calls| - 1];
      ReplayUntil(front);
      assert front != [] ==> front[|front| - 1].now <= calls[|calls| - 1].now;
      assert Until(Replay(front), calls[|calls| - 1].now);
      Extends(Replay(front), calls[|calls| - 1].now);
    }
  }

  lemma Extends(h: seq<int>, now: int)
    requires Sorted(h) && Until(h, now)
    ensures Sorted(h + [now]) && Until(h + [now], now)
  {
  }

  /** Whatever is asked and when, no half-open minute holds more admissions than the limit. */
  lemma {:induction false} MinuteBound(calls: seq<Request>, limit: nat, w: int)
    requires InOrder(calls) && LimitedTo(calls, limit)
    ensures InMinute(Replay(calls), w) <= limit
  {
    if calls != [] {
      var front, last := calls[..|calls| - 1], calls[|calls| - 1];
      MinuteBound(front, limit, w);
      if AnswerFor(Replay(front), last.now, last.limit) == Allowed && w <= last.now < w + 60000 {
        MinuteWithinRecent(Replay(front), w, last.now);
        assert (Replay(front) + [last.now])[..|Replay(front)|] == Replay(front);
      } else {
        assert (Replay(front) + [last.now])[..|Replay(front)|] == Replay(front);
      }
    }
  }

  lemma {:induction false} RecentWithinMinute(h: seq<int>, now: int)
    requires Until(h, now)
    ensures |Recent(h, now, 60000)| == InMinute(h, now - 59999)
  {
    if h != [] {
      RecentWithinMinute(h[..|h| - 1], now);
    }
  }

  /** Rounding up to seconds waits long enough, and not a second longer than needed. */
  lemma CeilIsLeast(ms: int)
    requires ms >= 1
    ensures 1000 * (CeilSeconds(ms) - 1) < ms <= 1000 * CeilSeconds(ms) && CeilSeconds(ms) >= 1
  {
  }

  /** Once the oldest admission in the window has expired there is room. */
  lemma RoomLater(h: seq<int>, k: nat, later: int, limit: int)
    requires Sorted(h) && k < |h| && |h| - k == limit && later >= h[k] + 60000
    ensures AnswerFor(h, later, limit) == Allowed
  {
    var expired := h[..k + 1];
    forall i | 0 <= i < |expired| ensures later - expired[i] >= 60000 {
      assert h[i] <= h[k];
    }
    RecentOfSuffix(h, k + 1, later, 60000);
    RecentShorter(h[k + 1..], later);
  }

  lemma {:induction false} RecentAtLeast(h: seq<int>, k: nat, later: int)
    requires k <= |h| && forall i :: k <= i < |h| ==> later - h[i] < 60000
    ensures |Recent(h, later, 60000)| >= |h| - k
  {
    if k < |h| {
      RecentAtLeast(h[..|h| - 1], k, later);
    }
  }

  /** Until then there is none. */
  lemma NoRoomYet(h: seq<int>, k: nat, later: int, limit: int)
    requires Sorted(h) && k < |h| && |h| - k == limit && later < h[k] + 60000
    ensures AnswerFor(h, later, limit).Denied?
  {
    RecentAtLeast(h, k, later);
  }

  /** Whatever limits the earlier calls had: a denied user is admitted at a later moment, if nothing
      else is admitted meanwhile, exactly when the oldest of the last `limit` admissions in the window
      has left it by then. */
  lemma RoomIff(h: seq<int>, now: int, limit: int, later: int)
    requires Sorted(h) && Until(h, now) && limit >= 1 && |Recent(h, now, 60000)| >= limit && later >= now
    ensures
      var recent := Recent(h, now, 60000);
      AnswerFor(h, later, limit) == Allowed <==> recent[|recent| - limit] + 60000 <= later
  {
    var k := RecentIsSuffix(h, now, 60000);
    var oldest := |h| - limit;
    assert h[k..][|h[k..]| - limit] == h[oldest];
    if h[oldest] + 60000 <= later {
      RoomLater(h, oldest, later, limit);
    } else {
      NoRoomYet(h, oldest, later, limit);
    }
  }

  /** So the seconds it is told to wait are enough exactly if they outlast that admission: always
      with the window just full, and not always with more in it, under a limit lowered since. */
  lemma RetryIff(h: seq<int>, now: int, limit: int)
    requires Sorted(h) && Until(h, now) && limit >= 1 && AnswerFor(h, now, limit).Denied?
    ensures
      var recent, answer := Recent(h, now, 60000), AnswerFor(h, now, limit);
      && |recent| >= limit && answer.retryAfter.Some? && answer.retryAfter.value >= 1
      && (AnswerFor(h, now + 1000 * answer.retryAfter.value, limit) == Allowed
          <==> recent[|recent| - limit] + 60000 <= now + 1000 * answer.retryAfter.value)
  {
    var k := RecentIsSuffix(h, now, 60000);
    assert h[k..][0] == h[k];
    CeilIsLeast(h[k] + 60000 - now);
    RoomIff(h, now, limit, now + 1000 * AnswerFor(h, now, limit).retryAfter.value);
  }

  /** Denied with the window just full, the call succeeds after the whole seconds it is told to
      wait, if nothing else is admitted meanwhile; one second less is not enough. */
  lemma RetryIsEnough(h: seq<int>, now: int, limit: int, later: int)
    requires Sorted(h) && Until(h, now) && limit >= 1 && |Recent(h, now, 60000)| == limit
    ensures
      var answer := AnswerFor(h, now, limit);
      && answer.Denied? && answer.retryAfter.Some? && answer.retryAfter.value >= 1
      && (later >= now + 1000 * answer.retryAfter.value ==> AnswerFor(h, later, limit) == Allowed)
      && (now <= later <= now + 1000 * (answer.retryAfter.value - 1) ==> AnswerFor(h, later, limit).Denied?)
  {
    var k := RecentIsSuffix(h, now, 60000);
    assert h[k..][0] == h[k];
    CeilIsLeast(h[k] + 60000 - now);
    if later >= now {
      RoomIff(h, now, limit, later);
    }
  }

  lemma {:induction false} RecentShorter(h: seq<int>, now: int)
    ensures |Recent(h, now, 60000)| <= |h|
  {
    if h != [] {
      RecentShorter(h[..|h| - 1], now);
    }
  }

  /** With one limit throughout, a denied call always finds the window just full, so waiting as
      told is enough. */
  lemma RetrySucceeds(calls: seq<Request>, now: int, limit: int, later: int)
    requires InOrder(calls) && (calls != [] ==> calls[|calls| - 1].now <= now) && limit >= 1
    requires forall i :: 0 <= i < |calls| ==> calls[i].limit == limit
    ensures
      var h := Replay(calls);
      var answer := AnswerFor(h, now, limit);
      answer.Denied? ==>
        && answer.retryAfter.Some?
        && (later >= now + 1000 * answer.retryAfter.value ==> AnswerFor(h, later, limit) == Allowed)
        && (now <= later <= now + 1000 * (answer.retryAfter.value - 1) ==> AnswerFor(h, later, limit).Denied?)
  {
    var h := Replay(calls);
    ReplayUntil(calls);
    MinuteBound(calls, limit, now - 59999);
    RecentWithinMinute(h, now);
    if AnswerFor(h, now, limit).Denied? {
      RetryIsEnough(h, now, limit, later);
    }
  }

  /** With a limit lowered in between, waiting as told need not be enough. */
  lemma LoweredLimit()
    ensures
      var h := Replay([Request(0, 2), Request(500, 2)]);
      && AnswerFor(h, 1000, 1) == Denied(Some(59))
      && AnswerFor(h, 60000, 1).Denied?
  {
    var c := [Request(0, 2), Request(500, 2)];
    assert c[..1][..0] == [] && Replay(c[..1]) == [0];
    assert Recent([0], 500, 60000) == [0];
    assert Replay(c) == [0, 500];
    assert [0, 500][..1] == [0];
    assert Recent([0, 500], 1000, 60000) == [0, 500];
    assert Recent([0], 60000, 60000) == [];
  }

  // ---------------------------------------------------------------- the limiter

  /** The store holds the end of the history; what it has dropped left the window before `now`. */
  ghost predicate KeepsEnd(kept: seq<int>, h: seq<int>, now: int) {
    exists k: nat :: EndFrom(kept, h, now, k)
  }

  predicate EndFrom(kept: seq<int>, h: seq<int>, now: int, k: nat) {
    k <= |h| && kept == h[k..] && Past(h[..k], now, 60000)
  }

  lemma KeepsLater(kept: seq<int>, h: seq<int>, now: int, later: int)
    requires KeepsEnd(kept, h, now) && Until(h, now) && later >= now
    ensures KeepsEnd(kept, h, later) && Until(h, later)
  {
    var k: nat :| EndFrom(kept, h, now, k);
    assert EndFrom(kept, h, later, k);
  }

  lemma KeepsAppended(kept: seq<int>, h: seq<int>, now: int)
    requires KeepsEnd(kept, h, now)
    ensures KeepsEnd(kept + [now], h + [now], now)
  {
    var k: nat :| EndFrom(kept, h, now, k);
    var h' := h + [now];
    assert h'[k..] == kept + [now] && h'[..k] == h[..k];
    assert EndFrom(kept + [now], h', now, k);
  }

  lemma RecentOfKept(kept: seq<int>, h: seq<int>, now: int, later: int, span: int)
    requires KeepsEnd(kept, h, now) && Sorted(h) && later >= now && span >= 60000
    ensures Recent(kept, later, 60000) == Recent(h, later, 60000)
    ensures KeepsEnd(Recent(kept, later, span), h, later)
  {
    var k: nat :| EndFrom(kept, h, now, k);
    assert Past(h[..k], later, 60000);
    RecentOfSuffix(h, k, later, 60000);
    var m := RecentIsSuffix(kept, later, span);
    DropMore(h, k, m, later, span);
    assert EndFrom(Recent(kept, later, span), h, later, k + m);
  }

  lemma DropMore(h: seq<int>, k: nat, m: nat, now: int, span: int)
    requires k + m <= |h| && span >= 60000 && Past(h[..k], now, 60000) && Past(h[k..][..m], now, span)
    ensures h[k..][m..] == h[k + m..] && Past(h[..k + m], now, 60000)
  {
    var dropped := h[..k + m];
    forall i | 0 <= i < |dropped| ensures now - dropped[i] >= 60000 {
      assert dropped[i] == if i < k then h[..k][i] else h[k..][..m][i - k];
    }
  }

  /** What the limiter keeps true of one user. */
  ghost predicate Tracks(kept: seq<int>, h: seq<int>, now: int) {
    Sorted(h) && Until(h, now) && KeepsEnd(kept, h, now)
  }

  lemma TracksLater(kept: seq<int>, h: seq<int>, now: int, later: int)
    requires Tracks(kept, h, now) && later >= now
    ensures Tracks(kept, h, later)
  {
    KeepsLater(kept, h, now, later);
  }

  lemma TracksSwept(kept: seq<int>, h: seq<int>, now: int, later: int, span: int)
    requires Tracks(kept, h, now) && later >= now && span >= 60000
    ensures Tracks(Recent(kept, later, span), h, later)
    ensures Recent(kept, later, 60000) == Recent(h, later, 60000)
  {
    RecentOfKept(kept, h, now, later, span);
    KeepsLater(kept, h, now, later);
  }

  lemma TracksAdmission(kept: seq<int>, h: seq<int>, now: int)
    requires Tracks(kept, h, now)
    ensures Tracks(kept + [now], h + [now], now)
  {
    KeepsAppended(kept, h, now);
    Extends(h, now);
  }

  function Stamps(store: map<string, seq<int>>, key: string): seq<int> {
    if key in store then store[key] else []
  }

  /** All but `keys` have been swept. */
  ghost predicate PartlySwept(before: map<string, seq<int>>, store: map<string, seq<int>>, keys: set<string>, now: int) {
    && store.Keys <= before.Keys
    && (forall key :: key in keys ==> Stamps(store, key) == Stamps(before, key))
    && (forall key :: key !in keys ==> Stamps(store, key) == Recent(Stamps(before, key), now, 120000))
    && (forall key :: key in store && key !in keys ==> store[key] != [])
  }

  ghost predicate AllTrack(store: map<string, seq<int>>, history: map<string, seq<int>>, now: int) {
    forall key :: Tracks(Stamps(store, key), Stamps(history, key), now)
  }

  lemma AllLater(store: map<string, seq<int>>, history: map<string, seq<int>>, now: int, later: int)
    requires AllTrack(store, history, now) && later >= now
    ensures AllTrack(store, history, later)
  {
    forall key ensures Tracks(Stamps(store, key), Stamps(history, key), later) {
      TracksLater(Stamps(store, key), Stamps(history, key), now, later);
    }
  }

  lemma OneReplaced(store: map<string, seq<int>>, history: map<string, seq<int>>, now: int,
                    key: string, kept: seq<int>, h: seq<int>)
    requires AllTrack(store, history, now) && Tracks(kept, h, now)
    ensures AllTrack(store[key := kept], history[key := h], now)
  {
    var store', history' := store[key := kept], history[key := h];
    forall other ensures Tracks(Stamps(store', other), Stamps(history', other), now) {
      assert other != key ==> Tracks(Stamps(store, other), Stamps(history, other), now);
    }
  }

  lemma SweepOne(before: map<string, seq<int>>, store: map<string, seq<int>>, keys: set<string>, now: int, key: string)
    requires PartlySwept(before, store, keys, now) && key in keys && key in store
    ensures
      var rest := Recent(store[key], now, 120000);
      PartlySwept(before, if rest == [] then store - {key} else store[key := rest], keys - {key}, now)
  {
  }

  lemma SweptTracks(before: map<string, seq<int>>, history: map<string, seq<int>>, store: map<string, seq<int>>, now: int)
    requires AllTrack(before, history, now) && PartlySwept(before, store, {}, now)
    ensures AllTrack(store, history, now)
  {
    forall key ensures Tracks(Stamps(store, key), Stamps(history, key), now) {
      TracksSwept(Stamps(before, key), Stamps(history, key), now, now, 120000);
    }
  }

  /** The stamps kept for a user and the full history agree on the answer, and whether it admits
      or not, what is kept next still tracks the history. */
  lemma KeptAnswers(store: map<string, seq<int>>, history: map<string, seq<int>>, now: int, key: string)
    requires AllTrack(store, history, now)
    ensures
      var h, recent := Stamps(history, key), Recent(Stamps(store, key), now, 60000);
      && recent == Recent(h, now, 60000)
      && Tracks(recent, h, now) && Tracks(recent + [now], h + [now], now)
  {
    var h, kept := Stamps(history, key), Stamps(store, key);
    TracksSwept(kept, h, now, now, 60000);
    TracksAdmission(Recent(kept, now, 60000), h, now);
  }

  class Limiter {
    var store: map<string, seq<int>>
    ghost var history: map<string, seq<int>>
    ghost var clock: int

    constructor ()
      ensures Valid() && store == map[] && history == map[] && clock == 0
    {
      store, history, clock := map[], map[], 0;
      new;
      assert EndFrom([], [], 0, 0);
    }

    function Timestamps(key: string): seq<int>
      reads this
    {
      Stamps(store, key)
    }

    /** All admissions of `key` so far. */
    ghost function History(key: string): seq<int>
      reads this
    {
      Stamps(history, key)
    }

    ghost predicate Valid()
      reads this
    {
      AllTrack(store, history, clock)
    }

    /** The answer is the one the full history determines, whatever was swept away before. */
    method CheckRateLimit(user: string, limit: int, now: int) returns (answer: Answer)
      requires Valid() && now >= clock
      modifies this
      ensures Valid() && clock == now
      ensures answer == AnswerFor(old(History("ai:" + user)), now, limit)
      ensures History("ai:" + user) == Admit(old(History("ai:" + user)), now, limit)
      ensures forall key :: key != "ai:" + user ==> History(key) == old(History(key))
    {
      var key := "ai:" + user;
      ghost var h := History(key);
      Wait(now);
      var recent := Recent(Timestamps(key), now, 60000);
      KeptAnswers(store, history, clock, key);
      if |recent| >= limit {
        answer := Denied(if recent == [] then None else Some(CeilSeconds(recent[0] + 60000 - now)));
        Keep(key, recent, h);
      } else {
        answer := Allowed;
        Keep(key, recent + [now], h + [now]);
      }
    }

    ghost method Wait(now: int)
      requires Valid() && now >= clock
      modifies this`clock
      ensures Valid() && clock == now
    {
      AllLater(store, history, clock, now);
      clock := now;
    }

    method Keep(key: string, kept: seq<int>, ghost h: seq<int>)
      requires Valid() && Tracks(kept, h, clock)
      modifies this`store, this`history
      ensures Valid() && Timestamps(key) == kept && History(key) == h
      ensures forall other :: other != key ==> Timestamps(other) == old(Timestamps(other))
      ensures forall other :: other != key ==> History(other) == old(History(other))
    {
      OneReplaced(store, history, clock, key, kept, h);
      store := store[key := kept];
      history := history[key := h];
    }

    /** Removing what is two minutes old changes no later answer: the histories stay, and with
        them what every later call is answered. */
    method Sweep(now: int)
      requires Valid() && now >= clock
      modifies this`store, this`clock
      ensures Valid() && clock == now
      ensures forall key :: key in store ==> key in old(store) && store[key] != []
      ensures forall key :: Timestamps(key) == Recent(old(Timestamps(key)), now, 120000)
    {
      Wait(now);
      ghost var before, h := store, history;
      assert AllTrack(before, h, now);
      var keys := store.Keys;
      while keys != {}
        invariant clock == now && keys <= store.Keys && PartlySwept(before, store, keys, now)
        decreases |keys|
      {
        var key :| key in keys;
        var rest := Recent(store[key], now, 120000);
        SweepOne(before, store, keys, now, key);
        store := if rest == [] then store - {key} else store[key := rest];
        keys := keys - {key};
      }
      SweptTracks(before, h, store, now);
    }
  }
}
