// The jump consistent hash of Lamping and Veach ("A Fast, Minimal Memory, Consistent Hash
// Algorithm", 2014) as hash-ring.js computes it: a 64-bit linear congruential generator, and
// a jump computed in floating point.
//
// Floating point appears as an arbitrary rounding function that is monotone and keeps the
// integers a double represents exactly.  IEEE 754 rounding is one; the results hold for all.
module JumpHash {

  /** How many values a draw can take. */
  const DRAWS: nat := 0x8000_0000

  /** 2^53: up to here every integer is a double. */
  const EXACT: int := 0x20_0000_0000_0000

  predicate Keeps(rnd: real -> real, n: int) {
    rnd(n as real) == n as real
  }

  ghost predicate Rounding(rnd: real -> real) {
    && (forall x, y :: x <= y ==> rnd(x) <= rnd(y))
    && (forall n: int :: 0 <= n <= EXACT ==> Keeps(rnd, n))
  }

  /** The generator, on 64 bits. */
  function NextSeed(h: nat): (r: nat)
    ensures r < 0x1_0000_0000_0000_0000
  {
    (h * 2862933555777941757 + 1) % 0x1_0000_0000_0000_0000
  }

  /** The upper 31 bits. */
  function Draw(h: nat): (r: nat)
    ensures h < 0x1_0000_0000_0000_0000 ==> r < 0x8000_0000
  {
    h / 0x2_0000_0000
  }

  /** Number(b + 1) * (Number(2^31) / Number(r + 1)), rounded at each operation, then floored. */
  function Jump(rnd: real -> real, b: nat, r: nat): int {
    var divisor := rnd((r + 1) as real);
    if divisor <= 0.0 then 0  // not a rounding function
    else rnd(rnd((b + 1) as real) * rnd(2147483648.0 / divisor)).Floor
  }

  // ---------------------------------------------------------------- the generator

  /** The multiplier's inverse on 64 bits. */
  const INVERSE: nat := 16133697096952638549

  /** The generator loses nothing: the seed before can be computed from the one after, so different
      seeds stay different. */
  lemma SeedBefore(h: nat)
    requires h < 0x1_0000_0000_0000_0000
    ensures (NextSeed(h) + 0xFFFF_FFFF_FFFF_FFFF) * INVERSE % 0x1_0000_0000_0000_0000 == h
  {
    var m := 0x1_0000_0000_0000_0000;
    var k := (h * 2862933555777941757 + 1) / m;
    assert NextSeed(h) == h * 2862933555777941757 + 1 - k * m;
    assert 2862933555777941757 * INVERSE == 2503948805982125087 * m + 1;
    Multiple((NextSeed(h) + 0xFFFF_FFFF_FFFF_FFFF) * INVERSE, 2503948805982125087 * h + INVERSE - k * INVERSE, m, h);
  }

  /** A draw is what the seed's upper 31 bits say: every value is drawn by equally many seeds, 2^33 in a
      row. */
  lemma DrawIff(h: nat, r: nat)
    ensures Draw(h) == r <==> r * 0x2_0000_0000 <= h < (r + 1) * 0x2_0000_0000
  {
  }

  lemma Multiple(x: nat, q: int, m: nat, r: nat)
    requires r < m && x == q * m + r
    ensures x % m == r
  {
    var d := q - x / m;
    assert x == x / m * m + x % m;
    assert q * m - x / m * m == d * m;
    TimesAtLeast(d, m);
  }

  lemma TimesAtLeast(d: int, m: nat)
    ensures d >= 1 ==> d * m >= m
    ensures d <= -1 ==> d * m <= 0 - m
  {
  }

  // ---------------------------------------------------------------- jumps

  lemma RatioAtLeastOne(a: real, d: real)
    requires d > 0.0 && a >= d
    ensures a / d >= 1.0
  {
    var q := a / d;
    assert q * d == a;
    RealMulLess(q, 1.0, d);
  }

  lemma ScaleUp(x: real, q: real)
    requires x >= 0.0 && q >= 1.0
    ensures x * q >= x
  {
  }

  lemma RatioRounded(rnd: real -> real, r: nat)
    requires Rounding(rnd) && r < 0x8000_0000
    ensures
      var d := rnd((r + 1) as real);
      d == (r + 1) as real && d > 0.0 && rnd(2147483648.0 / d) >= 1.0
  {
    assert Keeps(rnd, r + 1) && Keeps(rnd, 1);
    RatioAtLeastOne(2147483648.0, (r + 1) as real);
    assert rnd(2147483648.0 / (r + 1) as real) >= rnd(1 as real);
  }

  lemma ProductRounded(rnd: real -> real, b: nat, q: real)
    requires Rounding(rnd) && b + 1 <= EXACT && q >= 1.0
    ensures rnd(rnd((b + 1) as real) * q) >= (b + 1) as real
  {
    assert Keeps(rnd, b + 1);
    var x := (b + 1) as real;
    ScaleUp(x, q);
    var product := x * q;
    assert rnd(x) <= rnd(product);
  }

  /** A jump always lands past the current bucket. */
  lemma JumpAdvances(rnd: real -> real, b: nat, r: nat)
    requires Rounding(rnd) && b + 1 <= EXACT && r < 0x8000_0000
    ensures Jump(rnd, b, r) >= b + 1
  {
    RatioRounded(rnd, r);
    ProductRounded(rnd, b, rnd(2147483648.0 / rnd((r + 1) as real)));
  }

  /** The loop from seed `h` and candidate `j` on, when `b` is the last bucket reached. */
  ghost function Walk(rnd: real -> real, h: nat, j: int, n: int, b: int): int
    requires Rounding(rnd) && 0 <= j && n <= EXACT
    decreases n - j
  {
    if j >= n then b
    else
      var h' := NextSeed(h);
      JumpAdvances(rnd, j, Draw(h'));
      Walk(rnd, h', Jump(rnd, j, Draw(h')), n, j)
  }

  /** The bucket of a key with hash seed `seed` among `n` buckets. */
  ghost function Bucket(rnd: real -> real, seed: nat, n: int): int
    requires Rounding(rnd) && n <= EXACT
  {
    Walk(rnd, seed, 0, n, -1)
  }

  method Compute(rnd: real -> real, seed: nat, n: nat) returns (bucket: int)
    requires Rounding(rnd) && n <= EXACT
    ensures bucket == Bucket(rnd, seed, n)
    ensures n > 0 ==> 0 <= bucket < n
  {
    var h, b, j := seed, -1, 0;
    while j < n
      invariant 0 <= j && -1 <= b < n && b < j && (j > 0 ==> b >= 0)
      invariant Walk(rnd, h, j, n, b) == Bucket(rnd, seed, n)
      decreases n - j
    {
      b := j;
      h := NextSeed(h);
      JumpAdvances(rnd, b, Draw(h));
      j := Jump(rnd, b, Draw(h));
    }
    bucket := b;
  }

  lemma {:induction false} WalkRange(rnd: real -> real, h: nat, j: int, n: int, b: int)
    requires Rounding(rnd) && 0 <= j && n <= EXACT && -1 <= b < n && b < j + 1
    ensures b <= Walk(rnd, h, j, n, b) < n
    ensures j < n ==> j <= Walk(rnd, h, j, n, b)
    decreases n - j
  {
    if j < n {
      var h' := NextSeed(h);
      JumpAdvances(rnd, j, Draw(h'));
      WalkRange(rnd, h', Jump(rnd, j, Draw(h')), n, j);
    }
  }

  /** With more buckets the walk passes the same buckets and may go on beyond `n`. */
  lemma {:induction false} WalkExtends(rnd: real -> real, h: nat, j: int, n: int, m: int, b: int)
    requires Rounding(rnd) && 0 <= j && n <= m <= EXACT && -1 <= b < n && b < j + 1
    ensures Walk(rnd, h, j, m, b) == Walk(rnd, h, j, n, b) || n <= Walk(rnd, h, j, m, b) < m
    decreases n - j
  {
    if j < n {
      var h' := NextSeed(h);
      JumpAdvances(rnd, j, Draw(h'));
      WalkExtends(rnd, h', Jump(rnd, j, Draw(h')), n, m, j);
    } else {
      WalkRange(rnd, h, j, m, b);
    }
  }

  lemma BucketInRange(rnd: real -> real, seed: nat, n: int)
    requires Rounding(rnd) && 1 <= n <= EXACT
    ensures 0 <= Bucket(rnd, seed, n) < n
  {
    WalkRange(rnd, seed, 0, n, -1);
  }

  /** Growing from n to m buckets, a key stays where it was or goes to a new bucket; one more
      bucket takes keys from the others and gives none back. */
  lemma MinimalMovement(rnd: real -> real, seed: nat, n: int, m: int)
    requires Rounding(rnd) && 1 <= n <= m <= EXACT
    ensures Bucket(rnd, seed, m) == Bucket(rnd, seed, n) || n <= Bucket(rnd, seed, m) < m
    ensures Bucket(rnd, seed, m) < n ==> Bucket(rnd, seed, m) == Bucket(rnd, seed, n)
    ensures m == n + 1 ==> Bucket(rnd, seed, m) == Bucket(rnd, seed, n) || Bucket(rnd, seed, m) == n
  {
    WalkExtends(rnd, seed, 0, n, m, -1);
  }

  // ---------------------------------------------------------------- where a key stops

  /** The seed after `k` draws. */
  function Seeds(seed: nat, k: nat): nat {
    if k == 0 then seed else NextSeed(Seeds(seed, k - 1))
  }

  /** The places a key jumps to, from 0 on, draw by draw, until it is past the last of `n` buckets. */
  ghost predicate Stops(rnd: real -> real, seed: nat, n: int, stops: seq<int>) {
    && |stops| >= 2 && stops[0] == 0
    && (forall k :: 0 <= k < |stops| - 1 ==>
          0 <= stops[k] < n && stops[k + 1] == Jump(rnd, stops[k], Draw(Seeds(seed, k + 1))))
    && stops[|stops| - 1] >= n
  }

  lemma WalkNext(rnd: real -> real, h: nat, j: int, n: int, b: int)
    requires Rounding(rnd) && 0 <= j < n <= EXACT
    ensures
      var h' := NextSeed(h);
      Jump(rnd, j, Draw(h')) >= 0 && Walk(rnd, h, j, n, b) == Walk(rnd, h', Jump(rnd, j, Draw(h')), n, j)
  {
    JumpAdvances(rnd, j, Draw(NextSeed(h)));
  }

  /** The walk from stop `k` on. */
  lemma {:induction false} WalkStops(rnd: real -> real, seed: nat, n: int, stops: seq<int>, k: nat)
    requires Rounding(rnd) && n <= EXACT && Stops(rnd, seed, n, stops) && k < |stops| - 1
    ensures stops[k + 1] >= 0 && Walk(rnd, Seeds(seed, k + 1), stops[k + 1], n, stops[k]) == stops[|stops| - 2]
    decreases |stops| - k
  {
    hide NextSeed, Draw, Jump;
    if k + 2 < |stops| {
      WalkStops(rnd, seed, n, stops, k + 1);
      WalkNext(rnd, Seeds(seed, k + 1), stops[k + 1], n, stops[k]);
      assert Seeds(seed, k + 2) == NextSeed(Seeds(seed, k + 1));
      assert stops[k + 2] == Jump(rnd, stops[k + 1], Draw(Seeds(seed, k + 2)));
    } else {
      WalkEnds(rnd, Seeds(seed, k + 1), stops[k + 1], n, stops[k]);
    }
  }

  lemma WalkEnds(rnd: real -> real, h: nat, j: int, n: int, b: int)
    requires Rounding(rnd) && 0 <= j && n <= j && n <= EXACT
    ensures Walk(rnd, h, j, n, b) == b
  {
  }

  /** The bucket is the last stop below the number of buckets. */
  lemma BucketIsLastStop(rnd: real -> real, seed: nat, n: int, stops: seq<int>)
    requires Rounding(rnd) && 1 <= n <= EXACT && Stops(rnd, seed, n, stops)
    ensures Bucket(rnd, seed, n) == stops[|stops| - 2]
  {
    hide NextSeed, Draw, Jump;
    assert stops[1] == Jump(rnd, stops[0], Draw(Seeds(seed, 0 + 1)));
    assert Seeds(seed, 0) == seed && Seeds(seed, 1) == NextSeed(Seeds(seed, 0));
    WalkNext(rnd, seed, 0, n, -1);
    WalkStops(rnd, seed, n, stops, 0);
  }

  /** Every key has such stops. */
  lemma HasStops(rnd: real -> real, seed: nat, n: int) returns (stops: seq<int>)
    requires Rounding(rnd) && 1 <= n <= EXACT
    ensures Stops(rnd, seed, n, stops)
  {
    hide NextSeed, Draw, Jump;
    stops := [0];
    while stops[|stops| - 1] < n
      invariant |stops| >= 1 && stops[0] == 0
      invariant forall k :: 0 <= k < |stops| - 1 ==>
        0 <= stops[k] < n && stops[k + 1] == Jump(rnd, stops[k], Draw(Seeds(seed, k + 1)))
      invariant stops[|stops| - 1] >= 0
      invariant |stops| == 1 ==> stops[0] < n
      decreases n - stops[|stops| - 1]
    {
      var k := |stops| - 1;
      assert Seeds(seed, k + 1) == NextSeed(Seeds(seed, k));
      JumpAdvances(rnd, stops[k], Draw(Seeds(seed, k + 1)));
      stops := stops + [Jump(rnd, stops[k], Draw(Seeds(seed, k + 1)))];
    }
  }

  /** With one more bucket, the keys that have it as a stop move to it, and no others. */
  lemma MovesIff(rnd: real -> real, seed: nat, n: int, stops: seq<int>)
    requires Rounding(rnd) && 1 <= n < EXACT && Stops(rnd, seed, n + 1, stops)
    ensures Bucket(rnd, seed, n + 1) == n <==> n in stops[..|stops| - 1]
    ensures n !in stops[..|stops| - 1] ==> Bucket(rnd, seed, n + 1) == Bucket(rnd, seed, n)
  {
    BucketIsLastStop(rnd, seed, n + 1, stops);
    MinimalMovement(rnd, seed, n, n + 1);
    if n in stops[..|stops| - 1] {
      var k :| 0 <= k < |stops| - 1 && stops[k] == n;
      StopsRise(rnd, seed, n + 1, stops, k);
    } else {
      assert stops[|stops| - 2] in stops[..|stops| - 1];
    }
  }

  lemma StopsRise(rnd: real -> real, seed: nat, n: int, stops: seq<int>, k: nat)
    requires Rounding(rnd) && n <= EXACT && Stops(rnd, seed, n, stops) && k < |stops| - 1
    ensures stops[k] <= stops[|stops| - 2]
    decreases |stops| - k
  {
    hide NextSeed, Draw, Jump;
    if k < |stops| - 2 {
      StopsRise(rnd, seed, n, stops, k + 1);
      assert stops[k + 1] == Jump(rnd, stops[k], Draw(Seeds(seed, k + 1)));
      assert Seeds(seed, k + 1) == NextSeed(Seeds(seed, k));
      JumpAdvances(rnd, stops[k], Draw(Seeds(seed, k + 1)));
    }
  }

  // ---------------------------------------------------------------- balance

  /** The jump in exact arithmetic. */
  function ExactJump(b: nat, r: nat): nat {
    (b + 1) * 0x8000_0000 / (r + 1)
  }

  lemma MulMonotone(x: nat, y: nat, d: nat)
    requires x <= y
    ensures x * d <= y * d
  {
    assert y * d - x * d == (y - x) * d;
  }

  lemma QuotientAtLeast(a: nat, d: nat, m: nat)
    requires d > 0
    ensures a / d >= m <==> m * d <= a
  {
    var q := a / d;
    assert a == q * d + a % d && 0 <= a % d < d;
    if q >= m {
      MulMonotone(m, q, d);
    } else {
      MulMonotone(q + 1, m, d);
      assert (q + 1) * d == q * d + d;
    }
  }

  function Below(k: nat): (s: set<nat>)
    ensures |s| == k && forall r: nat :: r in s <==> r < k
  {
    if k == 0 then {} else Below(k - 1) + {k - 1}
  }

  lemma FarIff(b: nat, r: nat, m: nat)
    requires m > 0
    ensures ExactJump(b, r) >= m <==> r < (b + 1) * 0x8000_0000 / m
  {
    var total := (b + 1) * 0x8000_0000;
    QuotientAtLeast(total, r + 1, m);
    QuotientAtLeast(total, m, r + 1);
    assert m * (r + 1) == (r + 1) * m;
  }

  /** The draws that take a key in bucket `b` to bucket `m` or beyond. */
  function FarDraws(b: nat, m: nat): set<nat> {
    set r | r in Below(DRAWS) && ExactJump(b, r) >= m
  }

  lemma CountPrefix(far: set<nat>, k: nat)
    requires forall r: nat :: r in far <==> r < k
    ensures |far| == k
  {
    assert far == Below(k);
  }

  /** Of the DRAWS equally likely draws, exactly floor((b+1) * DRAWS / m) send a key in bucket b
      to bucket m or beyond: the probability (b+1)/m the algorithm is built on. */
  lemma JumpBalance(b: nat, m: nat)
    requires m >= b + 1
    ensures |FarDraws(b, m)| == (b + 1) * 0x8000_0000 / m
  {
    ShareAtMostAll(b, m);
    var far, k := FarDraws(b, m), (b + 1) * 0x8000_0000 / m;
    forall r: nat ensures r in far <==> r < k {
      FarIff(b, r, m);
    }
    CountPrefix(far, k);
  }

  lemma ShareAtMostAll(b: nat, m: nat)
    requires m >= b + 1
    ensures (b + 1) * 0x8000_0000 / m <= DRAWS
  {
    var total := (b + 1) * 0x8000_0000;
    QuotientAtLeast(total, m, 0x8000_0001);
    assert 0x8000_0001 * m >= 0x8000_0001 * (b + 1);
  }

  /** In exact arithmetic the jump is this quotient. */
  lemma ExactIsJump(b: nat, r: nat)
    ensures Jump((x: real) => x, b, r) == ExactJump(b, r)
  {
    var a, d := (b + 1) * 0x8000_0000, r + 1;
    var x := (b + 1) as real * (2147483648.0 / d as real);
    Cancel((b + 1) as real, 2147483648.0, d as real);
    RealQuotient(a, d, x);
  }

  lemma FloorRounds()
    ensures Rounding((x: real) => x.Floor as real)
  {
  }

  lemma WholeQuotient(a: nat, d: nat)
    requires d > 0
    ensures (a as real / d as real).Floor == a / d
  {
    var x := a as real / d as real;
    assert x * d as real == a as real;
    RealQuotient(a, d, x);
  }

  /** The quotient is rounded before it is multiplied: with a rounding to whole numbers the jump is the
      whole quotient, multiplied. */
  lemma WholeIsJump(b: nat, r: nat)
    ensures Jump((x: real) => x.Floor as real, b, r) == (b + 1) * (0x8000_0000 / (r + 1))
  {
    WholeQuotient(0x8000_0000, r + 1);
    var q := 0x8000_0000 / (r + 1);
    ProductAsReal(b + 1, q);
    assert (b + 1) as real * q as real == ((b + 1) * q) as real;
  }

  lemma Cancel(x: real, y: real, d: real)
    requires d > 0.0
    ensures (x * (y / d)) * d == x * y
  {
    var q := y / d;
    assert q * d == y;
    assert (x * q) * d == x * (q * d);
  }

  lemma RealQuotient(a: nat, d: nat, x: real)
    requires d > 0 && x * d as real == a as real
    ensures x.Floor == a / d
  {
    var q := a / d;
    assert a == q * d + a % d;
    ProductAsReal(q, d);
    var p := q as real * d as real;
    assert p <= a as real < p + d as real;
    Between(x, q as real, d as real, a as real);
  }

  lemma Between(x: real, lo: real, d: real, a: real)
    requires d > 0.0 && x * d == a && lo * d <= a < lo * d + d
    ensures lo <= x < lo + 1.0
  {
    assert (lo + 1.0) * d == lo * d + d;
    RealMulLess(x, lo, d);
    RealMulLess(x, lo + 1.0, d);
  }

  lemma {:induction false} ProductAsReal(q: nat, d: nat)
    ensures q as real * d as real == (q * d) as real
  {
    if q > 0 {
      ProductAsReal(q - 1, d);
      assert q * d == (q - 1) * d + d;
      assert q as real * d as real == (q - 1) as real * d as real + d as real;
    }
  }

  lemma RealMulLess(x: real, y: real, d: real)
    requires d > 0.0
    ensures x < y <==> x * d < y * d
  {
    assert (y - x) * d == y * d - x * d;
  }
}
