/**
  When a player that consumes one second of audio per second never runs dry, if the
  prebuffer holds audio back until a target is reached and then passes it through.
  Seconds are reals; a yield carries its audio length, its arrival time and the compute
  time (milliseconds) the model reported for it.
*/
module Playback {
  import opened Options
  import opened Wire

  datatype Yield = Yield(pcm: Pcm, audio: real, at: real, ms: real := 0.0)

  // Audio in the first n yields.
  function Held(ys: seq<Yield>, n: nat): real
    requires n <= |ys|
  {
    if n == 0 then 0.0 else Held(ys, n - 1) + ys[n - 1].audio
  }

  // The number of yields after which the held audio first reaches the target.
  function StartFrom(ys: seq<Yield>, target: real, n: nat): (k: Option<nat>)
    requires n <= |ys|
    ensures k.Some? ==> n < k.value <= |ys| && Held(ys, k.value) >= target
    ensures k.Some? ==> forall i :: n < i < k.value ==> Held(ys, i) < target
    ensures k.None? ==> forall i :: n < i <= |ys| ==> Held(ys, i) < target
    decreases |ys| - n
  {
    if n == |ys| then None
    else if Held(ys, n + 1) >= target then Some(n + 1)
    else StartFrom(ys, target, n + 1)
  }

  function Start(ys: seq<Yield>, target: real): Option<nat> {
    StartFrom(ys, target, 0)
  }

  // A piece as a producer may deliver it: non-empty yields of at most `a` seconds, at
  // most `d` seconds in all, and from the moment playback starts at least `r` seconds
  // of audio per second.
  ghost predicate Admissible(ys: seq<Yield>, target: real, d: real, r: real, a: real) {
    && (forall i :: 0 <= i < |ys| ==> 0.0 < ys[i].audio <= a)
    && (forall i, j :: 0 <= i < j < |ys| ==> ys[i].at <= ys[j].at)
    && Held(ys, |ys|) <= d
    && RateFromStart(ys, target, r)
  }

  ghost predicate RateFromStart(ys: seq<Yield>, target: real, r: real) {
    var k := Start(ys, target);
    k.Some? ==> forall i :: k.value <= i < |ys| ==>
      Keeps(r, ys[i].at - ys[k.value - 1].at, Held(ys, i + 1) - Held(ys, k.value))
  }

  // `made` seconds of audio in `wall` seconds is rate r or better.
  predicate Keeps(r: real, wall: real, made: real) {
    r * wall <= made
  }

  // Playback starts with the yield that reaches the target; no later yield arrives
  // after everything before it has been played.
  ghost predicate GapFree(ys: seq<Yield>, target: real) {
    var k := Start(ys, target);
    k.Some? ==> forall i :: k.value <= i < |ys| ==> ys[i].at - ys[k.value - 1].at <= Held(ys, i)
  }

  lemma {:induction false} HeldGrows(ys: seq<Yield>, m: nat, n: nat)
    requires m <= n <= |ys|
    requires forall i :: 0 <= i < |ys| ==> 0.0 < ys[i].audio
    ensures Held(ys, m) <= Held(ys, n)
    decreases n
  {
    if m < n { HeldGrows(ys, m, n - 1); }
  }

  // ---- the exact threshold ---------------------------------------------------

  predicate Enough(target: real, d: real, r: real, a: real) {
    if target + a <= d then target >= d * (1.0 - r) + r * a else target * (1.0 + r) >= d
  }

  // The same facts with every product named, so that they are linear.
  lemma OneYieldLinear(target: real, d: real, x: real, y: real, rd: real, ra: real, rx: real, ry: real)
    requires target >= d - rd + ra
    requires rx - ra <= ry
    requires x - rx <= d - rd
    ensures x - target <= ry
  {
  }

  lemma Scaled(r: real, x: real, y: real)
    requires 0.0 <= r && x <= y
    ensures r * x <= r * y
  {
  }

  lemma Unscaled(r: real, x: real, y: real)
    requires 0.0 < r && r * x <= r * y
    ensures x <= y
  {
    if y < x { Strictly(r, x - y); Distribute(r, x, y); }
  }

  lemma Strictly(r: real, x: real)
    requires 0.0 < r && 0.0 < x
    ensures 0.0 < r * x
  {
  }

  lemma ShareOfYield(r: real, x: real, y: real, a: real)
    requires 0.0 <= r && x <= y + a
    ensures r * x - r * a <= r * y
  {
    Scaled(r, x, y + a);
    assert r * (y + a) == r * y + r * a;
  }

  lemma ShareOfRest(r: real, x: real, d: real)
    requires r <= 1.0 && x <= d
    ensures x - r * x <= d - r * d
  {
    var q := 1.0 - r;
    Scaled(q, x, d);
    assert q * x == x - r * x && q * d == d - r * d;
  }

  // The arithmetic of one yield: x seconds held with it, y without it.
  lemma OneSmallYield(target: real, d: real, r: real, a: real, x: real, y: real)
    requires 0.0 < r < 1.0 && target >= d * (1.0 - r) + r * a
    requires x <= y + a && x <= d
    ensures x - target <= r * y
  {
    Complement(r, d);
    ShareOfYield(r, x, y, a);
    ShareOfRest(r, x, d);
    OneYieldLinear(target, d, x, y, r * d, r * a, r * x, r * y);
  }

  lemma OneLargeYield(target: real, d: real, r: real, x: real, y: real)
    requires 0.0 < r < 1.0 && target * (1.0 + r) >= d
    requires target <= y && x <= d
    ensures x - target <= r * y
  {
    Scaled(r, target, y);
    var rt := r * target;
    assert target * (1.0 + r) == target + rt;
  }

  lemma OneYield(target: real, d: real, r: real, a: real, x: real, y: real)
    requires 0.0 < r < 1.0 && Enough(target, d, r, a)
    requires target <= y && x <= y + a && x <= d
    ensures x - target <= r * y
  {
    if target + a <= d {
      OneSmallYield(target, d, r, a, x, y);
    } else {
      OneLargeYield(target, d, r, x, y);
    }
  }

  lemma Distribute(r: real, x: real, a: real)
    ensures r * (x - a) == r * x - r * a
  {
  }

  lemma Complement(r: real, x: real)
    ensures (1.0 - r) * x == x - r * x && x * (1.0 - r) == x - r * x
  {
  }

  lemma OnTime(target: real, d: real, r: real, a: real, x: real, y: real, from: real, gap: real)
    requires 0.0 < r < 1.0 && Enough(target, d, r, a)
    requires target <= from <= y && x <= y + a && x <= d
    requires Keeps(r, gap, x - from)
    ensures gap <= y
  {
    OneYield(target, d, r, a, x, y);
    Unscaled(r, gap, y);
  }

  lemma EnoughIsGapFree(ys: seq<Yield>, target: real, d: real, r: real, a: real)
    requires 0.0 < r < 1.0 && Enough(target, d, r, a)
    requires Admissible(ys, target, d, r, a)
    ensures GapFree(ys, target)
  {
    hide Enough, Keeps;
    var start := Start(ys, target);
    if start.Some? {
      var k := start.value;
      forall i | k <= i < |ys| ensures ys[i].at - ys[k - 1].at <= Held(ys, i) {
        HeldGrows(ys, k, i);
        HeldGrows(ys, i + 1, |ys|);
        OnTime(target, d, r, a, Held(ys, i + 1), Held(ys, i), Held(ys, k), ys[i].at - ys[k - 1].at);
      }
    }
  }

  // ---- below the threshold some piece runs dry -----------------------------------

  lemma {:induction false} HeldFirst(xs: seq<Yield>, ys: seq<Yield>, n: nat)
    requires n <= |xs|
    ensures Held(xs + ys, n) == Held(xs, n)
  {
    if n > 0 { HeldFirst(xs, ys, n - 1); }
  }

  lemma {:induction false} HeldSecond(xs: seq<Yield>, ys: seq<Yield>, m: nat)
    requires m <= |ys|
    ensures Held(xs + ys, |xs| + m) == Held(xs, |xs|) + Held(ys, m)
  {
    if m == 0 {
      HeldFirst(xs, ys, |xs|);
    } else {
      HeldSecond(xs, ys, m - 1);
      assert (xs + ys)[|xs| + m - 1] == ys[m - 1];
    }
  }

  // n equal yields, all arriving at once.
  function Burst(n: nat, size: real): (ys: seq<Yield>)
    ensures |ys| == n && forall i :: 0 <= i < n ==> ys[i] == Yield([1], size, 0.0)
  {
    seq(n, _ => Yield([1], size, 0.0))
  }

  lemma {:induction false} BurstHeld(n: nat, size: real, m: nat)
    requires m <= n
    ensures Held(Burst(n, size), m) == m as real * size
  {
    if m > 0 {
      BurstHeld(n, size, m - 1);
      assert m as real * size == (m - 1) as real * size + size;
    }
  }

  // x seconds in yields of at most a.
  lemma Fill(x: real, a: real) returns (ys: seq<Yield>)
    requires 0.0 <= x && 0.0 < a
    ensures Held(ys, |ys|) == x
    ensures forall i :: 0 <= i < |ys| ==> 0.0 < ys[i].audio <= a && ys[i].at == 0.0
  {
    if x == 0.0 {
      ys := [];
    } else {
      var n := (x / a).Floor + 1;
      var size := x / n as real;
      FillSize(x, a, n);
      ys := Burst(n, size);
      BurstHeld(n, size, n);
    }
  }

  lemma FillSize(x: real, a: real, n: nat)
    requires 0.0 < x && 0.0 < a && n == (x / a).Floor + 1
    ensures n > 0 && 0.0 < x / n as real <= a && n as real * (x / n as real) == x
  {
    var m := n as real;
    Quotient(x, a, m);
    SizeBounds(x, a, m, x / m);
  }

  lemma Quotient(x: real, a: real, m: real)
    requires 0.0 < x && 0.0 < a && x / a < m
    ensures 0.0 < m && x < m * a && m * (x / m) == x
  {
    var q := x / a;
    assert q * a == x;
    assert 0.0 < q by { if q <= 0.0 { Scaled(a, q, 0.0); } }
    Strictly(a, m - q);
    Distribute(a, m, q);
  }

  lemma SizeBounds(x: real, a: real, m: real, size: real)
    requires 0.0 < m && 0.0 < x < m * a && m * size == x
    ensures 0.0 < size <= a
  {
    if size <= 0.0 { Scaled(m, size, 0.0); }
    if a < size { Scaled(m, a, size); }
  }

  // The first prefix that reaches the target is the one that equals it.
  lemma StartIs(ys: seq<Yield>, target: real, n: nat)
    requires 0 < n <= |ys| && Held(ys, n) == target
    requires forall i :: 0 <= i < |ys| ==> 0.0 < ys[i].audio
    ensures Start(ys, target) == Some(n)
  {
    var k := Start(ys, target);
    if k.Some? && k.value < n {
      HeldGrows(ys, k.value, n - 1);
    }
  }

  lemma Late(d: real, r: real, target: real, before: real)
    requires 0.0 < r && d - target > r * before
    ensures (d - target) / r > before
    ensures r * ((d - target) / r) == d - target
  {
    var gap := (d - target) / r;
    assert gap * r == d - target;
    if gap <= before { Scaled(r, gap, before); }
  }

  // How large the last, late yield is, and why it is too late.
  lemma LastYield(target: real, d: real, r: real, a: real) returns (z: real)
    requires 0.0 < r < 1.0 && 0.0 < a && 0.0 < target && !Enough(target, d, r, a)
    ensures 0.0 < z <= a && target + z <= d
    ensures d - target > r * (d - z)
  {
    if target + a <= d {
      z := a;
      Complement(r, d);
      Distribute(r, d, a);
    } else {
      z := d - target;
      var rt := r * target;
      assert target * (1.0 + r) == target + rt;
      Strictly(r, target);
      assert d - z == target;
    }
  }

  // Two bursts and one last yield.
  lemma Assemble(first: seq<Yield>, second: seq<Yield>, last: Yield) returns (ys: seq<Yield>)
    ensures ys == first + second + [last]
    ensures Held(ys, |first|) == Held(first, |first|)
    ensures Held(ys, |ys| - 1) == Held(first, |first|) + Held(second, |second|)
    ensures Held(ys, |ys|) == Held(ys, |ys| - 1) + last.audio
  {
    var early := first + second;
    ys := early + [last];
    HeldSecond(first, second, |second|);
    HeldFirst(early, [last], |early|);
    HeldFirst(first, second, |first|);
    HeldFirst(early, [last], |first|);
  }

  lemma NotEnoughHasGap(target: real, d: real, r: real, a: real) returns (ys: seq<Yield>)
    requires 0.0 < r < 1.0 && 0.0 < a && 0.0 < target && !Enough(target, d, r, a)
    ensures Admissible(ys, target, d, r, a) && !GapFree(ys, target)
  {
    var z := LastYield(target, d, r, a);
    var first := Fill(target, a);
    var second := Fill(d - z - target, a);
    Late(d, r, target, d - z);
    var at := (d - target) / r;
    assert at > d - z > 0.0;
    ys := Assemble(first, second, Yield([1], z, at));
    WitnessHasGap(ys, first, second, z, at, target, d, r, a);
  }

  lemma WitnessHasGap(ys: seq<Yield>, first: seq<Yield>, second: seq<Yield>, z: real, at: real,
                      target: real, d: real, r: real, a: real)
    requires 0.0 < r && 0.0 < target && 0.0 < z <= a && at > d - z > 0.0 && Keeps(r, at, d - target)
    requires ys == first + second + [Yield([1], z, at)]
    requires forall i :: 0 <= i < |first| ==> 0.0 < first[i].audio <= a && first[i].at == 0.0
    requires forall i :: 0 <= i < |second| ==> 0.0 < second[i].audio <= a && second[i].at == 0.0
    requires Held(first, |first|) == target && Held(ys, |first|) == target
    requires Held(ys, |ys| - 1) == d - z && Held(ys, |ys|) == d
    ensures Admissible(ys, target, d, r, a) && !GapFree(ys, target)
  {
    hide Keeps;
    assert |first| > 0;
    StartIs(ys, target, |first|);
    GapAtTheEnd(ys, target, d, r, a, |first|);
  }

  lemma GapAtTheEnd(ys: seq<Yield>, target: real, d: real, r: real, a: real, k: nat)
    requires 0.0 < r && 0 < k < |ys| && Start(ys, target) == Some(k) && Held(ys, k) == target
    requires Held(ys, |ys|) == d
    requires forall i :: 0 <= i < |ys| ==> 0.0 < ys[i].audio <= a
    requires forall i :: 0 <= i < |ys| - 1 ==> ys[i].at == 0.0
    requires ys[|ys| - 1].at > 0.0 && Keeps(r, ys[|ys| - 1].at, d - target)
    requires ys[|ys| - 1].at > Held(ys, |ys| - 1)
    ensures Admissible(ys, target, d, r, a) && !GapFree(ys, target)
  {
    forall i | k <= i < |ys|
      ensures Keeps(r, ys[i].at - ys[k - 1].at, Held(ys, i + 1) - Held(ys, k))
    {
      hide Keeps;
      HeldGrows(ys, k, i + 1);
      if i < |ys| - 1 { NoTimeKeeps(r, Held(ys, i + 1) - Held(ys, k)); }
    }
  }

  lemma NoTimeKeeps(r: real, made: real)
    requires 0.0 <= made
    ensures Keeps(r, 0.0, made)
  {
  }

  lemma RealTimeKeeps(r: real, wall: real, made: real)
    requires r >= 1.0 && 0.0 <= wall && Keeps(r, wall, made)
    ensures wall <= made
  {
    Scaled(wall, 1.0, r);
    assert wall * r == r * wall;
  }

  /** The threshold is exact: a target makes every admissible piece gap-free if and only
      if it is `Enough`. */
  lemma ThresholdIsExact(target: real, d: real, r: real, a: real)
    requires 0.0 < r < 1.0 && 0.0 < a && 0.0 < target
    ensures Enough(target, d, r, a) <==>
            forall ys :: Admissible(ys, target, d, r, a) ==> GapFree(ys, target)
  {
    if Enough(target, d, r, a) {
      forall ys | Admissible(ys, target, d, r, a) ensures GapFree(ys, target) {
        EnoughIsGapFree(ys, target, d, r, a);
      }
    } else {
      var ys := NotEnoughHasGap(target, d, r, a);
      assert Admissible(ys, target, d, r, a) && !GapFree(ys, target);
    }
  }

  // ---- the provider's target -----------------------------------------------------

  // What `_bridge_stream_buffered` holds back once an RTF r < 1 has been observed.
  function Prebuffer(estD: real, r: real, safety: real): real
    requires r != 0.0
  {
    estD * (1.0 - r) / r + safety
  }

  // The slack between the target and the exact threshold, in closed form.
  lemma PrebufferSlack(estD: real, r: real, safety: real, a: real)
    requires 0.0 < r < 1.0
    requires estD * (1.0 - r) * (1.0 - r) / r + safety >= r * a
    ensures Prebuffer(estD, r, safety) >= estD * (1.0 - r) + r * a
  {
    var p := estD * (1.0 - r);
    var q := p / r;
    assert q * r == p;
    var u := p * (1.0 - r) / r;
    assert u * r == p * (1.0 - r);
    assert p * (1.0 - r) == p - p * r;
    assert (q - p) * r == q * r - p * r;
    assert (q - p) * r == u * r;
    SameQuotient(r, q - p, u);
  }

  lemma SameQuotient(r: real, x: real, y: real)
    requires 0.0 < r && x * r == y * r
    ensures x == y
  {
    Unscaled(r, x, y);
    Unscaled(r, y, x);
  }

  // What the provider's prebuffer has to spare outlasts a yield of `a` seconds.
  predicate Spares(estD: real, r: real, safety: real, a: real)
    requires r != 0.0
  {
    estD * (1.0 - r) * (1.0 - r) / r + safety >= r * a
  }

  /** Gap-free playback: a piece of at most the estimated length that is produced at rate
      r < 1 in yields of at most a seconds never runs dry behind the provider's prebuffer
      if estD*(1-r)^2/r + safety >= r*a, however many yields it has. */
  lemma PrebufferIsGapFree(estD: real, r: real, safety: real, a: real)
    requires 0.0 < r < 1.0
    ensures Spares(estD, r, safety, a) ==>
              forall ys :: Admissible(ys, Prebuffer(estD, r, safety), estD, r, a) ==>
                             GapFree(ys, Prebuffer(estD, r, safety))
  {
    if Spares(estD, r, safety, a) {
      PrebufferSlack(estD, r, safety, a);
      SlackIsGapFree(Prebuffer(estD, r, safety), estD, r, a);
    }
  }

  // There is something to spare, and yields short enough fit in it.
  lemma ShortYields(estD: real, r: real, safety: real) returns (a: real)
    requires 0.0 < r < 1.0 && 0.0 < estD && 0.0 <= safety
    ensures 0.0 < a && Spares(estD, r, safety, a)
  {
    var q := 1.0 - r;
    var x := estD * q;
    Strictly(estD, q);
    var y := x * q;
    Strictly(x, q);
    var spare := y / r;
    PositiveQuotient(y, r);
    a := FittingYield(spare + safety, r);
    assert spare == estD * (1.0 - r) * (1.0 - r) / r;
  }

  lemma PositiveQuotient(x: real, r: real)
    requires 0.0 < x && 0.0 < r
    ensures 0.0 < x / r
  {
    var q := x / r;
    assert q * r == x;
  }

  lemma FittingYield(slack: real, r: real) returns (a: real)
    requires 0.0 < r && 0.0 < slack
    ensures 0.0 < a && r * a == slack
  {
    a := slack / r;
    assert a * r == slack;
  }

  lemma SlackIsGapFree(target: real, d: real, r: real, a: real)
    requires 0.0 < r < 1.0 && target >= d * (1.0 - r) + r * a
    ensures forall ys :: Admissible(ys, target, d, r, a) ==> GapFree(ys, target)
  {
    hide Keeps;
    FineImpliesEnough(target, d, r, a);
    forall ys | Admissible(ys, target, d, r, a) ensures GapFree(ys, target) {
      EnoughIsGapFree(ys, target, d, r, a);
    }
  }

  lemma FineImpliesEnough(target: real, d: real, r: real, a: real)
    requires 0.0 < r < 1.0 && target >= d * (1.0 - r) + r * a
    ensures Enough(target, d, r, a)
  {
    if target + a > d {
      Scaled(r, d - target, a);
      Distribute(r, d, target);
      Complement(r, d);
      var rt := r * target;
      assert target * (1.0 + r) == target + rt;
    }
  }

  // The README asks for at least d*(1-r)/r held back. For a piece of ten seconds at
  // half speed that is the whole piece; six seconds are enough.
  lemma LessThanTheWholePieceSuffices()
    ensures 10.0 * (1.0 - 0.5) / 0.5 == 10.0
    ensures forall ys :: Admissible(ys, 6.0, 10.0, 0.5, 1.0) ==> GapFree(ys, 6.0)
  {
    ThresholdIsExact(6.0, 10.0, 0.5, 1.0);
  }

  // ---- a rate that holds only from the start of production --------------------------

  // Pieces whose cumulative rate, counted from the start of production, is at least r.
  ghost predicate Sustained(ys: seq<Yield>, d: real, r: real, a: real) {
    && (forall i :: 0 <= i < |ys| ==> 0.0 < ys[i].audio <= a && 0.0 <= ys[i].at)
    && (forall i, j :: 0 <= i < j < |ys| ==> ys[i].at <= ys[j].at)
    && Held(ys, |ys|) <= d
    && forall i :: 0 <= i < |ys| ==> Keeps(r, ys[i].at, Held(ys, i + 1))
  }

  // A piece no longer than the target starts only with its last yield.
  lemma WholePieceIsGapFree(ys: seq<Yield>, target: real, d: real, r: real, a: real)
    requires Sustained(ys, d, r, a) && target >= d
    ensures GapFree(ys, target)
  {
    var start := Start(ys, target);
    if start.Some? && start.value < |ys| {
      HeldGrows(ys, start.value + 1, |ys|);
    }
  }

  // The longest time a piece of x seconds may take at rate r.
  lemma LatestTime(x: real, r: real) returns (at: real)
    requires 0.0 < r < 1.0 && 0.0 < x
    ensures at > x && Keeps(r, at, x)
  {
    at := x / r;
    assert at * r == x;
    if at <= x {
      Scaled(r, at, x);
      Strictly(x, 1.0 - r);
      Complement(r, x);
    }
  }

  lemma ShortOfThePieceHasGap(target: real, d: real, r: real, a: real) returns (ys: seq<Yield>)
    requires 0.0 < r < 1.0 && 0.0 < a && 0.0 < target < d
    ensures Sustained(ys, d, r, a) && !GapFree(ys, target)
  {
    var first := Fill(target, a);
    var z := if target + a <= d then a else d - target;
    var at := LatestTime(target + z, r);
    ys := first + [Yield([1], z, at)];
    HeldFirst(first, [Yield([1], z, at)], |first|);
    var k := |first|;
    assert Held(ys, k) == target && Held(ys, k + 1) == target + z && ys[k].at == at;
    hide Keeps;
    assert OneLate(ys, target, d, r, a);
    OneLateIsSustained(ys, target, d, r, a);
    OneLateHasGap(ys, target, d, r, a);
  }

  // Everything at once, then one late yield.
  ghost predicate OneLate(ys: seq<Yield>, target: real, d: real, r: real, a: real) {
    && |ys| > 1 && Held(ys, |ys| - 1) == target && Held(ys, |ys|) <= d
    && (forall i :: 0 <= i < |ys| ==> 0.0 < ys[i].audio <= a)
    && (forall i :: 0 <= i < |ys| - 1 ==> ys[i].at == 0.0)
    && ys[|ys| - 1].at > Held(ys, |ys|) && Keeps(r, ys[|ys| - 1].at, Held(ys, |ys|))
  }

  lemma OneLateIsSustained(ys: seq<Yield>, target: real, d: real, r: real, a: real)
    requires 0.0 < r && OneLate(ys, target, d, r, a)
    ensures Sustained(ys, d, r, a)
  {
    hide Keeps;
    HeldGrows(ys, 0, |ys|);
    forall i | 0 <= i < |ys| ensures Keeps(r, ys[i].at, Held(ys, i + 1)) {
      if i < |ys| - 1 {
        HeldGrows(ys, 0, i + 1);
        NoTimeKeeps(r, Held(ys, i + 1));
      }
    }
  }

  lemma OneLateHasGap(ys: seq<Yield>, target: real, d: real, r: real, a: real)
    requires 0.0 < target && OneLate(ys, target, d, r, a)
    ensures !GapFree(ys, target)
  {
    hide Keeps;
    var k := |ys| - 1;
    StartIs(ys, target, k);
    hide Start;
    HeldGrows(ys, k, k + 1);
    assert ys[k].at - ys[k - 1].at > Held(ys, k);
  }

  /** A rate that holds only from the start of production needs the whole piece held back:
      a target makes every such piece gap-free if and only if it is no shorter than the
      longest piece. The rate has to hold from the moment playback starts. */
  lemma CumulativeThresholdIsExact(target: real, d: real, r: real, a: real)
    requires 0.0 < r < 1.0 && 0.0 < a && 0.0 < target
    ensures target >= d <==> forall ys :: Sustained(ys, d, r, a) ==> GapFree(ys, target)
  {
    hide Sustained, GapFree;
    if target >= d {
      forall ys | Sustained(ys, d, r, a) ensures GapFree(ys, target) {
        WholePieceIsGapFree(ys, target, d, r, a);
      }
    } else {
      var ys := ShortOfThePieceHasGap(target, d, r, a);
      assert Sustained(ys, d, r, a) && !GapFree(ys, target);
    }
  }

  // At real time or faster nothing is held back: playback starts with the first yield,
  // and the piece is gap-free if no yield is longer than the first.
  lemma RealTimeIsGapFree(ys: seq<Yield>, d: real, r: real, a: real)
    requires r >= 1.0 && Admissible(ys, 0.0, d, r, a)
    requires forall i :: 0 < i < |ys| ==> ys[i].audio <= ys[0].audio
    ensures GapFree(ys, 0.0)
  {
    hide Keeps;
    var start := Start(ys, 0.0);
    if start.Some? {
      HeldGrows(ys, 0, 1);
      var k := start.value;
      assert k == 1;
      forall i | k <= i < |ys| ensures ys[i].at - ys[k - 1].at <= Held(ys, i) {
        RealTimeKeeps(r, ys[i].at - ys[0].at, Held(ys, i + 1) - Held(ys, 1));
        assert Held(ys, 1) == Held(ys, 0) + ys[0].audio;
      }
    }
  }
}
