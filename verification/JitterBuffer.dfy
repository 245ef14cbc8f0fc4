/**
  The adaptive prebuffer of the qwen3 provider: one piece is held back until its target
  is reached or it ends, then passed through. The consumer may close the generator at any
  `yield`, be cancelled while it waits for the next chunk, also for the first, and again
  while the generator waits for its producer.
*/
module JitterBuffer {
  import opened Options
  import opened Wire
  import opened Playback

  datatype Emission = Emission(pcm: Pcm, audio: real, at: real)
  // What comes after the last yield taken from the queue; `Interrupted`: a cancellation while
  // waiting there.
  datatype Ending = EndOfPiece(at: real) | Failure | Interrupted
  datatype Outcome = Finished | Raised | Abandoned | Cancelled
  datatype Knobs = Knobs(bootstrap: real, safety: real, initial: real)
  datatype Piece = Piece(chars: nat, ys: seq<Yield>, ending: Ending)

  // ---- rolling estimates -------------------------------------------------

  // What a request has observed: audio seconds, compute seconds, characters.
  datatype Estimates = Estimates(audio: real, wall: real, chars: nat)

  predicate Plausible(e: Estimates) {
    e.audio >= 0.0 && e.wall >= 0.0 && (e.wall > 0.0 ==> e.audio > 0.0)
  }

  function RtfOf(e: Estimates): (r: Option<real>)
    requires Plausible(e)
    ensures r.Some? ==> r.value > 0.0 && r.value * e.wall == e.audio
  {
    if e.wall <= 0.0 then None else Some(e.audio / e.wall)
  }

  function CharsPerSecOf(e: Estimates, bootstrap: real): (cps: real)
    requires bootstrap > 0.0
    ensures cps > 0.0
    ensures if e.audio > 0.0 && e.chars > 0 then cps * e.audio == e.chars as real else cps == bootstrap
  {
    if e.audio <= 0.0 || e.chars == 0 then bootstrap else e.chars as real / e.audio
  }

  class StreamStats {
    var audioS: real
    var wallS: real
    var chars: nat

    function Value(): Estimates
      reads this
    {
      Estimates(audioS, wallS, chars)
    }

    constructor ()
      ensures Value() == Estimates(0.0, 0.0, 0)
    {
      audioS, wallS, chars := 0.0, 0.0, 0;
    }

    method UpdateFromTiming(y: Yield)
      requires Plausible(Value()) && y.audio > 0.0 && y.ms >= 0.0
      modifies this
      ensures Plausible(Value())
      ensures Value() == Estimates(old(audioS) + y.audio, old(wallS) + y.ms / 1000.0, old(chars))
    {
      audioS := audioS + y.audio;
      wallS := wallS + y.ms / 1000.0;
    }
  }

  function EstimatedSeconds(chars: nat, cps: real): (d: real)
    requires cps > 0.0
    ensures d >= 1.0 && d * cps >= chars as real && (d == 1.0 || d * cps == chars as real)
  {
    if chars as real / cps > 1.0 then chars as real / cps else 1.0
  }

  function TargetSeconds(rtf: Option<real>, estD: real, knobs: Knobs): real
    requires rtf.Some? ==> rtf.value > 0.0
  {
    match rtf
    case None => knobs.initial
    case Some(r) => if r >= 1.0 then 0.0 else Prebuffer(estD, r, knobs.safety)
  }

  // The target of a piece, from what the pieces before it have shown.
  function TargetOf(e: Estimates, chars: nat, knobs: Knobs): real
    requires Plausible(e) && knobs.bootstrap > 0.0
  {
    TargetSeconds(RtfOf(e), EstimatedSeconds(chars, CharsPerSecOf(e, knobs.bootstrap)), knobs)
  }

  // d seconds are expected of the piece: at the characters per second seen so far, or the
  // assumed ones, but at least one second.
  ghost predicate EstimateFor(d: real, e: Estimates, chars: nat, knobs: Knobs) {
    && d >= 1.0
    && (if e.audio > 0.0 && e.chars > 0 then
          d * e.chars as real >= chars as real * e.audio
          && (d == 1.0 || d * e.chars as real == chars as real * e.audio)
        else d * knobs.bootstrap >= chars as real && (d == 1.0 || d * knobs.bootstrap == chars as real))
  }

  // t seconds are to be held back: the configured ones before any compute time was reported;
  // none at real time; below that what plays while the rest of the estimate is made, D(W-A)/A
  // for A seconds of audio made in W seconds, and the safety margin.
  ghost predicate TargetFor(t: real, e: Estimates, chars: nat, knobs: Knobs) {
    if e.wall <= 0.0 then t == knobs.initial
    else if e.audio >= e.wall then t == 0.0
    else exists d: real :: EstimateFor(d, e, chars, knobs)
                           && t * e.audio == d * (e.wall - e.audio) + knobs.safety * e.audio
  }

  /** What the target is, without division. */
  lemma TargetIs(e: Estimates, chars: nat, knobs: Knobs)
    requires Plausible(e) && knobs.bootstrap > 0.0
    ensures TargetFor(TargetOf(e, chars, knobs), e, chars, knobs)
  {
    if e.wall > 0.0 {
      var r := e.audio / e.wall;
      assert r * e.wall == e.audio;
      RateSide(r, e.audio, e.wall);
      if r < 1.0 {
        var cps := CharsPerSecOf(e, knobs.bootstrap);
        var d := EstimatedSeconds(chars, cps);
        EstimateIs(e, chars, knobs);
        var t := TargetOf(e, chars, knobs);
        assert t == Prebuffer(d, r, knobs.safety);
        ScaledTarget(t, d, r, knobs.safety, e.audio, e.wall);
      }
    }
  }

  lemma RateSide(r: real, audio: real, wall: real)
    requires wall > 0.0 && r * wall == audio
    ensures r >= 1.0 <==> audio >= wall
  {
    if r >= 1.0 { Scaled(wall, 1.0, r); }
    if r < 1.0 { Strictly(wall, 1.0 - r); Distribute(wall, 1.0, r); }
  }

  lemma EstimateIs(e: Estimates, chars: nat, knobs: Knobs)
    requires Plausible(e) && knobs.bootstrap > 0.0
    ensures EstimateFor(EstimatedSeconds(chars, CharsPerSecOf(e, knobs.bootstrap)), e, chars, knobs)
  {
    var cps := CharsPerSecOf(e, knobs.bootstrap);
    var d := EstimatedSeconds(chars, cps);
    if e.audio > 0.0 && e.chars > 0 {
      Reassociate(d, cps, e.audio);
      Scaled(e.audio, chars as real, d * cps);
    }
  }

  lemma Reassociate(a: real, b: real, c: real)
    ensures c * (a * b) == a * (b * c)
  {
  }

  lemma ScaledTarget(t: real, d: real, r: real, safety: real, audio: real, wall: real)
    requires 0.0 < r && r * wall == audio && t == d * (1.0 - r) / r + safety
    ensures t * audio == d * (wall - audio) + safety * audio
  {
    var x := d * (1.0 - r);
    var q := x / r;
    assert q * r == x;
    var y := q * audio;
    assert y == x * wall by { Reassociate(q, r, wall); assert wall * (q * r) == q * (r * wall); }
    assert (1.0 - r) * wall == wall - audio;
    Reassociate(d, 1.0 - r, wall);
    assert t * audio == y + safety * audio;
  }

  // Compute seconds the model reported for the first n yields.
  function Computed(ys: seq<Yield>, n: nat): real
    requires n <= |ys|
  {
    if n == 0 then 0.0 else Computed(ys, n - 1) + ys[n - 1].ms / 1000.0
  }

  // ---- what comes out ------------------------------------------------------

  ghost predicate WellFormed(ys: seq<Yield>) {
    forall i :: 0 <= i < |ys| ==> ys[i].audio > 0.0 && ys[i].ms >= 0.0
  }

  function Direct(ys: seq<Yield>): (out: seq<Emission>)
    ensures |out| == |ys| && forall j :: 0 <= j < |ys| ==> out[j] == Emission(ys[j].pcm, ys[j].audio, ys[j].at)
  {
    seq(|ys|, j requires 0 <= j < |ys| => Emission(ys[j].pcm, ys[j].audio, ys[j].at))
  }

  function AllAt(ys: seq<Yield>, at: real): (out: seq<Emission>)
    ensures |out| == |ys| && forall j :: 0 <= j < |ys| ==> out[j] == Emission(ys[j].pcm, ys[j].audio, at)
  {
    seq(|ys|, j requires 0 <= j < |ys| => Emission(ys[j].pcm, ys[j].audio, at))
  }

  // What a consumer that never closes is given: nothing, or everything from the moment
  // the target is reached or the piece ends.
  function Emissions(ys: seq<Yield>, target: real, ending: Ending): (out: seq<Emission>)
    ensures |out| == |ys| || out == []
  {
    match Start(ys, target)
    case Some(k) => AllAt(ys[..k], ys[k - 1].at) + Direct(ys[k..])
    case None => if ending.EndOfPiece? then AllAt(ys, ending.at) else []
  }

  // The target was reached by yield n at the latest, and `out` is what is out by then.
  ghost predicate Reached(ys: seq<Yield>, target: real, ending: Ending, n: nat, out: seq<Emission>) {
    && n <= |ys| == |Emissions(ys, target, ending)|
    && Start(ys, target).Some? && Start(ys, target).value <= n
    && out == Emissions(ys, target, ending)[..n]
  }

  // Reaching the target with yield i releases everything up to it.
  lemma {:induction false} Released(ys: seq<Yield>, target: real, ending: Ending, i: nat)
    requires i < |ys| && Held(ys, i + 1) >= target
    requires forall n :: 0 < n <= i ==> Held(ys, n) < target
    ensures Reached(ys, target, ending, i + 1, AllAt(ys[..i + 1], ys[i].at))
  {
    ReachedAt(ys, target, i);
    hide Start, StartFrom, Held;
    var out := AllAt(ys[..i + 1], ys[i].at) + Direct(ys[i + 1..]);
    assert Emissions(ys, target, ending) == out;
    assert out[..i + 1] == AllAt(ys[..i + 1], ys[i].at);
  }

  lemma ReachedAt(ys: seq<Yield>, target: real, i: nat)
    requires i < |ys| && Held(ys, i + 1) >= target
    requires forall n :: 0 < n <= i ==> Held(ys, n) < target
    ensures Start(ys, target) == Some(i + 1)
  {
  }

  lemma PassedOn(ys: seq<Yield>, target: real, ending: Ending, i: nat, out: seq<Emission>)
    requires i < |ys| && Reached(ys, target, ending, i, out)
    ensures Reached(ys, target, ending, i + 1, out + [Emission(ys[i].pcm, ys[i].audio, ys[i].at)])
  {
    var k := Start(ys, target).value;
    hide Start, StartFrom;
    var late := Direct(ys[k..]);
    assert late[i - k] == Emission(ys[k..][i - k].pcm, ys[k..][i - k].audio, ys[k..][i - k].at);
    assert Emissions(ys, target, ending)[i] == late[i - k];
  }

  // With no target the first yield goes out at once.
  lemma PassedFirst(ys: seq<Yield>, target: real, ending: Ending)
    requires ys != [] && ys[0].audio > 0.0 && target <= 0.0
    ensures Reached(ys, target, ending, 1, [] + [Emission(ys[0].pcm, ys[0].audio, ys[0].at)])
  {
    assert Held(ys, 1) == Held(ys, 0) + ys[0].audio;
    Released(ys, target, ending, 0);
    hide Reached, Emissions, Start, StartFrom, Held;
    assert AllAt(ys[..1], ys[0].at) == [] + [Emission(ys[0].pcm, ys[0].audio, ys[0].at)];
  }

  // What the consumer takes of it.
  lemma TakeReached(ys: seq<Yield>, target: real, ending: Ending, n: nat, out: seq<Emission>, limit: nat)
    requires Reached(ys, target, ending, n, out)
    ensures |out| == n <= |Emissions(ys, target, ending)| && |Take(out, limit)| == if limit <= n then limit else n
    ensures Take(out, limit) == if limit <= n then Take(Emissions(ys, target, ending), limit) else out
    ensures limit == n ==> out == Take(Emissions(ys, target, ending), limit)
  {
    hide Emissions, Start, StartFrom;
  }

  lemma NeverReached(ys: seq<Yield>, target: real, ending: Ending)
    requires forall n :: 0 < n <= |ys| ==> Held(ys, n) < target
    ensures Emissions(ys, target, ending) == if ending.EndOfPiece? then AllAt(ys, ending.at) else []
  {
  }

  function Take(out: seq<Emission>, limit: nat): (r: seq<Emission>)
    ensures r <= out && (|out| <= limit ==> r == out)
  {
    if limit <= |out| then out[..limit] else out
  }

  function OutcomeOf(out: seq<Emission>, limit: nat, ending: Ending): Outcome {
    if limit <= |out| then Abandoned else EndOutcome(ending)
  }

  function EndOutcome(ending: Ending): Outcome {
    match ending
    case EndOfPiece(_) => Finished
    case Failure => Raised
    case Interrupted => Cancelled
  }

  // Yield k is the first with which t seconds are held.
  ghost predicate FirstHolds(ys: seq<Yield>, t: real, k: nat) {
    0 < k <= |ys| && Held(ys, k) >= t && forall n :: 0 < n < k ==> Held(ys, n) < t
  }

  // At most `limit` chunks of a piece that is held back until t seconds of it are there, or it
  // has ended; what is held leaves then, and every later chunk as it comes.
  ghost predicate HeldBack(out: seq<Emission>, ys: seq<Yield>, t: real, ending: Ending, limit: nat) {
    && |out| <= |ys|
    && (forall j :: 0 <= j < |out| ==> out[j].pcm == ys[j].pcm && out[j].audio == ys[j].audio)
    && (forall k :: FirstHolds(ys, t, k) ==>
          && |out| == (if limit <= |ys| then limit else |ys|)
          && forall j :: 0 <= j < |out| ==> out[j].at == if j < k then ys[k - 1].at else ys[j].at)
    && ((forall k :: !FirstHolds(ys, t, k)) ==>
          && |out| == (if !ending.EndOfPiece? then 0 else if limit <= |ys| then limit else |ys|)
          && forall j :: 0 <= j < |out| ==> ending.EndOfPiece? && out[j].at == ending.at)
  }

  lemma FirstIsStart(ys: seq<Yield>, t: real, k: nat)
    requires FirstHolds(ys, t, k)
    ensures Start(ys, t) == Some(k)
  {
    ReachedAt(ys, t, k - 1);
  }

  lemma EmissionsHeldBack(ys: seq<Yield>, t: real, ending: Ending, limit: nat)
    ensures HeldBack(Take(Emissions(ys, t, ending), limit), ys, t, ending, limit)
  {
    var all := Emissions(ys, t, ending);
    var out := Take(all, limit);
    forall j | 0 <= j < |out| ensures j < |ys| && out[j].pcm == ys[j].pcm && out[j].audio == ys[j].audio
    {
      assert out[j] == all[j];
      EmissionAt(ys, t, ending, j);
    }
    if k: nat :| FirstHolds(ys, t, k) {
      FirstIsStart(ys, t, k);
      forall j | 0 <= j < |out| ensures out[j].at == if j < k then ys[k - 1].at else ys[j].at {
        EmissionAt(ys, t, ending, j);
      }
      forall m | FirstHolds(ys, t, m) ensures m == k { FirstIsStart(ys, t, m); }
    } else {
      NoStart(ys, t);
    }
  }

  // What comes out of a piece's buffer, whatever was observed before it: nothing leaves before
  // the configured seconds are held while no compute time was reported; at real time every
  // chunk leaves as it comes; and below that the target depends on the estimate.
  ghost predicate BufferedFor(out: seq<Emission>, ys: seq<Yield>, chars: nat, ending: Ending, e: Estimates,
                              knobs: Knobs, limit: nat)
  {
    && (exists t :: TargetFor(t, e, chars, knobs) && HeldBack(out, ys, t, ending, limit))
    && (e.wall <= 0.0 ==> HeldBack(out, ys, knobs.initial, ending, limit))
    && (0.0 < e.wall <= e.audio ==>
          && |out| == (if limit <= |ys| then limit else |ys|)
          && forall j :: 0 <= j < |out| ==> out[j] == Emission(ys[j].pcm, ys[j].audio, ys[j].at))
  }

  lemma BufferedIs(ys: seq<Yield>, chars: nat, ending: Ending, e: Estimates, knobs: Knobs, limit: nat)
    requires WellFormed(ys) && Plausible(e) && knobs.bootstrap > 0.0
    ensures var out := Take(Emissions(ys, TargetOf(e, chars, knobs), ending), limit);
      BufferedFor(out, ys, chars, ending, e, knobs, limit)
  {
    var t := TargetOf(e, chars, knobs);
    TargetIs(e, chars, knobs);
    hide TargetOf, Emissions, Take, EstimateFor;
    var out := Take(Emissions(ys, t, ending), limit);
    EmissionsHeldBack(ys, t, ending, limit);
    if 0.0 < e.wall <= e.audio && ys != [] {
      assert Held(ys, 1) == Held(ys, 0) + ys[0].audio;
      assert FirstHolds(ys, t, 1);
    }
  }

  lemma NoStart(ys: seq<Yield>, t: real)
    requires forall k :: !FirstHolds(ys, t, k)
    ensures Start(ys, t).None?
  {
    if Start(ys, t).Some? { assert FirstHolds(ys, t, Start(ys, t).value); }
  }

  function Observed(e: Estimates, ys: seq<Yield>, chars: nat): Estimates {
    Estimates(e.audio + Held(ys, |ys|), e.wall + Computed(ys, |ys|), e.chars + chars)
  }

  class Bridge {
    var buf: seq<Yield>
    var bufS: real
    var passthrough: bool
    var cancelled: bool
    var producerSettled: bool

    constructor ()
      ensures buf == [] && bufS == 0.0 && !passthrough && !producerSettled
    {
      buf, bufS, passthrough, cancelled, producerSettled := [], 0.0, false, false, false;
    }

    // The `finally` block: tell the producer to stop and wait for its thread. `again`: another
    // cancellation arrives during that wait, which only exceptions of class Exception survive.
    method Settle(outcome: Outcome, again: bool) returns (end: Outcome)
      modifies `cancelled, `producerSettled
      ensures cancelled && producerSettled == !again
      ensures end == if again then Cancelled else outcome
    {
      cancelled, producerSettled := true, !again;
      end := if again then Cancelled else outcome;
    }

    // Everything held leaves in order, at time `at`. The consumer closes when it has `limit`
    // chunks.
    method Flush(out: seq<Emission>, at: real, limit: nat) returns (out': seq<Emission>)
      requires |out| < limit
      modifies this
      ensures out' == Take(out + AllAt(old(buf), at), limit)
      ensures |out'| < limit ==> buf == []
      ensures passthrough == old(passthrough) && bufS == old(bufS)
    {
      ghost var whole := buf;
      ghost var all := AllAt(whole, at);
      out' := out;
      while buf != []
        invariant |buf| <= |whole| && buf == whole[|whole| - |buf|..]
        invariant out' == out + all[..|whole| - |buf|]
        invariant |out'| < limit
        invariant passthrough == old(passthrough) && bufS == old(bufS)
        decreases |buf|
      {
        var y := buf[0];
        buf := buf[1..];
        out' := out' + [Emission(y.pcm, y.audio, at)];
        if |out'| == limit {
          return;
        }
      }
    }

    // `_bridge_stream`: emit as soon as the model yields.
    method BridgeFast(ys: seq<Yield>, ending: Ending, limit: nat, again: bool)
      returns (out: seq<Emission>, outcome: Outcome)
      requires limit > 0
      modifies this
      ensures out == Take(Direct(ys), limit)
      ensures outcome == if again then Cancelled else OutcomeOf(Direct(ys), limit, ending)
      ensures cancelled && producerSettled == !again
    {
      out := [];
      var i := 0;
      while i < |ys|
        invariant 0 <= i <= |ys| && i < limit
        invariant out == Direct(ys)[..i]
      {
        out := out + [Emission(ys[i].pcm, ys[i].audio, ys[i].at)];
        i := i + 1;
        if |out| == limit {
          outcome := Settle(Abandoned, again);
          return;
        }
      }
      outcome := Settle(EndOutcome(ending), again);
    }

    // After i items: nothing is out and everything is held, or the target was reached
    // and nothing is held.
    ghost predicate Tracks(ys: seq<Yield>, i: nat, target: real, ending: Ending, out: seq<Emission>)
      requires i <= |ys|
      reads this
    {
      if passthrough then
        && buf == []
        && (if i == 0 then target <= 0.0 && out == [] else Reached(ys, target, ending, i, out))
      else
        && buf == ys[..i] && out == [] && bufS == Held(ys, i)
        && forall n :: 0 <= n <= i ==> Held(ys, n) < target
    }

    // One item of the loop of `_bridge_stream_buffered`.
    method OnItem(ys: seq<Yield>, i: nat, target: real, ghost ending: Ending, out: seq<Emission>, limit: nat)
      returns (out': seq<Emission>)
      requires i < |ys| && WellFormed(ys) && |out| < limit && Tracks(ys, i, target, ending, out)
      modifies this
      ensures |out'| < limit ==> Tracks(ys, i + 1, target, ending, out')
      ensures |out'| >= limit ==> |out'| == limit <= |Emissions(ys, target, ending)|
      ensures |out'| >= limit ==> out' == Take(Emissions(ys, target, ending), limit)
    {
      hide Emissions, Reached, AllAt, Take, Start, StartFrom;
      var y := ys[i];
      if passthrough {
        if i > 0 { PassedOn(ys, target, ending, i, out); } else { PassedFirst(ys, target, ending); }
        out' := out + [Emission(y.pcm, y.audio, y.at)];
        TakeReached(ys, target, ending, i + 1, out', limit);
      } else {
        out' := HoldItem(ys, i, target, ending, limit);
      }
    }

    // An item before the target is reached.
    method HoldItem(ys: seq<Yield>, i: nat, target: real, ghost ending: Ending, limit: nat)
      returns (out': seq<Emission>)
      requires i < |ys| && WellFormed(ys) && 0 < limit && !passthrough && Tracks(ys, i, target, ending, [])
      modifies this
      ensures |out'| < limit ==> Tracks(ys, i + 1, target, ending, out')
      ensures |out'| >= limit ==> |out'| == limit <= |Emissions(ys, target, ending)|
      ensures |out'| >= limit ==> out' == Take(Emissions(ys, target, ending), limit)
    {
      hide Emissions, Reached, AllAt, Take, Start, StartFrom, WellFormed;
      var y := ys[i];
      assert ys[..i] + [y] == ys[..i + 1];
      buf := buf + [y];
      bufS := bufS + y.audio;
      out' := [];
      if bufS >= target {
        Released(ys, target, ending, i);
        hide Held;
        ghost var all := AllAt(buf, y.at);
        TakeReached(ys, target, ending, i + 1, all, limit);
        assert [] + all == all;
        passthrough := true;
        out' := Flush(out', y.at, limit);
      }
    }

    // `_bridge_stream_buffered`, one piece.
    method BridgeBuffered(ys: seq<Yield>, chars: nat, ending: Ending, stats: StreamStats, knobs: Knobs,
                          limit: nat, again: bool)
      returns (out: seq<Emission>, outcome: Outcome)
      requires WellFormed(ys) && Plausible(stats.Value()) && knobs.bootstrap > 0.0 && limit > 0
      requires buf == [] && bufS == 0.0
      modifies this, stats
      ensures var all := Emissions(ys, TargetOf(old(stats.Value()), chars, knobs), ending);
        && out == Take(all, limit)
        && outcome == if again then Cancelled else OutcomeOf(all, limit, ending)
      ensures BufferedFor(out, ys, chars, ending, old(stats.Value()), knobs, limit)
      ensures cancelled && producerSettled == !again
      ensures Plausible(stats.Value()) && stats.chars == old(stats.chars) + chars
      ensures outcome.Finished? ==> stats.Value() == Observed(old(stats.Value()), ys, chars)
    {
      BufferedIs(ys, chars, ending, stats.Value(), knobs, limit);
      hide TargetSeconds, EstimatedSeconds, RtfOf, CharsPerSecOf, Start, StartFrom, Emissions, BufferedFor;
      var estD := EstimatedSeconds(chars, CharsPerSecOf(stats.Value(), knobs.bootstrap));
      var target := TargetSeconds(RtfOf(stats.Value()), estD, knobs);
      stats.chars := stats.chars + chars;
      passthrough := target <= 0.0;
      out := [];
      var i := 0;
      while i < |ys|
        invariant 0 <= i <= |ys| && |out| < limit
        invariant Plausible(stats.Value()) && stats.chars == old(stats.chars) + chars
        invariant stats.audioS == old(stats.audioS) + Held(ys, i)
        invariant stats.wallS == old(stats.wallS) + Computed(ys, i)
        invariant Tracks(ys, i, target, ending, out)
      {
        stats.UpdateFromTiming(ys[i]);
        out := OnItem(ys, i, target, ending, out, limit);
        i := i + 1;
        if |out| == limit {
          outcome := Settle(Abandoned, again);
          return;
        }
      }
      out, outcome := Finish(ys, target, ending, out, limit);
      outcome := Settle(outcome, again);
    }

    // What is still to come once all items are taken: what is held, if the piece ends.
    lemma AtEnd(ys: seq<Yield>, target: real, ending: Ending, out: seq<Emission>)
      requires Tracks(ys, |ys|, target, ending, out)
      ensures Emissions(ys, target, ending) == out + (if ending.EndOfPiece? then AllAt(buf, ending.at) else [])
    {
      hide Start, StartFrom, Emissions;
      assert ys[..|ys|] == ys;
      if passthrough && ys != [] {
        assert out == Emissions(ys, target, ending);
        assert buf == [] && (ending.EndOfPiece? ==> AllAt(buf, ending.at) == []);
      } else {
        NeverReached(ys, target, ending);
      }
    }

    // The end of a piece: the sentinel flushes what is held; a failure, or a cancellation at
    // the queue, drops it.
    method Finish(ys: seq<Yield>, target: real, ending: Ending, out: seq<Emission>, limit: nat)
      returns (out': seq<Emission>, outcome: Outcome)
      requires |out| < limit && Tracks(ys, |ys|, target, ending, out)
      modifies this
      ensures out' == Take(Emissions(ys, target, ending), limit)
      ensures outcome == OutcomeOf(Emissions(ys, target, ending), limit, ending)
    {
      hide Emissions, Tracks, AllAt;
      AtEnd(ys, target, ending, out);
      out' := out;
      if ending.EndOfPiece? {
        out' := Flush(out, ending.at, limit);
        outcome := if |out'| == limit then Abandoned else Finished;
      } else {
        outcome := EndOutcome(ending);
      }
    }
  }

  // ---- transparency ----------------------------------------------------------

  function Pcms(out: seq<Emission>): (r: seq<Pcm>)
    ensures |r| == |out| && forall j :: 0 <= j < |out| ==> r[j] == out[j].pcm
  {
    seq(|out|, j requires 0 <= j < |out| => out[j].pcm)
  }

  lemma EmissionAt(ys: seq<Yield>, target: real, ending: Ending, j: nat)
    requires j < |Emissions(ys, target, ending)|
    ensures j < |ys| && Emissions(ys, target, ending)[j].pcm == ys[j].pcm
    ensures Emissions(ys, target, ending)[j].audio == ys[j].audio
    ensures Emissions(ys, target, ending)[j].at ==
              match Start(ys, target)
              case None => (if ending.EndOfPiece? then ending.at else 0.0)
              case Some(k) => if j < k then ys[k - 1].at else ys[j].at
  {
  }

  /** The buffer is transparent: on a normal end it has yielded exactly what the fast path
      yields, on an error, a cancellation or an early close a prefix of it. */
  lemma BufferIsTransparent(ys: seq<Yield>, target: real, ending: Ending, limit: nat)
    ensures Pcms(Take(Emissions(ys, target, ending), limit)) <= Pcms(Direct(ys))
    ensures OutcomeOf(Emissions(ys, target, ending), limit, ending) == Finished ==>
              Pcms(Take(Emissions(ys, target, ending), limit)) == Pcms(Direct(ys))
  {
    var all := Emissions(ys, target, ending);
    forall j | 0 <= j < |all| ensures all[j].pcm == Direct(ys)[j].pcm {
      EmissionAt(ys, target, ending, j);
    }
  }

  /** Nothing leaves the buffer before the held audio has reached the target or the piece
      has ended; a piece that never reaches it leaves as a whole, or not at all. */
  lemma NothingEarly(ys: seq<Yield>, target: real, ending: Ending, j: nat)
    requires forall a, b :: 0 <= a < b < |ys| ==> ys[a].at <= ys[b].at
    requires j < |Emissions(ys, target, ending)|
    ensures match Start(ys, target)
            case Some(k) => Held(ys, k) >= target && Emissions(ys, target, ending)[j].at >= ys[k - 1].at
            case None => ending.EndOfPiece? && Emissions(ys, target, ending)[j].at == ending.at
  {
    EmissionAt(ys, target, ending, j);
  }

  // ---- playback of what comes out --------------------------------------------

  function Given(out: seq<Emission>, n: nat): real
    requires n <= |out|
  {
    if n == 0 then 0.0 else Given(out, n - 1) + out[n - 1].audio
  }

  // A player that starts with the first emission is never left waiting for the next.
  ghost predicate PlaysThrough(out: seq<Emission>) {
    forall j :: 0 < j < |out| ==> out[j].at - out[0].at <= Given(out, j)
  }

  lemma {:induction false} GivenIsHeld(ys: seq<Yield>, target: real, ending: Ending, n: nat)
    requires n <= |Emissions(ys, target, ending)|
    ensures n <= |ys| && Given(Emissions(ys, target, ending), n) == Held(ys, n)
  {
    if n > 0 {
      GivenIsHeld(ys, target, ending, n - 1);
      EmissionAt(ys, target, ending, n - 1);
    }
  }

  /** What the player hears of the buffered output is gap-free exactly when `GapFree`
      says so of the producer's schedule. */
  lemma OutputPlaysThrough(ys: seq<Yield>, target: real, ending: Ending)
    requires WellFormed(ys)
    requires Start(ys, target).Some?
    ensures PlaysThrough(Emissions(ys, target, ending)) <==> GapFree(ys, target)
  {
    var out := Emissions(ys, target, ending);
    var k := Start(ys, target).value;
    EmissionAt(ys, target, ending, 0);
    assert |out| == |ys|;
    forall j | 0 < j < |out|
      ensures out[j].at - out[0].at <= Given(out, j) <==> (j < k || ys[j].at - ys[k - 1].at <= Held(ys, j))
    {
      EmissionAt(ys, target, ending, j);
      GivenIsHeld(ys, target, ending, j);
      HeldGrows(ys, 0, j);
    }
    if PlaysThrough(out) {
      forall i | k <= i < |ys| ensures ys[i].at - ys[k - 1].at <= Held(ys, i) {
        assert out[i].at - out[0].at <= Given(out, i);
      }
    }
  }

  lemma TargetPlaysThrough(ys: seq<Yield>, ending: Ending, r: real, estD: real, knobs: Knobs, a: real)
    requires 0.0 < r < 1.0 && WellFormed(ys) && Spares(estD, r, knobs.safety, a)
    requires Admissible(ys, Prebuffer(estD, r, knobs.safety), estD, r, a)
    requires ending.EndOfPiece? || Start(ys, Prebuffer(estD, r, knobs.safety)).Some?
    ensures PlaysThrough(Emissions(ys, Prebuffer(estD, r, knobs.safety), ending))
  {
    hide Keeps, Spares, Prebuffer, Admissible, WellFormed, GapFree, PlaysThrough, Start, Emissions;
    var target := Prebuffer(estD, r, knobs.safety);
    PrebufferIsGapFree(estD, r, knobs.safety, a);
    if Start(ys, target).Some? {
      OutputPlaysThrough(ys, target, ending);
    } else {
      HeldBackPlaysThrough(ys, target, ending);
    }
  }

  /** The provider's own target, as `BridgeBuffered` computes it from the estimates e: with an
      observed rate below 1, a piece no longer than its estimate that keeps that rate from the
      start of playback is heard without a gap. */
  lemma ProviderPlaysThrough(ys: seq<Yield>, ending: Ending, e: Estimates, chars: nat, knobs: Knobs, a: real)
    requires WellFormed(ys) && Plausible(e) && knobs.bootstrap > 0.0
    requires RtfOf(e).Some? && RtfOf(e).value < 1.0
    ensures var r, estD := RtfOf(e).value, EstimatedSeconds(chars, CharsPerSecOf(e, knobs.bootstrap));
      Spares(estD, r, knobs.safety, a) ==>
      var target := TargetOf(e, chars, knobs);
      Admissible(ys, target, estD, r, a) && (ending.EndOfPiece? || Start(ys, target).Some?) ==>
        PlaysThrough(Emissions(ys, target, ending))
  {
    hide Keeps, RtfOf, EstimatedSeconds, CharsPerSecOf, Spares, Prebuffer, Admissible, WellFormed, PlaysThrough,
      Start, Emissions;
    var r, estD := RtfOf(e).value, EstimatedSeconds(chars, CharsPerSecOf(e, knobs.bootstrap));
    var target := TargetOf(e, chars, knobs);
    assert target == Prebuffer(estD, r, knobs.safety);
    if Spares(estD, r, knobs.safety, a) && Admissible(ys, target, estD, r, a)
       && (ending.EndOfPiece? || Start(ys, target).Some?) {
      TargetPlaysThrough(ys, ending, r, estD, knobs, a);
    }
  }

  /** In the fluid limit the provider's target needs no condition: whatever it has observed,
      yields short enough make every such piece play through. */
  lemma ShortYieldsPlayThrough(e: Estimates, chars: nat, knobs: Knobs) returns (a: real)
    requires Plausible(e) && knobs.bootstrap > 0.0 && knobs.safety >= 0.0
    requires RtfOf(e).Some? && RtfOf(e).value < 1.0
    ensures a > 0.0
    ensures var r, estD := RtfOf(e).value, EstimatedSeconds(chars, CharsPerSecOf(e, knobs.bootstrap));
      var target := TargetOf(e, chars, knobs);
      forall ys, ending: Ending ::
        WellFormed(ys) && Admissible(ys, target, estD, r, a) && (ending.EndOfPiece? || Start(ys, target).Some?) ==>
          PlaysThrough(Emissions(ys, target, ending))
  {
    hide Keeps, Spares, Admissible, WellFormed, PlaysThrough, RtfOf, EstimatedSeconds, CharsPerSecOf, TargetOf,
      Start, Emissions;
    var r, estD := RtfOf(e).value, EstimatedSeconds(chars, CharsPerSecOf(e, knobs.bootstrap));
    var target := TargetOf(e, chars, knobs);
    a := ShortYields(estD, r, knobs.safety);
    forall ys, ending: Ending | WellFormed(ys) && Admissible(ys, target, estD, r, a)
                        && (ending.EndOfPiece? || Start(ys, target).Some?)
      ensures PlaysThrough(Emissions(ys, target, ending))
    {
      ProviderPlaysThrough(ys, ending, e, chars, knobs, a);
    }
  }

  lemma HeldBackPlaysThrough(ys: seq<Yield>, target: real, ending: Ending)
    requires WellFormed(ys) && Start(ys, target).None? && ending.EndOfPiece?
    ensures PlaysThrough(Emissions(ys, target, ending))
  {
    var out := Emissions(ys, target, ending);
    forall j | 0 < j < |out| ensures out[j].at - out[0].at <= Given(out, j) {
      GivenIsHeld(ys, target, ending, j);
      HeldGrows(ys, 0, j);
    }
  }

  // ---- a whole request ---------------------------------------------------------

  // The audio of the pieces from the i-th on.
  function AllPcm(pieces: seq<Piece>, i: nat): seq<Pcm>
    requires i <= |pieces|
    decreases |pieces| - i
  {
    if i == |pieces| then [] else Pcms(Direct(pieces[i].ys)) + AllPcm(pieces, i + 1)
  }

  ghost predicate AllWellFormed(pieces: seq<Piece>) {
    forall i :: 0 <= i < |pieces| ==> WellFormed(pieces[i].ys)
  }

  lemma {:induction false} SumsNonNegative(ys: seq<Yield>, n: nat)
    requires WellFormed(ys) && n <= |ys|
    ensures Held(ys, n) >= 0.0 && Computed(ys, n) >= 0.0 && (n > 0 ==> Held(ys, n) > 0.0)
    ensures n == 0 ==> Computed(ys, n) == 0.0
  {
    if n > 0 { SumsNonNegative(ys, n - 1); }
  }

  lemma ObservedPlausible(e: Estimates, ys: seq<Yield>, chars: nat)
    requires Plausible(e) && WellFormed(ys)
    ensures Plausible(Observed(e, ys, chars))
  {
    SumsNonNegative(ys, |ys|);
  }

  // What a consumer that never closes is given from the i-th piece on: each piece behind
  // its own target, until one fails or is interrupted.
  ghost function Request(pieces: seq<Piece>, i: nat, e: Estimates, knobs: Knobs): seq<Emission>
    requires i <= |pieces| && AllWellFormed(pieces) && Plausible(e) && knobs.bootstrap > 0.0
    decreases |pieces| - i
  {
    if i == |pieces| then []
    else
      var p := pieces[i];
      var here := Emissions(p.ys, TargetOf(e, p.chars, knobs), p.ending);
      ObservedPlausible(e, p.ys, p.chars);
      if !p.ending.EndOfPiece? then here else here + Request(pieces, i + 1, Observed(e, p.ys, p.chars), knobs)
  }

  // How a request ends whose consumer never closes: as its first piece that does not end.
  function EndOf(pieces: seq<Piece>, i: nat): Outcome
    requires i <= |pieces|
    decreases |pieces| - i
  {
    if i == |pieces| then Finished
    else if pieces[i].ending.EndOfPiece? then EndOf(pieces, i + 1)
    else EndOutcome(pieces[i].ending)
  }

  lemma {:induction false} FinishesExactly(pieces: seq<Piece>, i: nat)
    requires i <= |pieces|
    ensures EndOf(pieces, i) == Finished <==> forall k :: i <= k < |pieces| ==> pieces[k].ending.EndOfPiece?
    decreases |pieces| - i
  {
    if i < |pieces| { FinishesExactly(pieces, i + 1); }
  }

  /** The chunked request: the pieces in turn, each behind its own buffer whose target comes
      from what the pieces before it have shown, cut where the consumer closes or is cancelled.
      No wait for a producer is cancelled here. */
  method SynthesizeStream(pieces: seq<Piece>, knobs: Knobs, limit: nat)
    returns (out: seq<Emission>, outcome: Outcome)
    requires limit > 0 && knobs.bootstrap > 0.0 && AllWellFormed(pieces)
    ensures out == Take(Request(pieces, 0, Estimates(0.0, 0.0, 0), knobs), limit)
    ensures outcome == if limit <= |Request(pieces, 0, Estimates(0.0, 0.0, 0), knobs)| then Abandoned
                       else EndOf(pieces, 0)
    ensures forall i :: 0 <= i < |pieces| && EndedUpTo(pieces, i) && Yields(pieces, i) < limit ==>
      PieceHeld(out, pieces, i, knobs, limit)
  {
    hide Emissions, TargetOf, Observed, Start, StartFrom, Held, Take, Request, PieceHeld, EndedUpTo;
    forall i | 0 <= i < |pieces| && EndedUpTo(pieces, i) && Yields(pieces, i) < limit
      ensures PieceHeld(Take(Request(pieces, 0, Estimates(0.0, 0.0, 0), knobs), limit), pieces, i, knobs, limit)
    {
      PieceIsHeld(pieces, i, knobs, limit);
    }
    var stats := new StreamStats();
    out := [];
    ghost var all := Request(pieces, 0, stats.Value(), knobs);
    for i := 0 to |pieces|
      invariant Plausible(stats.Value()) && |out| < limit
      invariant out + Request(pieces, i, stats.Value(), knobs) == all
      invariant EndOf(pieces, 0) == EndOf(pieces, i)
    {
      var bridge := new Bridge();
      var piece := pieces[i];
      ghost var e := stats.Value();
      ghost var here := Emissions(piece.ys, TargetOf(e, piece.chars, knobs), piece.ending);
      RequestStep(pieces, i, e, knobs);
      var got, end := bridge.BridgeBuffered(piece.ys, piece.chars, piece.ending, stats, knobs, limit - |out|, false);
      TakeMore(out, here, all, limit);
      out := out + got;
      if !end.Finished? {
        return out, end;
      }
    }
    RequestDone(pieces, stats.Value(), knobs);
    TakeMore(out, [], all, limit);
    outcome := Finished;
  }

  // The first i pieces came to their end.
  ghost predicate EndedUpTo(pieces: seq<Piece>, i: nat)
    requires i <= |pieces|
  {
    forall k :: 0 <= k < i ==> pieces[k].ending.EndOfPiece?
  }

  // How many chunks they made, and what the request has seen behind them.
  ghost function Yields(pieces: seq<Piece>, i: nat): nat
    requires i <= |pieces|
  {
    if i == 0 then 0 else Yields(pieces, i - 1) + |pieces[i - 1].ys|
  }

  ghost function Seen(pieces: seq<Piece>, i: nat): (e: Estimates)
    requires i <= |pieces| && AllWellFormed(pieces)
    ensures Plausible(e)
  {
    if i == 0 then Estimates(0.0, 0.0, 0)
    else
      ObservedPlausible(Seen(pieces, i - 1), pieces[i - 1].ys, pieces[i - 1].chars);
      Observed(Seen(pieces, i - 1), pieces[i - 1].ys, pieces[i - 1].chars)
  }

  // Behind the chunks of the pieces before it, the i-th piece leaves as its buffer lets it,
  // with what those pieces have shown.
  ghost predicate PieceHeld(out: seq<Emission>, pieces: seq<Piece>, i: nat, knobs: Knobs, limit: nat)
    requires i < |pieces| && AllWellFormed(pieces)
  {
    exists to: nat :: PieceHeldUpTo(out, pieces, i, knobs, limit, to)
  }

  ghost predicate PieceHeldUpTo(out: seq<Emission>, pieces: seq<Piece>, i: nat, knobs: Knobs, limit: nat, to: nat)
    requires i < |pieces| && AllWellFormed(pieces)
  {
    var from, p := Yields(pieces, i), pieces[i];
    from <= to <= |out| && from <= limit
    && BufferedFor(out[from..to], p.ys, p.chars, p.ending, Seen(pieces, i), knobs, limit - from)
  }

  lemma PieceIsHeld(pieces: seq<Piece>, i: nat, knobs: Knobs, limit: nat)
    requires i < |pieces| && AllWellFormed(pieces) && knobs.bootstrap > 0.0
    requires EndedUpTo(pieces, i) && Yields(pieces, i) < limit
    ensures PieceHeld(Take(Request(pieces, 0, Estimates(0.0, 0.0, 0), knobs), limit), pieces, i, knobs, limit)
  {
    hide Emissions, TargetOf, Observed, Request, BufferedFor, EndedUpTo, Seen;
    var e, p := Seen(pieces, i), pieces[i];
    var all := Request(pieces, 0, Estimates(0.0, 0.0, 0), knobs);
    var pre := RequestBehind(pieces, i, knobs);
    var here := Emissions(p.ys, TargetOf(e, p.chars, knobs), p.ending);
    RequestStep(pieces, i, e, knobs);
    BufferedIs(p.ys, p.chars, p.ending, e, knobs, limit - |pre|);
    var got := Take(here, limit - |pre|);
    var to := |pre| + |got|;
    assert Take(all, limit)[|pre|..to] == got;
    assert PieceHeldUpTo(Take(all, limit), pieces, i, knobs, limit, to);
  }

  lemma {:induction false} RequestBehind(pieces: seq<Piece>, i: nat, knobs: Knobs) returns (pre: seq<Emission>)
    requires i <= |pieces| && AllWellFormed(pieces) && knobs.bootstrap > 0.0 && EndedUpTo(pieces, i)
    ensures |pre| == Yields(pieces, i)
    ensures Request(pieces, 0, Estimates(0.0, 0.0, 0), knobs) == pre + Request(pieces, i, Seen(pieces, i), knobs)
  {
    hide Emissions, TargetOf, Observed, Request;
    pre := [];
    if i > 0 {
      var e, p := Seen(pieces, i - 1), pieces[i - 1];
      var before := RequestBehind(pieces, i - 1, knobs);
      RequestStep(pieces, i - 1, e, knobs);
      var here := Emissions(p.ys, TargetOf(e, p.chars, knobs), p.ending);
      AllEmitted(p.ys, TargetOf(e, p.chars, knobs), p.ending);
      pre := before + here;
    }
  }

  lemma AllEmitted(ys: seq<Yield>, target: real, ending: Ending)
    requires ending.EndOfPiece?
    ensures |Emissions(ys, target, ending)| == |ys|
  {
  }

  // Every yield took its r-th part in compute time: r seconds of audio for a second.
  ghost predicate AtRate(ys: seq<Yield>, r: real) {
    forall j :: 0 <= j < |ys| ==> 1000.0 * ys[j].audio == r * ys[j].ms
  }

  /** What a request has seen is what was made: at a steady rate, in compute milliseconds as
      reported, that rate, and the characters of the pieces. */
  lemma {:induction false} SeenIsMade(pieces: seq<Piece>, i: nat, r: real)
    requires i <= |pieces| && AllWellFormed(pieces)
    requires forall k :: 0 <= k < i ==> AtRate(pieces[k].ys, r)
    ensures Seen(pieces, i).audio == r * Seen(pieces, i).wall
    ensures Seen(pieces, i).wall > 0.0 ==> RtfOf(Seen(pieces, i)) == Some(r)
    ensures i > 0 ==> Seen(pieces, i).chars == Seen(pieces, i - 1).chars + pieces[i - 1].chars
  {
    hide Held, Computed, AtRate, WellFormed, RtfOf;
    if i > 0 {
      SeenIsMade(pieces, i - 1, r);
      ObservedRate(Seen(pieces, i - 1), pieces[i - 1].ys, pieces[i - 1].chars, r);
    }
    if Seen(pieces, i).wall > 0.0 { SteadyRtf(Seen(pieces, i), r); }
  }

  lemma ObservedRate(e: Estimates, ys: seq<Yield>, chars: nat, r: real)
    requires e.audio == r * e.wall && AtRate(ys, r)
    ensures Observed(e, ys, chars).audio == r * Observed(e, ys, chars).wall
  {
    hide Held, Computed, AtRate;
    PieceRate(ys, |ys|, r);
    Distributes(r, e.wall, Computed(ys, |ys|));
  }

  lemma SteadyRtf(e: Estimates, r: real)
    requires Plausible(e) && e.wall > 0.0 && e.audio == r * e.wall
    ensures RtfOf(e) == Some(r)
  {
    Quotient(e.audio, r, e.wall);
  }

  lemma {:induction false} PieceRate(ys: seq<Yield>, n: nat, r: real)
    requires n <= |ys| && AtRate(ys, r)
    ensures Held(ys, n) == r * Computed(ys, n)
  {
    if n > 0 {
      PieceRate(ys, n - 1, r);
      assert ys[n - 1].audio == r * (ys[n - 1].ms / 1000.0);
      Distributes(r, Computed(ys, n - 1), ys[n - 1].ms / 1000.0);
    }
  }

  lemma Distributes(r: real, a: real, b: real)
    ensures r * (a + b) == r * a + r * b
  {
  }

  lemma Quotient(a: real, r: real, w: real)
    requires w > 0.0 && a == r * w
    ensures a / w == r
  {
  }

  lemma RequestStep(pieces: seq<Piece>, i: nat, e: Estimates, knobs: Knobs)
    requires i < |pieces| && AllWellFormed(pieces) && Plausible(e) && knobs.bootstrap > 0.0
    ensures Plausible(Observed(e, pieces[i].ys, pieces[i].chars))
    ensures var p := pieces[i];
      var here := Emissions(p.ys, TargetOf(e, p.chars, knobs), p.ending);
      Request(pieces, i, e, knobs) ==
        if !p.ending.EndOfPiece? then here else here + Request(pieces, i + 1, Observed(e, p.ys, p.chars), knobs)
  {
    hide Emissions, TargetOf, Observed;
    ObservedPlausible(e, pieces[i].ys, pieces[i].chars);
  }

  lemma RequestDone(pieces: seq<Piece>, e: Estimates, knobs: Knobs)
    requires AllWellFormed(pieces) && Plausible(e) && knobs.bootstrap > 0.0
    ensures Request(pieces, |pieces|, e, knobs) == []
  {
  }

  // Taking from the rest of a stream, part by part.
  lemma TakeMore(out: seq<Emission>, here: seq<Emission>, all: seq<Emission>, limit: nat)
    requires |out| < limit && out + here <= all
    ensures limit <= |out + here| ==> out + Take(here, limit - |out|) == Take(all, limit) && limit <= |all|
    ensures |out + here| < limit ==> Take(here, limit - |out|) == here
    ensures |out + here| < limit && out + here == all ==> Take(all, limit) == all
  {
  }

  /** Over a whole request the buffers are transparent: what comes out is a prefix of all
      pieces' audio in order, and all of it when every piece ends. */
  lemma {:induction false} RequestIsTransparent(pieces: seq<Piece>, i: nat, e: Estimates, knobs: Knobs)
    requires i <= |pieces| && AllWellFormed(pieces) && Plausible(e) && knobs.bootstrap > 0.0
    ensures Pcms(Request(pieces, i, e, knobs)) <= AllPcm(pieces, i)
    ensures EndOf(pieces, i) == Finished ==> Pcms(Request(pieces, i, e, knobs)) == AllPcm(pieces, i)
    decreases |pieces| - i
  {
    hide Emissions, TargetOf, Observed, Request, AllWellFormed, Pcms, AllPcm, Plausible, Direct;
    AllPcmStep(pieces, i);
    if i < |pieces| {
      var p := pieces[i];
      var target := TargetOf(e, p.chars, knobs);
      var here := Emissions(p.ys, target, p.ending);
      RequestStep(pieces, i, e, knobs);
      PieceIsTransparent(p, target);
      if p.ending.EndOfPiece? {
        var e' := Observed(e, p.ys, p.chars);
        var rest := Request(pieces, i + 1, e', knobs);
        RequestIsTransparent(pieces, i + 1, e', knobs);
        PcmsConcat(here, rest);
      }
    } else {
      RequestDone(pieces, e, knobs);
      PcmsNone();
    }
  }

  lemma AllPcmStep(pieces: seq<Piece>, i: nat)
    requires i <= |pieces|
    ensures AllPcm(pieces, i) == if i == |pieces| then [] else Pcms(Direct(pieces[i].ys)) + AllPcm(pieces, i + 1)
  {
  }

  lemma PcmsConcat(a: seq<Emission>, b: seq<Emission>)
    ensures Pcms(a + b) == Pcms(a) + Pcms(b)
  {
  }

  lemma PcmsNone()
    ensures Pcms([]) == []
  {
  }

  lemma PieceIsTransparent(p: Piece, target: real)
    ensures Pcms(Emissions(p.ys, target, p.ending)) <= Pcms(Direct(p.ys))
    ensures p.ending.EndOfPiece? ==> Pcms(Emissions(p.ys, target, p.ending)) == Pcms(Direct(p.ys))
  {
    var n := |Emissions(p.ys, target, p.ending)|;
    BufferIsTransparent(p.ys, target, p.ending, n + 1);
  }
}
