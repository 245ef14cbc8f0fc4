/**
  What a speech client receives for one request: the connection handler, the pump that
  converts the supervisor's chunks, and the conversion to 16-bit samples.
*/
module Reply {
  import opened Options

  type Samples = seq<real>

  datatype Frame = Header | Chunk(pcm: seq<int>) | End | Error

  // ---- sample conversion -----------------------------------------------------------

  function Clip(y: real): (c: real)
    ensures -32768.0 <= c <= 32767.0
  {
    if y < -32768.0 then -32768.0 else if y > 32767.0 then 32767.0 else y
  }

  // A cast to an integer type drops the fraction.
  function Truncate(y: real): int {
    if y >= 0.0 then y.Floor else -((-y).Floor)
  }

  function ToS16(x: real): (n: int)
    ensures -32768 <= n <= 32767
  {
    Truncate(Clip(x * 32767.0))
  }

  function Convert(samples: Samples): (pcm: seq<int>)
    ensures |pcm| == |samples| && forall i :: 0 <= i < |pcm| ==> pcm[i] == ToS16(samples[i])
  {
    seq(|samples|, i requires 0 <= i < |samples| => ToS16(samples[i]))
  }

  /** Within [-1, 1] a sample is off by less than one step, towards zero, and keeps its sign. */
  lemma ConversionError(x: real)
    requires -1.0 <= x <= 1.0
    ensures x >= 0.0 ==> 0.0 <= x * 32767.0 - ToS16(x) as real < 1.0
    ensures x <= 0.0 ==> -1.0 < x * 32767.0 - ToS16(x) as real <= 0.0
    ensures ToS16(-x) == -ToS16(x)
  {
    var y := x * 32767.0;
    assert -32767.0 <= y <= 32767.0;
    assert (-x) * 32767.0 == -y;
  }

  /** Outside that range it is clipped to the nearest 16-bit value. */
  lemma ConversionClips(x: real)
    ensures x >= 1.0 ==> ToS16(x) == 32767
    ensures x * 32767.0 <= -32768.0 ==> ToS16(x) == -32768
    ensures x <= -1.0 ==> -32768 <= ToS16(x) <= -32767
  {
    var y := x * 32767.0;
    assert x >= 1.0 ==> y >= 32767.0;
    assert x <= -1.0 ==> y <= -32767.0;
  }

  lemma ConversionMonotone(x: real, y: real)
    requires x <= y
    ensures ToS16(x) <= ToS16(y)
  {
    var a, b := Clip(x * 32767.0), Clip(y * 32767.0);
    assert x * 32767.0 <= y * 32767.0;
    assert a <= b;
    if a >= 0.0 { FloorMonotone(a, b); } else if b < 0.0 { FloorMonotone(-b, -a); }
  }

  lemma FloorMonotone(a: real, b: real)
    requires a <= b
    ensures a.Floor <= b.Floor
  {
  }

  // ---- the grammar --------------------------------------------------------------------

  // Prefixes of: nothing, one error, or a header, chunks and one end.
  ghost predicate Grammatical(fs: seq<Frame>) {
    || fs == []
    || fs == [Error]
    || (&& fs[0].Header?
        && (forall i :: 0 < i < |fs| - 1 ==> fs[i].Chunk?)
        && (|fs| > 1 ==> fs[|fs| - 1].Chunk? || fs[|fs| - 1].End?))
  }

  /** A client that leaves early has received a prefix, which is still grammatical. */
  lemma PrefixGrammatical(fs: seq<Frame>, received: seq<Frame>)
    requires Grammatical(fs) && received <= fs
    ensures Grammatical(received)
  {
    if received != [] && fs[0].Header? {
      assert received[0] == fs[0];
      assert forall i :: 0 < i < |received| ==> received[i] == fs[i];
    }
  }

  function Audio(fs: seq<Frame>): seq<int> {
    if fs == [] then []
    else Audio(fs[..|fs| - 1]) + (if fs[|fs| - 1].Chunk? then fs[|fs| - 1].pcm else [])
  }

  lemma AudioStep(fs: seq<Frame>, f: Frame)
    ensures Audio(fs + [f]) == Audio(fs) + (if f.Chunk? then f.pcm else [])
  {
    assert (fs + [f])[..|fs + [f]| - 1] == fs;
  }

  // ---- one connection -------------------------------------------------------------------

  datatype Request = Malformed | OtherOp | Synthesize(voice: string)

  datatype Start = NotInstalled | StartFailed | Started(voices: set<string>, rate: nat)

  // The awaits before the header.
  datatype Stage = Reading | Enumerating | Starting

  // A chunk from the supervisor; None when its bytes are not whole samples.
  type Arrival = Option<Samples>

  // Everything the handler meets outside itself.
  datatype World = World(
    request: Request,
    early: Option<Stage>,                       // an await before the header where the task is cancelled
    lookup: Option<Option<(string, string)>>,   // None: enumerating raised; else provider and local id
    start: Start,
    resamplerLoads: bool,                       // the resampling library, needed at unequal rates
    resample: (nat, Samples) -> Samples,
    tail: Samples,
    chunks: seq<Arrival>,
    raises: bool,                               // the generator ends by raising
    drains: nat,                                // writes the client stays for
    cancelled: Option<nat>,                     // the chunk at which the task is cancelled
    room: nat)                                  // samples that fit in one frame

  const WIRE_RATE := 24000

  predicate Equal(w: World) {
    w.start.Started? && w.start.rate == WIRE_RATE
  }

  function Resampled(w: World, k: nat, s: Samples): Samples {
    if Equal(w) then s else w.resample(k, s)
  }

  function Flushed(w: World): Samples {
    if Equal(w) then [] else w.tail
  }

  datatype PumpEnd = Finished | ClientLeft | PumpFailed | Cancelled

  // How the pump ends when it has reached chunk k with n frames written.
  function PumpFrom(w: World, k: nat, n: nat): (r: (seq<Frame>, PumpEnd))
    requires k <= |w.chunks|
    decreases |w.chunks| - k
  {
    if w.cancelled == Some(k) then ([], Cancelled)
    else if k == |w.chunks| then
      if w.raises then ([], PumpFailed)
      else
        var t := Flushed(w);
        if t == [] then ([], Finished)
        else if |t| > w.room then ([], PumpFailed)
        else ([Chunk(Convert(t))], if n < w.drains then Finished else ClientLeft)
    else if w.chunks[k].None? then ([], PumpFailed)
    else
      var s := Resampled(w, k, w.chunks[k].value);
      if s == [] then PumpFrom(w, k + 1, n)
      else if |s| > w.room then ([], PumpFailed)
      else if n >= w.drains then ([Chunk(Convert(s))], ClientLeft)
      else
        var (more, how) := PumpFrom(w, k + 1, n + 1);
        ([Chunk(Convert(s))] + more, how)
  }

  // What the first n chunks come to at the wire rate: as they are, or through the resampler.
  function OutputOf(w: World, n: nat): Samples
    requires n <= |w.chunks|
  {
    if n == 0 then []
    else
      var arrived := if w.chunks[n - 1].Some? then w.chunks[n - 1].value else [];
      OutputOf(w, n - 1) + (if Equal(w) || w.chunks[n - 1].None? then arrived else w.resample(n - 1, arrived))
  }

  // `after` adds to `before` the conversion of what the first m chunks come to, and behind the
  // last chunk what the resampler still held; all of it if the pump finished.
  ghost predicate Carries(w: World, before: seq<int>, after: seq<int>, how: PumpEnd) {
    exists m: nat, flushed: bool ::
      CarriesUpTo(w, before, after, m, flushed) && (how.Finished? ==> m == |w.chunks| && flushed)
  }

  ghost predicate CarriesUpTo(w: World, before: seq<int>, after: seq<int>, m: nat, flushed: bool) {
    && m <= |w.chunks| && (flushed ==> m == |w.chunks|)
    && after == before + Convert(OutputOf(w, m)) + (if flushed && !Equal(w) then Convert(w.tail) else [])
  }

  // The samples of the first n chunks.
  function SamplesOf(chunks: seq<Arrival>, n: nat): Samples
    requires n <= |chunks|
  {
    if n == 0 then []
    else SamplesOf(chunks, n - 1) + (if chunks[n - 1].Some? then chunks[n - 1].value else [])
  }

  // `after` adds the conversion of the first m chunks to `before`; of all of them if `whole`.
  ghost predicate CarriesChunks(w: World, before: seq<int>, after: seq<int>, whole: bool) {
    exists m: nat :: m <= |w.chunks| && after == before + Convert(SamplesOf(w.chunks, m)) && (whole ==> m == |w.chunks|)
  }

  class Connection {
    var sent: seq<Frame>

    constructor ()
      ensures sent == []
    {
      sent := [];
    }

    method Write(f: Frame)
      modifies this
      ensures sent == old(sent) + [f]
    {
      sent := sent + [f];
    }

    // `_pump`
    method Pump(w: World) returns (how: PumpEnd)
      modifies this
      ensures var want := PumpFrom(w, 0, 0); sent == old(sent) + want.0 && how == want.1
      ensures Carries(w, Audio(old(sent)), Audio(sent), how)
    {
      hide PumpFrom, Convert, Audio, OutputOf, CarriesUpTo;
      ghost var before := sent;
      var n := 0;
      ghost var want := PumpFrom(w, 0, 0);
      assert sent == before + [];
      CarriesNothing(w, Audio(before));
      for k := 0 to |w.chunks|
        invariant n == |sent| - |before|
        invariant n <= w.drains
        invariant sent + PumpFrom(w, k, n).0 == before + want.0 && PumpFrom(w, k, n).1 == want.1
        invariant CarriesUpTo(w, Audio(before), Audio(sent), k, false)
      {
        PumpStep(w, k, n);
        if w.cancelled == Some(k) { return Cancelled; }
        if w.chunks[k].None? { return PumpFailed; }
        var samples := w.chunks[k].value;
        var resampled := Resampled(w, k, samples);
        CarriesMore(w, Audio(before), Audio(sent), k);
        if resampled != [] {
          if |resampled| > w.room { return PumpFailed; }
          ghost var was := sent;
          Write(Chunk(Convert(resampled)));
          AudioStep(was, Chunk(Convert(resampled)));
          if n == w.drains {
            return ClientLeft;
          }
          n := n + 1;
        }
      }
      PumpStep(w, |w.chunks|, n);
      if w.cancelled == Some(|w.chunks|) { return Cancelled; }
      if w.raises { return PumpFailed; }
      var tail := Flushed(w);
      CarriesFlush(w, Audio(before), Audio(sent));
      how := Finished;
      if tail != [] {
        if |tail| > w.room { return PumpFailed; }
        ghost var was := sent;
        Write(Chunk(Convert(tail)));
        AudioStep(was, Chunk(Convert(tail)));
        if n == w.drains { how := ClientLeft; }
      }
    }

    /** `handle_speechd_connection`: what is written is grammatical whatever happens, and it
        ends with the one End frame exactly when the stream was begun, its resampler could be
        built and the task was not cancelled. */
    method Handle(w: World)
      requires sent == []
      modifies this
      ensures Grammatical(sent)
      ensures (sent != [] && sent[|sent| - 1].End?) <==>
        Begins(w) && (Equal(w) || w.resamplerLoads) && !PumpFrom(w, 0, 0).1.Cancelled?
      ensures sent == [Error] <==> Refused(w)
      ensures sent == [] <==> !Begins(w) && !Refused(w)
      ensures Begins(w) && (Equal(w) || w.resamplerLoads) ==> Carries(w, [], Audio(sent), PumpFrom(w, 0, 0).1)
      ensures Begins(w) && Equal(w) ==> CarriesChunks(w, [], Audio(sent), PumpFrom(w, 0, 0).1.Finished?)
    {
      hide PumpFrom, Convert, Audio, Carries, CarriesChunks;
      if w.early == Some(Reading) { return; }
      match w.request {
        case Malformed => return;
        case OtherOp => Write(Error); return;
        case Synthesize(voice) =>
          if voice == "" { Write(Error); return; }
      }
      if w.early == Some(Enumerating) || w.lookup.None? { return; }
      if w.lookup.value.None? { Write(Error); return; }
      if w.early == Some(Starting) { return; }
      if !w.start.Started? { Write(Error); return; }
      var (provider, local) := w.lookup.value.value;
      if local !in w.start.voices { Write(Error); return; }
      AnyStage(w.early);
      Write(Header);
      NoAudio();
      assert sent == [Header];
      if w.start.rate != WIRE_RATE && !w.resamplerLoads { return; }
      var how := Pump(w);
      PumpedChunks(w, 0, 0);
      if Equal(w) { CarriesAsIs(w, [], Audio(sent), how); }
      if how.Cancelled? { return; }
      ghost var was := sent;
      Write(End);
      AudioStep(was, End);
      assert Audio(was) + [] == Audio(was);
    }

    lemma AnyStage(early: Option<Stage>)
      ensures early == None || early == Some(Reading) || early == Some(Enumerating) || early == Some(Starting)
    {
      match early
      case None =>
      case Some(Reading) =>
      case Some(Enumerating) =>
      case Some(Starting) =>
    }

    lemma NoAudio()
      ensures Audio([]) == [] && Audio([Header]) == []
    {
      assert [Header][..0] == [];
    }
  }

  // The reply gets as far as its header.
  predicate Begins(w: World) {
    && w.early.None?
    && w.request.Synthesize? && w.request.voice != ""
    && w.lookup.Some? && w.lookup.value.Some?
    && w.start.Started? && w.lookup.value.value.1 in w.start.voices
  }

  // An error is sent: for the request itself, for an unknown voice, or for a provider that
  // does not start or lacks the voice, if no await up to there is cancelled.
  predicate Refused(w: World) {
    w.early != Some(Reading) &&
    match w.request
    case Malformed => false
    case OtherOp => true
    case Synthesize(voice) =>
      voice == "" ||
      (w.early != Some(Enumerating) && w.lookup.Some? &&
        (w.lookup.value.None? ||
          (w.early != Some(Starting) && !(w.start.Started? && w.lookup.value.value.1 in w.start.voices))))
  }

  lemma PumpStep(w: World, k: nat, n: nat)
    requires k <= |w.chunks|
    ensures PumpFrom(w, k, n) ==
      if w.cancelled == Some(k) then ([], Cancelled)
      else if k == |w.chunks| then
        if w.raises then ([], PumpFailed)
        else if Flushed(w) == [] then ([], Finished)
        else if |Flushed(w)| > w.room then ([], PumpFailed)
        else ([Chunk(Convert(Flushed(w)))], if n < w.drains then Finished else ClientLeft)
      else if w.chunks[k].None? then ([], PumpFailed)
      else
        var s := Resampled(w, k, w.chunks[k].value);
        if s == [] then PumpFrom(w, k + 1, n)
        else if |s| > w.room then ([], PumpFailed)
        else if n >= w.drains then ([Chunk(Convert(s))], ClientLeft)
        else ([Chunk(Convert(s))] + PumpFrom(w, k + 1, n + 1).0, PumpFrom(w, k + 1, n + 1).1)
  {
  }

  lemma {:induction false} PumpedChunks(w: World, k: nat, n: nat)
    requires k <= |w.chunks|
    ensures forall i :: 0 <= i < |PumpFrom(w, k, n).0| ==> PumpFrom(w, k, n).0[i].Chunk?
    decreases |w.chunks| - k
  {
    hide PumpFrom;
    PumpStep(w, k, n);
    if k < |w.chunks| {
      PumpedChunks(w, k + 1, n);
      PumpedChunks(w, k + 1, n + 1);
    }
  }

  // What the j-th arrival comes to, the tail behind the last.
  function Piece(w: World, j: nat): Samples
    requires j < |w.chunks| ==> w.chunks[j].Some?
  {
    if j < |w.chunks| then Resampled(w, j, w.chunks[j].value) else Flushed(w)
  }

  // Arrival j was turned into this frame.
  ghost predicate Made(w: World, j: nat, f: Frame) {
    && (j < |w.chunks| ==> w.chunks[j].Some?)
    && f == Chunk(Convert(Piece(w, j)))
  }

  ghost predicate Silent(w: World, j: nat) {
    (j < |w.chunks| ==> w.chunks[j].Some?) && Piece(w, j) == []
  }

  // A chunk that is not empty and fits in a frame.
  predicate InRoom(f: Frame, room: nat) {
    f.Chunk? && 1 <= |f.pcm| <= room
  }

  // The frames are those of the arrivals `at`, with none that comes to any samples left out.
  ghost predicate AreMade(w: World, k: nat, frames: seq<Frame>, at: seq<nat>) {
    && |at| == |frames|
    && (forall i :: 0 <= i < |at| ==> k <= at[i] <= |w.chunks| && Made(w, at[i], frames[i]))
    && (forall i :: 0 <= i < |at| ==> InRoom(frames[i], w.room))
    && (forall i, j :: 0 <= i < j < |at| ==> at[i] < at[j])
    && (forall i, j: nat :: 0 <= i < |at| && k <= j < at[i] && j !in at ==> Silent(w, j))
  }

  lemma NoneMade(w: World, k: nat)
    ensures AreMade(w, k, [], [])
  {
  }

  lemma SilentMade(w: World, k: nat, frames: seq<Frame>, at: seq<nat>)
    requires AreMade(w, k + 1, frames, at) && Silent(w, k)
    ensures AreMade(w, k, frames, at)
  {
    hide Made, Silent;
  }

  lemma NextMade(w: World, k: nat, f: Frame, frames: seq<Frame>, at: seq<nat>)
    requires AreMade(w, k + 1, frames, at) && k <= |w.chunks| && Made(w, k, f) && InRoom(f, w.room)
    ensures AreMade(w, k, [f] + frames, [k] + at)
  {
    hide Silent, Made, InRoom;
    var all, fs := [k] + at, [f] + frames;
    forall i | 0 <= i < |all| ensures k <= all[i] <= |w.chunks| && Made(w, all[i], fs[i]) && InRoom(fs[i], w.room) {
      if i > 0 { assert all[i] == at[i - 1] && fs[i] == frames[i - 1]; }
    }
    forall i, j | 0 <= i < j < |all| ensures all[i] < all[j] {
      assert all[j] == at[j - 1];
      if i > 0 { assert all[i] == at[i - 1]; }
    }
    forall i, j: nat | 0 <= i < |all| && k <= j < all[i] && j !in all ensures Silent(w, j) {
      assert all[0] == k && j != k;
      assert all[i] == at[i - 1];
      assert forall x :: x in at ==> x in all;
    }
  }

  /** One frame for each arrival that comes to any samples, none of them empty or larger than a
      frame may be, in order, with none left out before the last one written. The client has
      left exactly when one more was written than it stayed for. */
  lemma {:induction false} FramesAre(w: World, k: nat, n: nat) returns (at: seq<nat>)
    requires k <= |w.chunks| && n <= w.drains
    ensures var (frames, how) := PumpFrom(w, k, n);
      && |at| == |frames| <= w.drains - n + 1
      && (how.ClientLeft? <==> |frames| == w.drains - n + 1)
      && AreMade(w, k, frames, at)
    decreases |w.chunks| - k
  {
    hide PumpFrom, Convert, AreMade;
    NoneMade(w, k);
    PumpStep(w, k, n);
    at := [];
    if w.cancelled == Some(k) {
    } else if k == |w.chunks| {
      var t := Flushed(w);
      if !w.raises && 0 < |t| <= w.room {
        at := OneMade(w, k, t);
      }
    } else if w.chunks[k].Some? {
      var s := Resampled(w, k, w.chunks[k].value);
      if s == [] {
        at := FramesAre(w, k + 1, n);
        SilentMade(w, k, PumpFrom(w, k + 1, n).0, at);
      } else if |s| <= w.room {
        if n >= w.drains {
          at := OneMade(w, k, s);
        } else {
          var more := FramesAre(w, k + 1, n + 1);
          NextMade(w, k, Chunk(Convert(s)), PumpFrom(w, k + 1, n + 1).0, more);
          at := [k] + more;
        }
      }
    }
  }

  lemma OneMade(w: World, k: nat, s: Samples) returns (at: seq<nat>)
    requires k <= |w.chunks| && (k < |w.chunks| ==> w.chunks[k].Some?) && s == Piece(w, k) && 1 <= |s| <= w.room
    ensures |at| == 1 && AreMade(w, k, [Chunk(Convert(s))], at)
  {
    hide AreMade;
    NoneMade(w, k + 1);
    NextMade(w, k, Chunk(Convert(s)), [], []);
    at := [k] + [];
    assert [Chunk(Convert(s))] + [] == [Chunk(Convert(s))];
  }

  // From chunk k on nothing goes wrong on the daemon's side.
  ghost predicate Unbroken(w: World, k: nat) {
    && (w.cancelled.Some? ==> !(k <= w.cancelled.value <= |w.chunks|))
    && !w.raises
    && (forall j :: k <= j < |w.chunks| ==> w.chunks[j].Some? && |Piece(w, j)| <= w.room)
    && |Flushed(w)| <= w.room
  }

  /** The pump finishes if and only if it is not cancelled, the synthesis ends without raising,
      every chunk is whole samples and fits in a frame, and the client stays. */
  lemma {:induction false} FinishesExactly(w: World, k: nat, n: nat)
    requires k <= |w.chunks| && n <= w.drains
    ensures PumpFrom(w, k, n).1.Finished? <==> Unbroken(w, k) && !PumpFrom(w, k, n).1.ClientLeft?
    decreases |w.chunks| - k
  {
    hide PumpFrom, Convert, Resampled, Flushed;
    PumpStep(w, k, n);
    if w.cancelled != Some(k) && k < |w.chunks| && w.chunks[k].Some? && |Piece(w, k)| <= w.room {
      FinishesExactly(w, k + 1, n);
      if n < w.drains { FinishesExactly(w, k + 1, n + 1); }
      assert Unbroken(w, k) <==> Unbroken(w, k + 1);
    }
  }

  /** At equal rates a generator that fails writes what one that ends writes: the client
      cannot tell a failed synthesis from a short one. */
  lemma {:induction false} FailureIsSilent(w: World, k: nat, n: nat)
    requires Equal(w) && k <= |w.chunks|
    ensures PumpFrom(w.(raises := true), k, n).0 == PumpFrom(w.(raises := false), k, n).0
    ensures PumpFrom(w.(raises := true), k, n).1.Cancelled? == PumpFrom(w.(raises := false), k, n).1.Cancelled?
    decreases |w.chunks| - k
  {
    hide PumpFrom, Convert;
    PumpStep(w.(raises := true), k, n);
    PumpStep(w.(raises := false), k, n);
    if k < |w.chunks| {
      FailureIsSilent(w, k + 1, n);
      FailureIsSilent(w, k + 1, n + 1);
    }
  }

  lemma CarriesNothing(w: World, before: seq<int>)
    ensures CarriesUpTo(w, before, before, 0, false)
  {
    assert Convert([]) == [];
    assert before + [] + [] == before;
  }

  lemma ConvertConcat(a: Samples, b: Samples)
    ensures Convert(a + b) == Convert(a) + Convert(b)
  {
    hide ToS16;
  }

  lemma OutputNext(w: World, k: nat)
    requires k < |w.chunks| && w.chunks[k].Some?
    ensures OutputOf(w, k + 1) == OutputOf(w, k) + Resampled(w, k, w.chunks[k].value)
  {
  }

  // One chunk more: its conversion follows, at unequal rates that of what the resampler gives.
  lemma CarriesMore(w: World, before: seq<int>, after: seq<int>, k: nat)
    requires k < |w.chunks| && w.chunks[k].Some? && CarriesUpTo(w, before, after, k, false)
    ensures var s := Resampled(w, k, w.chunks[k].value);
      && CarriesUpTo(w, before, after + Convert(s), k + 1, false)
      && (s == [] ==> CarriesUpTo(w, before, after, k + 1, false))
  {
    OutputNext(w, k);
    hide Convert, OutputOf, Resampled;
    var s := Resampled(w, k, w.chunks[k].value);
    ConvertConcat(OutputOf(w, k), s);
    Regrouped(before, Convert(OutputOf(w, k)), Convert(s));
    assert OutputOf(w, k) + [] == OutputOf(w, k);
  }

  lemma Regrouped(a: seq<int>, b: seq<int>, c: seq<int>)
    ensures a + b + c == a + (b + c)
  {
  }

  lemma CarriesFlush(w: World, before: seq<int>, after: seq<int>)
    requires CarriesUpTo(w, before, after, |w.chunks|, false)
    ensures CarriesUpTo(w, before, after + Convert(Flushed(w)), |w.chunks|, true)
    ensures Flushed(w) == [] ==> CarriesUpTo(w, before, after, |w.chunks|, true)
  {
    assert Convert([]) == [];
    hide Convert, OutputOf;
    assert after + [] == after;
  }

  lemma {:induction false} OutputAsIs(w: World, n: nat)
    requires Equal(w) && n <= |w.chunks|
    ensures OutputOf(w, n) == SamplesOf(w.chunks, n)
  {
    if n > 0 { OutputAsIs(w, n - 1); }
  }

  // At equal rates the samples are carried as they came.
  lemma CarriesAsIs(w: World, before: seq<int>, after: seq<int>, how: PumpEnd)
    requires Equal(w) && Carries(w, before, after, how)
    ensures CarriesChunks(w, before, after, how.Finished?)
  {
    hide Convert, OutputOf;
    var m: nat, flushed: bool :|
      CarriesUpTo(w, before, after, m, flushed) && (how.Finished? ==> m == |w.chunks| && flushed);
    OutputAsIs(w, m);
    assert before + Convert(SamplesOf(w.chunks, m)) + [] == before + Convert(SamplesOf(w.chunks, m));
  }

  // Converting sample by sample does not see chunk boundaries.
  lemma MoreSamples(w: World, k: nat)
    requires k < |w.chunks| && w.chunks[k].Some?
    ensures Convert(SamplesOf(w.chunks, k)) + Convert(w.chunks[k].value) == Convert(SamplesOf(w.chunks, k + 1))
    ensures w.chunks[k].value == [] ==> SamplesOf(w.chunks, k) == SamplesOf(w.chunks, k + 1)
  {
    hide ToS16;
  }
}
