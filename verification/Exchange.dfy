/**
  One caller at a time on one provider process: the request and drain loops of the
  supervisor and the provider's reply loop, as the code runs them. RequestPipe covers the
  interleavings; here the outcome of every call in a sequence is computed exactly.
*/
module Exchange {
  import opened Options
  import opened Wire

  datatype Ending =
    | Finished
    | Failed                // synthesis raised: error, and no audio_end
    | Crashed(sent: nat)    // the process died after that many frames

  datatype Answer = Answer(chunks: seq<Pcm>, ending: Ending)

  datatype Outcome = Returned | ProviderError | Unexpected | MidStreamError | Closed | Abandoned

  datatype Result = Result(yielded: seq<Pcm>, outcome: Outcome, drained: bool)

  // One call: what the provider will answer, after how many frames the five-second drain
  // timeout would strike, and after how many reads the consumer goes away.
  datatype Order = Order(answer: Answer, patience: nat, stop: nat)

  function Frames(chunks: seq<Pcm>): (fs: seq<Body>)
    ensures |fs| == |chunks| && forall i :: 0 <= i < |fs| ==> fs[i] == AudioChunk(chunks[i])
  {
    if chunks == [] then [] else Frames(chunks[..|chunks| - 1]) + [AudioChunk(chunks[|chunks| - 1])]
  }

  // Everything the provider writes for one request.
  function Response(a: Answer): (fs: seq<Body>)
    ensures !a.ending.Crashed? ==> |fs| == |a.chunks| + 2
    ensures |fs| > 0 ==> fs[0] == SynthesizeHeader
    ensures forall i :: 0 < i < |fs| && i <= |a.chunks| ==> fs[i] == AudioChunk(a.chunks[i - 1])
  {
    var full := [SynthesizeHeader] + Frames(a.chunks);
    match a.ending
    case Finished => full + [AudioEnd]
    case Failed => full + [Error]
    case Crashed(k) => if k < |full| then full[..k] else full
  }

  // ---- what the loops compute ------------------------------------------------------

  // Where the first audio_end is.
  function EndAt(fs: seq<Body>): (e: Option<nat>)
    ensures e.Some? ==> e.value < |fs| && fs[e.value].AudioEnd? && forall i :: 0 <= i < e.value ==> !fs[i].AudioEnd?
    ensures e.None? ==> forall i :: 0 <= i < |fs| ==> !fs[i].AudioEnd?
  {
    if fs == [] then None
    else if fs[0].AudioEnd? then Some(0)
    else match EndAt(fs[1..]) case None => None case Some(k) => Some(k + 1)
  }

  // What a drain leaves unread: what follows the first audio_end, or, when that does not
  // come in time, what the reads before the timeout did not take.
  function AfterDrain(fs: seq<Body>, patience: nat): seq<Body> {
    var e := EndAt(fs);
    if e.Some? && e.value < patience then fs[e.value + 1..]
    else if patience < |fs| then fs[patience..] else []
  }

  /** A drain that succeeds has read up to and including the first audio_end; one that does not
      has read everything there was, or as many frames as came before it timed out, and no
      audio_end among them. The rest is unread. */
  lemma AfterDrainIs(fs: seq<Body>, patience: nat) returns (n: nat)
    ensures n <= |fs| && n <= patience && AfterDrain(fs, patience) == fs[n..]
    ensures forall i :: 0 <= i < n - 1 ==> !fs[i].AudioEnd?
    ensures DrainSucceeds(fs, patience) ==> n > 0 && fs[n - 1].AudioEnd?
    ensures !DrainSucceeds(fs, patience) ==> (n == |fs| || n == patience) && (n > 0 ==> !fs[n - 1].AudioEnd?)
  {
    n := if DrainSucceeds(fs, patience) then EndAt(fs).value + 1 else if patience < |fs| then patience else |fs|;
  }

  predicate DrainSucceeds(fs: seq<Body>, patience: nat) {
    EndAt(fs).Some? && EndAt(fs).value < patience
  }

  // The loop after the header: chunks yielded, how it ended, frames consumed.
  function ReadBody(fs: seq<Body>, stop: nat): (r: (seq<Pcm>, Outcome, nat))
    ensures r.2 <= |fs|
    decreases |fs|
  {
    if stop == 0 then ([], Abandoned, 0)
    else if fs == [] then ([], Closed, 0)
    else match fs[0]
      case AudioEnd => ([], Returned, 1)
      case Error => ([], MidStreamError, 1)
      case AudioChunk(pcm) => var (more, o, n) := ReadBody(fs[1..], stop - 1); ([pcm] + more, o, n + 1)
      case _ => var (more, o, n) := ReadBody(fs[1..], stop - 1); (more, o, n + 1)
  }

  function ReadReply(fs: seq<Body>, stop: nat): (r: (seq<Pcm>, Outcome, nat))
    ensures r.2 <= |fs|
  {
    if stop == 0 then ([], Abandoned, 0)
    else if fs == [] then ([], Closed, 0)
    else match fs[0]
      case Error => ([], ProviderError, 1)
      case SynthesizeHeader => var (more, o, n) := ReadBody(fs[1..], stop - 1); (more, o, n + 1)
      case _ => ([], Unexpected, 1)
  }

  predicate Settled(o: Outcome) {
    o.Returned? || o.ProviderError?
  }

  // How many chunks the first n frames of a response hold.
  function ChunksWithin(a: Answer, n: nat): seq<Pcm> {
    if n == 0 then [] else if n - 1 <= |a.chunks| then a.chunks[..n - 1] else a.chunks
  }

  /** Read against its own answer, a call yields the answer's chunks, a prefix of them if the
      consumer leaves or the process dies, and consumes exactly the frames it read. */
  lemma ReadsOwnAnswer(a: Answer, stop: nat)
    ensures var t := |Response(a)|;
      ReadReply(Response(a), stop) ==
        if stop < t || (a.ending.Crashed? && stop == t) then (ChunksWithin(a, stop), Abandoned, stop)
        else if a.ending.Finished? then (a.chunks, Returned, t)
        else if a.ending.Failed? then (a.chunks, MidStreamError, t)
        else (ChunksWithin(a, t), Closed, t)
  {
    hide Response, ReadBody;
    var fs := Response(a);
    LastFrame(a);
    if fs != [] && stop > 0 {
      ReadsRest(a, 1, stop - 1);
      assert a.chunks[0..] == a.chunks;
    }
  }

  lemma LastFrame(a: Answer)
    ensures var fs := Response(a);
      && (a.ending.Finished? ==> fs[|fs| - 1] == AudioEnd)
      && (a.ending.Failed? ==> fs[|fs| - 1] == Error)
      && (a.ending.Crashed? ==> |fs| <= |a.chunks| + 1)
  {
  }

  lemma {:induction false} ReadsRest(a: Answer, j: nat, stop: nat)
    requires 1 <= j <= |Response(a)| && j <= |a.chunks| + 1
    ensures var t := |Response(a)|;
      ReadBody(Response(a)[j..], stop) ==
        if j + stop < t || (a.ending.Crashed? && j + stop == t) then (a.chunks[j - 1..j - 1 + stop], Abandoned, stop)
        else if a.ending.Finished? then (a.chunks[j - 1..], Returned, t - j)
        else if a.ending.Failed? then (a.chunks[j - 1..], MidStreamError, t - j)
        else (a.chunks[j - 1..t - 1], Closed, t - j)
    decreases |a.chunks| + 1 - j
  {
    hide Response, ReadBody;
    var fs := Response(a);
    LastFrame(a);
    BodyStep(fs[j..], stop);
    assert a.chunks[j - 1..j - 1] == [];
    if stop > 0 && j < |fs| {
      if j <= |a.chunks| {
        assert fs[j..][1..] == fs[j + 1..];
        ReadsRest(a, j + 1, stop - 1);
        assert forall e :: j <= e <= |a.chunks| ==> [a.chunks[j - 1]] + a.chunks[j..e] == a.chunks[j - 1..e];
        assert a.chunks[j - 1..] == a.chunks[j - 1..|a.chunks|] && a.chunks[j..] == a.chunks[j..|a.chunks|];
      } else {
        assert fs[j] == fs[|fs| - 1];
        assert a.chunks[j - 1..] == [];
      }
    }
  }

  lemma BodyStep(fs: seq<Body>, stop: nat)
    ensures stop == 0 ==> ReadBody(fs, stop) == ([], Abandoned, 0)
    ensures stop > 0 && fs == [] ==> ReadBody(fs, stop) == ([], Closed, 0)
    ensures stop > 0 && fs != [] ==> ReadBody(fs, stop) == match fs[0]
      case AudioEnd => ([], Returned, 1)
      case Error => ([], MidStreamError, 1)
      case AudioChunk(pcm) => var (more, o, n) := ReadBody(fs[1..], stop - 1); ([pcm] + more, o, n + 1)
      case _ => var (more, o, n) := ReadBody(fs[1..], stop - 1); (more, o, n + 1)
  {
  }

  /** From any abandoned position the frames up to and including audio_end are exactly what
      is left; after an error or a crash no drain ever finds one. */
  lemma DrainResynchronises(a: Answer, j: nat)
    requires j <= |Response(a)|
    ensures EndAt(Response(a)[j..]) ==
      if a.ending.Finished? && j < |Response(a)| then Some(|Response(a)| - 1 - j) else None
  {
    hide Response, EndAt;
    var fs := Response(a);
    EndsOnlyLast(a);
    EndOfSuffix(fs, j);
  }

  // No frame but the last is an audio_end, and the last one just when the answer finished.
  lemma EndsOnlyLast(a: Answer)
    ensures var fs := Response(a);
      && (forall i :: 0 <= i < |fs| - 1 ==> !fs[i].AudioEnd?)
      && (fs != [] ==> (fs[|fs| - 1].AudioEnd? <==> a.ending.Finished?))
      && (a.ending.Finished? ==> fs != [])
  {
    LastFrame(a);
    hide Frames;
  }

  lemma EndOfSuffix(fs: seq<Body>, j: nat)
    requires j <= |fs| && forall i :: 0 <= i < |fs| - 1 ==> !fs[i].AudioEnd?
    ensures EndAt(fs[j..]) == if j < |fs| && fs[|fs| - 1].AudioEnd? then Some(|fs| - 1 - j) else None
  {
    hide EndAt;
    var left := fs[j..];
    assert forall i :: 0 <= i < |left| ==> left[i] == fs[i + j];
  }

  // ---- the code -----------------------------------------------------------------

  class ProviderProcess {
    var state: ProviderState
    var needsDrain: bool
    var alive: bool
    var incoming: seq<Body>   // written by the provider, not yet read

    constructor ()
      ensures state == READY && !needsDrain && alive && incoming == []
    {
      state, needsDrain, alive, incoming := READY, false, true, [];
    }

    ghost predicate Residue(a: Answer, j: nat)
      reads this
    {
      && j <= |Response(a)| && incoming == Response(a)[j..]
      && (a.ending.Finished? ==> j < |Response(a)|)
      && alive == !a.ending.Crashed?
    }

    // A READY process has an empty stream, or the flag set and the rest of one response.
    ghost predicate Clean()
      reads this
    {
      && (!needsDrain ==> incoming == [] && alive)
      && (needsDrain ==> exists a, j: nat :: Residue(a, j))
    }

    // `_handle_synthesize` of the provider.
    method HandleSynthesize(a: Answer)
      requires alive
      modifies `incoming, `alive
      ensures incoming == old(incoming) + Response(a)
      ensures alive == !a.ending.Crashed?
    {
      var budget := if a.ending.Crashed? then a.ending.sent else |a.chunks| + 2;
      var sent: seq<Body> := [];
      if |sent| < budget { sent := sent + [SynthesizeHeader]; }
      for i := 0 to |a.chunks|
        invariant sent == if budget < i + 1 then ([SynthesizeHeader] + Frames(a.chunks[..i]))[..budget]
                          else [SynthesizeHeader] + Frames(a.chunks[..i])
      {
        assert a.chunks[..i + 1][..i] == a.chunks[..i];
        if |sent| < budget { sent := sent + [AudioChunk(a.chunks[i])]; }
      }
      assert a.chunks[..|a.chunks|] == a.chunks;
      match a.ending {
        case Finished => sent := sent + [AudioEnd];
        case Failed => sent := sent + [Error];
        case Crashed(_) => alive := false;
      }
      incoming := incoming + sent;
    }

    // `read_message`; None is a closed connection.
    method ReadMessage() returns (r: Option<Body>)
      modifies `incoming
      ensures old(incoming) == [] ==> r == None && incoming == []
      ensures old(incoming) != [] ==> r == Some(old(incoming)[0]) && incoming == old(incoming)[1..]
    {
      if incoming == [] { return None; }
      r := Some(incoming[0]);
      incoming := incoming[1..];
    }

    /** `_drain_if_needed`: the residual frames are read up to audio_end and nothing else is;
        without one, or when the wait for it times out, the process is marked FAILED. */
    method DrainIfNeeded(patience: nat)
      modifies `state, `needsDrain, `incoming
      ensures !needsDrain
      ensures !old(needsDrain) ==> state == old(state) && incoming == old(incoming)
      ensures old(needsDrain) ==> incoming == AfterDrain(old(incoming), patience)
      ensures old(needsDrain) ==> state == if DrainSucceeds(old(incoming), patience) then old(state) else FAILED
    {
      if !needsDrain { return; }
      var seen := 0;
      ghost var all := incoming;
      while true
        invariant seen <= |all| && incoming == all[seen..]
        invariant seen <= patience && state == old(state)
        invariant forall i :: 0 <= i < seen ==> !all[i].AudioEnd?
        decreases |incoming|
      {
        if seen == patience { state := FAILED; break; }
        var resp := ReadMessage();
        if resp.None? { state := FAILED; break; }
        seen := seen + 1;
        if resp.value.AudioEnd? { break; }
      }
      needsDrain := false;
    }

    /** `synthesize` under the request lock: the call reads what its drain left, then what the
        provider answers, whether or not the drain succeeded. */
    method Synthesize(o: Order) returns (r: Result)
      requires state == READY && Clean()
      modifies this
      ensures r.drained <==> !old(needsDrain) || DrainSucceeds(old(incoming), o.patience)
      ensures state == if r.drained then READY else FAILED
      ensures var left := if old(needsDrain) then AfterDrain(old(incoming), o.patience) else [];
        var stream := left + (if old(alive) then Response(o.answer) else []);
        && r.yielded == ReadReply(stream, o.stop).0
        && r.outcome == ReadReply(stream, o.stop).1
        && incoming == stream[ReadReply(stream, o.stop).2..]
        && needsDrain == !Settled(r.outcome)
        && (r.drained ==> left == [] && old(alive) && alive == !o.answer.ending.Crashed?)
      ensures state == READY ==> Clean()
    {
      hide Response, ReadReply, ReadBody, EndAt;
      if needsDrain && EndAt(incoming).Some? { DrainLeavesNothing(); }
      DrainIfNeeded(o.patience);
      var drained := state == READY;
      ghost var left := incoming;
      needsDrain := true;
      if alive { HandleSynthesize(o.answer); }
      ghost var stream := incoming;
      assert !old(alive) ==> stream == left + [];
      var yielded, outcome := ReadResponse(o.stop);
      if Settled(outcome) { needsDrain := false; }
      r := Result(yielded, outcome, drained);
      if drained {
        assert left == [] && stream == Response(o.answer);
        LeftClean(o, stream);
      }
    }

    lemma DrainLeavesNothing()
      requires Clean() && needsDrain && EndAt(incoming).Some?
      ensures alive && EndAt(incoming).value + 1 == |incoming|
    {
      hide Response;
      var a, j: nat :| Residue(a, j);
      DrainResynchronises(a, j);
    }

    lemma LeftClean(o: Order, stream: seq<Body>)
      requires stream == Response(o.answer) && alive == !o.answer.ending.Crashed?
      requires var r := ReadReply(stream, o.stop); incoming == stream[r.2..] && needsDrain == !Settled(r.1)
      ensures Clean()
    {
      hide Response, ReadReply;
      ReadsOwnAnswer(o.answer, o.stop);
      var n := ReadReply(stream, o.stop).2;
      if needsDrain { assert Residue(o.answer, n); }
    }

    // The reads of `synthesize`: the header, then the loop.
    method ReadResponse(stop: nat) returns (yielded: seq<Pcm>, outcome: Outcome)
      modifies `incoming
      ensures var want := ReadReply(old(incoming), stop);
        yielded == want.0 && outcome == want.1 && incoming == old(incoming)[want.2..]
    {
      yielded := [];
      if stop == 0 { return [], Abandoned; }
      var header := ReadMessage();
      if header.None? { return [], Closed; }
      if header.value.Error? { return [], ProviderError; }
      if !header.value.SynthesizeHeader? { return [], Unexpected; }
      hide ReadBody;
      ghost var all := incoming;
      ghost var want := ReadBody(all, stop - 1);
      var seen := 0;
      while true
        invariant seen <= |all| && incoming == all[seen..] && seen <= stop - 1
        invariant yielded + ReadBody(incoming, stop - 1 - seen).0 == want.0
        invariant ReadBody(incoming, stop - 1 - seen).1 == want.1
        invariant seen + ReadBody(incoming, stop - 1 - seen).2 == want.2
        decreases |incoming|
      {
        BodyStep(incoming, stop - 1 - seen);
        if seen == stop - 1 { outcome := Abandoned; break; }
        var resp := ReadMessage();
        if resp.None? { outcome := Closed; break; }
        seen := seen + 1;
        if resp.value.AudioChunk? {
          yielded := yielded + [resp.value.pcm];
        } else if resp.value.AudioEnd? {
          outcome := Returned;
          break;
        } else if resp.value.Error? {
          outcome := MidStreamError;
          break;
        }
      }
    }
  }

  // ---- sequences of calls -----------------------------------------------------------

  // Whether the next call's drain clears what this one left.
  predicate Clears(o: Order, patience: nat) {
    var (_, outcome, n) := ReadReply(Response(o.answer), o.stop);
    Settled(outcome) || (o.answer.ending.Finished? && |Response(o.answer)| - n <= patience)
  }

  // A call runs clean unless its drain fails; the call after that gets a new process.
  predicate RunsClean(orders: seq<Order>, i: nat)
    requires i < |orders|
  {
    i == 0 || !RunsClean(orders, i - 1) || Clears(orders[i - 1], orders[i].patience)
  }

  // What the i-th call reads: its own answer, behind what a failed drain left of the
  // previous one; a process that crashed answers no more.
  function StreamOf(orders: seq<Order>, i: nat): seq<Body>
    requires i < |orders|
  {
    if RunsClean(orders, i) then Response(orders[i].answer)
    else
      AfterDrain(LeftBy(orders[i - 1]), orders[i].patience)
      + (if orders[i - 1].answer.ending.Crashed? then [] else Response(orders[i].answer))
  }

  // What a clean call leaves unread of its own answer.
  function LeftBy(o: Order): seq<Body> {
    Response(o.answer)[ReadReply(Response(o.answer), o.stop).2..]
  }

  ghost predicate Served(orders: seq<Order>, i: nat, r: Result)
    requires i < |orders|
  {
    var want := ReadReply(StreamOf(orders, i), orders[i].stop);
    r.drained == RunsClean(orders, i) && r.yielded == want.0 && r.outcome == want.1
  }

  // The process after the i-th call ran clean.
  ghost predicate LeftAs(p: ProviderProcess, o: Order)
    reads p
  {
    && p.needsDrain == !Settled(ReadReply(Response(o.answer), o.stop).1)
    && p.incoming == LeftBy(o) && p.alive == !o.answer.ending.Crashed?
  }

  /** Calls in sequence, with `ensure_ready` before each: which calls run clean, and what each
      call is given; one that runs clean gets exactly its own answer, wherever the calls
      before it were abandoned. */
  method Serve(orders: seq<Order>) returns (results: seq<Result>)
    ensures |results| == |orders|
    ensures forall i :: 0 <= i < |orders| ==> Served(orders, i, results[i])
  {
    hide Response, ReadReply, RunsClean, Clears, AfterDrain, Served, EndAt, LeftBy;
    results := [];
    var proc := new ProviderProcess();
    for i := 0 to |orders|
      invariant fresh(proc)
      invariant |results| == i
      invariant i == 0 ==> proc.state == READY && !proc.needsDrain
      invariant proc.state == READY || proc.state == FAILED
      invariant proc.state == READY ==> proc.Clean()
      invariant i > 0 ==> (proc.state == READY) == RunsClean(orders, i - 1)
      invariant i > 0 && proc.state == READY ==> LeftAs(proc, orders[i - 1])
      invariant forall k :: 0 <= k < i ==> Served(orders, k, results[k])
    {
      if i > 0 { ClearsStep(orders[i - 1], orders[i].patience); }
      RunsCleanStep(orders, i);
      if proc.state != READY { proc := new ProviderProcess(); }
      var r := proc.Synthesize(orders[i]);
      ServedStep(orders, i, r);
      results := results + [r];
    }
  }

  lemma ServedStep(orders: seq<Order>, i: nat, r: Result)
    requires i < |orders| && r.drained == RunsClean(orders, i)
    ensures [] + Response(orders[i].answer) == Response(orders[i].answer)
    ensures Response(orders[i].answer)[ReadReply(Response(orders[i].answer), orders[i].stop).2..] == LeftBy(orders[i])
    ensures var reply := ReadReply(StreamOf(orders, i), orders[i].stop);
      r.yielded == reply.0 && r.outcome == reply.1 ==> Served(orders, i, r)
  {
  }

  lemma RunsCleanStep(orders: seq<Order>, i: nat)
    requires i < |orders|
    ensures RunsClean(orders, i) <==>
      i == 0 || !RunsClean(orders, i - 1) || Clears(orders[i - 1], orders[i].patience)
  {
  }

  // What Clears means for the stream the earlier call left.
  lemma ClearsStep(o: Order, patience: nat)
    ensures var own := ReadReply(Response(o.answer), o.stop);
      Clears(o, patience) <==> Settled(own.1) || DrainSucceeds(LeftBy(o), patience)
  {
    hide Response, ReadReply, EndAt;
    ReadsOwnAnswer(o.answer, o.stop);
    var own := ReadReply(Response(o.answer), o.stop);
    DrainResynchronises(o.answer, own.2);
  }

  /** The call behind a clean one is clean if and only if that one's answer came to its end and
      the drain's patience covers what its consumer left of it. Behind an answer that failed,
      even one read to its error, the drain fails. */
  lemma RunsCleanExactly(orders: seq<Order>, i: nat)
    requires i + 1 < |orders| && RunsClean(orders, i)
    ensures RunsClean(orders, i + 1) <==>
      var o := orders[i];
      o.answer.ending.Finished? && |o.answer.chunks| + 2 - o.stop <= orders[i + 1].patience
  {
    hide Response, ReadReply;
    ReadsOwnAnswer(orders[i].answer, orders[i].stop);
  }

  // What a call gets when `left` is still unread before its own answer.
  predicate GetsOwn(left: seq<Body>, o: Order) {
    var got, own := ReadReply(left + Response(o.answer), o.stop), ReadReply(Response(o.answer), o.stop);
    got.0 == own.0 && got.1 == own.1
  }

  /** Behind a failed drain a call is sure of its own answer exactly when the drain had
      nothing left to read. */
  lemma OwnAnswerExactly(left: seq<Body>)
    ensures (forall o :: GetsOwn(left, o)) <==> left == []
  {
    if left == [] {
      forall o ensures GetsOwn(left, o) { assert left + Response(o.answer) == Response(o.answer); }
    } else {
      var x: Pcm := if |left| > 1 && left[1] == AudioChunk([]) then [0] else [];
      LeftoversShow(left, x);
      assert !GetsOwn(left, Order(Answer([x], Finished), 0, 3));
    }
  }

  // A one-chunk answer read to its end shows any leftover.
  lemma LeftoversShow(left: seq<Body>, x: Pcm)
    requires left != [] && (|left| > 1 ==> left[1] != AudioChunk(x))
    ensures !GetsOwn(left, Order(Answer([x], Finished), 0, 3))
  {
    var a := Answer([x], Finished);
    ReadsOwnAnswer(a, 3);
    var own := Response(a);
    assert own == [SynthesizeHeader, AudioChunk(x), AudioEnd] by { OneChunk(x); }
    assert ReadReply(own, 3) == ([x], Returned, 3);
    var s := left + own;
    if s[0].SynthesizeHeader? {
      var rest := s[1..];
      assert rest[0] == if |left| > 1 then left[1] else SynthesizeHeader;
      hide Response;
      BodyStep(rest, 2);
      BodyStep(rest[1..], 1);
      if !rest[0].AudioEnd? && !rest[0].Error? { BodyStep(rest[1..][1..], 0); }
    }
  }

  lemma OneChunk(x: Pcm)
    ensures Response(Answer([x], Finished)) == [SynthesizeHeader, AudioChunk(x), AudioEnd]
  {
    assert Frames([x]) == [AudioChunk(x)];
  }

  /** After a response that ended in error the drain fails with nothing left, so the call
      behind it is sure of its own answer, on a process already marked FAILED. */
  lemma FailureAfterErrorIsHarmless(a: Answer, j: nat, patience: nat)
    requires a.ending.Failed? && j <= |Response(a)| && |Response(a)| - j <= patience
    ensures !DrainSucceeds(Response(a)[j..], patience) && AfterDrain(Response(a)[j..], patience) == []
  {
    DrainResynchronises(a, j);
  }

  /** A failed drain does not protect its own request: with a timeout of zero seen the stale
      response is delivered to it. */
  lemma FailedDrainMisdelivers(mine: Pcm, other: Pcm)
    ensures var stale := Response(Answer([other], Finished)); var own := Response(Answer([mine], Finished));
      ReadReply(stale + own, 4) == ([other], Returned, 3)
  {
    var stale := Response(Answer([other], Finished));
    assert Frames([other]) == [AudioChunk(other)];
    var s := stale + Response(Answer([mine], Finished));
    assert s[0] == SynthesizeHeader && s[1] == AudioChunk(other) && s[2] == AudioEnd;
    var rest := s[1..];
    assert rest[0] == AudioChunk(other) && rest[1..][0] == AudioEnd;
    BodyStep(rest, 3);
    BodyStep(rest[1..], 2);
    assert ReadBody(rest[1..], 2) == ([], Returned, 1);
    assert [other] + [] == [other];
    assert ReadBody(rest, 3) == ([other], Returned, 2);
  }
}
