/**
  One provider process as seen by every `synthesize` call that was handed it:
  the request lock, the `needs_drain` flag, the two directions of the socket and
  the provider's serve loop. A step is the code between two awaits, so a run is an
  arbitrary interleaving of callers, provider and teardown.

  Every frame carries the id of the request it was produced for. The tags exist
  only in the model; no step of the daemon looks at them.
*/
module RequestPipe {
  import opened Options
  import opened Wire

  datatype Request = Synth(id: nat) | Shutdown

  datatype Frame = Frame(owner: Option<nat>, body: Body)

  // Where one `synthesize` call stands.
  datatype Pc =
    | Waiting      // has the process, waits for request_lock
    | Draining     // reads residual frames
    | Flushing     // request written, awaits writer.drain()
    | AwaitHeader
    | Streaming    // awaits the next frame
    | AtYield      // suspended at `yield`, the caller has a chunk
    | Done         // returned after audio_end
    | Raised
    | Abandoned    // closed or cancelled

  // Where the provider's serve loop stands.
  datatype Serving = Idle | Opening(id: nat) | Sending(id: nat) | Exited

  datatype Pipe = Pipe(
    state: ProviderState,
    needsDrain: bool,
    lock: Option<nat>,
    inbox: seq<Request>,
    serving: Serving,
    outbox: seq<Frame>,
    pcs: map<nat, Pc>,
    // History, read by no step.
    produced: map<nat, seq<Pcm>>,
    delivered: map<nat, seq<Frame>>,
    writer: Option<nat>,
    failedDirty: bool,      // a drain failed with something of a request still in the pipe
    cancelledDirty: bool,   // a drain was cancelled so
    torn: bool,
    taken: set<nat> := {})  // callers that a teardown's read took a chunk from

  datatype Step =
    | Arrive(r: nat)
    | Acquire(r: nat)
    | DrainRead(r: nat)
    | DrainFail(r: nat)
    | DrainCancel(r: nat)
    | Flushed(r: nat)
    | ReadHeader(r: nat)
    | ReadBody(r: nat)
    | Resume(r: nat)
    | Abandon(r: nat)
    | Consume
    | Emit(body: Body)
    | Die
    | BeginTeardown
    | TeardownRead
    | EndTeardown

  predicate InExchange(pc: Pc) {
    pc.Flushing? || pc.AwaitHeader? || pc.Streaming? || pc.AtYield?
  }

  predicate Holding(pc: Pc) {
    pc.Draining? || InExchange(pc)
  }

  predicate Reading(pc: Pc) {
    pc.Draining? || pc.AwaitHeader? || pc.Streaming?
  }

  predicate At(p: Pipe, r: nat, pc: Pc) {
    r in p.pcs && p.pcs[r] == pc
  }

  // ---- the steps -------------------------------------------------------

  predicate Enabled(p: Pipe, step: Step) {
    match step
    case Arrive(r) => r !in p.pcs && p.state == READY
    case Acquire(r) => At(p, r, Waiting) && p.lock == None
    case DrainRead(r) => At(p, r, Draining) && p.outbox != []
    case DrainFail(r) => At(p, r, Draining)
    case DrainCancel(r) => At(p, r, Draining)
    case Flushed(r) => At(p, r, Flushing)
    case ReadHeader(r) => At(p, r, AwaitHeader) && p.outbox != []
    case ReadBody(r) => At(p, r, Streaming) && p.outbox != []
    case Resume(r) => At(p, r, AtYield)
    case Abandon(r) => r in p.pcs && (p.pcs[r].Waiting? || InExchange(p.pcs[r]))
    case Consume => p.serving.Idle? && p.inbox != []
    case Emit(body) =>
      || (p.serving.Opening? && (body.SynthesizeHeader? || body.Error?))
      || (p.serving.Sending? && (body.AudioChunk? || body.AudioEnd? || body.Error?))
    case Die => true
    case BeginTeardown => !p.torn
    // While a caller's read is pending the teardown's own read raises and takes nothing.
    case TeardownRead => p.state == SHUTTING_DOWN && p.outbox != [] &&
                         (p.lock.None? || (p.lock.value in p.pcs && !Reading(p.pcs[p.lock.value])))
    case EndTeardown => p.torn
  }

  // The process-wide flags, which only drains and teardown touch.
  predicate SameFlags(p: Pipe, q: Pipe) {
    p.state == q.state && p.failedDirty == q.failedDirty && p.cancelledDirty == q.cancelledDirty && p.torn == q.torn
    && p.taken == q.taken
  }

  function Leave(p: Pipe, r: nat, pc: Pc): (q: Pipe)
    ensures SameFlags(p, q)
  {
    p.(lock := if p.lock == Some(r) then None else p.lock, pcs := p.pcs[r := pc])
  }

  // needs_drain is set before the request is written.
  function Send(p: Pipe, r: nat): (q: Pipe)
    ensures SameFlags(p, q)
  {
    p.(needsDrain := true, inbox := p.inbox + [Synth(r)], writer := Some(r), pcs := p.pcs[r := Flushing])
  }

  function Pop(p: Pipe): (q: Pipe)
    requires p.outbox != []
    ensures SameFlags(p, q)
  {
    p.(outbox := p.outbox[1..])
  }

  function DoArrive(p: Pipe, r: nat): (q: Pipe)
    ensures SameFlags(p, q)
  {
    p.(pcs := p.pcs[r := Waiting], produced := p.produced[r := []], delivered := p.delivered[r := []])
  }

  function DoAcquire(p: Pipe, r: nat): (q: Pipe)
    ensures SameFlags(p, q)
  {
    if p.needsDrain then p.(lock := Some(r), pcs := p.pcs[r := Draining]) else Send(p.(lock := Some(r)), r)
  }

  function DoDrainRead(p: Pipe, r: nat): (q: Pipe)
    requires p.outbox != []
    ensures SameFlags(p, q)
  {
    if p.outbox[0].body.AudioEnd? then Send(Pop(p).(needsDrain := false), r) else Pop(p)
  }

  function DoDrainFail(p: Pipe, r: nat): Pipe {
    Send(p.(state := FAILED, needsDrain := false, failedDirty := p.failedDirty || !Quiet(p)), r)
  }

  function DoDrainCancel(p: Pipe, r: nat): Pipe {
    Leave(p.(needsDrain := false, cancelledDirty := p.cancelledDirty || !Quiet(p)), r, Abandoned)
  }

  function DoReadHeader(p: Pipe, r: nat): (q: Pipe)
    requires p.outbox != []
    ensures SameFlags(p, q)
  {
    match p.outbox[0].body
    case Error => Leave(Pop(p).(needsDrain := false), r, Raised)
    case SynthesizeHeader => Pop(p).(pcs := p.pcs[r := Streaming])
    case _ => Leave(Pop(p), r, Raised)
  }

  function DoReadBody(p: Pipe, r: nat): (q: Pipe)
    requires p.outbox != []
    ensures SameFlags(p, q)
  {
    match p.outbox[0].body
    case AudioChunk(_) => Deliver(p, r)
    case AudioEnd => Leave(Pop(p).(needsDrain := false), r, Done)
    case Error => Leave(Pop(p), r, Raised)
    case _ => Pop(p)
  }

  function Deliver(p: Pipe, r: nat): (q: Pipe)
    requires p.outbox != []
    ensures SameFlags(p, q)
  {
    var got := if r in p.delivered then p.delivered[r] else [];
    Pop(p).(pcs := p.pcs[r := AtYield], delivered := p.delivered[r := got + [p.outbox[0]]])
  }

  function DoConsume(p: Pipe): (q: Pipe)
    requires p.inbox != []
    ensures SameFlags(p, q)
  {
    match p.inbox[0]
    case Synth(id) => p.(inbox := p.inbox[1..], serving := Opening(id))
    case Shutdown => p.(inbox := p.inbox[1..], serving := Exited, outbox := p.outbox + [Frame(None, ShutdownReply)])
  }

  function DoEmit(p: Pipe, id: nat, body: Body): (q: Pipe)
    ensures SameFlags(p, q)
  {
    var made := if id in p.produced then p.produced[id] else [];
    p.(outbox := p.outbox + [Frame(Some(id), body)],
       serving := if body.AudioEnd? || body.Error? then Idle else Sending(id),
       produced := if body.AudioChunk? then p.produced[id := made + [body.pcm]] else p.produced)
  }

  // The teardown reads one frame and throws it away.
  function DoTeardownRead(p: Pipe): Pipe
    requires p.outbox != []
  {
    Pop(p).(taken := if Robs(p) then p.taken + {p.outbox[0].owner.value} else p.taken)
  }

  // The frame is a chunk of a caller that is still in its exchange.
  predicate Robs(p: Pipe)
    requires p.outbox != []
  {
    var f := p.outbox[0];
    f.body.AudioChunk? && f.owner.Some? && f.owner.value in p.pcs && InExchange(p.pcs[f.owner.value])
  }

  function DoBeginTeardown(p: Pipe): Pipe {
    p.(state := SHUTTING_DOWN, torn := true, inbox := p.inbox + [Shutdown])
  }

  function Apply(p: Pipe, step: Step): Pipe
    requires Enabled(p, step)
  {
    match step
    case Arrive(r) => DoArrive(p, r)
    case Acquire(r) => DoAcquire(p, r)
    case DrainRead(r) => DoDrainRead(p, r)
    case DrainFail(r) => DoDrainFail(p, r)
    case DrainCancel(r) => DoDrainCancel(p, r)
    case Flushed(r) => p.(pcs := p.pcs[r := AwaitHeader])
    case ReadHeader(r) => DoReadHeader(p, r)
    case ReadBody(r) => DoReadBody(p, r)
    case Resume(r) => p.(pcs := p.pcs[r := Streaming])
    case Abandon(r) => Leave(p, r, Abandoned)
    case Consume => DoConsume(p)
    case Emit(body) => DoEmit(p, p.serving.id, body)
    case Die => p.(serving := Exited)
    case BeginTeardown => DoBeginTeardown(p)
    case TeardownRead => DoTeardownRead(p)
    case EndTeardown => p.(state := STOPPED, serving := Exited)
  }

  // A process whose warmup reply has been read and which nobody has used yet.
  const Fresh: Pipe := Pipe(READY, false, None, [], Idle, [], map[], map[], map[], None, false, false, false)

  ghost predicate IsRun(run: seq<Pipe>, steps: seq<Step>) {
    && |run| == |steps| + 1
    && run[0] == Fresh
    && forall i :: 0 <= i < |steps| ==> Enabled(run[i], steps[i]) && run[i + 1] == Apply(run[i], steps[i])
  }

  lemma RunLength(run: seq<Pipe>, steps: seq<Step>)
    requires IsRun(run, steps)
    ensures |run| == |steps| + 1 && run[0] == Fresh
  {
    hide Apply, Enabled;
  }

  lemma RunStep(run: seq<Pipe>, steps: seq<Step>, k: nat)
    requires IsRun(run, steps) && k < |steps|
    ensures |run| == |steps| + 1 && Enabled(run[k], steps[k]) && run[k + 1] == Apply(run[k], steps[k])
  {
    hide Apply, Enabled;
  }

  // ---- what every state of a run satisfies ------------------------------

  // The lock and the program counters agree, whatever happened before.
  ghost predicate LockInv(p: Pipe) {
    && (p.lock.Some? ==> p.lock.value in p.pcs && Holding(p.pcs[p.lock.value]))
    && (forall r :: r in p.pcs && Holding(p.pcs[r]) ==> p.lock == Some(r))
    && p.produced.Keys == p.pcs.Keys
    && p.delivered.Keys == p.pcs.Keys
    && p.taken <= p.pcs.Keys
    && (forall i :: 0 <= i < |p.inbox| && p.inbox[i].Synth? ==> p.inbox[i].id in p.pcs)
    && (p.serving.Opening? || p.serving.Sending? ==> p.serving.id in p.pcs)
    && (p.failedDirty ==> p.state != READY)
    && (!p.torn ==> p.state == READY || p.state == FAILED)
    && (p.state == READY ==> !p.torn)
  }

  // No drain so far was given up with anything left in the pipe.
  predicate Clean(p: Pipe) {
    !p.failedDirty && !p.cancelledDirty
  }

  predicate Terminal(f: Frame) {
    f.body.AudioEnd? || f.body.Error?
  }

  // Nothing of any synthesize request is queued, being produced or unread.
  predicate Quiet(p: Pipe) {
    && (forall i :: 0 <= i < |p.inbox| ==> p.inbox[i].Shutdown?)
    && (p.serving.Idle? || p.serving.Exited?)
    && (forall i :: 0 <= i < |p.outbox| ==> p.outbox[i].owner.None?)
    && (forall i :: 0 <= i < |p.outbox| ==> p.outbox[i].body.ShutdownReply?)
  }

  // Everything in flight belongs to w and is the rest of one response.
  ghost predicate OneFlow(p: Pipe, w: nat) {
    && (forall i :: 0 <= i < |p.inbox| && p.inbox[i].Synth? ==> p.inbox[i].id == w)
    && (forall i, j :: 0 <= i < j < |p.inbox| ==> p.inbox[i].Shutdown? || p.inbox[j].Shutdown?)
    && ((p.serving.Opening? || p.serving.Sending?) ==> p.serving.id == w)
    && (forall i :: 0 <= i < |p.outbox| && p.outbox[i].owner.Some? ==> p.outbox[i].owner.value == w)
    && (forall i :: 0 <= i < |p.outbox| && p.outbox[i].owner.None? ==> p.outbox[i].body.ShutdownReply?)
    // a queued request has no frame yet
    && ((exists i :: 0 <= i < |p.inbox| && p.inbox[i].Synth?) ==>
          && (p.serving.Idle? || p.serving.Exited?)
          && (forall i :: 0 <= i < |p.outbox| ==> p.outbox[i].owner.None?))
    // a terminal frame is the last of its response
    && (forall i :: 0 <= i < |p.outbox| && Terminal(p.outbox[i]) ==>
          && (p.serving.Idle? || p.serving.Exited?)
          && (forall j :: i < j < |p.outbox| ==> p.outbox[j].owner.None?))
  }

  ghost predicate FlowInv(p: Pipe) {
    && (p.lock.Some? ==> p.needsDrain)
    && (p.lock.Some? && p.lock.value in p.pcs && InExchange(p.pcs[p.lock.value]) ==> p.writer == p.lock)
    && (!p.needsDrain ==> Quiet(p))
    && (p.writer.None? ==> Quiet(p))
    && (p.writer.Some? ==> p.writer.value in p.pcs && OneFlow(p, p.writer.value))
    && (p.writer.Some? ==> !p.pcs[p.writer.value].Waiting? && !p.pcs[p.writer.value].Draining?)
    && (p.writer.Some? && p.needsDrain ==> !p.pcs[p.writer.value].Done?)
    && (forall r, i :: r in p.delivered && 0 <= i < |p.delivered[r]| ==> p.delivered[r][i].owner == Some(r))
  }

  function Chunks(fs: seq<Frame>): seq<Pcm> {
    if fs == [] then []
    else (if fs[0].body.AudioChunk? then [fs[0].body.pcm] else []) + Chunks(fs[1..])
  }

  // What request r has been given against what the provider made for it; a caller that was
  // robbed of a chunk stays short of it.
  ghost predicate Account(p: Pipe, r: nat)
    requires r in p.pcs && r in p.delivered && r in p.produced
  {
    if r in p.taken then
      && !p.pcs[r].Waiting? && !p.pcs[r].Draining?
      && |Chunks(p.delivered[r])| < |p.produced[r]|
      && (InExchange(p.pcs[r]) ==> |Chunks(p.delivered[r])| + |Chunks(p.outbox)| < |p.produced[r]|)
    else
      && Chunks(p.delivered[r]) <= p.produced[r]
      && (p.pcs[r].Done? ==> Chunks(p.delivered[r]) == p.produced[r])
      && (p.pcs[r].Waiting? || p.pcs[r].Draining? ==> p.delivered[r] == [] && p.produced[r] == [])
      && (InExchange(p.pcs[r]) ==> Chunks(p.delivered[r]) + Chunks(p.outbox) == p.produced[r])
  }

  ghost predicate AudioInv(p: Pipe) {
    forall r :: r in p.pcs && r in p.delivered && r in p.produced ==> Account(p, r)
  }

  ghost predicate Inv(p: Pipe) {
    && LockInv(p)
    && (Clean(p) ==> FlowInv(p))
    && (Clean(p) ==> AudioInv(p))
  }

  lemma {:induction false} ChunksFirst(fs: seq<Frame>)
    requires fs != []
    ensures Chunks(fs) == (if fs[0].body.AudioChunk? then [fs[0].body.pcm] else []) + Chunks(fs[1..])
  {
  }

  lemma {:induction false} ChunksConcat(a: seq<Frame>, b: seq<Frame>)
    ensures Chunks(a + b) == Chunks(a) + Chunks(b)
  {
    var c := a + b;
    if a == [] {
      assert c == b;
    } else {
      ChunksFirst(a);
      ChunksFirst(c);
      assert c[0] == a[0] && c[1..] == a[1..] + b;
      hide Chunks;
      ChunksConcat(a[1..], b);
      var first := if a[0].body.AudioChunk? then [a[0].body.pcm] else [];
      assert first + (Chunks(a[1..]) + Chunks(b)) == (first + Chunks(a[1..])) + Chunks(b);
    }
  }

  lemma LockPop(p: Pipe)
    requires LockInv(p) && p.outbox != []
    ensures LockInv(Pop(p)) && LockInv(Pop(p).(needsDrain := false))
  {
  }

  lemma LockLeave(p: Pipe, r: nat, pc: Pc)
    requires LockInv(p) && r in p.pcs && !Holding(pc)
    ensures LockInv(Leave(p, r, pc))
  {
  }

  lemma LockMove(p: Pipe, r: nat, pc: Pc)
    requires LockInv(p) && r in p.pcs && Holding(p.pcs[r]) && Holding(pc)
    ensures LockInv(p.(pcs := p.pcs[r := pc]))
  {
  }

  lemma LockSend(p: Pipe, r: nat)
    requires LockInv(p) && r in p.pcs && Holding(p.pcs[r])
    ensures LockInv(Send(p, r))
  {
  }

  lemma LockArrive(p: Pipe, r: nat)
    requires LockInv(p) && Enabled(p, Arrive(r))
    ensures LockInv(DoArrive(p, r))
  {
  }

  lemma LockAcquire(p: Pipe, r: nat)
    requires LockInv(p) && Enabled(p, Acquire(r))
    ensures LockInv(DoAcquire(p, r))
  {
  }

  lemma LockFlushed(p: Pipe, r: nat)
    requires LockInv(p) && Enabled(p, Flushed(r))
    ensures LockInv(p.(pcs := p.pcs[r := AwaitHeader]))
  {
  }

  lemma LockResume(p: Pipe, r: nat)
    requires LockInv(p) && Enabled(p, Resume(r))
    ensures LockInv(p.(pcs := p.pcs[r := Streaming]))
  {
  }

  lemma LockAbandon(p: Pipe, r: nat)
    requires LockInv(p) && Enabled(p, Abandon(r))
    ensures LockInv(Leave(p, r, Abandoned))
  {
  }

  lemma LockDrainRead(p: Pipe, r: nat)
    requires LockInv(p) && Enabled(p, DrainRead(r))
    ensures LockInv(DoDrainRead(p, r))
  {
    LockPop(p);
    if p.outbox[0].body.AudioEnd? { LockSend(Pop(p).(needsDrain := false), r); }
  }

  lemma LockDrainFail(p: Pipe, r: nat)
    requires LockInv(p) && Enabled(p, DrainFail(r))
    ensures LockInv(DoDrainFail(p, r))
  {
  }

  lemma LockDrainCancel(p: Pipe, r: nat)
    requires LockInv(p) && Enabled(p, DrainCancel(r))
    ensures LockInv(DoDrainCancel(p, r))
  {
  }

  lemma LockReadHeader(p: Pipe, r: nat)
    requires LockInv(p) && Enabled(p, ReadHeader(r))
    ensures LockInv(DoReadHeader(p, r))
  {
    LockPop(p);
    match p.outbox[0].body
    case Error => LockLeave(Pop(p).(needsDrain := false), r, Raised);
    case SynthesizeHeader => LockMove(Pop(p), r, Streaming);
    case _ => LockLeave(Pop(p), r, Raised);
  }

  lemma LockDeliver(p: Pipe, r: nat)
    requires LockInv(p) && r in p.pcs && Holding(p.pcs[r]) && p.outbox != []
    ensures LockInv(Deliver(p, r))
  {
    LockPop(p);
    LockMove(Pop(p), r, AtYield);
  }

  lemma LockReadBody(p: Pipe, r: nat)
    requires LockInv(p) && Enabled(p, ReadBody(r))
    ensures LockInv(DoReadBody(p, r))
  {
    hide LockInv;
    LockPop(p);
    match p.outbox[0].body
    case AudioChunk(_) => LockDeliver(p, r);
    case AudioEnd => LockLeave(Pop(p).(needsDrain := false), r, Done);
    case Error => LockLeave(Pop(p), r, Raised);
    case _ =>
  }

  lemma LockConsume(p: Pipe)
    requires LockInv(p) && Enabled(p, Consume)
    ensures LockInv(DoConsume(p))
  {
    match p.inbox[0]
    case Synth(id) => LockNext(p, Opening(id), p.outbox);
    case Shutdown => LockNext(p, Exited, p.outbox + [Frame(None, ShutdownReply)]);
  }

  lemma LockNext(p: Pipe, serving: Serving, outbox: seq<Frame>)
    requires LockInv(p) && p.inbox != [] && (serving.Opening? ==> p.inbox[0] == Synth(serving.id)) && !serving.Sending?
    ensures LockInv(p.(inbox := p.inbox[1..], serving := serving, outbox := outbox))
  {
    var rest := p.inbox[1..];
    assert forall i :: 0 <= i < |rest| ==> rest[i] == p.inbox[i + 1];
  }

  lemma LockEmit(p: Pipe, body: Body)
    requires LockInv(p) && Enabled(p, Emit(body))
    ensures LockInv(DoEmit(p, p.serving.id, body))
  {
  }

  lemma LockBeginTeardown(p: Pipe)
    requires LockInv(p) && Enabled(p, BeginTeardown)
    ensures LockInv(DoBeginTeardown(p))
  {
  }

  lemma LockTeardownRead(p: Pipe)
    requires LockInv(p) && Enabled(p, TeardownRead)
    ensures LockInv(DoTeardownRead(p))
  {
  }

  lemma FlowArrive(p: Pipe, r: nat)
    requires LockInv(p) && FlowInv(p) && Clean(p) && Enabled(p, Arrive(r))
    ensures FlowInv(DoArrive(p, r))
  {
  }

  // Everything of the caller that now writes its request, and nothing of any other.
  lemma FlowSend(p: Pipe, r: nat)
    requires Quiet(p) && p.lock == Some(r) && r in p.pcs
    requires forall x, i :: x in p.delivered && 0 <= i < |p.delivered[x]| ==> p.delivered[x][i].owner == Some(x)
    ensures FlowInv(Send(p, r))
  {
  }

  lemma FlowAcquire(p: Pipe, r: nat)
    requires LockInv(p) && FlowInv(p) && Clean(p) && Enabled(p, Acquire(r))
    ensures FlowInv(DoAcquire(p, r))
  {
    if p.needsDrain { FlowTakeLock(p, r); } else { FlowSend(p.(lock := Some(r)), r); }
  }

  lemma FlowTakeLock(p: Pipe, r: nat)
    requires FlowInv(p) && At(p, r, Waiting) && p.lock.None? && p.needsDrain
    ensures FlowInv(p.(lock := Some(r), pcs := p.pcs[r := Draining]))
  {
  }

  lemma FlowFlushed(p: Pipe, r: nat)
    requires LockInv(p) && FlowInv(p) && Clean(p) && Enabled(p, Flushed(r))
    ensures FlowInv(p.(pcs := p.pcs[r := AwaitHeader]))
  {
  }

  lemma FlowResume(p: Pipe, r: nat)
    requires LockInv(p) && FlowInv(p) && Clean(p) && Enabled(p, Resume(r))
    ensures FlowInv(p.(pcs := p.pcs[r := Streaming]))
  {
  }

  lemma FlowAbandon(p: Pipe, r: nat)
    requires LockInv(p) && FlowInv(p) && Clean(p) && Enabled(p, Abandon(r))
    ensures FlowInv(Leave(p, r, Abandoned))
  {
  }

  lemma FlowDrainRead(p: Pipe, r: nat)
    requires LockInv(p) && FlowInv(p) && Clean(p) && Enabled(p, DrainRead(r))
    ensures FlowInv(DoDrainRead(p, r))
  {
    LockOfDrain(p, r);
    if p.outbox[0].body.AudioEnd? {
      QuietAfterTerminal(p);
      FlowSend(Pop(p).(needsDrain := false), r);
    } else {
      hide LockInv, FlowInv, Quiet;
      FlowPop(p, p.lock, p.pcs);
    }
  }

  lemma LockOfDrain(p: Pipe, r: nat)
    requires LockInv(p) && FlowInv(p) && At(p, r, Draining)
    ensures p.lock == Some(r) && p.needsDrain
  {
  }

  lemma FlowDrainFail(p: Pipe, r: nat)
    requires LockInv(p) && FlowInv(p) && Clean(p) && Enabled(p, DrainFail(r)) && Quiet(p)
    ensures FlowInv(DoDrainFail(p, r))
  {
    FlowSend(p.(state := FAILED, needsDrain := false), r);
  }

  lemma FlowDrainCancel(p: Pipe, r: nat)
    requires LockInv(p) && FlowInv(p) && Clean(p) && Enabled(p, DrainCancel(r)) && Quiet(p)
    ensures FlowInv(DoDrainCancel(p, r))
  {
  }

  // Reading a terminal frame empties the flow: this is why clearing needs_drain
  // there is right.
  lemma QuietAfterTerminal(p: Pipe)
    requires FlowInv(p) && p.outbox != [] && Terminal(p.outbox[0])
    ensures Quiet(Pop(p))
  {
    assert p.writer.Some?;
    assert OneFlow(p, p.writer.value);
  }

  // A terminal frame of the lock holder's own answer settles it.
  lemma FlowSettle(p: Pipe, r: nat, pc: Pc)
    requires LockInv(p) && FlowInv(p) && r in p.pcs && InExchange(p.pcs[r]) && (pc.Raised? || pc.Done?)
    requires p.outbox != [] && Terminal(p.outbox[0])
    ensures FlowInv(Leave(Pop(p).(needsDrain := false), r, pc))
  {
    QuietAfterTerminal(p);
  }

  lemma LockOfExchange(p: Pipe, r: nat)
    requires LockInv(p) && FlowInv(p) && r in p.pcs && InExchange(p.pcs[r])
    ensures p.lock == Some(r) && p.needsDrain
  {
  }

  lemma FlowReadHeader(p: Pipe, r: nat)
    requires LockInv(p) && FlowInv(p) && Clean(p) && Enabled(p, ReadHeader(r))
    ensures FlowInv(DoReadHeader(p, r))
  {
    hide LockInv, FlowInv;
    LockOfExchange(p, r);
    match p.outbox[0].body
    case Error => FlowSettle(p, r, Raised);
    case SynthesizeHeader => FlowPop(p, p.lock, p.pcs[r := Streaming]);
    case _ => FlowPop(p, None, p.pcs[r := Raised]);
  }

  // Popping one frame and moving the lock holder on, with needs_drain still set.
  lemma FlowPop(p: Pipe, lock: Option<nat>, pcs: map<nat, Pc>)
    requires FlowInv(p) && p.needsDrain && p.outbox != [] && p.lock.Some?
    requires lock == p.lock || lock == None
    requires pcs.Keys == p.pcs.Keys && p.lock.value in pcs
    requires lock == p.lock && InExchange(pcs[p.lock.value]) ==>
               p.lock.value in p.pcs && InExchange(p.pcs[p.lock.value])
    requires forall x :: x in pcs && x != p.lock.value ==> pcs[x] == p.pcs[x]
    requires !pcs[p.lock.value].Waiting? && !pcs[p.lock.value].Done?
    requires pcs[p.lock.value].Draining? ==> p.pcs[p.lock.value].Draining?
    ensures FlowInv(Pop(p).(lock := lock, pcs := pcs))
  {
  }

  lemma FlowDeliver(p: Pipe, r: nat)
    requires LockInv(p) && FlowInv(p) && Clean(p) && Enabled(p, ReadBody(r)) && p.outbox[0].body.AudioChunk?
    ensures p.outbox[0].owner == Some(r)
    ensures FlowInv(Deliver(p, r))
  {
  }

  lemma FlowReadBody(p: Pipe, r: nat)
    requires LockInv(p) && FlowInv(p) && Clean(p) && Enabled(p, ReadBody(r))
    ensures FlowInv(DoReadBody(p, r))
  {
    hide LockInv, FlowInv;
    LockOfExchange(p, r);
    match p.outbox[0].body
    case AudioChunk(_) => FlowDeliver(p, r);
    case AudioEnd => FlowSettle(p, r, Done);
    case Error => FlowPop(p, None, p.pcs[r := Raised]);
    case _ => FlowPop(p, p.lock, p.pcs);
  }

  lemma FlowConsumeSynth(p: Pipe, id: nat)
    requires LockInv(p) && FlowInv(p) && Clean(p) && Enabled(p, Consume) && p.inbox[0] == Synth(id)
    ensures FlowInv(p.(inbox := p.inbox[1..], serving := Opening(id)))
  {
    var rest := p.inbox[1..];
    assert forall i :: 0 <= i < |rest| ==> rest[i] == p.inbox[i + 1];
    assert forall i :: 0 <= i < |rest| ==> rest[i].Shutdown?;
  }

  lemma FlowConsumeShutdown(p: Pipe)
    requires LockInv(p) && FlowInv(p) && Clean(p) && Enabled(p, Consume) && p.inbox[0].Shutdown?
    ensures FlowInv(DoConsume(p))
  {
    var rest := p.inbox[1..];
    assert forall i :: 0 <= i < |rest| ==> rest[i] == p.inbox[i + 1];
  }

  lemma FlowConsume(p: Pipe)
    requires LockInv(p) && FlowInv(p) && Clean(p) && Enabled(p, Consume)
    ensures FlowInv(DoConsume(p))
  {
    match p.inbox[0]
    case Synth(id) => FlowConsumeSynth(p, id);
    case Shutdown => FlowConsumeShutdown(p);
  }

  lemma FlowEmit(p: Pipe, body: Body)
    requires LockInv(p) && FlowInv(p) && Clean(p) && Enabled(p, Emit(body))
    ensures FlowInv(DoEmit(p, p.serving.id, body))
  {
  }

  lemma FlowBeginTeardown(p: Pipe)
    requires LockInv(p) && FlowInv(p) && Clean(p) && Enabled(p, BeginTeardown)
    ensures FlowInv(DoBeginTeardown(p))
  {
  }

  lemma FlowTeardownRead(p: Pipe)
    requires LockInv(p) && FlowInv(p) && Clean(p) && Enabled(p, TeardownRead)
    ensures FlowInv(DoTeardownRead(p))
  {
  }


  lemma {:induction false} NoAudio(fs: seq<Frame>)
    requires forall i :: 0 <= i < |fs| ==> !fs[i].body.AudioChunk?
    ensures Chunks(fs) == []
  {
    if fs != [] {
      assert forall i :: 0 <= i < |fs[1..]| ==> fs[1..][i] == fs[i + 1];
      NoAudio(fs[1..]);
    }
  }

  ghost predicate Good(p: Pipe) {
    LockInv(p) && Clean(p) && FlowInv(p) && AudioInv(p)
  }

  lemma AudioSend(p: Pipe, r: nat)
    requires AudioInv(p) && Quiet(p) && p.taken <= p.pcs.Keys
    requires r in p.pcs && (p.pcs[r].Waiting? || p.pcs[r].Draining?)
    requires forall x :: x in p.pcs ==> !InExchange(p.pcs[x])
    ensures AudioInv(Send(p, r))
  {
    NoAudio(p.outbox);
    var q := Send(p, r);
    forall x | x in q.pcs && x in q.delivered && x in q.produced ensures Account(q, x) {
      assert Account(p, x);
    }
  }

  lemma EmitsForHolder(p: Pipe)
    requires LockInv(p) && FlowInv(p) && (p.serving.Opening? || p.serving.Sending?)
    ensures p.serving.id in p.pcs
    ensures !p.pcs[p.serving.id].Waiting? && !p.pcs[p.serving.id].Draining? && !p.pcs[p.serving.id].Done?
    ensures forall x :: x in p.pcs && InExchange(p.pcs[x]) ==> x == p.serving.id
    ensures p.serving.id in p.produced
  {
  }

  // A request whose accounts a step leaves alone.
  lemma AccountKept(p: Pipe, q: Pipe, r: nat)
    requires r in p.pcs && r in p.delivered && r in p.produced && Account(p, r)
    requires r in q.pcs && q.pcs[r] == p.pcs[r] && q.delivered == p.delivered && q.taken == p.taken
    requires r in q.produced && q.produced[r] == p.produced[r]
    requires InExchange(p.pcs[r]) ==> Chunks(q.outbox) == Chunks(p.outbox)
    ensures Account(q, r)
  {
    hide Chunks;
  }

  // One chunk more made for r and waiting in the pipe.
  lemma AccountGrows(p: Pipe, q: Pipe, r: nat, pcm: Pcm)
    requires r in p.pcs && r in p.delivered && r in p.produced && Account(p, r)
    requires q.pcs == p.pcs && q.delivered == p.delivered && q.taken == p.taken
    requires !p.pcs[r].Waiting? && !p.pcs[r].Draining? && !p.pcs[r].Done?
    requires r in q.produced && q.produced[r] == p.produced[r] + [pcm]
    requires Chunks(q.outbox) == Chunks(p.outbox) + [pcm]
    ensures Account(q, r)
  {
    hide Chunks;
    var got, unread := Chunks(p.delivered[r]), Chunks(p.outbox);
    assert got + (unread + [pcm]) == (got + unread) + [pcm];
  }

  lemma ChunksPut(outbox: seq<Frame>, id: nat, body: Body)
    ensures Chunks(outbox + [Frame(Some(id), body)]) ==
              if body.AudioChunk? then Chunks(outbox) + [body.pcm] else Chunks(outbox)
  {
    var frame := Frame(Some(id), body);
    ChunksFirst([frame]);
    ChunksConcat(outbox, [frame]);
  }

  lemma AudioEmit(p: Pipe, body: Body)
    requires Good(p) && Enabled(p, Emit(body))
    ensures AudioInv(DoEmit(p, p.serving.id, body))
  {
    EmitsForHolder(p);
    hide LockInv, FlowInv, Quiet, Account, Chunks;
    var id := p.serving.id;
    var q := DoEmit(p, id, body);
    ChunksPut(p.outbox, id, body);
    forall r | r in q.pcs && r in q.delivered && r in q.produced ensures Account(q, r) {
      if r == id && body.AudioChunk? {
        AccountGrows(p, q, r, body.pcm);
      } else {
        AccountKept(p, q, r);
      }
    }
  }

  lemma {:induction false} ChunksMove(got: seq<Frame>, unread: seq<Frame>)
    requires unread != [] && unread[0].body.AudioChunk?
    ensures Chunks(got + [unread[0]]) + Chunks(unread[1..]) == Chunks(got) + Chunks(unread)
    ensures Chunks(got + [unread[0]]) == Chunks(got) + [unread[0].body.pcm]
  {
    ChunksFirst(unread);
    ChunksFirst([unread[0]]);
    assert Chunks([unread[0]]) == [unread[0].body.pcm];
    hide Chunks;
    ChunksConcat(got, [unread[0]]);
    var pcm := [unread[0].body.pcm];
    assert (Chunks(got) + pcm) + Chunks(unread[1..]) == Chunks(got) + (pcm + Chunks(unread[1..]));
  }

  lemma AudioDeliver(p: Pipe, r: nat)
    requires LockInv(p) && AudioInv(p) && Enabled(p, ReadBody(r)) && p.outbox[0].body.AudioChunk?
    ensures AudioInv(Deliver(p, r))
  {
    var q := Deliver(p, r);
    ChunksMove(p.delivered[r], p.outbox);
    forall x | x in q.pcs && x in q.delivered && x in q.produced ensures Account(q, x) {
      assert Account(p, x);
    }
  }

  // Any other frame moves its reader on without changing the accounts.
  lemma AudioSkip(p: Pipe, r: nat, q: Pipe)
    requires LockInv(p) && AudioInv(p) && r in p.pcs && InExchange(p.pcs[r])
    requires p.outbox != [] && !p.outbox[0].body.AudioChunk?
    requires q.outbox == p.outbox[1..] && q.delivered == p.delivered && q.produced == p.produced && q.taken == p.taken
    requires q.pcs.Keys == p.pcs.Keys && (forall x :: x in p.pcs && x != r ==> q.pcs[x] == p.pcs[x])
    requires InExchange(q.pcs[r]) || q.pcs[r].Raised? || (q.pcs[r].Done? && Chunks(q.outbox) == [])
    ensures AudioInv(q)
  {
    ChunksFirst(p.outbox);
    hide Account, Chunks, LockInv;
    forall x | x in q.pcs && x in q.delivered && x in q.produced ensures Account(q, x) {
      if x == r { AccountMoves(p, q, r); } else { AccountKept(p, q, x); }
    }
  }

  // r goes on, raises, or has read everything.
  lemma AccountMoves(p: Pipe, q: Pipe, r: nat)
    requires r in p.pcs && r in p.delivered && r in p.produced && Account(p, r) && InExchange(p.pcs[r])
    requires r in q.pcs && q.delivered == p.delivered && q.produced == p.produced && q.taken == p.taken
    requires Chunks(q.outbox) == Chunks(p.outbox)
    requires InExchange(q.pcs[r]) || q.pcs[r].Raised? || (q.pcs[r].Done? && Chunks(q.outbox) == [])
    ensures Account(q, r)
  {
    hide Chunks;
  }

  lemma AudioReadEnd(p: Pipe, r: nat)
    requires Good(p) && Enabled(p, ReadBody(r)) && p.outbox[0].body.AudioEnd?
    ensures AudioInv(DoReadBody(p, r))
  {
    QuietAfterTerminal(p);
    NoAudio(Pop(p).outbox);
    AudioSkip(p, r, Leave(Pop(p).(needsDrain := false), r, Done));
  }

  lemma AudioReadBody(p: Pipe, r: nat)
    requires Good(p) && Enabled(p, ReadBody(r))
    ensures AudioInv(DoReadBody(p, r))
  {
    match p.outbox[0].body
    case AudioChunk(_) => AudioDeliver(p, r);
    case AudioEnd => AudioReadEnd(p, r);
    case Error => AudioSkip(p, r, Leave(Pop(p), r, Raised));
    case _ => AudioSkip(p, r, Pop(p));
  }

  lemma AudioMisread(p: Pipe, r: nat)
    requires Good(p) && Enabled(p, ReadHeader(r))
    ensures AudioInv(Leave(Pop(p), r, Raised))
  {
    var q := Leave(Pop(p), r, Raised);
    forall x | x in q.pcs && x in q.delivered && x in q.produced ensures Account(q, x) {
      assert Account(p, x);
    }
  }

  lemma AudioReadHeader(p: Pipe, r: nat)
    requires Good(p) && Enabled(p, ReadHeader(r))
    ensures AudioInv(DoReadHeader(p, r))
  {
    hide LockInv, FlowInv, AudioInv, Quiet;
    match p.outbox[0].body
    case Error => AudioSkip(p, r, Leave(Pop(p).(needsDrain := false), r, Raised));
    case SynthesizeHeader => AudioSkip(p, r, Pop(p).(pcs := p.pcs[r := Streaming]));
    case _ => AudioMisread(p, r);
  }

  lemma AudioAcquire(p: Pipe, r: nat)
    requires Good(p) && Enabled(p, Acquire(r))
    ensures AudioInv(DoAcquire(p, r))
  {
    var q := DoAcquire(p, r);
    if p.needsDrain {
      forall x | x in q.pcs && x in q.delivered && x in q.produced ensures Account(q, x) {
        assert Account(p, x);
      }
    } else {
      var p' := p.(lock := Some(r));
      forall x | x in p'.pcs && x in p'.delivered && x in p'.produced ensures Account(p', x) {
        assert Account(p, x);
      }
      AudioSend(p', r);
    }
  }

  lemma AudioDrainRead(p: Pipe, r: nat)
    requires Good(p) && Enabled(p, DrainRead(r))
    ensures AudioInv(DoDrainRead(p, r))
  {
    var q := Pop(p);
    forall x | x in q.pcs && x in q.delivered && x in q.produced ensures Account(q, x) {
      assert Account(p, x);
    }
    if p.outbox[0].body.AudioEnd? {
      QuietAfterTerminal(p);
      LockPop(p);
      var q' := q.(needsDrain := false);
      forall x | x in q'.pcs && x in q'.delivered && x in q'.produced ensures Account(q', x) {
        assert Account(q, x);
      }
      AudioSend(q', r);
    }
  }

  lemma AudioDrainFail(p: Pipe, r: nat)
    requires Good(p) && Enabled(p, DrainFail(r)) && Quiet(p)
    ensures AudioInv(DoDrainFail(p, r))
  {
    var p' := p.(state := FAILED, needsDrain := false);
    AudioSame(p, p');
    AudioSend(p', r);
    AudioSame(Send(p', r), DoDrainFail(p, r));
  }

  lemma AudioStep(p: Pipe, step: Step)
    requires Good(p) && Enabled(p, step)
    requires step.DrainFail? || step.DrainCancel? ==> Quiet(p)
    ensures AudioInv(Apply(p, step))
  {
    hide FlowInv, Quiet, OneFlow, DoArrive, DoAcquire, DoDrainRead, DoDrainFail, DoReadHeader, DoReadBody,
      DoConsume, DoEmit,
      DoTeardownRead, AudioInv;
    match step
    case DrainFail(r) => AudioDrainFail(p, r);
    case DrainCancel(r) => AudioMove(p, r, DoDrainCancel(p, r), Abandoned);
    case Acquire(r) => AudioAcquire(p, r);
    case DrainRead(r) => AudioDrainRead(p, r);
    case ReadHeader(r) => AudioReadHeader(p, r);
    case ReadBody(r) => AudioReadBody(p, r);
    case Emit(body) => AudioEmit(p, body);
    case Consume => AudioConsume(p);
    case TeardownRead => AudioTeardownRead(p);
    case EndTeardown => AudioSame(p, p.(state := STOPPED, serving := Exited));
    case Arrive(r) => AudioArrive(p, r);
    case Flushed(r) => AudioMove(p, r, p.(pcs := p.pcs[r := AwaitHeader]), AwaitHeader);
    case Resume(r) => AudioMove(p, r, p.(pcs := p.pcs[r := Streaming]), Streaming);
    case Abandon(r) => AudioMove(p, r, Leave(p, r, Abandoned), Abandoned);
    case Die => AudioSame(p, p.(serving := Exited));
    case BeginTeardown => AudioSame(p, DoBeginTeardown(p));
  }

  // A robbed caller is short of one chunk from then on.
  lemma AudioTeardownRead(p: Pipe)
    requires Good(p) && Enabled(p, TeardownRead)
    ensures AudioInv(DoTeardownRead(p))
  {
    var q := DoTeardownRead(p);
    var chunk := p.outbox[0].body.AudioChunk?;
    assert Chunks(p.outbox) == (if chunk then [p.outbox[0].body.pcm] else []) + Chunks(q.outbox);
    forall x | x in q.pcs && x in q.delivered && x in q.produced ensures Account(q, x) {
      assert Account(p, x);
      if chunk && InExchange(p.pcs[x]) { assert p.outbox[0].owner == Some(x); }
    }
  }

  // A step that changes neither the audio in flight nor the accounts.
  lemma AudioSame(p: Pipe, q: Pipe)
    requires AudioInv(p) && p.pcs.Keys <= q.pcs.Keys && q.taken == p.taken
    requires p.taken <= p.pcs.Keys
    requires Chunks(q.outbox) == Chunks(p.outbox)
    requires forall x :: x in p.pcs ==> x in p.delivered && x in p.produced && x in q.delivered && x in q.produced
    requires forall x :: x in p.pcs ==> q.delivered[x] == p.delivered[x] && q.produced[x] == p.produced[x]
    requires forall x :: x in p.pcs ==>
               q.pcs[x] == p.pcs[x] || q.pcs[x].Abandoned? || (InExchange(p.pcs[x]) && InExchange(q.pcs[x]))
    requires forall x :: x in q.pcs && x !in p.pcs && x in q.delivered && x in q.produced ==>
               q.pcs[x].Waiting? && q.delivered[x] == [] && q.produced[x] == []
    ensures AudioInv(q)
  {
    forall x | x in q.pcs && x in q.delivered && x in q.produced ensures Account(q, x) {
      if x in p.pcs { assert Account(p, x); }
    }
  }

  lemma AudioConsume(p: Pipe)
    requires Good(p) && Enabled(p, Consume)
    ensures AudioInv(DoConsume(p))
  {
    match p.inbox[0]
    case Synth(id) => AudioSame(p, p.(inbox := p.inbox[1..], serving := Opening(id)));
    case Shutdown =>
      ChunksConcat(p.outbox, [Frame(None, ShutdownReply)]);
      AudioSame(p, p.(inbox := p.inbox[1..], serving := Exited, outbox := p.outbox + [Frame(None, ShutdownReply)]));
  }

  lemma AudioArrive(p: Pipe, r: nat)
    requires LockInv(p) && AudioInv(p) && Enabled(p, Arrive(r))
    ensures AudioInv(DoArrive(p, r))
  {
    AudioSame(p, DoArrive(p, r));
  }

  // A caller moves on without reading.
  lemma AudioMove(p: Pipe, r: nat, q: Pipe, pc: Pc)
    requires LockInv(p) && AudioInv(p) && r in p.pcs
    requires q.pcs == p.pcs[r := pc] && q.outbox == p.outbox && q.delivered == p.delivered
    requires q.produced == p.produced && q.taken == p.taken
    requires pc.Abandoned? || (InExchange(p.pcs[r]) && InExchange(pc))
    ensures AudioInv(q)
  {
    AudioSame(p, q);
  }

  lemma FlowExit(p: Pipe, state: ProviderState)
    requires FlowInv(p)
    ensures FlowInv(p.(state := state, serving := Exited))
  {
  }

  lemma FlowStep(p: Pipe, step: Step)
    requires LockInv(p) && FlowInv(p) && Enabled(p, step) && Clean(p)
    requires step.DrainFail? || step.DrainCancel? ==> Quiet(p)
    ensures FlowInv(Apply(p, step))
  {
    hide FlowInv, LockInv, Quiet, Clean;
    match step
    case DrainFail(r) => FlowDrainFail(p, r);
    case DrainCancel(r) => FlowDrainCancel(p, r);
    case Arrive(r) => FlowArrive(p, r);
    case Acquire(r) => FlowAcquire(p, r);
    case DrainRead(r) => FlowDrainRead(p, r);
    case Flushed(r) => FlowFlushed(p, r);
    case ReadHeader(r) => FlowReadHeader(p, r);
    case ReadBody(r) => FlowReadBody(p, r);
    case Resume(r) => FlowResume(p, r);
    case Abandon(r) => FlowAbandon(p, r);
    case Consume => FlowConsume(p);
    case Emit(body) => FlowEmit(p, body);
    case BeginTeardown => FlowBeginTeardown(p);
    case TeardownRead => FlowTeardownRead(p);
    case Die => FlowExit(p, p.state);
    case EndTeardown => FlowExit(p, STOPPED);
  }

  lemma LockStep(p: Pipe, step: Step)
    requires LockInv(p) && Enabled(p, step)
    ensures LockInv(Apply(p, step))
  {
    match step
    case Arrive(r) => LockArrive(p, r);
    case Acquire(r) => LockAcquire(p, r);
    case DrainRead(r) => LockDrainRead(p, r);
    case DrainFail(r) => LockDrainFail(p, r);
    case DrainCancel(r) => LockDrainCancel(p, r);
    case Flushed(r) => LockFlushed(p, r);
    case ReadHeader(r) => LockReadHeader(p, r);
    case ReadBody(r) => LockReadBody(p, r);
    case Resume(r) => LockResume(p, r);
    case Abandon(r) => LockAbandon(p, r);
    case Consume => LockConsume(p);
    case Emit(body) => LockEmit(p, body);
    case BeginTeardown => LockBeginTeardown(p);
    case TeardownRead => LockTeardownRead(p);
    case _ =>
  }

  lemma DrainFlagsStep(p: Pipe, step: Step)
    requires Enabled(p, step)
    ensures Clean(Apply(p, step)) ==> Clean(p) && (step.DrainFail? || step.DrainCancel? ==> Quiet(p))
  {
  }

  lemma InvStep(p: Pipe, step: Step)
    requires Inv(p) && Enabled(p, step)
    ensures Inv(Apply(p, step))
  {
    LockStep(p, step);
    DrainFlagsStep(p, step);
    var q := Apply(p, step);
    if Clean(q) {
      FlowStep(p, step);
      AudioStep(p, step);
    }
  }

  lemma FreshIsSound()
    ensures Inv(Fresh)
  {
  }

  lemma {:induction false} InvAlways(run: seq<Pipe>, steps: seq<Step>, i: nat)
    requires IsRun(run, steps) && i < |run|
    ensures Inv(run[i])
  {
    hide IsRun, Apply, Enabled, Inv;
    RunLength(run, steps);
    if i == 0 {
      FreshIsSound();
    } else {
      InvAlways(run, steps, i - 1);
      RunStep(run, steps, i - 1);
      InvStep(run[i - 1], steps[i - 1]);
    }
  }

  // ---- results -----------------------------------------------------------

  /** No cross-talk: as long as no drain was given up with anything left, every chunk a request
      was given was produced for it, and whatever is queued, being produced or unread
      belongs to one request: the one inside its exchange, or else `needs_drain` is set. */
  lemma NoCrossTalk(run: seq<Pipe>, steps: seq<Step>, i: nat)
    requires IsRun(run, steps) && i < |run| && Clean(run[i])
    ensures forall r, k :: r in run[i].delivered && 0 <= k < |run[i].delivered[r]| ==>
              run[i].delivered[r][k].owner == Some(r)
    ensures Quiet(run[i]) || (run[i].needsDrain && run[i].writer.Some? && OneFlow(run[i], run[i].writer.value))
    ensures forall r :: r in run[i].pcs && InExchange(run[i].pcs[r]) ==> OneFlow(run[i], r)
  {
    InvAlways(run, steps, i);
  }

  /** The same for the flag the daemon itself looks at: READY, and no drain was
      cancelled with anything left in the pipe. */
  lemma ReadyMeansNoCrossTalk(run: seq<Pipe>, steps: seq<Step>, i: nat)
    requires IsRun(run, steps) && i < |run| && run[i].state == READY && !run[i].cancelledDirty
    ensures Clean(run[i]) && !run[i].torn
    ensures forall r, k :: r in run[i].delivered && 0 <= k < |run[i].delivered[r]| ==>
              run[i].delivered[r][k].owner == Some(r)
    ensures Quiet(run[i]) || (run[i].needsDrain && run[i].writer.Some? && OneFlow(run[i], run[i].writer.value))
    ensures forall r :: r in run[i].pcs && InExchange(run[i].pcs[r]) ==> OneFlow(run[i], r)
  {
    InvAlways(run, steps, i);
  }

  /** Exact delivery: a call that returned normally was given the provider's chunk
      sequence, every other call a prefix of it, up to and during a teardown. */
  lemma DeliveryIsExact(run: seq<Pipe>, steps: seq<Step>, i: nat, r: nat)
    requires IsRun(run, steps) && i < |run| && Clean(run[i])
    requires r in run[i].pcs && r !in run[i].taken
    ensures r in run[i].delivered && r in run[i].produced
    ensures Chunks(run[i].delivered[r]) <= run[i].produced[r]
    ensures run[i].pcs[r].Done? ==> Chunks(run[i].delivered[r]) == run[i].produced[r]
  {
    InvAlways(run, steps, i);
    assert Account(run[i], r);
  }

  /** The exception is exact: a caller from which a teardown's read took a chunk is short of
      it for good, so if it returns normally it has not been given what was made for it. */
  lemma TakenNeverExact(run: seq<Pipe>, steps: seq<Step>, i: nat, j: nat, r: nat)
    requires IsRun(run, steps) && i <= j < |run| && Clean(run[j]) && r in run[i].taken
    ensures r in run[j].taken && r in run[j].delivered && r in run[j].produced
    ensures |Chunks(run[j].delivered[r])| < |run[j].produced[r]|
  {
    TakenStays(run, steps, i, j, r);
    InvAlways(run, steps, j);
    assert Account(run[j], r);
  }

  lemma {:induction false} TakenStays(run: seq<Pipe>, steps: seq<Step>, i: nat, j: nat, r: nat)
    requires IsRun(run, steps) && i <= j < |run| && r in run[i].taken
    ensures r in run[j].taken
    decreases j
  {
    hide IsRun, Apply, Enabled;
    RunLength(run, steps);
    if i < j {
      TakenStays(run, steps, i, j - 1, r);
      RunStep(run, steps, j - 1);
      TakenStep(run[j - 1], steps[j - 1]);
    }
  }

  lemma TakenStep(p: Pipe, step: Step)
    requires Enabled(p, step)
    ensures p.taken <= Apply(p, step).taken
  {
    hide DoArrive, DoAcquire, DoDrainRead, DoReadHeader, DoReadBody, DoConsume, DoEmit, Leave, Quiet, Robs;
  }

  // A process that has left READY stays out of READY, so `Arrive` never hands it out.
  lemma {:induction false} NeverReadyAgain(run: seq<Pipe>, steps: seq<Step>, i: nat, j: nat)
    requires IsRun(run, steps) && i <= j < |run| && run[i].state != READY
    ensures run[j].state != READY
    decreases j
  {
    hide IsRun, Apply, Enabled;
    RunLength(run, steps);
    if i < j {
      NeverReadyAgain(run, steps, i, j - 1);
      RunStep(run, steps, j - 1);
      StateStep(run[j - 1], steps[j - 1]);
    }
  }

  lemma StateStep(p: Pipe, step: Step)
    requires Enabled(p, step) && p.state != READY
    ensures Apply(p, step).state != READY
  {
    hide DoArrive, DoAcquire, DoDrainRead, DoReadHeader, DoReadBody, DoConsume, DoEmit, Leave, Quiet, Robs;
  }

  // r drains what is left of a response that will never show audio_end: the provider
  // ended it with `error` (or exited), and nothing else is queued.
  ghost predicate Hopeless(p: Pipe, r: nat) {
    && At(p, r, Draining)
    && LockInv(p)
    && (p.serving.Idle? || p.serving.Exited?)
    && (forall i :: 0 <= i < |p.inbox| ==> p.inbox[i].Shutdown?)
    && (forall i :: 0 <= i < |p.outbox| ==> !p.outbox[i].body.AudioEnd?)
  }

  // What such a drain looks at, as long as r is alone with the stream.
  ghost predicate Barren(p: Pipe, r: nat) {
    && At(p, r, Draining) && p.lock == Some(r)
    && (p.serving.Idle? || p.serving.Exited?)
    && (forall i :: 0 <= i < |p.inbox| ==> p.inbox[i].Shutdown?)
    && (forall i :: 0 <= i < |p.outbox| ==> !p.outbox[i].body.AudioEnd?)
  }

  ghost predicate Alone(p: Pipe, r: nat) {
    forall x :: x in p.pcs && x != r ==> !Holding(p.pcs[x])
  }

  lemma BarrenStep(p: Pipe, step: Step, r: nat)
    requires Barren(p, r) && Alone(p, r) && Enabled(p, step)
    requires step != DrainFail(r) && step != DrainCancel(r)
    ensures Barren(Apply(p, step), r)
  {
    hide DoArrive, DoAcquire, DoDrainRead, DoDrainFail, DoDrainCancel, DoReadHeader, DoReadBody, DoConsume,
      DoTeardownRead;
    match step
    case Arrive(x) => BarrenArrive(p, x, r);
    case DrainRead(x) => BarrenRead(p, x, r);
    case Consume => BarrenConsume(p, r);
    case TeardownRead => BarrenTeardownRead(p, r);
    case _ =>
  }

  lemma BarrenArrive(p: Pipe, x: nat, r: nat)
    requires Barren(p, r) && Enabled(p, Arrive(x))
    ensures Barren(DoArrive(p, x), r)
  {
  }

  lemma BarrenRead(p: Pipe, x: nat, r: nat)
    requires Barren(p, r) && Alone(p, r) && Enabled(p, DrainRead(x))
    ensures Barren(DoDrainRead(p, x), r)
  {
    assert x == r;
  }

  lemma BarrenConsume(p: Pipe, r: nat)
    requires Barren(p, r) && Enabled(p, Consume)
    ensures Barren(DoConsume(p), r)
  {
  }

  lemma BarrenTeardownRead(p: Pipe, r: nat)
    requires Barren(p, r) && Enabled(p, TeardownRead)
    ensures Barren(DoTeardownRead(p), r)
  {
    hide Robs;
  }

  lemma HopelessStep(p: Pipe, step: Step, r: nat)
    requires Hopeless(p, r) && Enabled(p, step)
    requires step != DrainFail(r) && step != DrainCancel(r)
    ensures Hopeless(Apply(p, step), r)
  {
    LockStep(p, step);
    assert Barren(p, r) && Alone(p, r);
    hide LockInv, Apply, Enabled, Alone;
    BarrenStep(p, step, r);
  }

  // A drain that meets the provider's `error` is hopeless: an error is the last frame
  // of its response.
  lemma ErrorIsHopeless(p: Pipe, r: nat, e: nat)
    requires Inv(p) && Clean(p) && At(p, r, Draining)
    requires e < |p.outbox| && p.outbox[e].body.Error?
    ensures Hopeless(p, r)
  {
    assert OneFlow(p, p.writer.value);
    assert p.outbox[e].owner.Some?;
  }

  // So is the drain that follows a call which raised on a mid-stream `error`.
  lemma DrainAfterErrorIsHopeless(p: Pipe, w: nat, r: nat)
    requires Inv(p) && Clean(p) && Enabled(p, ReadBody(w)) && p.outbox[0].body.Error?
    requires At(p, r, Waiting)
    ensures Enabled(DoReadBody(p, w), Acquire(r))
    ensures Hopeless(DoAcquire(DoReadBody(p, w), r), r)
  {
    LockReadBody(p, w);
    LockAcquire(DoReadBody(p, w), r);
    QuietAfterTerminal(p);
  }

  lemma {:induction false} StaysHopeless(run: seq<Pipe>, steps: seq<Step>, i: nat, j: nat, r: nat)
    requires IsRun(run, steps) && i <= j < |run| && Hopeless(run[i], r)
    requires forall k :: i <= k < j ==> steps[k] != DrainFail(r) && steps[k] != DrainCancel(r)
    ensures Hopeless(run[j], r)
    decreases j
  {
    hide IsRun, Apply, Enabled, Hopeless;
    RunLength(run, steps);
    if i < j {
      StaysHopeless(run, steps, i, j - 1, r);
      RunStep(run, steps, j - 1);
      HopelessStep(run[j - 1], steps[j - 1], r);
    }
  }

  /** A response that ended in `error` cannot be drained: however the run goes on, a
      drain that is no longer waiting was cancelled or has marked the process FAILED,
      and then the process is never READY again. */
  lemma ErrorEndsInFailed(run: seq<Pipe>, steps: seq<Step>, i: nat, j: nat, r: nat)
    requires IsRun(run, steps) && i <= j < |run| && Hopeless(run[i], r)
    requires !At(run[j], r, Draining)
    requires forall k :: i <= k < j ==> steps[k] != DrainCancel(r)
    ensures run[j].state != READY
  {
    hide IsRun, Enabled, LockInv;
    RunLength(run, steps);
    if forall k :: i <= k < j ==> steps[k] != DrainFail(r) {
      StaysHopeless(run, steps, i, j, r);
    } else {
      var k :| i <= k < j && steps[k] == DrainFail(r);
      RunStep(run, steps, k);
      NeverReadyAgain(run, steps, k + 1, j);
    }
  }

  /** The drain after an error fails, but once it has read what there was, the request that
      goes on behind it on the FAILED process is still served its own audio. */
  lemma FailureAfterErrorIsHarmless(p: Pipe, r: nat)
    requires Inv(p) && Clean(p) && Hopeless(p, r) && p.outbox == []
    ensures DoDrainFail(p, r).state == FAILED && Clean(DoDrainFail(p, r)) && Inv(DoDrainFail(p, r))
  {
    InvStep(p, DrainFail(r));
  }

  // ---- the condition `Clean` is exact and needed -------------------------------------

  /** Giving up a drain, by failure or by cancellation, keeps the guarantee exactly when
      nothing is left in the pipe: no queued request, none being served, no frame unread. */
  lemma GiveUpExactly(p: Pipe, r: nat)
    requires LockInv(p) && FlowInv(p) && Clean(p) && At(p, r, Draining)
    ensures FlowInv(DoDrainFail(p, r)) <==> Quiet(p)
    ensures FlowInv(DoDrainCancel(p, r)) <==> Quiet(p)
  {
    if Quiet(p) {
      FlowDrainFail(p, r);
      FlowDrainCancel(p, r);
    } else {
      LeftoversBreakFlow(p, r);
    }
  }

  lemma LeftoversBreakFlow(p: Pipe, r: nat)
    requires LockInv(p) && FlowInv(p) && At(p, r, Draining) && !Quiet(p)
    ensures !FlowInv(DoDrainFail(p, r)) && !FlowInv(DoDrainCancel(p, r))
  {
    var w := p.writer.value;
    assert w != r && OneFlow(p, w);
    var q := DoDrainFail(p, r);
    if i :| 0 <= i < |p.inbox| && !p.inbox[i].Shutdown? {
      assert q.inbox[i] == Synth(w);
      assert !OneFlow(q, r);
    } else if i :| 0 <= i < |p.outbox| && p.outbox[i].owner.Some? {
      assert q.outbox[i].owner == Some(w);
      assert !OneFlow(q, r);
    }
  }

  lemma ExtendRun(run: seq<Pipe>, steps: seq<Step>, step: Step) returns (run': seq<Pipe>, steps': seq<Step>)
    requires |run| == |steps| + 1 && IsRun(run, steps) && Enabled(run[|steps|], step)
    ensures |run'| == |steps'| + 1 && IsRun(run', steps') && run <= run' && steps' == steps + [step]
    ensures run'[|steps'|] == Apply(run[|steps|], step)
  {
    hide Apply, Enabled;
    run' := run + [Apply(run[|steps|], step)];
    steps' := steps + [step];
  }

  // ---- what a given-up drain leaves to the next caller ------------------------------

  // The next frame to come is not one of caller x's.
  predicate ForeignNext(p: Pipe, x: nat) {
    if p.outbox != [] then p.outbox[0].owner != Some(x)
    else match p.serving
      case Opening(w) => w != x
      case Sending(w) => w != x
      case Exited => false
      case Idle => p.inbox != [] && p.inbox[0] != Synth(x)
  }

  // With an empty outbox the provider goes on with what it has.
  lemma ForeignArrives(run: seq<Pipe>, steps: seq<Step>, x: nat)
    returns (run': seq<Pipe>, steps': seq<Step>)
    requires |run| == |steps| + 1 && IsRun(run, steps)
    requires At(run[|steps|], x, Flushing) && ForeignNext(run[|steps|], x)
    ensures |run'| == |steps'| + 1 && IsRun(run', steps') && run <= run'
    ensures var q := run'[|steps'|]; At(q, x, Flushing) && q.outbox != [] && q.outbox[0].owner != Some(x)
  {
    hide IsRun, Quiet;
    var p := run[|steps|];
    run', steps' := run, steps;
    if p.outbox == [] && p.serving.Idle? { run', steps' := ExtendRun(run', steps', Consume); }
    var q := run'[|steps'|];
    if q.outbox == [] {
      run', steps' := ExtendRun(run', steps', Emit(if q.serving.Opening? then SynthesizeHeader else AudioEnd));
    }
  }

  // Caller x is given, as the start of its answer, a frame that is not its own.
  lemma ForeignIsRead(run: seq<Pipe>, steps: seq<Step>, x: nat)
    returns (run': seq<Pipe>, steps': seq<Step>)
    requires |run| == |steps| + 1 && IsRun(run, steps)
    requires At(run[|steps|], x, Flushing) && ForeignNext(run[|steps|], x)
    ensures Misled(run', steps', x) && run <= run'
  {
    hide IsRun, Quiet, ForeignNext;
    run', steps' := ForeignArrives(run, steps, x);
    run', steps' := ExtendRun(run', steps', Flushed(x));
    run', steps' := ExtendRun(run', steps', ReadHeader(x));
  }

  // The run ends with x reading another's frame as the start of its own answer.
  ghost predicate Misled(run: seq<Pipe>, steps: seq<Step>, x: nat) {
    && |run| == |steps| + 1 && |steps| > 0 && IsRun(run, steps)
    && steps[|steps| - 1] == ReadHeader(x)
    && run[|steps| - 1].outbox != [] && run[|steps| - 1].outbox[0].owner != Some(x)
  }

  lemma LeftoversAreForeign(p: Pipe, r: nat)
    requires LockInv(p) && FlowInv(p) && At(p, r, Draining) && !Quiet(p)
    requires p.outbox != [] || !p.serving.Exited?
    ensures ForeignNext(p, r) && forall x :: x !in p.pcs ==> ForeignNext(p, x)
  {
    var w := p.writer.value;
    assert w != r && w in p.pcs && OneFlow(p, w);
  }

  /** The other half of `GiveUpExactly`: a drain that fails with something left in the pipe of
      a provider that still runs, or with frames unread, can mislead its own caller. */
  lemma FailureMisleads(run: seq<Pipe>, steps: seq<Step>, r: nat)
    returns (run': seq<Pipe>, steps': seq<Step>)
    requires |run| == |steps| + 1 && IsRun(run, steps) && Clean(run[|steps|])
    requires At(run[|steps|], r, Draining) && !Quiet(run[|steps|])
    requires run[|steps|].outbox != [] || !run[|steps|].serving.Exited?
    ensures Misled(run', steps', r) && run <= run'
  {
    hide IsRun, Inv, Quiet, Misled;
    var p := run[|steps|];
    InvAlways(run, steps, |steps|);
    SoundWhenClean(p);
    LeftoversAreForeign(p, r);
    run', steps' := ExtendRun(run, steps, DrainFail(r));
    run', steps' := ForeignIsRead(run', steps', r);
  }

  /** And one that is cancelled so, on a READY process, can mislead the next caller. */
  lemma CancellationMisleads(run: seq<Pipe>, steps: seq<Step>, r: nat, x: nat)
    returns (run': seq<Pipe>, steps': seq<Step>)
    requires |run| == |steps| + 1 && IsRun(run, steps) && run[|steps|].state == READY && Clean(run[|steps|])
    requires At(run[|steps|], r, Draining) && !Quiet(run[|steps|]) && x !in run[|steps|].pcs
    requires run[|steps|].outbox != [] || !run[|steps|].serving.Exited?
    ensures Misled(run', steps', x) && run <= run'
  {
    hide IsRun, Inv, Quiet, Misled, FlowInv;
    var p := run[|steps|];
    InvAlways(run, steps, |steps|);
    SoundWhenClean(p);
    LeftoversAreForeign(p, r);
    run', steps' := ExtendRun(run, steps, Arrive(x));
    run', steps' := ExtendRun(run', steps', DrainCancel(r));
    assert run'[|steps'|].lock.None?;
    run', steps' := ExtendRun(run', steps', Acquire(x));
    run', steps' := ForeignIsRead(run', steps', x);
  }

  lemma SoundWhenClean(p: Pipe)
    requires Inv(p) && Clean(p)
    ensures LockInv(p) && FlowInv(p)
  {
  }

  // Three callers share a READY process.
  lemma ArrivedRun() returns (run: seq<Pipe>, steps: seq<Step>)
    ensures |run| == |steps| + 1 && IsRun(run, steps)
    ensures forall x :: x in steps ==> !x.DrainFail? && !x.DrainCancel?
    ensures run[|steps|] ==
      Pipe(READY, false, None, [], Idle, [], map[0 := Waiting, 1 := Waiting, 2 := Waiting],
           map[0 := [], 1 := [], 2 := []], map[0 := [], 1 := [], 2 := []], None, false, false, false)
  {
    run, steps := [Fresh], [];
    run, steps := ExtendRun(run, steps, Arrive(0));
    run, steps := ExtendRun(run, steps, Arrive(1));
    run, steps := ExtendRun(run, steps, Arrive(2));
  }

  // The provider starts on request 0.
  lemma OpeningRun() returns (run: seq<Pipe>, steps: seq<Step>)
    ensures |run| == |steps| + 1 && IsRun(run, steps)
    ensures forall x :: x in steps ==> !x.DrainFail? && !x.DrainCancel?
    ensures run[|steps|] ==
      Pipe(READY, true, Some(0), [], Opening(0), [], map[0 := Flushing, 1 := Waiting, 2 := Waiting],
           map[0 := [], 1 := [], 2 := []], map[0 := [], 1 := [], 2 := []], Some(0), false, false, false)
  {
    hide IsRun, Quiet, LockInv, FlowInv;
    run, steps := ArrivedRun();
    run, steps := ExtendRun(run, steps, Acquire(0));
    run, steps := ExtendRun(run, steps, Consume);
    assert run[|steps|].inbox == [];
    assert run[|steps|].pcs == map[0 := Flushing, 1 := Waiting, 2 := Waiting];
  }

  // Request 0 is abandoned with its header and one chunk unread.
  lemma AbandonedRun() returns (run: seq<Pipe>, steps: seq<Step>)
    ensures |run| == |steps| + 1 && IsRun(run, steps)
    ensures forall x :: x in steps ==> !x.DrainFail? && !x.DrainCancel?
    ensures run[|steps|] ==
      Pipe(READY, true, None, [], Sending(0), [Frame(Some(0), SynthesizeHeader), Frame(Some(0), AudioChunk([7]))],
           map[0 := Abandoned, 1 := Waiting, 2 := Waiting],
           map[0 := [[7]], 1 := [], 2 := []], map[0 := [], 1 := [], 2 := []],
           Some(0), false, false, false)
  {
    hide IsRun, Quiet, LockInv, FlowInv;
    run, steps := OpeningRun();
    run, steps := ExtendRun(run, steps, Emit(SynthesizeHeader));
    run, steps := ExtendRun(run, steps, Emit(AudioChunk([7])));
    assert run[|steps|].outbox == [Frame(Some(0), SynthesizeHeader), Frame(Some(0), AudioChunk([7]))];
    assert run[|steps|].produced[0] == [[7]];
    assert run[|steps|].produced == map[0 := [[7]], 1 := [], 2 := []];
    run, steps := ExtendRun(run, steps, Abandon(0));
    assert run[|steps|].pcs == map[0 := Abandoned, 1 := Waiting, 2 := Waiting];
  }

  /** Cancelling a caller inside its drain leaves the process READY with `needs_drain`
      cleared; the next caller is then given another request's audio. */
  lemma CancelledDrainLeaks() returns (run: seq<Pipe>, steps: seq<Step>)
    ensures |run| == |steps| + 1 && IsRun(run, steps) && run[|steps|].state == READY
    ensures 2 in run[|steps|].delivered && run[|steps|].delivered[2] == [Frame(Some(0), AudioChunk([7]))]
  {
    hide IsRun, LockInv, FlowInv;
    run, steps := AbandonedRun();
    run, steps := ExtendRun(run, steps, Acquire(1));
    run, steps := ExtendRun(run, steps, DrainCancel(1));
    run, steps := ExtendRun(run, steps, Acquire(2));
    run, steps := ExtendRun(run, steps, Flushed(2));
    run, steps := ExtendRun(run, steps, ReadHeader(2));
    run, steps := ExtendRun(run, steps, ReadBody(2));
  }

  // The drain of request 1 times out, so its request is written behind the rest of 0.
  lemma TimedOutRun() returns (run: seq<Pipe>, steps: seq<Step>)
    ensures |run| == |steps| + 1 && IsRun(run, steps)
    ensures DrainFail(2) !in steps && forall x :: x in steps ==> !x.DrainCancel?
    ensures run[|steps|] ==
      Pipe(FAILED, true, None, [Synth(1)], Sending(0),
           [Frame(Some(0), SynthesizeHeader), Frame(Some(0), AudioChunk([7]))],
           map[0 := Abandoned, 1 := Abandoned, 2 := Waiting],
           map[0 := [[7]], 1 := [], 2 := []], map[0 := [], 1 := [], 2 := []],
           Some(1), true, false, false)
  {
    hide IsRun, LockInv, FlowInv;
    run, steps := AbandonedRun();
    run, steps := ExtendRun(run, steps, Acquire(1));
    run, steps := ExtendRun(run, steps, DrainFail(1));
    run, steps := ExtendRun(run, steps, Abandon(1));
  }

  // The provider then finishes request 0 and starts on 1.
  lemma FailedRun() returns (run: seq<Pipe>, steps: seq<Step>)
    ensures |run| == |steps| + 1 && IsRun(run, steps)
    ensures DrainFail(2) !in steps && forall x :: x in steps ==> !x.DrainCancel?
    ensures run[|steps|] ==
      Pipe(FAILED, true, None, [], Sending(1),
           [Frame(Some(0), SynthesizeHeader), Frame(Some(0), AudioChunk([7])), Frame(Some(0), AudioEnd),
            Frame(Some(1), SynthesizeHeader), Frame(Some(1), AudioChunk([8]))],
           map[0 := Abandoned, 1 := Abandoned, 2 := Waiting],
           map[0 := [[7]], 1 := [[8]], 2 := []], map[0 := [], 1 := [], 2 := []],
           Some(1), true, false, false)
  {
    hide IsRun, LockInv, FlowInv;
    run, steps := TimedOutRun();
    run, steps := ExtendRun(run, steps, Emit(AudioEnd));
    run, steps := ExtendRun(run, steps, Consume);
    assert run[|steps|].inbox == [];
    run, steps := ExtendRun(run, steps, Emit(SynthesizeHeader));
    run, steps := ExtendRun(run, steps, Emit(AudioChunk([8])));
    assert run[|steps|].outbox ==
      [Frame(Some(0), SynthesizeHeader), Frame(Some(0), AudioChunk([7])), Frame(Some(0), AudioEnd),
       Frame(Some(1), SynthesizeHeader), Frame(Some(1), AudioChunk([8]))];
    assert run[|steps|].produced[1] == [[8]];
    assert run[|steps|].produced == map[0 := [[7]], 1 := [[8]], 2 := []];
  }

  // Request 2 drains up to the audio_end of request 0 and takes that for the end of 1.
  lemma MisdrainedRun() returns (run: seq<Pipe>, steps: seq<Step>)
    ensures |run| == |steps| + 1 && IsRun(run, steps)
    ensures DrainFail(2) !in steps && forall x :: x in steps ==> !x.DrainCancel?
    ensures At(run[|steps|], 2, Flushing) && run[|steps|].lock == Some(2)
    ensures run[|steps|].outbox == [Frame(Some(1), SynthesizeHeader), Frame(Some(1), AudioChunk([8]))]
    ensures run[|steps|].delivered == map[0 := [], 1 := [], 2 := []]
  {
    hide IsRun, LockInv, FlowInv;
    run, steps := FailedRun();
    run, steps := ExtendRun(run, steps, Acquire(2));
    run, steps := ExtendRun(run, steps, DrainRead(2));
    run, steps := ExtendRun(run, steps, DrainRead(2));
    run, steps := ExtendRun(run, steps, DrainRead(2));
  }

  /** A failed drain also leaks into a later caller whose own drain did see audio_end:
      it was that of the request before the one whose frames it then reads. */
  lemma FailedDrainLeaks() returns (run: seq<Pipe>, steps: seq<Step>)
    ensures |run| == |steps| + 1 && IsRun(run, steps)
    ensures DrainFail(2) !in steps && forall x :: x in steps ==> !x.DrainCancel?
    ensures 2 in run[|steps|].delivered && run[|steps|].delivered[2] == [Frame(Some(1), AudioChunk([8]))]
  {
    hide IsRun, LockInv, FlowInv;
    run, steps := MisdrainedRun();
    run, steps := ExtendRun(run, steps, Flushed(2));
    run, steps := ExtendRun(run, steps, ReadHeader(2));
    run, steps := ExtendRun(run, steps, ReadBody(2));
  }

  // A request whose answer of two chunks is being made.
  lemma HalfMadeRun() returns (run: seq<Pipe>, steps: seq<Step>)
    ensures |run| == |steps| + 1 && IsRun(run, steps)
    ensures run[|steps|] ==
      Pipe(READY, true, Some(0), [], Sending(0), [Frame(Some(0), SynthesizeHeader), Frame(Some(0), AudioChunk([1]))],
           map[0 := Flushing], map[0 := [[1]]], map[0 := []], Some(0), false, false, false)
  {
    hide Quiet, LockInv, FlowInv;
    run, steps := [Fresh], [];
    run, steps := ExtendRun(run, steps, Arrive(0));
    run, steps := ExtendRun(run, steps, Acquire(0));
    run, steps := ExtendRun(run, steps, Consume);
    run, steps := ExtendRun(run, steps, Emit(SynthesizeHeader));
    run, steps := ExtendRun(run, steps, Emit(AudioChunk([1])));
    var p := run[|steps|];
    assert p.inbox == [] && p.outbox == [Frame(Some(0), SynthesizeHeader), Frame(Some(0), AudioChunk([1]))];
    assert p.produced[0] == [[1]];
    assert p.produced == map[0 := [[1]]] && p.pcs == map[0 := Flushing];
  }

  // It is made, and nothing of it read.
  lemma MadeRun() returns (run: seq<Pipe>, steps: seq<Step>)
    ensures |run| == |steps| + 1 && IsRun(run, steps)
    ensures run[|steps|] ==
      Pipe(READY, true, Some(0), [], Idle,
           [Frame(Some(0), SynthesizeHeader), Frame(Some(0), AudioChunk([1])), Frame(Some(0), AudioChunk([2])),
           Frame(Some(0), AudioEnd)],
           map[0 := Flushing], map[0 := [[1], [2]]], map[0 := []], Some(0), false, false, false)
  {
    hide IsRun, Quiet, LockInv, FlowInv;
    run, steps := HalfMadeRun();
    run, steps := ExtendRun(run, steps, Emit(AudioChunk([2])));
    assert run[|steps|].produced[0] == [[1], [2]];
    run, steps := ExtendRun(run, steps, Emit(AudioEnd));
    var p := run[|steps|];
    assert p.outbox == [Frame(Some(0), SynthesizeHeader), Frame(Some(0), AudioChunk([1])),
                        Frame(Some(0), AudioChunk([2])), Frame(Some(0), AudioEnd)];
    assert p.produced == map[0 := [[1], [2]]];
  }

  // The caller is at its first chunk, the rest of its answer unread.
  lemma AtFirstChunkRun() returns (run: seq<Pipe>, steps: seq<Step>)
    ensures |run| == |steps| + 1 && IsRun(run, steps)
    ensures run[|steps|] ==
      Pipe(READY, true, Some(0), [], Idle, [Frame(Some(0), AudioChunk([2])), Frame(Some(0), AudioEnd)],
           map[0 := AtYield], map[0 := [[1], [2]]], map[0 := [Frame(Some(0), AudioChunk([1]))]],
           Some(0), false, false, false)
  {
    hide IsRun, Quiet, LockInv, FlowInv;
    run, steps := MadeRun();
    run, steps := ExtendRun(run, steps, Flushed(0));
    run, steps := ExtendRun(run, steps, ReadHeader(0));
    run, steps := ExtendRun(run, steps, ReadBody(0));
    var p := run[|steps|];
    assert p.outbox == [Frame(Some(0), AudioChunk([2])), Frame(Some(0), AudioEnd)];
    assert p.delivered[0] == [Frame(Some(0), AudioChunk([1]))];
    assert p.delivered == map[0 := [Frame(Some(0), AudioChunk([1]))]];
    assert p.pcs == map[0 := AtYield];
  }

  /** A teardown that reads while a caller is at its `yield` takes one of the caller's chunks:
      the caller returns normally, one chunk short. */
  lemma TeardownTakesChunk() returns (run: seq<Pipe>, steps: seq<Step>)
    ensures |run| == |steps| + 1 && IsRun(run, steps) && Clean(run[|steps|])
    ensures var p := run[|steps|];
      && At(p, 0, Done) && 0 in p.taken && 0 in p.produced && 0 in p.delivered
      && p.produced[0] == [[1], [2]] && p.delivered[0] == [Frame(Some(0), AudioChunk([1]))]
  {
    hide IsRun, Quiet, LockInv, FlowInv;
    run, steps := AtFirstChunkRun();
    run, steps := ExtendRun(run, steps, BeginTeardown);
    run, steps := ExtendRun(run, steps, TeardownRead);
    run, steps := ExtendRun(run, steps, Resume(0));
    run, steps := ExtendRun(run, steps, ReadBody(0));
  }
}
