/**
  What callers of one provider process can come to, over every run of RequestPipe: one may
  leave in the middle of its answer and the next is served behind it, a provider that fails in
  the middle of an answer takes the process out of READY, and `needs_drain` is set only while
  there is something to drain.
*/
module Recovery {
  import opened Options
  import opened Wire
  import opened RequestPipe

  // ---- more of what every state of a run satisfies ---------------------------------

  // Before a teardown only synthesize requests are queued, and every frame answers one.
  ghost predicate Calm(p: Pipe) {
    !p.torn ==>
      && (forall i :: 0 <= i < |p.inbox| ==> p.inbox[i].Synth?)
      && (forall i :: 0 <= i < |p.outbox| ==> p.outbox[i].owner.Some?)
  }

  // A response is still to come, or its last frame is unread.
  ghost predicate Left(p: Pipe) {
    || (exists i :: 0 <= i < |p.inbox| && p.inbox[i].Synth?)
    || p.serving.Opening? || p.serving.Sending?
    || (exists i :: 0 <= i < |p.outbox| && Terminal(p.outbox[i]))
  }

  // A caller inside its exchange has something to wait for.
  ghost predicate LeftInv(p: Pipe) {
    p.lock.Some? && p.lock.value in p.pcs && InExchange(p.pcs[p.lock.value]) && !p.serving.Exited? && !p.torn ==>
      Left(p)
  }

  predicate BeforeHeader(pc: Pc) {
    pc.Flushing? || pc.AwaitHeader?
  }

  // The first frame a caller reads opens its answer, or is the error in its place.
  ghost predicate HeadInv(p: Pipe) {
    Clean(p) && !p.torn && p.lock.Some? && p.lock.value in p.pcs && BeforeHeader(p.pcs[p.lock.value]) ==>
      && (p.serving.Sending? ==> p.outbox != [])
      && (p.outbox != [] ==> p.outbox[0].body.SynthesizeHeader? || p.outbox[0].body.Error?)
  }

  lemma CalmSend(p: Pipe, r: nat)
    requires Calm(p)
    ensures Calm(Send(p, r))
  {
  }

  lemma CalmPop(p: Pipe)
    requires Calm(p) && p.outbox != []
    ensures Calm(Pop(p))
  {
  }

  // Steps that leave both streams alone.
  lemma CalmSame(p: Pipe, q: Pipe)
    requires Calm(p) && q.inbox == p.inbox && q.outbox == p.outbox && (p.torn ==> q.torn)
    ensures Calm(q)
  {
  }

  lemma CalmDrainRead(p: Pipe, r: nat)
    requires Calm(p) && p.outbox != []
    ensures Calm(DoDrainRead(p, r))
  {
    hide Calm;
    CalmPop(p);
    CalmSame(Pop(p), Pop(p).(needsDrain := false));
    CalmSend(Pop(p).(needsDrain := false), r);
  }

  lemma CalmRead(p: Pipe, q: Pipe)
    requires Calm(p) && TakesOne(p, q)
    ensures Calm(q)
  {
  }

  lemma CalmConsume(p: Pipe)
    requires Calm(p) && p.inbox != []
    ensures Calm(DoConsume(p))
  {
  }

  lemma CalmEmit(p: Pipe, body: Body)
    requires Calm(p) && Enabled(p, Emit(body))
    ensures Calm(DoEmit(p, p.serving.id, body))
  {
  }

  lemma CalmAcquire(p: Pipe, r: nat)
    requires Calm(p)
    ensures Calm(DoAcquire(p, r))
  {
    hide Calm;
    CalmSame(p, p.(lock := Some(r)));
    CalmSend(p.(lock := Some(r)), r);
    CalmSame(p, p.(lock := Some(r), pcs := p.pcs[r := Draining]));
  }

  lemma CalmDrainFail(p: Pipe, r: nat)
    requires Calm(p)
    ensures Calm(DoDrainFail(p, r))
  {
    hide Calm, Quiet;
    var q := p.(state := FAILED, needsDrain := false, failedDirty := p.failedDirty || !Quiet(p));
    CalmSame(p, q);
    CalmSend(q, r);
  }

  // A reader takes one frame and touches nothing else of the provider's side.
  ghost predicate TakesOne(p: Pipe, q: Pipe) {
    p.outbox != [] && q.inbox == p.inbox && q.outbox == p.outbox[1..] && q.serving == p.serving && q.torn == p.torn
  }

  lemma PopTakesOne(p: Pipe, needsDrain: bool)
    requires p.outbox != []
    ensures TakesOne(p, Pop(p)) && TakesOne(p, Pop(p).(needsDrain := needsDrain))
  {
  }

  lemma LeaveTakes(p: Pipe, q: Pipe, r: nat, pc: Pc)
    requires TakesOne(p, q)
    ensures TakesOne(p, Leave(q, r, pc)) && TakesOne(p, q.(pcs := p.pcs[r := pc]))
  {
  }

  lemma DeliverTakes(p: Pipe, r: nat)
    requires p.outbox != []
    ensures TakesOne(p, Deliver(p, r))
  {
  }

  lemma HeaderTakesOne(p: Pipe, r: nat)
    requires p.outbox != []
    ensures TakesOne(p, DoReadHeader(p, r))
  {
    hide TakesOne, Leave, Pop;
    PopTakesOne(p, false);
    match p.outbox[0].body
    case Error => LeaveTakes(p, Pop(p).(needsDrain := false), r, Raised);
    case SynthesizeHeader => LeaveTakes(p, Pop(p), r, Streaming);
    case _ => LeaveTakes(p, Pop(p), r, Raised);
  }

  lemma BodyTakesOne(p: Pipe, r: nat)
    requires p.outbox != []
    ensures TakesOne(p, DoReadBody(p, r))
  {
    hide TakesOne, Leave, Pop, Deliver;
    PopTakesOne(p, false);
    match p.outbox[0].body
    case AudioChunk(_) => DeliverTakes(p, r);
    case AudioEnd => LeaveTakes(p, Pop(p).(needsDrain := false), r, Done);
    case Error => LeaveTakes(p, Pop(p), r, Raised);
    case _ =>
  }

  lemma CalmStep(p: Pipe, step: Step)
    requires Calm(p) && Enabled(p, step)
    ensures Calm(Apply(p, step))
  {
    hide Quiet, Robs, Calm, DoAcquire, DoDrainRead, DoDrainFail, DoReadHeader, DoReadBody, DoConsume, DoEmit;
    match step
    case Acquire(r) => CalmAcquire(p, r);
    case DrainRead(r) => CalmDrainRead(p, r);
    case DrainFail(r) => CalmDrainFail(p, r);
    case ReadHeader(r) => HeaderTakesOne(p, r); CalmRead(p, DoReadHeader(p, r));
    case ReadBody(r) => BodyTakesOne(p, r); CalmRead(p, DoReadBody(p, r));
    case TeardownRead => CalmRead(p, DoTeardownRead(p));
    case Consume => CalmConsume(p);
    case Emit(body) => CalmEmit(p, body);
    case BeginTeardown => CalmTorn(DoBeginTeardown(p));
    case _ => CalmSame(p, Apply(p, step));
  }

  lemma CalmTorn(p: Pipe)
    requires p.torn
    ensures Calm(p)
  {
  }

  lemma LeftSend(p: Pipe, r: nat)
    ensures Left(Send(p, r))
  {
    var q := Send(p, r);
    assert q.inbox[|p.inbox|].Synth?;
  }

  lemma LeftPop(p: Pipe)
    requires p.outbox != [] && Left(p) && !Terminal(p.outbox[0])
    ensures Left(Pop(p))
  {
    var q := Pop(p);
    if i :| 0 <= i < |p.outbox| && Terminal(p.outbox[i]) { assert q.outbox[i - 1] == p.outbox[i]; }
  }

  lemma LeftEmit(p: Pipe, body: Body)
    requires Enabled(p, Emit(body))
    ensures Left(DoEmit(p, p.serving.id, body))
  {
    var q := DoEmit(p, p.serving.id, body);
    assert Terminal(q.outbox[|p.outbox|]) <==> body.AudioEnd? || body.Error?;
  }

  lemma LeftConsume(p: Pipe)
    requires Calm(p) && !p.torn && Enabled(p, Consume)
    ensures Left(DoConsume(p))
  {
  }

  lemma HolderOf(p: Pipe, r: nat)
    requires LockInv(p) && r in p.pcs && Holding(p.pcs[r])
    ensures p.lock == Some(r)
  {
  }

  lemma LeftStep(p: Pipe, step: Step)
    requires LockInv(p) && Calm(p) && LeftInv(p) && Enabled(p, step)
    ensures LeftInv(Apply(p, step))
  {
    hide LockInv, Left, Calm, DoReadHeader, DoReadBody, Quiet;
    match step
    case Acquire(r) => LeftSend(p.(lock := Some(r)), r);
    case DrainRead(r) =>
      HolderOf(p, r);
      if p.outbox[0].body.AudioEnd? { LeftSend(Pop(p).(needsDrain := false), r); }
    case DrainFail(r) =>
      LeftSend(p.(state := FAILED, needsDrain := false, failedDirty := p.failedDirty || !Quiet(p)), r);
    case ReadHeader(r) => LeftReadHeader(p, r);
    case ReadBody(r) => LeftReadBody(p, r);
    case Consume => if !p.torn { LeftConsume(p); }
    case Emit(body) => LeftEmit(p, body);
    case _ => LeftSame(p, step);
  }

  lemma LeftReadHeader(p: Pipe, r: nat)
    requires LockInv(p) && LeftInv(p) && Enabled(p, ReadHeader(r))
    ensures LeftInv(DoReadHeader(p, r))
  {
    HolderOf(p, r);
    hide LockInv, Left;
    LeftRead(p);
    LeftFrame(Pop(p), Pop(p).(pcs := p.pcs[r := Streaming]));
  }

  lemma LeftReadBody(p: Pipe, r: nat)
    requires LockInv(p) && LeftInv(p) && Enabled(p, ReadBody(r))
    ensures LeftInv(DoReadBody(p, r))
  {
    HolderOf(p, r);
    BodyTakesOne(p, r);
    BodyGoesOn(p, r);
    hide LockInv, Left, DoReadBody, Pop;
    LeftRead(p);
    LeftTaken(p, DoReadBody(p, r));
  }

  // Only a terminal frame takes the reader out of its exchange.
  lemma BodyGoesOn(p: Pipe, r: nat)
    requires p.outbox != [] && p.lock == Some(r)
    ensures var q := DoReadBody(p, r);
      && (Terminal(p.outbox[0]) ==> q.lock.None?)
      && (!Terminal(p.outbox[0]) ==> q.lock == p.lock && q.needsDrain == p.needsDrain)
      && (p.outbox[0].body.Error? ==> q.needsDrain == p.needsDrain)
      && (p.outbox[0].body.AudioEnd? ==> !q.needsDrain)
      && q.writer == p.writer
  {
    hide Leave, Pop, Deliver;
    PopKeeps(p);
    match p.outbox[0].body
    case AudioChunk(_) => DeliverKeeps(p, r);
    case AudioEnd => LeaveLets(Pop(p).(needsDrain := false), r, Done);
    case Error => LeaveLets(Pop(p), r, Raised);
    case _ =>
  }

  lemma PopKeeps(p: Pipe)
    requires p.outbox != []
    ensures Pop(p).lock == p.lock && Pop(p).needsDrain == p.needsDrain && Pop(p).writer == p.writer
  {
  }

  lemma DeliverKeeps(p: Pipe, r: nat)
    requires p.outbox != []
    ensures Deliver(p, r).lock == p.lock && Deliver(p, r).needsDrain == p.needsDrain && Deliver(p, r).writer == p.writer
  {
  }

  lemma LeaveLets(p: Pipe, r: nat, pc: Pc)
    requires p.lock == Some(r)
    ensures var q := Leave(p, r, pc);
      q.lock.None? && q.needsDrain == p.needsDrain && q.writer == p.writer
  {
  }

  lemma LeftTaken(p: Pipe, q: Pipe)
    requires TakesOne(p, q)
    ensures Left(q) <==> Left(Pop(p))
  {
    LeftFrame(Pop(p), q);
  }

  lemma LeftFrame(p: Pipe, q: Pipe)
    requires q.inbox == p.inbox && q.serving == p.serving && q.outbox == p.outbox
    ensures Left(q) == Left(p)
  {
  }

  lemma LeftRead(p: Pipe)
    requires p.outbox != []
    ensures Left(p) && !Terminal(p.outbox[0]) ==> Left(Pop(p))
  {
    if Left(p) && !Terminal(p.outbox[0]) { LeftPop(p); }
  }

  lemma LeftSame(p: Pipe, step: Step)
    requires LockInv(p) && LeftInv(p) && Enabled(p, step)
    requires step.Arrive? || step.DrainCancel? || step.Flushed? || step.Resume? || step.Abandon? || step.Die?
             || step.BeginTeardown? || step.TeardownRead? || step.EndTeardown?
    ensures LeftInv(Apply(p, step))
  {
    hide Quiet, Robs;
  }

  lemma QuietIsEmpty(p: Pipe)
    requires Calm(p) && !p.torn && Quiet(p)
    ensures p.inbox == [] && p.outbox == [] && !p.serving.Sending?
  {
    if p.inbox != [] || p.outbox != [] { NotQuiet(p); }
  }

  lemma NotQuiet(p: Pipe)
    requires Calm(p) && !p.torn && (p.inbox != [] || p.outbox != [])
    ensures !Quiet(p)
  {
    if p.inbox != [] { assert p.inbox[0].Synth?; } else { assert p.outbox[0].owner.Some?; }
  }

  lemma HeadStep(p: Pipe, step: Step)
    requires LockInv(p) && Calm(p) && HeadInv(p) && (Clean(p) ==> FlowInv(p)) && Enabled(p, step)
    ensures HeadInv(Apply(p, step))
  {
    hide LockInv, Calm, HeadInv, FlowInv, DoAcquire, DoDrainRead, DoDrainFail, DoEmit, DoReadHeader, DoReadBody,
      DoTeardownRead;
    match step
    case Acquire(r) => HeadAcquire(p, r);
    case DrainRead(r) => HeadDrained(p, r);
    case DrainFail(r) => HeadDrainFail(p, r);
    case Emit(body) => HeadEmit(p, body);
    case ReadHeader(r) => HeadRead(p, r);
    case ReadBody(r) => HeadReadBody(p, r);
    case TeardownRead => HeadTorn(p);
    case _ => HeadSame(p, step);
  }

  lemma HeadAcquire(p: Pipe, r: nat)
    requires LockInv(p) && Calm(p) && (Clean(p) ==> FlowInv(p)) && Enabled(p, Acquire(r))
    ensures HeadInv(DoAcquire(p, r))
  {
    if Clean(p) && !p.torn && !p.needsDrain {
      FlowQuiet(p);
      QuietIsEmpty(p);
    }
  }

  lemma HeadDrainFail(p: Pipe, r: nat)
    requires Calm(p) && Enabled(p, DrainFail(r))
    ensures HeadInv(DoDrainFail(p, r))
  {
    if Clean(DoDrainFail(p, r)) && !p.torn { QuietIsEmpty(p); }
  }

  lemma HeadEmit(p: Pipe, body: Body)
    requires HeadInv(p) && Enabled(p, Emit(body))
    ensures HeadInv(DoEmit(p, p.serving.id, body))
  {
  }

  // The holder is past the header, or gone.
  lemma HeadRead(p: Pipe, r: nat)
    requires LockInv(p) && Enabled(p, ReadHeader(r))
    ensures HeadInv(DoReadHeader(p, r))
  {
    HolderOf(p, r);
    hide LockInv;
  }

  lemma HeadReadBody(p: Pipe, r: nat)
    requires LockInv(p) && HeadInv(p) && Enabled(p, ReadBody(r))
    ensures HeadInv(DoReadBody(p, r))
  {
    HolderOf(p, r);
    hide LockInv;
  }

  lemma HeadTorn(p: Pipe)
    requires LockInv(p) && Enabled(p, TeardownRead)
    ensures HeadInv(DoTeardownRead(p))
  {
    TornByThen(p);
  }

  lemma FlowQuiet(p: Pipe)
    requires FlowInv(p) && !p.needsDrain
    ensures Quiet(p)
  {
  }

  lemma TornByThen(p: Pipe)
    requires LockInv(p) && Enabled(p, TeardownRead)
    ensures p.torn
  {
  }

  lemma HeadDrained(p: Pipe, r: nat)
    requires LockInv(p) && Calm(p) && (Clean(p) ==> FlowInv(p)) && Enabled(p, DrainRead(r))
    ensures HeadInv(DoDrainRead(p, r))
  {
    HolderOf(p, r);
    if Clean(p) && !p.torn && p.outbox[0].body.AudioEnd? {
      QuietAfterTerminal(p);
      assert Calm(Pop(p));
      QuietIsEmpty(Pop(p));
    }
  }

  lemma HeadSame(p: Pipe, step: Step)
    requires LockInv(p) && HeadInv(p) && Calm(p) && Enabled(p, step)
    requires step.Arrive? || step.DrainCancel? || step.Flushed? || step.Resume? || step.Abandon? || step.Die?
             || step.BeginTeardown? || step.EndTeardown? || step.Consume?
    ensures HeadInv(Apply(p, step))
  {
    hide Quiet, Robs;
  }

  // The flag is only set by writing a request.
  predicate FlagInv(p: Pipe) {
    p.needsDrain ==> p.writer.Some?
  }

  lemma FlagReadHeader(p: Pipe, r: nat)
    requires FlagInv(p) && p.outbox != []
    ensures FlagInv(DoReadHeader(p, r))
  {
  }

  lemma FlagReadBody(p: Pipe, r: nat)
    requires FlagInv(p) && p.outbox != []
    ensures FlagInv(DoReadBody(p, r))
  {
  }

  lemma FlagDrains(p: Pipe, r: nat)
    requires FlagInv(p)
    ensures FlagInv(DoAcquire(p, r)) && FlagInv(DoDrainFail(p, r)) && (p.outbox != [] ==> FlagInv(DoDrainRead(p, r)))
  {
    hide Quiet;
  }

  lemma FlagStep(p: Pipe, step: Step)
    requires FlagInv(p) && Enabled(p, step)
    ensures FlagInv(Apply(p, step))
  {
    hide Quiet, Robs, DoReadHeader, DoReadBody, DoAcquire, DoDrainFail, DoDrainRead;
    match step
    case ReadHeader(r) => FlagReadHeader(p, r);
    case ReadBody(r) => FlagReadBody(p, r);
    case Acquire(r) => FlagDrains(p, r);
    case DrainRead(r) => FlagDrains(p, r);
    case DrainFail(r) => FlagDrains(p, r);
    case _ =>
  }

  // Once dirty, torn or gone, for good.
  lemma OnceStep(p: Pipe, step: Step)
    requires Enabled(p, step)
    ensures Clean(Apply(p, step)) ==> Clean(p)
    ensures !Apply(p, step).torn ==> !p.torn
    ensures !Apply(p, step).serving.Exited? ==> !p.serving.Exited?
  {
    DrainFlagsStep(p, step);
    TornStep(p, step);
    ExitStep(p, step);
  }

  lemma TornStep(p: Pipe, step: Step)
    requires Enabled(p, step)
    ensures !Apply(p, step).torn ==> !p.torn
  {
    hide Quiet, Robs, DoArrive, DoAcquire, DoDrainRead, DoReadHeader, DoReadBody, DoConsume, DoEmit, Leave;
  }

  lemma ExitStep(p: Pipe, step: Step)
    requires Enabled(p, step)
    ensures !Apply(p, step).serving.Exited? ==> !p.serving.Exited?
  {
    hide Quiet, Robs, Clean, DoReadHeader, DoReadBody, DoDrainRead, DoAcquire, DoDrainFail;
    match step
    case ReadHeader(r) => HeaderTakesOne(p, r);
    case ReadBody(r) => BodyTakesOne(p, r);
    case DrainRead(r) => DrainServing(p, r);
    case Acquire(r) => AcquireServing(p, r);
    case DrainFail(r) => AcquireServing(p, r);
    case _ =>
  }

  lemma DrainServing(p: Pipe, r: nat)
    requires p.outbox != []
    ensures DoDrainRead(p, r).serving == p.serving
  {
    hide Pop, Send;
    SendServing(Pop(p).(needsDrain := false), r);
    PopTakesOne(p, false);
  }

  lemma SendServing(p: Pipe, r: nat)
    ensures Send(p, r).serving == p.serving
  {
  }

  lemma AcquireServing(p: Pipe, r: nat)
    ensures DoAcquire(p, r).serving == p.serving && DoDrainFail(p, r).serving == p.serving
  {
    hide Quiet;
  }

  ghost predicate Sound(p: Pipe) {
    Inv(p) && Calm(p) && LeftInv(p) && HeadInv(p) && FlagInv(p)
  }

  lemma SoundStep(p: Pipe, step: Step)
    requires Sound(p) && Enabled(p, step)
    ensures Sound(Apply(p, step))
  {
    hide Apply, Enabled, LockInv, FlowInv, AudioInv, Calm, LeftInv, HeadInv, Clean, FlagInv;
    FlagStep(p, step);
    InvStep(p, step);
    CalmStep(p, step);
    LeftStep(p, step);
    HeadStep(p, step);
  }

  lemma FreshSound()
    ensures Sound(Fresh)
  {
    FreshIsSound();
  }

  lemma {:induction false} SoundAlways(run: seq<Pipe>, steps: seq<Step>, i: nat)
    requires IsRun(run, steps) && i < |run|
    ensures Sound(run[i])
  {
    hide IsRun, Apply, Enabled, Sound;
    RunLength(run, steps);
    if i == 0 {
      FreshSound();
    } else {
      SoundAlways(run, steps, i - 1);
      RunStep(run, steps, i - 1);
      SoundStep(run[i - 1], steps[i - 1]);
    }
  }

  // ---- `needs_drain` --------------------------------------------------------------------

  // Caller w reads an error in the middle of its answer.
  ghost predicate MidStreamError(run: seq<Pipe>, steps: seq<Step>, j: nat, w: nat) {
    j < |steps| && j < |run| && steps[j] == ReadBody(w) && run[j].outbox != [] && run[j].outbox[0].body.Error?
  }

  // The flag is set, and no caller is draining.
  ghost predicate Flagged(p: Pipe) {
    && Clean(p) && !p.torn && !p.serving.Exited? && p.needsDrain
    && (p.lock.Some? && p.lock.value in p.pcs ==> !p.pcs[p.lock.value].Draining?)
  }

  lemma FlaggedHolder(p: Pipe, r: nat)
    requires Sound(p) && Clean(p) && r in p.pcs && Holding(p.pcs[r])
    ensures p.lock == Some(r)
    ensures InExchange(p.pcs[r]) ==> p.writer == Some(r)
  {
  }

  lemma FlaggedRead(p: Pipe)
    requires p.outbox != [] && Left(p)
    ensures Left(Pop(p)) || Terminal(p.outbox[0])
  {
    if !Terminal(p.outbox[0]) { LeftPop(p); }
  }

  // One step keeps what is left to drain, unless it reads the error.
  lemma FlaggedStep(p: Pipe, step: Step)
    requires Sound(p) && Enabled(p, step) && Flagged(Apply(p, step)) && !Left(Apply(p, step))
    ensures Flagged(p) && Apply(p, step).writer == p.writer && p.writer.Some?
    ensures Left(p) ==> step == ReadBody(p.writer.value) && p.outbox[0].body.Error?
  {
    OnceStep(p, step);
    hide AudioInv, Left, LeftInv, DoReadHeader, DoReadBody, DoConsume, DoEmit, Quiet;
    match step
    case Acquire(r) => LeftSend(p.(lock := Some(r)), r);
    case DrainRead(r) =>
      FlaggedHolder(p, r);
      if p.outbox[0].body.AudioEnd? { LeftSend(Pop(p).(needsDrain := false), r); }
    case DrainFail(r) =>
      LeftSend(p.(state := FAILED, needsDrain := false, failedDirty := p.failedDirty || !Quiet(p)), r);
    case ReadHeader(r) => FlaggedReadHeader(p, r);
    case ReadBody(r) => FlaggedReadBody(p, r);
    case Consume => LeftConsume(p);
    case Emit(body) => LeftEmit(p, body);
    case _ => FlaggedSame(p, step);
  }

  lemma FlaggedReadHeader(p: Pipe, r: nat)
    requires Sound(p) && Enabled(p, ReadHeader(r)) && Clean(p) && !p.torn && !p.serving.Exited?
    requires DoReadHeader(p, r).needsDrain
    ensures Left(DoReadHeader(p, r))
  {
    FlaggedHolder(p, r);
    assert p.outbox[0].body.SynthesizeHeader?;
    hide Inv, Left, HeadInv, Calm;
    FlaggedRead(p);
    LeftFrame(Pop(p), DoReadHeader(p, r));
  }

  lemma FlaggedReadBody(p: Pipe, r: nat)
    requires Sound(p) && Enabled(p, ReadBody(r)) && Clean(p) && !p.torn && !p.serving.Exited?
    requires DoReadBody(p, r).needsDrain && !Left(DoReadBody(p, r))
    ensures p.lock == Some(r) && p.writer == Some(r) && p.outbox[0].body.Error?
    ensures p.needsDrain && DoReadBody(p, r).writer == p.writer
  {
    FlaggedHolder(p, r);
    BodyTakesOne(p, r);
    BodyGoesOn(p, r);
    ExchangeHasLeft(p, r);
    hide Sound, Left, DoReadBody, Pop;
    FlaggedRead(p);
    LeftTaken(p, DoReadBody(p, r));
  }

  lemma ExchangeHasLeft(p: Pipe, r: nat)
    requires Sound(p) && Clean(p) && !p.torn && !p.serving.Exited? && r in p.pcs && InExchange(p.pcs[r])
    ensures Left(p) && p.needsDrain
  {
  }

  lemma FlaggedSame(p: Pipe, step: Step)
    requires Sound(p) && Enabled(p, step) && Flagged(Apply(p, step)) && !Left(Apply(p, step))
    requires step.Arrive? || step.DrainCancel? || step.Flushed? || step.Resume? || step.Abandon? || step.Die?
             || step.BeginTeardown? || step.TeardownRead? || step.EndTeardown?
    ensures Flagged(p) && Apply(p, step).writer == p.writer && p.writer.Some? && !Left(p)
  {
    hide Quiet, Robs, AudioInv, FlowInv;
  }

  /** `needs_drain` means something is left to drain: with no caller draining, no teardown or
      exit behind it, and no error read in the middle of the last request's answer, a response
      is still to come or its last frame is unread. */
  lemma {:induction false} NeedsDrainMeansLeft(run: seq<Pipe>, steps: seq<Step>, i: nat)
    requires IsRun(run, steps) && i < |run| && Flagged(run[i])
    ensures run[i].writer.Some?
    ensures Left(run[i]) || exists j: nat :: j < i && MidStreamError(run, steps, j, run[i].writer.value)
  {
    hide IsRun, Apply, Enabled, Left, Flagged, Sound;
    RunLength(run, steps);
    SoundAlways(run, steps, i);
    FlagHasWriter(run[i]);
    if i == 0 {
      FreshHasNoFlag();
    } else if !Left(run[i]) {
      RunStep(run, steps, i - 1);
      SoundAlways(run, steps, i - 1);
      FlaggedStep(run[i - 1], steps[i - 1]);
      NeedsDrainMeansLeft(run, steps, i - 1);
      if Left(run[i - 1]) {
        CanRead(run[i - 1], steps[i - 1]);
        assert MidStreamError(run, steps, i - 1, run[i].writer.value);
      }
    }
  }

  lemma CanRead(p: Pipe, step: Step)
    requires Enabled(p, step) && step.ReadBody?
    ensures p.outbox != []
  {
  }

  lemma FlagHasWriter(p: Pipe)
    requires Sound(p) && Flagged(p)
    ensures p.writer.Some?
  {
  }

  lemma FreshHasNoFlag()
    ensures !Flagged(Fresh)
  {
  }

  /** The first frame a caller reads is the header of its own answer or its own error, as long
      as no drain was given up with something left and no teardown has begun. */
  lemma OpensOwnAnswer(run: seq<Pipe>, steps: seq<Step>, i: nat, r: nat)
    requires IsRun(run, steps) && i < |run| && Clean(run[i]) && !run[i].torn
    requires At(run[i], r, AwaitHeader) && run[i].outbox != []
    ensures run[i].outbox[0].owner == Some(r)
    ensures run[i].outbox[0].body.SynthesizeHeader? || run[i].outbox[0].body.Error?
  {
    hide IsRun;
    SoundAlways(run, steps, i);
    FlaggedHolder(run[i], r);
  }

  // ---- a caller leaves in the middle of its answer ---------------------------------------

  // The later run goes on from the earlier one.
  ghost predicate Extends(run: seq<Pipe>, steps: seq<Step>, run': seq<Pipe>, steps': seq<Step>) {
    |run'| == |steps'| + 1 && IsRun(run', steps') && run <= run' && steps <= steps'
  }

  // What a provider's steps leave alone.
  predicate SameCallers(p: Pipe, q: Pipe) {
    && q.pcs == p.pcs && q.lock == p.lock && q.needsDrain == p.needsDrain && q.delivered == p.delivered
    && q.writer == p.writer && SameFlags(p, q)
    && (forall x :: x in p.produced && Some(x) != p.writer ==> x in q.produced && q.produced[x] == p.produced[x])
  }

  // What is left of r's answer, the provider still running and no error among it.
  ghost predicate Answering(p: Pipe, r: nat) {
    && !p.torn && !p.serving.Exited? && p.writer == Some(r)
    && (p.serving.Opening? || p.serving.Sending? ==> p.serving.id == r)
    && (forall i :: 0 <= i < |p.outbox| ==> p.outbox[i].owner == Some(r) && !p.outbox[i].body.Error?)
    && (forall i :: 0 <= i < |p.outbox| - 1 ==> !Terminal(p.outbox[i]))
    && (p.serving.Idle? ==> (p.inbox == [Synth(r)] && p.outbox == []) || p.inbox == [])
    && (!p.serving.Idle? ==> p.inbox == [] && (p.outbox != [] ==> !Terminal(p.outbox[|p.outbox| - 1])))
    && (p.serving.Idle? && p.inbox == [] ==> p.outbox != [] && p.outbox[|p.outbox| - 1].body.AudioEnd?)
  }

  // r's answer is there to its end.
  ghost predicate Answered(p: Pipe, r: nat) {
    Answering(p, r) && p.serving.Idle? && p.inbox == []
  }

  lemma AnsweringFrom(p: Pipe, r: nat)
    requires Sound(p) && Clean(p) && !p.torn && !p.serving.Exited? && r in p.pcs && InExchange(p.pcs[r])
    requires forall i :: 0 <= i < |p.outbox| ==> !p.outbox[i].body.Error?
    ensures Answering(p, r) && p.needsDrain && p.lock == Some(r)
  {
    FlaggedHolder(p, r);
    ExchangeHasLeft(p, r);
    assert OneFlow(p, r);
    hide LockInv, FlowInv, AudioInv, LeftInv, HeadInv, FlagInv;
    OneQueued(p, r);
    TerminalIsLast(p, r);
    FramesAreOwned(p, r);
    hide OneFlow, Calm;
  }

  lemma OneQueued(p: Pipe, r: nat)
    requires Calm(p) && !p.torn && OneFlow(p, r)
    ensures p.inbox == [] || (p.inbox == [Synth(r)] && p.outbox == [] && (p.serving.Idle? || p.serving.Exited?))
  {
    Apart(p.inbox);
    FramesAreOwned(p, r);
    if p.inbox != [] { assert p.inbox[0].Synth?; }
  }

  lemma FramesAreOwned(p: Pipe, r: nat)
    requires Calm(p) && !p.torn && OneFlow(p, r)
    ensures forall i :: 0 <= i < |p.outbox| ==> p.outbox[i].owner == Some(r)
    ensures p.outbox != [] ==> p.outbox[0].owner == Some(r)
  {
  }

  lemma TerminalIsLast(p: Pipe, r: nat)
    requires Calm(p) && !p.torn && OneFlow(p, r)
    ensures forall i :: 0 <= i < |p.outbox| && Terminal(p.outbox[i]) ==>
              i == |p.outbox| - 1 && (p.serving.Idle? || p.serving.Exited?)
  {
    forall i | 0 <= i < |p.outbox| && Terminal(p.outbox[i]) ensures i == |p.outbox| - 1 {
      assert p.outbox[|p.outbox| - 1].owner.Some?;
    }
  }

  lemma Apart(inbox: seq<Request>)
    requires forall i, j :: 0 <= i < j < |inbox| ==> inbox[i].Shutdown? || inbox[j].Shutdown?
    ensures |inbox| > 1 ==> inbox[0].Shutdown? || inbox[1].Shutdown?
  {
  }

  lemma Starts(run: seq<Pipe>, steps: seq<Step>, r: nat) returns (run': seq<Pipe>, steps': seq<Step>)
    requires |run| == |steps| + 1 && IsRun(run, steps) && Answering(run[|steps|], r)
    ensures Extends(run, steps, run', steps') && Answering(run'[|steps'|], r)
    ensures SameCallers(run[|steps|], run'[|steps'|])
    ensures run'[|steps'|].inbox == []
  {
    hide IsRun;
    run', steps' := run, steps;
    if run[|steps|].serving.Idle? && run[|steps|].inbox != [] {
      run', steps' := ExtendRun(run, steps, Consume);
      assert run'[|steps'|].inbox == [];
    }
  }

  lemma Opens(run: seq<Pipe>, steps: seq<Step>, r: nat) returns (run': seq<Pipe>, steps': seq<Step>)
    requires |run| == |steps| + 1 && IsRun(run, steps) && Answering(run[|steps|], r) && run[|steps|].inbox == []
    ensures Extends(run, steps, run', steps') && Answering(run'[|steps'|], r)
    ensures SameCallers(run[|steps|], run'[|steps'|])
    ensures run'[|steps'|].inbox == [] && !run'[|steps'|].serving.Opening?
  {
    hide IsRun;
    run', steps' := run, steps;
    if run[|steps|].serving.Opening? {
      run', steps' := ExtendRun(run, steps, Emit(SynthesizeHeader));
    }
  }

  // The provider comes to the end of the answer.
  lemma ProviderEnds(run: seq<Pipe>, steps: seq<Step>, r: nat) returns (run': seq<Pipe>, steps': seq<Step>)
    requires |run| == |steps| + 1 && IsRun(run, steps) && Answering(run[|steps|], r)
    ensures Extends(run, steps, run', steps') && Answered(run'[|steps'|], r)
    ensures SameCallers(run[|steps|], run'[|steps'|])
  {
    hide IsRun;
    run', steps' := Starts(run, steps, r);
    run', steps' := Opens(run', steps', r);
    if run'[|steps'|].serving.Sending? {
      run', steps' := ExtendRun(run', steps', Emit(AudioEnd));
    }
  }

  lemma AnsweredOn(p: Pipe, q: Pipe, r: nat)
    requires Answered(p, r) && |p.outbox| > 1 && q == p.(outbox := p.outbox[1..])
    ensures Answered(q, r)
  {
    assert q.outbox[|q.outbox| - 1] == p.outbox[|p.outbox| - 1];
    forall i | 0 <= i < |q.outbox| ensures q.outbox[i] == p.outbox[i + 1] {}
  }

  // The next caller drains it, up to its audio_end.
  lemma {:induction false} DrainsOut(run: seq<Pipe>, steps: seq<Step>, r: nat, x: nat)
    returns (run': seq<Pipe>, steps': seq<Step>)
    requires |run| == |steps| + 1 && IsRun(run, steps) && Answered(run[|steps|], r) && At(run[|steps|], x, Draining)
    requires run[|steps|].lock == Some(x)
    ensures Extends(run, steps, run', steps') && |steps| < |steps'| && steps'[|steps'| - 1] == DrainRead(x)
    ensures run'[|steps'| - 1].outbox == [Frame(Some(r), AudioEnd)]
    ensures var p, q := run[|steps|], run'[|steps'|];
      && q == p.(outbox := [], inbox := [Synth(x)], pcs := p.pcs[x := Flushing], writer := Some(x), needsDrain := true)
    decreases |run[|steps|].outbox|
  {
    hide IsRun;
    var p := run[|steps|];
    run', steps' := ExtendRun(run, steps, DrainRead(x));
    var q := run'[|steps'|];
    if |p.outbox| == 1 {
      assert p.outbox == [Frame(Some(r), AudioEnd)];
      assert p.outbox[1..] == [] && p.inbox + [Synth(x)] == [Synth(x)];
    } else {
      assert q == p.(outbox := p.outbox[1..]);
      AnsweredOn(p, q, r);
      var run1, steps1 := run', steps';
      run', steps' := DrainsOut(run1, steps1, r, x);
    }
  }

  // A caller whose request is written into an empty pipe, on a provider that runs.
  ghost predicate Unshared(p: Pipe, x: nat) {
    && At(p, x, Flushing) && p.lock == Some(x) && p.inbox == [Synth(x)] && p.serving.Idle? && p.outbox == []
    && x in p.produced && p.produced[x] == [] && x in p.delivered && p.delivered[x] == []
  }

  lemma AnswerIsMade(run: seq<Pipe>, steps: seq<Step>, x: nat, pcm: Pcm)
    returns (run': seq<Pipe>, steps': seq<Step>)
    requires |run| == |steps| + 1 && IsRun(run, steps) && Unshared(run[|steps|], x)
    ensures Extends(run, steps, run', steps')
    ensures var p := run[|steps|];
      run'[|steps'|] == p.(inbox := [], produced := p.produced[x := [pcm]],
                           outbox := [Frame(Some(x), SynthesizeHeader), Frame(Some(x), AudioChunk(pcm)),
                                      Frame(Some(x), AudioEnd)])
  {
    hide IsRun;
    var p := run[|steps|];
    run', steps' := AnswerIsBegun(run, steps, x);
    run', steps' := ExtendRun(run', steps', Emit(AudioChunk(pcm)));
    assert [] + [pcm] == [pcm];
    assert run'[|steps'|] == p.(inbox := [], serving := Sending(x), produced := p.produced[x := [pcm]],
                                outbox := [Frame(Some(x), SynthesizeHeader), Frame(Some(x), AudioChunk(pcm))]);
    run', steps' := ExtendRun(run', steps', Emit(AudioEnd));
  }

  lemma AnswerIsBegun(run: seq<Pipe>, steps: seq<Step>, x: nat)
    returns (run': seq<Pipe>, steps': seq<Step>)
    requires |run| == |steps| + 1 && IsRun(run, steps) && Unshared(run[|steps|], x)
    ensures Extends(run, steps, run', steps')
    ensures run'[|steps'|] ==
      run[|steps|].(inbox := [], serving := Sending(x), outbox := [Frame(Some(x), SynthesizeHeader)])
  {
    hide IsRun;
    var p := run[|steps|];
    run', steps' := ExtendRun(run, steps, Consume);
    assert run'[|steps'|] == p.(inbox := [], serving := Opening(x));
    run', steps' := ExtendRun(run', steps', Emit(SynthesizeHeader));
  }

  lemma HeaderIsRead(run: seq<Pipe>, steps: seq<Step>, x: nat, rest: seq<Frame>)
    returns (run': seq<Pipe>, steps': seq<Step>)
    requires |run| == |steps| + 1 && IsRun(run, steps) && At(run[|steps|], x, Flushing)
    requires run[|steps|].outbox == [Frame(Some(x), SynthesizeHeader)] + rest
    ensures Extends(run, steps, run', steps')
    ensures run'[|steps'|] == run[|steps|].(outbox := rest, pcs := run[|steps|].pcs[x := Streaming])
  {
    hide IsRun;
    var p := run[|steps|];
    run', steps' := ExtendRun(run, steps, Flushed(x));
    run', steps' := ExtendRun(run', steps', ReadHeader(x));
    assert p.pcs[x := AwaitHeader][x := Streaming] == p.pcs[x := Streaming];
  }

  // One chunk is read and the caller asks for the next frame.
  lemma ChunkIsRead(run: seq<Pipe>, steps: seq<Step>, x: nat, chunk: Frame, rest: seq<Frame>)
    returns (run': seq<Pipe>, steps': seq<Step>)
    requires |run| == |steps| + 1 && IsRun(run, steps) && At(run[|steps|], x, Streaming) && chunk.body.AudioChunk?
    requires run[|steps|].outbox == [chunk] + rest && x in run[|steps|].delivered
    ensures Extends(run, steps, run', steps')
    ensures var p := run[|steps|];
      run'[|steps'|] == p.(outbox := rest, delivered := p.delivered[x := p.delivered[x] + [chunk]])
  {
    hide IsRun;
    var p := run[|steps|];
    run', steps' := ExtendRun(run, steps, ReadBody(x));
    run', steps' := ExtendRun(run', steps', Resume(x));
    assert p.pcs[x := AtYield][x := Streaming] == p.pcs;
  }

  lemma AnswerIsRead(run: seq<Pipe>, steps: seq<Step>, x: nat, pcm: Pcm)
    returns (run': seq<Pipe>, steps': seq<Step>)
    requires |run| == |steps| + 1 && IsRun(run, steps)
    requires var p := run[|steps|];
      && At(p, x, Flushing) && p.lock == Some(x) && x in p.delivered && p.delivered[x] == []
      && p.outbox == [Frame(Some(x), SynthesizeHeader), Frame(Some(x), AudioChunk(pcm)), Frame(Some(x), AudioEnd)]
    ensures Extends(run, steps, run', steps')
    ensures var p := run[|steps|];
      run'[|steps'|] == p.(outbox := [], lock := None, needsDrain := false, pcs := p.pcs[x := Done],
                           delivered := p.delivered[x := [Frame(Some(x), AudioChunk(pcm))]])
  {
    hide IsRun;
    var p := run[|steps|];
    var chunk, end := Frame(Some(x), AudioChunk(pcm)), Frame(Some(x), AudioEnd);
    assert p.outbox == [Frame(Some(x), SynthesizeHeader)] + [chunk, end] && [chunk, end] == [chunk] + [end];
    run', steps' := HeaderIsRead(run, steps, x, [chunk, end]);
    run', steps' := ChunkIsRead(run', steps', x, chunk, [end]);
    assert [] + [chunk] == [chunk];
    run', steps' := ExtendRun(run', steps', ReadBody(x));
    assert p.pcs[x := Streaming][x := Done] == p.pcs[x := Done] && [end][1..] == [];
  }

  // r leaves and a new caller takes its place at the lock.
  lemma LeavesAndNext(run: seq<Pipe>, steps: seq<Step>, r: nat, x: nat)
    returns (run': seq<Pipe>, steps': seq<Step>)
    requires |run| == |steps| + 1 && IsRun(run, steps) && run[|steps|].state == READY && run[|steps|].needsDrain
    requires r in run[|steps|].pcs && InExchange(run[|steps|].pcs[r]) && run[|steps|].lock == Some(r)
    requires x !in run[|steps|].pcs
    ensures Extends(run, steps, run', steps') && |steps'| == |steps| + 3 && steps'[|steps|] == Abandon(r)
    ensures var q := run'[|steps| + 1]; At(q, r, Abandoned) && q.lock.None? && q.needsDrain
    ensures var p := run[|steps|];
      run'[|steps'|] == p.(lock := Some(x), pcs := p.pcs[r := Abandoned][x := Draining],
                           produced := p.produced[x := []], delivered := p.delivered[x := []])
  {
    hide IsRun;
    var p := run[|steps|];
    run', steps' := ExtendRun(run, steps, Abandon(r));
    run', steps' := ExtendRun(run', steps', Arrive(x));
    run', steps' := ExtendRun(run', steps', Acquire(x));
    assert p.pcs[r := Abandoned][x := Waiting][x := Draining] == p.pcs[r := Abandoned][x := Draining];
  }

  /** A caller can leave at every point of its exchange, and the next one is served behind it.
      In every run that ends with a READY process, no drain given up with something left and a
      caller inside its exchange on a provider that runs and has not failed, the caller can
      leave: the lock is then free with `needs_drain` set. A new caller drains what was left up
      to its audio_end, and returns normally with exactly what was made for it. */
  lemma LeavingIsRecovered(run: seq<Pipe>, steps: seq<Step>, r: nat, x: nat, pcm: Pcm)
    returns (run': seq<Pipe>, steps': seq<Step>, k: nat)
    requires |run| == |steps| + 1 && IsRun(run, steps) && Clean(run[|steps|]) && run[|steps|].state == READY
    requires r in run[|steps|].pcs && InExchange(run[|steps|].pcs[r]) && !run[|steps|].serving.Exited?
    requires forall i :: 0 <= i < |run[|steps|].outbox| ==> !run[|steps|].outbox[i].body.Error?
    requires x !in run[|steps|].pcs
    ensures Extends(run, steps, run', steps') && |steps| < k < |steps'| && steps'[|steps|] == Abandon(r)
    ensures var q := run'[|steps| + 1]; At(q, r, Abandoned) && q.lock.None? && q.needsDrain
    ensures steps'[k] == DrainRead(x) && run'[k].outbox == [Frame(Some(r), AudioEnd)]
    ensures var q := run'[|steps'|];
      && q.state == READY && Clean(q) && At(q, x, Done) && q.lock.None? && !q.needsDrain
      && x in q.produced && q.produced[x] == [pcm] && x in q.delivered && Chunks(q.delivered[x]) == [pcm]
  {
    hide IsRun, Sound, Answering, Unshared;
    SoundAlways(run, steps, |steps|);
    NotTorn(run[|steps|]);
    AnsweringFrom(run[|steps|], r);
    var run1, steps1 := LeavesAndNext(run, steps, r, x);
    AnsweringSame(run[|steps|], run1[|steps1|], r);
    var run2, steps2 := ProviderEnds(run1, steps1, r);
    run', steps', k := ServedBehind(run2, steps2, r, x, pcm);
  }

  // The next caller drains the whole of r's answer and is given its own.
  lemma ServedBehind(run: seq<Pipe>, steps: seq<Step>, r: nat, x: nat, pcm: Pcm)
    returns (run': seq<Pipe>, steps': seq<Step>, k: nat)
    requires |run| == |steps| + 1 && IsRun(run, steps) && Answered(run[|steps|], r) && At(run[|steps|], x, Draining)
    requires var p := run[|steps|];
      && p.lock == Some(x) && x in p.produced && p.produced[x] == [] && x in p.delivered && p.delivered[x] == []
    ensures Extends(run, steps, run', steps') && |steps| <= k < |steps'|
    ensures steps'[k] == DrainRead(x) && run'[k].outbox == [Frame(Some(r), AudioEnd)]
    ensures var p, q := run[|steps|], run'[|steps'|];
      && SameFlags(p, q) && At(q, x, Done) && q.lock.None? && !q.needsDrain
      && x in q.produced && q.produced[x] == [pcm] && x in q.delivered && Chunks(q.delivered[x]) == [pcm]
  {
    hide IsRun, Answered, Unshared;
    var run1, steps1 := DrainsOut(run, steps, r, x);
    k := |steps1| - 1;
    DrainedAlone(run[|steps|], run1[|steps1|], r, x);
    var run2, steps2 := AnswerIsMade(run1, steps1, x, pcm);
    StillFlushing(run1[|steps1|], x);
    run', steps' := AnswerIsRead(run2, steps2, x, pcm);
    OneChunk(x, pcm);
  }

  lemma StillFlushing(p: Pipe, x: nat)
    requires Unshared(p, x)
    ensures At(p, x, Flushing) && p.lock == Some(x) && x in p.delivered && p.delivered[x] == []
  {
  }

  lemma NotTorn(p: Pipe)
    requires Sound(p) && p.state == READY
    ensures !p.torn
  {
  }

  lemma AnsweringSame(p: Pipe, q: Pipe, r: nat)
    requires Answering(p, r) && q.torn == p.torn && q.serving == p.serving && q.writer == p.writer
    requires q.inbox == p.inbox && q.outbox == p.outbox
    ensures Answering(q, r)
  {
  }

  lemma DrainedAlone(p: Pipe, q: Pipe, r: nat, x: nat)
    requires Answered(p, r) && x in p.produced && p.produced[x] == [] && x in p.delivered && p.delivered[x] == []
    requires p.lock == Some(x)
    requires q == p.(outbox := [], inbox := [Synth(x)], pcs := p.pcs[x := Flushing], writer := Some(x),
                     needsDrain := true)
    ensures Unshared(q, x)
  {
  }

  lemma OneChunk(x: nat, pcm: Pcm)
    ensures Chunks([Frame(Some(x), AudioChunk(pcm))]) == [pcm]
  {
    var fs := [Frame(Some(x), AudioChunk(pcm))];
    assert fs[1..] == [];
  }

  // ---- the provider fails in the middle of an answer --------------------------------------

  // An error is the last frame of r's answer, and r has read its header.
  ghost predicate ErrorAhead(p: Pipe, r: nat) {
    && At(p, r, Streaming) && p.lock == Some(r) && r in p.delivered && p.outbox != []
    && p.outbox[|p.outbox| - 1].body.Error?
    && (forall i :: 0 <= i < |p.outbox| - 1 ==> !Terminal(p.outbox[i]))
  }

  lemma {:induction false} ReadsToError(run: seq<Pipe>, steps: seq<Step>, r: nat)
    returns (run': seq<Pipe>, steps': seq<Step>)
    requires |run| == |steps| + 1 && IsRun(run, steps) && ErrorAhead(run[|steps|], r)
    ensures Extends(run, steps, run', steps')
    ensures var p, q := run[|steps|], run'[|steps'|];
      q == p.(outbox := [], lock := None, pcs := p.pcs[r := Raised], delivered := q.delivered)
    decreases |run[|steps|].outbox|
  {
    hide IsRun, ErrorAhead;
    var p := run[|steps|];
    ErrorIsLast(p, r);
    var f, rest := p.outbox[0], p.outbox[1..];
    if f.body.AudioChunk? {
      assert p.outbox == [f] + rest;
      var run1, steps1 := ChunkIsRead(run, steps, r, f, rest);
      ErrorStaysAhead(p, run1[|steps1|], r);
      run', steps' := ReadsToError(run1, steps1, r);
    } else {
      run', steps' := ExtendRun(run, steps, ReadBody(r));
      if !f.body.Error? {
        assert run'[|steps'|] == p.(outbox := rest);
        var run1, steps1 := run', steps';
        ErrorStaysAhead(p, run1[|steps1|], r);
        run', steps' := ReadsToError(run1, steps1, r);
      }
    }
  }

  lemma ErrorIsLast(p: Pipe, r: nat)
    requires ErrorAhead(p, r)
    ensures At(p, r, Streaming) && p.lock == Some(r) && r in p.delivered && p.outbox != []
    ensures !p.outbox[0].body.AudioEnd? && (p.outbox[0].body.Error? <==> |p.outbox| == 1)
  {
    if |p.outbox| > 1 { assert !Terminal(p.outbox[0]); }
  }

  lemma ErrorStaysAhead(p: Pipe, q: Pipe, r: nat)
    requires ErrorAhead(p, r) && |p.outbox| > 1 && q == p.(outbox := p.outbox[1..], delivered := q.delivered)
    requires r in q.delivered
    ensures ErrorAhead(q, r)
  {
    forall i | 0 <= i < |q.outbox| ensures q.outbox[i] == p.outbox[i + 1] {}
  }

  // A caller that has sent its request comes to await the frames behind the header.
  lemma ComesToStream(run: seq<Pipe>, steps: seq<Step>, r: nat)
    returns (run': seq<Pipe>, steps': seq<Step>)
    requires |run| == |steps| + 1 && IsRun(run, steps) && r in run[|steps|].pcs && InExchange(run[|steps|].pcs[r])
    requires BeforeHeader(run[|steps|].pcs[r]) ==>
      |run[|steps|].outbox| > 1 && run[|steps|].outbox[0].body.SynthesizeHeader?
    ensures Extends(run, steps, run', steps')
    ensures var p, q := run[|steps|], run'[|steps'|];
      q == p.(pcs := p.pcs[r := Streaming], outbox := if BeforeHeader(p.pcs[r]) then p.outbox[1..] else p.outbox)
  {
    hide IsRun;
    var p := run[|steps|];
    run', steps' := run, steps;
    match p.pcs[r]
    case AtYield => run', steps' := ExtendRun(run', steps', Resume(r));
    case Streaming => assert p.pcs[r := Streaming] == p.pcs;
    case AwaitHeader => run', steps' := ExtendRun(run', steps', ReadHeader(r));
    case Flushing =>
      run', steps' := ExtendRun(run', steps', Flushed(r));
      run', steps' := ExtendRun(run', steps', ReadHeader(r));
      assert p.pcs[r := AwaitHeader][r := Streaming] == p.pcs[r := Streaming];
  }

  /** A provider that fails in the middle of an answer takes the process out of READY. In every
      run that ends with a READY process, no drain given up with something left and the provider
      sending r's answer, the provider can fail: r is then raised to with `needs_drain` set, the
      drain of the next caller is hopeless, and its failure marks the process. */
  lemma ErrorIsNotRecovered(run: seq<Pipe>, steps: seq<Step>, r: nat, x: nat)
    returns (run': seq<Pipe>, steps': seq<Step>, k: nat)
    requires |run| == |steps| + 1 && IsRun(run, steps) && Clean(run[|steps|]) && run[|steps|].state == READY
    requires r in run[|steps|].pcs && InExchange(run[|steps|].pcs[r]) && run[|steps|].serving.Sending?
    requires x !in run[|steps|].pcs
    ensures Extends(run, steps, run', steps') && |steps| < k < |steps'| && steps'[|steps|] == Emit(Error)
    ensures At(run'[k], r, Raised) && run'[k].needsDrain && Hopeless(run'[k], x)
    ensures run'[|steps'|].state == FAILED && steps'[|steps'| - 1] == DrainFail(x)
  {
    hide IsRun, Sound, Hopeless, ErrorAhead;
    SoundAlways(run, steps, |steps|);
    var p := run[|steps|];
    NotTorn(p);
    SendingIsOpen(p, r);
    var run1, steps1 := ExtendRun(run, steps, Emit(Error));
    var run2, steps2 := ComesToStream(run1, steps1, r);
    ErrorComes(p, run1[|steps1|], run2[|steps2|], r);
    var run3, steps3 := ReadsToError(run2, steps2, r);
    assert run3[|steps3|].inbox == [] && run3[|steps3|].needsDrain && run3[|steps3|].state == READY;
    run', steps', k := NextDrainFails(run3, steps3, r, x);
  }

  // The drain of the next caller finds nothing.
  lemma NextDrainFails(run: seq<Pipe>, steps: seq<Step>, r: nat, x: nat)
    returns (run': seq<Pipe>, steps': seq<Step>, k: nat)
    requires |run| == |steps| + 1 && IsRun(run, steps) && At(run[|steps|], r, Raised) && x !in run[|steps|].pcs
    requires var p := run[|steps|];
      && p.state == READY && p.needsDrain && p.lock.None? && p.inbox == [] && p.outbox == [] && p.serving.Idle?
    ensures Extends(run, steps, run', steps') && |steps| < k < |steps'|
    ensures At(run'[k], r, Raised) && run'[k].needsDrain && Hopeless(run'[k], x)
    ensures run'[|steps'|].state == FAILED && steps'[|steps'| - 1] == DrainFail(x)
  {
    hide IsRun, Sound, Hopeless;
    var run1, steps1 := ExtendRun(run, steps, Arrive(x));
    var run2, steps2 := ExtendRun(run1, steps1, Acquire(x));
    k := |steps2|;
    SoundAlways(run2, steps2, k);
    NothingToDrain(run2[k], x);
    run', steps' := ExtendRun(run2, steps2, DrainFail(x));
  }

  lemma SendingIsOpen(p: Pipe, r: nat)
    requires Sound(p) && Clean(p) && !p.torn && r in p.pcs && InExchange(p.pcs[r]) && p.serving.Sending?
    ensures p.lock == Some(r) && p.needsDrain && p.inbox == [] && r in p.delivered
    ensures forall i :: 0 <= i < |p.outbox| ==> !Terminal(p.outbox[i])
    ensures BeforeHeader(p.pcs[r]) ==> p.outbox != [] && p.outbox[0].body.SynthesizeHeader?
  {
    FlaggedHolder(p, r);
    assert OneFlow(p, r) && r in p.delivered && p.needsDrain;
    hide LockInv, FlowInv, AudioInv, LeftInv, FlagInv;
    OneQueued(p, r);
    TerminalIsLast(p, r);
    if BeforeHeader(p.pcs[r]) { assert !Terminal(p.outbox[0]); }
  }

  lemma ErrorComes(p: Pipe, q: Pipe, z: Pipe, r: nat)
    requires r in p.pcs && p.lock == Some(r) && r in p.delivered && p.serving.Sending?
    requires forall i :: 0 <= i < |p.outbox| ==> !Terminal(p.outbox[i])
    requires q == DoEmit(p, p.serving.id, Error)
    requires BeforeHeader(p.pcs[r]) ==> p.outbox != []
    requires z == q.(pcs := q.pcs[r := Streaming], outbox := if BeforeHeader(q.pcs[r]) then q.outbox[1..] else q.outbox)
    ensures ErrorAhead(z, r)
  {
  }

  lemma NothingToDrain(p: Pipe, x: nat)
    requires Sound(p) && At(p, x, Draining) && p.outbox == [] && p.inbox == [] && p.serving.Idle?
    ensures Hopeless(p, x)
  {
  }

  // ---- nobody is stuck -----------------------------------------------------------------------

  predicate Over(pc: Pc) {
    pc.Done? || pc.Raised? || pc.Abandoned?
  }

  /** Every caller that is not done can leave at once, wherever it stands, and no longer holds
      the lock; inside its exchange it leaves `needs_drain` as it is. */
  lemma AnyoneCanLeave(run: seq<Pipe>, steps: seq<Step>, r: nat)
    returns (run': seq<Pipe>, steps': seq<Step>)
    requires |run| == |steps| + 1 && IsRun(run, steps) && r in run[|steps|].pcs && !Over(run[|steps|].pcs[r])
    ensures Extends(run, steps, run', steps') && |steps'| == |steps| + 1
    ensures var p, q := run[|steps|], run'[|steps'|];
      && At(q, r, Abandoned) && q.lock != Some(r) && q.inbox == p.inbox && q.outbox == p.outbox
      && (InExchange(p.pcs[r]) ==> q.needsDrain == p.needsDrain)
  {
    hide IsRun, Quiet;
    run', steps' := ExtendRun(run, steps, if run[|steps|].pcs[r].Draining? then DrainCancel(r) else Abandon(r));
  }

  /** A provider can die, and a process can be torn down, in every state. */
  lemma CanDieAndStop(run: seq<Pipe>, steps: seq<Step>)
    returns (died: seq<Pipe>, diedSteps: seq<Step>, run': seq<Pipe>, steps': seq<Step>)
    requires |run| == |steps| + 1 && IsRun(run, steps)
    ensures Extends(run, steps, died, diedSteps) && died[|diedSteps|] == run[|steps|].(serving := Exited)
    ensures Extends(run, steps, run', steps')
    ensures run'[|steps'|].state == STOPPED && run'[|steps'|].serving.Exited? && run'[|steps'|].pcs == run[|steps|].pcs
  {
    hide IsRun;
    died, diedSteps := ExtendRun(run, steps, Die);
    run', steps' := run, steps;
    if !run[|steps|].torn { run', steps' := ExtendRun(run, steps, BeginTeardown); }
    run', steps' := ExtendRun(run', steps', EndTeardown);
  }

  // ---- a process at rest -------------------------------------------------------------------

  // READY, nobody at it and nothing left to drain.
  predicate AtRest(p: Pipe) {
    p.state == READY && Clean(p) && p.lock.None? && !p.needsDrain && !p.serving.Exited?
  }

  lemma RestIsEmpty(p: Pipe)
    requires Sound(p) && AtRest(p)
    ensures p.inbox == [] && p.outbox == [] && p.serving.Idle? && !p.torn
  {
    hide Quiet, Calm, AudioInv, LeftInv, HeadInv, FlagInv;
    NotTorn(p);
    RestIsQuiet(p);
    QuietIsEmpty(p);
  }

  lemma RestIsQuiet(p: Pipe)
    requires FlowInv(p) && Clean(p) && !p.needsDrain
    ensures Quiet(p) && (p.serving.Idle? || p.serving.Exited?)
  {
  }

  // A new caller writes its request and awaits the header.
  lemma Enters(run: seq<Pipe>, steps: seq<Step>, x: nat)
    returns (run': seq<Pipe>, steps': seq<Step>)
    requires |run| == |steps| + 1 && IsRun(run, steps) && x !in run[|steps|].pcs
    requires var p := run[|steps|]; p.state == READY && p.lock.None? && !p.needsDrain && p.inbox == []
    ensures Extends(run, steps, run', steps') && steps' == steps + [Arrive(x), Acquire(x), Flushed(x)]
    ensures var p := run[|steps|];
      run'[|steps'|] == p.(lock := Some(x), needsDrain := true, inbox := [Synth(x)], writer := Some(x),
                           pcs := p.pcs[x := AwaitHeader], produced := p.produced[x := []],
                           delivered := p.delivered[x := []])
  {
    hide IsRun;
    var p := run[|steps|];
    run', steps' := ExtendRun(run, steps, Arrive(x));
    run', steps' := ExtendRun(run', steps', Acquire(x));
    assert p.inbox + [Synth(x)] == [Synth(x)];
    run', steps' := ExtendRun(run', steps', Flushed(x));
    assert p.pcs[x := Waiting][x := Flushing][x := AwaitHeader] == p.pcs[x := AwaitHeader];
  }

  lemma Refuses(run: seq<Pipe>, steps: seq<Step>, x: nat)
    returns (run': seq<Pipe>, steps': seq<Step>)
    requires |run| == |steps| + 1 && IsRun(run, steps) && At(run[|steps|], x, AwaitHeader)
    requires var p := run[|steps|];
      p.lock == Some(x) && p.inbox == [Synth(x)] && p.outbox == [] && p.serving.Idle?
    ensures Extends(run, steps, run', steps') && steps' == steps + [Consume, Emit(Error), ReadHeader(x)]
    ensures var p := run[|steps|];
      run'[|steps'|] == p.(lock := None, needsDrain := false, inbox := [], pcs := p.pcs[x := Raised])
  {
    hide IsRun;
    var p := run[|steps|];
    run', steps' := ExtendRun(run, steps, Consume);
    assert run'[|steps'|] == p.(inbox := [], serving := Opening(x));
    run', steps' := ExtendRun(run', steps', Emit(Error));
    assert run'[|steps'|] == p.(inbox := [], outbox := [Frame(Some(x), Error)]);
    run', steps' := ExtendRun(run', steps', ReadHeader(x));
  }

  /** A request that the provider refuses, with an error in place of the header, costs nothing:
      the caller is raised to and the process is at rest again, with nothing to drain. */
  lemma RefusedIsClean(run: seq<Pipe>, steps: seq<Step>, x: nat)
    returns (run': seq<Pipe>, steps': seq<Step>)
    requires |run| == |steps| + 1 && IsRun(run, steps) && AtRest(run[|steps|]) && x !in run[|steps|].pcs
    ensures Extends(run, steps, run', steps')
    ensures steps' == steps + [Arrive(x), Acquire(x), Flushed(x), Consume, Emit(Error), ReadHeader(x)]
    ensures var q := run'[|steps'|]; AtRest(q) && At(q, x, Raised) && q.inbox == [] && q.outbox == []
  {
    hide IsRun, Sound;
    SoundAlways(run, steps, |steps|);
    RestIsEmpty(run[|steps|]);
    var run1, steps1 := Enters(run, steps, x);
    run', steps' := Refuses(run1, steps1, x);
  }

  lemma Stops(run: seq<Pipe>, steps: seq<Step>)
    returns (run': seq<Pipe>, steps': seq<Step>)
    requires |run| == |steps| + 1 && IsRun(run, steps)
    requires var p := run[|steps|]; !p.torn && p.inbox == [] && p.outbox == [] && p.serving.Idle?
    ensures Extends(run, steps, run', steps') && steps' == steps + [BeginTeardown, Consume]
    ensures run'[|steps'|] == run[|steps|].(state := SHUTTING_DOWN, torn := true, serving := Exited,
                                            outbox := [Frame(None, ShutdownReply)])
  {
    hide IsRun;
    var p := run[|steps|];
    run', steps' := ExtendRun(run, steps, BeginTeardown);
    assert run'[|steps'|] == p.(state := SHUTTING_DOWN, torn := true, inbox := [Shutdown]);
    run', steps' := ExtendRun(run', steps', Consume);
    assert p.outbox + [Frame(None, ShutdownReply)] == [Frame(None, ShutdownReply)];
  }

  /** A process at rest answers its shutdown: the one frame the teardown reads is the reply to
      it, and nothing else is behind it. */
  lemma StopIsAnswered(run: seq<Pipe>, steps: seq<Step>)
    returns (run': seq<Pipe>, steps': seq<Step>)
    requires |run| == |steps| + 1 && IsRun(run, steps) && AtRest(run[|steps|])
    ensures Extends(run, steps, run', steps')
    ensures steps' == steps + [BeginTeardown, Consume, TeardownRead, EndTeardown]
    ensures run'[|steps| + 2].outbox == [Frame(None, ShutdownReply)] && run'[|steps| + 2].serving.Exited?
    ensures var p, q := run[|steps|], run'[|steps'|];
      q.state == STOPPED && q.outbox == [] && q.pcs == p.pcs && q.delivered == p.delivered && q.taken == p.taken
  {
    hide IsRun, Sound;
    SoundAlways(run, steps, |steps|);
    RestIsEmpty(run[|steps|]);
    var run1, steps1 := Stops(run, steps);
    run', steps' := ExtendRun(run1, steps1, TeardownRead);
    run', steps' := ExtendRun(run', steps', EndTeardown);
  }
}
