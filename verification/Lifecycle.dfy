/**
  The supervisor's provider lifecycle under any number of concurrent tasks: spawn,
  warmup, reap, idle eviction, switch, shutdown, enumeration, and the two nested
  `ensure_ready` calls behind a speechd request. A step is the code between two
  awaits; every task can be cancelled at every await.
*/
module Lifecycle {
  import opened Options
  import opened VoiceIndexing
  import opened Wire

  type Name = string
  type Id = string

  // A teardown runs shielded: it outlives the task that started it.
  datatype Teardown = NoTeardown | ByShutdown | ByKill

  datatype Child = Child(
    name: Name,
    spawner: nat,
    state: ProviderState,
    alive: bool,
    recorded: bool,      // has been stored in `_active`
    teardown: Teardown,
    voices: set<Id>,
    heard: bool := false,      // its teardown has read the stream
    cut: bool := false,        // that read met a caller's pending one and raised
    dropped: bool := false)    // its spawner left before storing it

  datatype Op =
    | Start(target: Name)                // ensure_ready() at daemon start
    | Route(voice: Id, target: Name)     // the proxy's ensure_ready(target_provider)
    | Again(voice: Id, target: Name)     // ensure_ready() inside synthesize
    | Switch(target: Name)
    | Evict
    | Close
    | Enumerate(rest: seq<Name>)

  datatype Pc =
    | Queued(op: Op)                                   // waits for the lifecycle lock
    | Reaping(op: Op, child: nat, next: Option<Name>)  // awaits shield(_do_shutdown)
    | Creating(op: Op, name: Name)                     // awaits create_subprocess_exec
    | Connecting(op: Op, child: nat)                   // the child runs, `_active` unset
    | Warming(op: Op, child: nat)
    | Killing(op: Op, child: nat, cancelled: bool)     // awaits shield(_kill)
    | EnumAt(rest: seq<Name>)                          // between two names of an enumeration
    | Publishing                                       // enumerated, about to fill the index
    | Published
    | Holding(child: nat, request: nat)                // synthesize: at the request lock, a write or a yield
    | Reading(child: nat, request: nat)                // synthesize: awaits a frame of the child
    | Finished
    | Raised
    | Cancelled

  datatype Handed = Handed(target: Name, name: Name, state: ProviderState)
  // What the index said at routing, and at sending.
  datatype Routing = Routing(voice: Id, provider: Name, local: Id)
  datatype Dispatch = Dispatch(task: nat, voice: Id, child: nat, local: Id, seen: Option<Entry>)

  datatype State = State(
    registry: set<Name>,
    lock: Option<nat>,
    active: Option<nat>,
    fallback: Name,
    children: seq<Child>,
    tasks: map<nat, Pc>,
    index: map<Id, Entry>,
    // History, read by no step.
    routed: map<nat, Routing>,
    handed: seq<Handed>,
    sent: seq<Dispatch>,
    strayed: bool)   // a live child was left neither active nor being connected

  datatype Step =
    | Begin(t: nat, op: Op)
    | Lock(t: nat, ok: bool)
    | Reaped(t: nat, ok: bool)
    | Created(t: nat)
    | CreateFails(t: nat)
    | Connected(t: nat)
    | ConnectFails(t: nat)
    | Warmed(t: nat, voices: set<Id>)
    | WarmupFails(t: nat)
    | Killed(t: nat)
    | EnumGo(t: nat, installed: bool)
    | Publish(t: nat, listing: map<Id, Entry>)
    | Cancel(t: nat)
    | Read(t: nat)
    | Receive(t: nat)
    | Leave(t: nat, ok: bool)
    | TornDown(c: nat)
    | TeardownReads(c: nat)
    | Die(c: nat)
    | MarkFailed(c: nat)

  predicate Critical(pc: Pc) {
    pc.Reaping? || pc.Creating? || pc.Connecting? || pc.Warming? || pc.Killing? || pc.EnumAt?
  }

  // A caller of `synthesize` that was given its process.
  predicate IsCaller(pc: Pc) {
    pc.Holding? || pc.Reading?
  }

  predicate Ensures(op: Op) {
    op.Start? || op.Route? || op.Again? || op.Switch?
  }

  function TargetName(s: State): Name {
    if s.active.Some? && s.active.value < |s.children| then s.children[s.active.value].name else s.fallback
  }

  predicate ActiveIs(s: State, name: Name) {
    s.active.Some? && s.active.value < |s.children|
    && s.children[s.active.value].name == name && s.children[s.active.value].state == READY
  }

  // ---- the steps -------------------------------------------------------

  predicate Enabled(s: State, step: Step) {
    match step
    case Begin(t, op) =>
      t !in s.tasks &&
      (match op
       case Route(v, p) => v in s.index && s.index[v].provider == p
       case Start(n) => n == TargetName(s)
       case Switch(n) => n in s.registry
       case Again(_, _) => false
       case _ => true)
    case Lock(t, _) => t in s.tasks && s.tasks[t].Queued? && s.lock.None?
    case Reaped(t, _) => t in s.tasks && s.tasks[t].Reaping? && s.tasks[t].child < |s.children|
    case Created(t) => t in s.tasks && s.tasks[t].Creating?
    case CreateFails(t) => t in s.tasks && s.tasks[t].Creating?
    case Connected(t) => t in s.tasks && s.tasks[t].Connecting? && s.tasks[t].child < |s.children|
    case ConnectFails(t) => t in s.tasks && s.tasks[t].Connecting? && s.tasks[t].child < |s.children|
    case Warmed(t, _) => t in s.tasks && s.tasks[t].Warming? && s.tasks[t].child < |s.children|
    case WarmupFails(t) => t in s.tasks && s.tasks[t].Warming? && s.tasks[t].child < |s.children|
    case Killed(t) => t in s.tasks && s.tasks[t].Killing? && s.tasks[t].child < |s.children|
    case EnumGo(t, _) => t in s.tasks && s.tasks[t].EnumAt?
    case Publish(t, _) => t in s.tasks && s.tasks[t].Publishing?
    case Cancel(t) => t in s.tasks && AtAwait(s.tasks[t])
                      && (HasChild(s.tasks[t]) ==> s.tasks[t].child < |s.children|)
    case TornDown(c) => c < |s.children| && !s.children[c].teardown.NoTeardown?
                        && (s.lock.Some? && s.lock.value in s.tasks ==> !Awaits(s.tasks[s.lock.value], c))
    // the request lock admits one reader of a process
    case Read(t) => t in s.tasks && s.tasks[t].Holding? && !Awaited(s, s.tasks[t].child)
    case Receive(t) => t in s.tasks && s.tasks[t].Reading?
    case Leave(t, _) => t in s.tasks && IsCaller(s.tasks[t])
    // `_do_shutdown` reads without the request lock. It never comes to that when the child
    // is gone and the request cannot be written.
    case TeardownReads(c) => c < |s.children| && s.children[c].teardown.ByShutdown? && !s.children[c].heard
    case Die(c) => c < |s.children|
    // a drain that did not see audio_end, on a process some caller holds
    case MarkFailed(c) => c < |s.children| && s.children[c].state != STARTING
  }

  // Where a task waits and can be cancelled.
  predicate AtAwait(pc: Pc) {
    pc.Queued? || IsCaller(pc) || (Critical(pc) && !pc.EnumAt?)
  }

  predicate HasChild(pc: Pc) {
    pc.Reaping? || pc.Connecting? || pc.Warming? || pc.Killing?
  }

  // Some caller awaits a frame of child c.
  predicate Awaited(s: State, c: nat) {
    exists t :: t in s.tasks && s.tasks[t].Reading? && s.tasks[t].child == c
  }

  // The lock holder awaits the shutdown of child c.
  predicate IsReaping(s: State, c: nat) {
    s.lock.Some? && s.lock.value in s.tasks && s.tasks[s.lock.value].Reaping? && s.tasks[s.lock.value].child == c
  }

  predicate Awaits(pc: Pc, c: nat) {
    (pc.Reaping? || pc.Killing?) && pc.child == c
  }

  // On its way out, out, or past its only teardown.
  predicate Doomed(child: Child) {
    child.teardown != NoTeardown || !child.alive || child.cut
  }

  // What no step but `Begin` and `Publish` touches, and how `sent` grows.
  ghost predicate Frame(s: State, q: State) {
    && |s.children| <= |q.children|
    && (forall c :: 0 <= c < |s.children| && Doomed(s.children[c]) ==> Doomed(q.children[c]))
    && q.routed == s.routed && q.index == s.index && q.registry == s.registry
    && s.sent <= q.sent && |q.sent| <= |s.sent| + 1
    && (|q.sent| > |s.sent| ==> FromIndex(s.index, q.sent[|s.sent|]))
  }

  ghost predicate SameCuts(s: State, q: State) {
    forall c :: 0 <= c < |q.children| ==> (q.children[c].cut <==> c < |s.children| && s.children[c].cut)
  }

  ghost predicate Keeps(s: State, q: State) {
    Frame(s, q) && SameCuts(s, q) && q.strayed == s.strayed
  }

  // A dispatch made from this index.
  predicate FromIndex(index: map<Id, Entry>, d: Dispatch) {
    && d.local == LocalIdIn(index, d.voice)
    && d.seen == (if d.voice in index then Some(index[d.voice]) else None)
  }

  // Children, and tasks about to create one, have enabled providers' names.
  ghost predicate Named(s: State) {
    && (forall c :: 0 <= c < |s.children| ==> s.children[c].name in s.registry)
    && (forall t :: t in s.tasks && s.tasks[t].Creating? ==> s.tasks[t].name in s.registry)
  }

  function Release(s: State, t: nat, pc: Pc): State {
    s.(lock := if s.lock == Some(t) then None else s.lock, tasks := s.tasks[t := pc])
  }

  function Goto(s: State, t: nat, pc: Pc): State {
    s.(tasks := s.tasks[t := pc])
  }

  function SetChild(s: State, c: nat, child: Child): State
    requires c < |s.children|
  {
    s.(children := s.children[c := child])
  }

  // `_shutdown_locked`, up to its await.
  function StartReap(s: State, t: nat, op: Op, c: nat, next: Option<Name>): (q: State)
    requires c < |s.children|
    ensures Keeps(s, q) && (Named(s) ==> Named(q))
    ensures q.sent == s.sent
  {
    var child := s.children[c].(state := SHUTTING_DOWN, teardown := ByShutdown, heard := false);
    Goto(SetChild(s, c, child), t, Reaping(op, c, next))
  }

  // An exception out of `_spawn_locked`.
  function SpawnRaises(s: State, t: nat, op: Op): (q: State)
    ensures Keeps(s, q) && (Named(s) ==> Named(q))
    ensures q.sent == s.sent
  {
    if op.Enumerate? then Goto(s, t, EnumAt(op.rest)) else Release(s, t, Raised)
  }

  // `_spawn_locked` with `_active` empty, up to its await. `ok`: the venv exists.
  function StartSpawn(s: State, t: nat, op: Op, name: Name, ok: bool): (q: State)
    ensures Keeps(s, q) && (Named(s) ==> Named(q))
    ensures q.sent == s.sent
  {
    hide SpawnRaises;
    if ok && name in s.registry then Goto(s, t, Creating(op, name)) else SpawnRaises(s, t, op)
  }

  function DispatchOf(s: State, t: nat, v: Id, c: nat): (d: Dispatch)
    ensures FromIndex(s.index, d)
  {
    Dispatch(t, v, c, LocalIdIn(s.index, v), if v in s.index then Some(s.index[v]) else None)
  }

  // The lock is given up, if held, and no spawn follows.
  function Move(s: State, t: nat, pc: Pc): (q: State)
    requires !pc.Creating?
    ensures Keeps(s, q) && (Named(s) ==> Named(q))
  {
    Release(s, t, pc)
  }

  // The request is handed to child c, to be written under its request lock.
  function Hand(s: State, t: nat, v: Id, c: nat): (q: State)
    ensures Keeps(s, q) && (Named(s) ==> Named(q))
  {
    hide LocalIdIn, Doomed, FromIndex, DispatchOf;
    Release(s.(sent := s.sent + [DispatchOf(s, t, v, c)]), t, Holding(c, |s.sent|))
  }

  // `ensure_ready` (or `switch`) returns child c. A request goes on without another
  // await: the proxy checks the voice and enters `synthesize`, whose own `ensure_ready`
  // fixes its target at once.
  function Return(s: State, t: nat, op: Op, c: nat): (q: State)
    requires c < |s.children|
    ensures Keeps(s, q) && (Named(s) ==> Named(q))
  {
    hide LocalIdIn, Doomed, FromIndex, TargetName, Move, Hand;
    var child := s.children[c];
    var entry := Handed(if Ensures(op) then op.target else "", child.name, child.state);
    var s' := if op.Switch? then s else s.(handed := s.handed + [entry]);
    match op
    case Route(v, _) =>
      if LocalIdIn(s.index, v) in child.voices
      then Move(s', t, Queued(Again(v, TargetName(s))))
      else Move(s', t, Finished)
    case Again(v, _) =>
      if LocalIdIn(s.index, v) in child.voices
      then Hand(s', t, v, c)
      else Move(s', t, Raised)
    case _ => Move(s', t, Finished)
  }

  // The body of `ensure_ready` and `switch` under the lock, up to its first await.
  function EnsureSegment(s: State, t: nat, op: Op, ok: bool): (q: State)
    requires Ensures(op)
    requires s.active.Some? ==> s.active.value < |s.children|
    ensures Keeps(s, q) && (Named(s) ==> Named(q))
  {
    hide StartReap, Return, StartSpawn, Doomed, FromIndex;
    if ActiveIs(s, op.target) then Return(s, t, op, s.active.value)
    else if s.active.Some? then StartReap(s, t, op, s.active.value, Some(op.target))
    else StartSpawn(s, t, op, op.target, ok)
  }

  // `shutdown` and the idle loop under the lock.
  function ReapActive(s: State, t: nat, op: Op, ok: bool): (q: State)
    requires s.active.Some? ==> s.active.value < |s.children|
    ensures Keeps(s, q) && (Named(s) ==> Named(q))
  {
    hide StartReap, Doomed, FromIndex;
    if s.active.Some? && ok then StartReap(s, t, op, s.active.value, None) else Release(s, t, Finished)
  }

  // `ok` doubles as "still idle for long enough" for an eviction.
  function DoLock(s: State, t: nat, op: Op, ok: bool): (q: State)
    requires s.active.Some? ==> s.active.value < |s.children|
    ensures Keeps(s, q) && (Named(s) ==> Named(q))
  {
    hide ReapActive, EnsureSegment, Doomed, FromIndex;
    var s' := s.(lock := Some(t));
    match op
    case Evict => ReapActive(s', t, op, ok)
    case Close => ReapActive(s', t, op, true)
    case Enumerate(rest) => Goto(s', t, EnumAt(rest))
    case _ => EnsureSegment(s', t, op, ok)
  }

  function DoReaped(s: State, t: nat, op: Op, c: nat, next: Option<Name>, ok: bool): (q: State)
    requires c < |s.children|
    ensures Keeps(s, q) && (Named(s) ==> Named(q))
  {
    hide StartSpawn;
    var s' := SetChild(s, c, s.children[c].(state := STOPPED, alive := false, teardown := NoTeardown)).(active := None);
    match next
    case Some(name) => StartSpawn(s', t, op, name, ok)
    case None => if op.Enumerate? then Goto(s', t, EnumAt(op.rest)) else Release(s', t, Finished)
  }

  function DoCreated(s: State, t: nat, op: Op, name: Name): (q: State)
    ensures Keeps(s, q) && (Named(s) && name in s.registry ==> Named(q))
  {
    Goto(s.(children := s.children + [Child(name, t, STARTING, true, false, NoTeardown, {})]),
         t, Connecting(op, |s.children|))
  }

  function DoConnected(s: State, t: nat, op: Op, c: nat): (q: State)
    requires c < |s.children|
    ensures Keeps(s, q) && (Named(s) ==> Named(q))
  {
    Goto(SetChild(s, c, s.children[c].(recorded := true)).(active := Some(c)), t, Warming(op, c))
  }

  function DoWarmed(s: State, t: nat, op: Op, c: nat, voices: set<Id>): (q: State)
    requires c < |s.children|
    ensures Keeps(s, q) && (Named(s) ==> Named(q))
  {
    hide Return, StartReap;
    var s' := SetChild(s, c, s.children[c].(state := READY, voices := voices));
    if op.Enumerate? then StartReap(s', t, op, c, None)
    else if op.Switch? then Return(s', t, op, c).(fallback := op.target)
    else Return(s', t, op, c)
  }

  function DoWarmupFails(s: State, t: nat, op: Op, c: nat, cancelled: bool): (q: State)
    requires c < |s.children|
    ensures Keeps(s, q) && (Named(s) ==> Named(q))
  {
    Goto(SetChild(s, c, s.children[c].(state := FAILED, teardown := ByKill)), t, Killing(op, c, cancelled))
  }

  function DoKilled(s: State, t: nat, op: Op, c: nat, cancelled: bool): (q: State)
    requires c < |s.children|
    ensures Keeps(s, q) && (Named(s) ==> Named(q))
  {
    hide SpawnRaises;
    var s' := SetChild(s, c, s.children[c].(alive := false, teardown := NoTeardown)).(active := None);
    if cancelled then Release(s', t, Cancelled) else SpawnRaises(s', t, op)
  }

  function DoEnumGo(s: State, t: nat, rest: seq<Name>, installed: bool): (q: State)
    requires s.active.Some? ==> s.active.value < |s.children|
    ensures Keeps(s, q) && (Named(s) ==> Named(q))
  {
    hide StartReap, StartSpawn;
    if rest == [] then Release(s, t, Publishing)
    else if !installed || ActiveIs(s, rest[0]) then Goto(s, t, EnumAt(rest[1..]))
    else if s.active.Some? && rest[0] in s.registry then
      StartReap(s, t, Enumerate(rest[1..]), s.active.value, Some(rest[0]))
    else StartSpawn(s, t, Enumerate(rest[1..]), rest[0], installed)
  }

  // The spawner leaves between the child's creation and `_active = proc`.
  function Drop(s: State, c: nat): (q: State)
    requires c < |s.children|
    ensures Frame(s, q) && SameCuts(s, q) && (Named(s) ==> Named(q))
    ensures q.sent == s.sent
  {
    SetChild(s, c, s.children[c].(dropped := true)).(strayed := s.strayed || s.children[c].alive)
  }

  // Cancellation at the await where t stands. Leaving `_shutdown_locked` clears
  // `_active`; leaving the shielded `_kill` does not.
  function DoCancel(s: State, t: nat): (q: State)
    requires Enabled(s, Cancel(t))
    ensures Frame(s, q) && SameCuts(s, q) && (Named(s) ==> Named(q))
  {
    hide DoWarmupFails;
    match s.tasks[t]
    case Warming(op, c) => DoWarmupFails(s, t, op, c, true)
    case Reaping(_, c, _) => Release(s.(active := None, strayed := s.strayed || s.children[c].alive), t, Cancelled)
    case Connecting(_, c) => Release(Drop(s, c), t, Cancelled)
    case _ => Release(s, t, Cancelled)
  }

  // The teardown raises at its read: no wait, no kill. `_shutdown_locked` clears `_active`
  // and the exception goes on to whoever awaits it.
  function DoCut(s: State, c: nat): (q: State)
    requires c < |s.children|
    ensures Frame(s, q) && (Named(s) ==> Named(q))
  {
    var child := s.children[c].(teardown := NoTeardown, cut := true);
    var s' := SetChild(s, c, child).(strayed := s.strayed || child.alive);
    if IsReaping(s, c) then SpawnRaises(s'.(active := None), s.lock.value, s.tasks[s.lock.value].op) else s'
  }

  // The teardown's read: a stream reader that a caller awaits refuses a second one.
  function DoTeardownReads(s: State, c: nat): (q: State)
    requires c < |s.children|
    ensures Frame(s, q) && (Named(s) ==> Named(q))
  {
    hide DoCut;
    if Awaited(s, c) then DoCut(s, c) else SetChild(s, c, s.children[c].(heard := true))
  }

  function DoTornDown(s: State, c: nat): (q: State)
    requires c < |s.children|
    ensures Keeps(s, q) && (Named(s) ==> Named(q))
  {
    var child := s.children[c];
    SetChild(s, c, child.(alive := false, teardown := NoTeardown,
                          state := if child.teardown.ByShutdown? then STOPPED else child.state))
  }

  function DoDie(s: State, c: nat): (q: State)
    requires c < |s.children|
    ensures Keeps(s, q) && (Named(s) ==> Named(q))
  {
    SetChild(s, c, s.children[c].(alive := false))
  }

  function DoMarkFailed(s: State, c: nat): (q: State)
    requires c < |s.children|
    ensures Keeps(s, q) && (Named(s) ==> Named(q))
  {
    SetChild(s, c, s.children[c].(state := FAILED))
  }

  // A caller starts to await a frame, is given one, and leaves.
  function DoRead(s: State, t: nat): (q: State)
    requires t in s.tasks && IsCaller(s.tasks[t])
    ensures Keeps(s, q) && (Named(s) ==> Named(q))
  {
    Goto(s, t, Reading(s.tasks[t].child, s.tasks[t].request))
  }

  function DoReceive(s: State, t: nat): (q: State)
    requires t in s.tasks && IsCaller(s.tasks[t])
    ensures Keeps(s, q) && (Named(s) ==> Named(q))
  {
    Goto(s, t, Holding(s.tasks[t].child, s.tasks[t].request))
  }

  function DoLeave(s: State, t: nat, ok: bool): (q: State)
    ensures Keeps(s, q) && (Named(s) ==> Named(q))
  {
    Goto(s, t, if ok then Finished else Raised)
  }

  function DoBegin(s: State, t: nat, op: Op): (q: State)
    ensures Named(s) ==> Named(q)
  {
    Goto(if op.Route? then s.(routed := s.routed[t := RoutingOf(s, op)]) else s, t, Queued(op))
  }

  function DoPublish(s: State, t: nat, listing: map<Id, Entry>): (q: State)
    ensures Named(s) ==> Named(q)
  {
    Goto(s.(index := listing), t, Published)
  }

  predicate ActiveExists(s: State) {
    s.active.Some? ==> s.active.value < |s.children|
  }

  function RoutingOf(s: State, op: Op): Routing
    requires op.Route?
  {
    Routing(op.voice, op.target, LocalIdIn(s.index, op.voice))
  }

  function Apply(s: State, step: Step): State
    requires ActiveExists(s) && Enabled(s, step)
  {
    match step
    case Begin(t, op) =>
      DoBegin(s, t, op)
    case Lock(t, ok) => DoLock(s, t, s.tasks[t].op, ok)
    case Reaped(t, ok) => DoReaped(s, t, s.tasks[t].op, s.tasks[t].child, s.tasks[t].next, ok)
    case Created(t) => DoCreated(s, t, s.tasks[t].op, s.tasks[t].name)
    case CreateFails(t) => SpawnRaises(s, t, s.tasks[t].op)
    case Connected(t) => DoConnected(s, t, s.tasks[t].op, s.tasks[t].child)
    case ConnectFails(t) => SpawnRaises(Drop(s, s.tasks[t].child), t, s.tasks[t].op)
    case Warmed(t, voices) => DoWarmed(s, t, s.tasks[t].op, s.tasks[t].child, voices)
    case WarmupFails(t) => DoWarmupFails(s, t, s.tasks[t].op, s.tasks[t].child, false)
    case Killed(t) => DoKilled(s, t, s.tasks[t].op, s.tasks[t].child, s.tasks[t].cancelled)
    case EnumGo(t, installed) => DoEnumGo(s, t, s.tasks[t].rest, installed)
    case Publish(t, listing) => DoPublish(s, t, listing)
    case Cancel(t) => DoCancel(s, t)
    case Read(t) => DoRead(s, t)
    case Receive(t) => DoReceive(s, t)
    case Leave(t, ok) => DoLeave(s, t, ok)
    case TornDown(c) => DoTornDown(s, c)
    case TeardownReads(c) => DoTeardownReads(s, c)
    case Die(c) => DoDie(s, c)
    case MarkFailed(c) => DoMarkFailed(s, c)
  }

  predicate Initial(s: State) {
    s.lock.None? && s.active.None? && s.children == [] && s.tasks == map[] && s.routed == map[]
    && s.handed == [] && s.sent == [] && !s.strayed
  }

  ghost predicate IsRun(run: seq<State>, steps: seq<Step>) {
    && |run| == |steps| + 1
    && Initial(run[0])
    && forall i :: 0 <= i < |steps| ==>
         ActiveExists(run[i]) && Enabled(run[i], steps[i]) && run[i + 1] == Apply(run[i], steps[i])
  }

  lemma RunLength(run: seq<State>, steps: seq<Step>)
    requires IsRun(run, steps)
    ensures |run| == |steps| + 1 && Initial(run[0])
  {
    hide Apply, Enabled;
  }

  lemma RunStep(run: seq<State>, steps: seq<Step>, k: nat)
    requires IsRun(run, steps) && k < |steps|
    ensures |run| == |steps| + 1
    ensures ActiveExists(run[k]) && Enabled(run[k], steps[k]) && run[k + 1] == Apply(run[k], steps[k])
  {
    hide Apply, Enabled;
  }

  // ---- what every state of a run satisfies ------------------------------

  ghost predicate Shape(s: State) {
    && ActiveExists(s)
    && (s.active.Some? ==> s.children[s.active.value].recorded)
    && (s.lock.Some? ==> s.lock.value in s.tasks && Critical(s.tasks[s.lock.value]))
    && (forall t :: t in s.tasks && Critical(s.tasks[t]) ==> s.lock == Some(t))
  }

  // Where the lock holder stands decides what `_active` is.
  predicate HolderOk(s: State, t: nat, pc: Pc) {
    match pc
    case Reaping(op, c, next) =>
      c < |s.children| && s.active == Some(c) && s.children[c].teardown == ByShutdown
      && (Ensures(op) ==> next == Some(op.target)) && (op.Evict? || op.Close? ==> next.None?)
    case Creating(op, name) =>
      s.active.None? && (Ensures(op) ==> name == op.target) && (Ensures(op) || op.Enumerate?)
    case Connecting(op, c) =>
      c < |s.children| && s.active.None? && !s.children[c].recorded && s.children[c].state == STARTING
      && s.children[c].spawner == t && s.children[c].teardown == NoTeardown
      && (Ensures(op) ==> s.children[c].name == op.target) && (Ensures(op) || op.Enumerate?)
    case Warming(op, c) =>
      c < |s.children| && s.active == Some(c) && s.children[c].state == STARTING
      && s.children[c].spawner == t && s.children[c].teardown == NoTeardown
      && (Ensures(op) ==> s.children[c].name == op.target) && (Ensures(op) || op.Enumerate?)
    case Killing(op, c, _) =>
      c < |s.children| && s.active == Some(c) && s.children[c].teardown == ByKill
      && (Ensures(op) || op.Enumerate?)
    case _ => true
  }

  predicate IsConnecting(s: State, c: nat) {
    s.lock.Some? && s.lock.value in s.tasks && s.tasks[s.lock.value].Connecting? && s.tasks[s.lock.value].child == c
  }

  predicate ChildOk(child: Child, isActive: bool, isConnecting: bool, strayed: bool) {
    && (!child.recorded ==> child.state == STARTING && child.teardown == NoTeardown && !child.cut)
    && (child.state == READY ==> child.teardown == NoTeardown && !child.cut)
    && (child.cut ==> !isActive && child.teardown == NoTeardown)
    && (child.dropped ==> !child.recorded && !isConnecting)
    && (!child.recorded && !child.dropped ==> isConnecting)
    && (child.recorded && child.alive && !child.cut ==> isActive || child.teardown != NoTeardown)
    && (!strayed && child.alive ==> isActive || isConnecting)
  }

  ghost predicate Core(s: State) {
    && Shape(s)
    && (s.lock.Some? ==> HolderOk(s, s.lock.value, s.tasks[s.lock.value]))
    && (s.active.Some? && s.children[s.active.value].teardown.ByShutdown? ==> IsReaping(s, s.active.value))
    && (forall c :: 0 <= c < |s.children| ==>
          ChildOk(s.children[c], s.active == Some(c), IsConnecting(s, c), s.strayed))
  }

  predicate HasOp(pc: Pc) {
    pc.Queued? || pc.Reaping? || pc.Creating? || pc.Connecting? || pc.Warming? || pc.Killing?
  }

  predicate OpRouted(s: State, t: nat, op: Op) {
    op.Route? || op.Again? ==> t in s.routed && s.routed[t].voice == op.voice && s.routed[t].provider == op.target
  }

  predicate SentOk(s: State, d: Dispatch) {
    && d.child < |s.children|
    && s.children[d.child].recorded
    && s.children[d.child].state != STARTING
    && d.local in s.children[d.child].voices
    && d.task in s.routed
    && s.routed[d.task].voice == d.voice && s.routed[d.task].provider == s.children[d.child].name
    && d.local == (if d.seen.Some? then d.seen.value.local else d.voice)
  }

  // A caller's process is the one its request was sent to.
  predicate CallerOk(s: State, t: nat, pc: Pc) {
    IsCaller(pc) ==> pc.request < |s.sent| && s.sent[pc.request].task == t && s.sent[pc.request].child == pc.child
  }

  ghost predicate Routes(s: State) {
    && (forall t :: t in s.tasks && HasOp(s.tasks[t]) ==> OpRouted(s, t, s.tasks[t].op))
    && (forall t :: t in s.routed ==> t in s.tasks)
    && (forall t :: t in s.tasks ==> CallerOk(s, t, s.tasks[t]))
    && (forall i :: 0 <= i < |s.handed| ==> s.handed[i].state == READY && s.handed[i].name == s.handed[i].target)
    && (forall i :: 0 <= i < |s.sent| ==> SentOk(s, s.sent[i]))
  }

  predicate Enumerated(pc: Pc) {
    pc.EnumAt? || pc.Publishing? || pc.Published?
  }

  // An enumerator between names, or done, has none of its own children active.
  ghost predicate EnumInv(s: State) {
    && (forall c :: 0 <= c < |s.children| ==> s.children[c].spawner in s.tasks)
    && (forall c :: (0 <= c < |s.children| && s.children[c].spawner in s.tasks
                     && s.tasks[s.children[c].spawner].Queued?) ==>
          !s.tasks[s.children[c].spawner].op.Enumerate?)
    && (s.active.Some? && s.active.value < |s.children| ==>
          var spawner := s.children[s.active.value].spawner;
          spawner in s.tasks ==> !Enumerated(s.tasks[spawner]))
  }

  // ---- the pieces of a segment run by the lock holder ---------------------

  // `Core` without what depends on where the holder t stands.
  ghost predicate CoreHeld(s: State, t: nat) {
    && ActiveExists(s)
    && (s.active.Some? ==> s.children[s.active.value].recorded && !s.children[s.active.value].teardown.ByShutdown?)
    && s.lock == Some(t)
    && t in s.tasks
    && (forall u :: u in s.tasks && u != t ==> !Critical(s.tasks[u]))
    && (forall c :: 0 <= c < |s.children| ==>
          ChildOk(s.children[c], s.active == Some(c), false, s.strayed))
  }

  lemma CoreRelease(s: State, t: nat, pc: Pc)
    requires CoreHeld(s, t) && !Critical(pc)
    ensures Core(Release(s, t, pc))
  {
    var q := Release(s, t, pc);
    assert forall c :: 0 <= c < |q.children| ==> q.children[c] == s.children[c];
  }

  lemma CoreEnumAt(s: State, t: nat, rest: seq<Name>)
    requires CoreHeld(s, t)
    ensures Core(Goto(s, t, EnumAt(rest)))
  {
  }

  lemma CoreStartReap(s: State, t: nat, op: Op, c: nat, next: Option<Name>)
    requires CoreHeld(s, t) && s.active == Some(c)
    requires Ensures(op) ==> next == Some(op.target)
    requires op.Evict? || op.Close? ==> next.None?
    ensures Core(StartReap(s, t, op, c, next))
  {
  }

  lemma CoreSpawnRaises(s: State, t: nat, op: Op)
    requires CoreHeld(s, t)
    ensures Core(SpawnRaises(s, t, op))
  {
    if op.Enumerate? { CoreEnumAt(s, t, op.rest); } else { CoreRelease(s, t, Raised); }
  }

  lemma CoreStartSpawn(s: State, t: nat, op: Op, name: Name, ok: bool)
    requires CoreHeld(s, t) && s.active.None?
    requires Ensures(op) || op.Enumerate?
    requires Ensures(op) ==> name == op.target
    ensures Core(StartSpawn(s, t, op, name, ok))
  {
    if !(ok && name in s.registry) { CoreSpawnRaises(s, t, op); }
  }

  lemma CoreHistory(s: State, t: nat, handed: seq<Handed>, sent: seq<Dispatch>)
    requires CoreHeld(s, t)
    ensures CoreHeld(s.(handed := handed, sent := sent), t)
  {
  }

  lemma CoreReturn(s: State, t: nat, op: Op, c: nat)
    requires CoreHeld(s, t) && c < |s.children|
    ensures Core(Return(s, t, op, c))
  {
    hide Keeps, Frame, SameCuts, Named, Core, CoreHeld, DispatchOf, LocalIdIn, TargetName;
    var q := Return(s, t, op, c);
    CoreHistory(s, t, q.handed, q.sent);
    CoreRelease(s.(handed := q.handed, sent := q.sent), t, q.tasks[t]);
  }

  lemma CoreEnsure(s: State, t: nat, op: Op, ok: bool)
    requires CoreHeld(s, t) && Ensures(op)
    ensures Core(EnsureSegment(s, t, op, ok))
  {
    if ActiveIs(s, op.target) { CoreReturn(s, t, op, s.active.value); }
    else if s.active.Some? { CoreStartReap(s, t, op, s.active.value, Some(op.target)); }
    else { CoreStartSpawn(s, t, op, op.target, ok); }
  }

  lemma CoreHeldFrom(s: State, t: nat)
    requires Core(s) && t in s.tasks && Critical(s.tasks[t]) && !s.tasks[t].Connecting? && !s.tasks[t].Reaping?
    ensures CoreHeld(s, t)
  {
  }

  // `_shutdown_locked` is left and `_active` cleared: its child is dead, cut, or goes on
  // being torn down.
  lemma CoreReapOver(s: State, t: nat, child: Child)
    requires Core(s) && t in s.tasks && s.tasks[t].Reaping? && s.tasks[t].child < |s.children|
    requires var old' := s.children[s.tasks[t].child];
      && child.recorded && child.dropped == old'.dropped && child.state != READY
      && (child.alive ==> child.cut || child.teardown != NoTeardown)
      && (child.cut ==> child.teardown == NoTeardown)
    ensures CoreHeld(SetChild(s, s.tasks[t].child, child).(active := None, strayed := s.strayed || child.alive), t)
  {
    hide Keeps, Frame, SameCuts, Named;
  }

  lemma CoreLock(s: State, t: nat, ok: bool)
    requires Core(s) && Enabled(s, Lock(t, ok))
    ensures Core(DoLock(s, t, s.tasks[t].op, ok))
  {
    hide Keeps, Frame, SameCuts, Named;
    var s' := s.(lock := Some(t));
    var op := s.tasks[t].op;
    assert CoreHeld(s', t);
    match op
    case Evict =>
      if s.active.Some? && ok { CoreStartReap(s', t, op, s.active.value, None); } else { CoreRelease(s', t, Finished); }
    case Close =>
      if s.active.Some? { CoreStartReap(s', t, op, s.active.value, None); } else { CoreRelease(s', t, Finished); }
    case Enumerate(rest) => CoreEnumAt(s', t, rest);
    case _ => CoreEnsure(s', t, op, ok);
  }

  lemma CoreReaped(s: State, t: nat, ok: bool)
    requires Core(s) && Enabled(s, Reaped(t, ok))
    ensures Core(DoReaped(s, t, s.tasks[t].op, s.tasks[t].child, s.tasks[t].next, ok))
  {
    hide Keeps, Frame, SameCuts, Named;
    var op, c, next := s.tasks[t].op, s.tasks[t].child, s.tasks[t].next;
    var child := s.children[c].(state := STOPPED, alive := false, teardown := NoTeardown);
    var s' := SetChild(s, c, child).(active := None);
    CoreReapOver(s, t, child);
    assert s' == SetChild(s, c, child).(active := None, strayed := s.strayed || child.alive);
    match next
    case Some(name) =>
      CoreStartSpawn(s', t, op, name, ok);
    case None =>
      if op.Enumerate? { CoreEnumAt(s', t, op.rest); } else { CoreRelease(s', t, Finished); }
  }

  lemma CoreCreated(s: State, t: nat)
    requires Core(s) && Enabled(s, Created(t))
    ensures Core(DoCreated(s, t, s.tasks[t].op, s.tasks[t].name))
  {
  }

  lemma CoreConnected(s: State, t: nat)
    requires Core(s) && Enabled(s, Connected(t))
    ensures Core(DoConnected(s, t, s.tasks[t].op, s.tasks[t].child))
  {
  }

  lemma CoreCreateFails(s: State, t: nat)
    requires Core(s) && Enabled(s, CreateFails(t))
    ensures Core(SpawnRaises(s, t, s.tasks[t].op))
  {
    CoreHeldFrom(s, t);
    CoreSpawnRaises(s, t, s.tasks[t].op);
  }

  lemma CoreConnectFails(s: State, t: nat)
    requires Core(s) && Enabled(s, ConnectFails(t))
    ensures Core(SpawnRaises(Drop(s, s.tasks[t].child), t, s.tasks[t].op))
  {
    CoreDrop(s, t);
    CoreSpawnRaises(Drop(s, s.tasks[t].child), t, s.tasks[t].op);
  }

  lemma CoreDrop(s: State, t: nat)
    requires Core(s) && t in s.tasks && s.tasks[t].Connecting?
    ensures s.tasks[t].child < |s.children| && CoreHeld(Drop(s, s.tasks[t].child), t)
  {
  }

  lemma CoreWarmed(s: State, t: nat, voices: set<Id>)
    requires Core(s) && Enabled(s, Warmed(t, voices))
    ensures Core(DoWarmed(s, t, s.tasks[t].op, s.tasks[t].child, voices))
  {
    hide Keeps, Frame, SameCuts, Named;
    var op, c := s.tasks[t].op, s.tasks[t].child;
    var s' := SetChild(s, c, s.children[c].(state := READY, voices := voices));
    CoreHeldFrom(s, t);
    assert CoreHeld(s', t);
    if op.Enumerate? { CoreStartReap(s', t, op, c, None); } else { CoreReturn(s', t, op, c); }
  }

  lemma CoreWarmupFails(s: State, t: nat, cancelled: bool)
    requires Core(s) && t in s.tasks && s.tasks[t].Warming?
    ensures Core(DoWarmupFails(s, t, s.tasks[t].op, s.tasks[t].child, cancelled))
  {
  }

  lemma CoreKilled(s: State, t: nat)
    requires Core(s) && Enabled(s, Killed(t))
    ensures Core(DoKilled(s, t, s.tasks[t].op, s.tasks[t].child, s.tasks[t].cancelled))
  {
    var op, c := s.tasks[t].op, s.tasks[t].child;
    var s' := SetChild(s, c, s.children[c].(alive := false, teardown := NoTeardown)).(active := None);
    CoreHeldFrom(s, t);
    KilledIsOk(s, t);
    if s.tasks[t].cancelled { CoreRelease(s', t, Cancelled); } else { CoreSpawnRaises(s', t, op); }
  }

  lemma KilledIsOk(s: State, t: nat)
    requires CoreHeld(s, t) && Enabled(s, Killed(t)) && HolderOk(s, t, s.tasks[t])
    ensures var c := s.tasks[t].child;
            CoreHeld(SetChild(s, c, s.children[c].(alive := false, teardown := NoTeardown)).(active := None), t)
  {
  }

  lemma CoreEnumGo(s: State, t: nat, installed: bool)
    requires Core(s) && Enabled(s, EnumGo(t, installed))
    ensures Core(DoEnumGo(s, t, s.tasks[t].rest, installed))
  {
    hide Keeps, Frame, SameCuts, Named;
    var rest := s.tasks[t].rest;
    CoreHeldFrom(s, t);
    if rest == [] { CoreRelease(s, t, Publishing); }
    else if !installed || ActiveIs(s, rest[0]) { CoreEnumAt(s, t, rest[1..]); }
    else if s.active.Some? && rest[0] in s.registry {
      CoreStartReap(s, t, Enumerate(rest[1..]), s.active.value, Some(rest[0]));
    } else if s.active.None? {
      CoreStartSpawn(s, t, Enumerate(rest[1..]), rest[0], installed);
    } else {
      CoreSpawnRaises(s, t, Enumerate(rest[1..]));
    }
  }

  lemma CoreCancel(s: State, t: nat)
    requires Core(s) && Enabled(s, Cancel(t))
    ensures Core(DoCancel(s, t))
  {
    hide Keeps, Frame, SameCuts, Named, DoWarmupFails;
    match s.tasks[t]
    case Warming(op, c) => CoreWarmupFails(s, t, true);
    case Reaping(_, _, _) => CoreCancelReaping(s, t);
    case Connecting(_, c) =>
      CoreDrop(s, t);
      CoreRelease(Drop(s, c), t, Cancelled);
    case Queued(_) => CoreMoves(s, t, Cancelled);
    case Holding(_, _) => CoreMoves(s, t, Cancelled);
    case Reading(_, _) => CoreMoves(s, t, Cancelled);
    case _ =>
      CoreHeldFrom(s, t);
      CoreRelease(s, t, Cancelled);
  }

  lemma CoreCancelReaping(s: State, t: nat)
    requires Core(s) && t in s.tasks && s.tasks[t].Reaping? && s.tasks[t].child < |s.children|
    ensures Core(Release(s.(active := None, strayed := s.strayed || s.children[s.tasks[t].child].alive), t, Cancelled))
  {
    var child := s.children[s.tasks[t].child];
    CoreReapOver(s, t, child);
    assert SetChild(s, s.tasks[t].child, child) == s;
    CoreRelease(s.(active := None, strayed := s.strayed || child.alive), t, Cancelled);
  }

  lemma CoreMoves(s: State, t: nat, pc: Pc)
    requires Core(s) && t in s.tasks && !Critical(s.tasks[t]) && !Critical(pc)
    ensures Core(Goto(s, t, pc)) && Core(Release(s, t, pc))
  {
    hide Keeps, Frame, SameCuts, Named;
  }

  lemma CoreTurn(s: State, t: nat, ok: bool)
    requires Core(s) && t in s.tasks && IsCaller(s.tasks[t])
    ensures Core(DoRead(s, t)) && Core(DoReceive(s, t)) && Core(DoLeave(s, t, ok))
  {
    hide Keeps, Frame, SameCuts, Named, Core;
    CoreMoves(s, t, Reading(s.tasks[t].child, s.tasks[t].request));
    CoreMoves(s, t, Holding(s.tasks[t].child, s.tasks[t].request));
    CoreMoves(s, t, if ok then Finished else Raised);
  }

  lemma CoreCut(s: State, c: nat)
    requires Core(s) && Enabled(s, TeardownReads(c))
    ensures Core(DoCut(s, c))
  {
    hide Keeps, Frame, SameCuts, Named;
    var child := s.children[c].(teardown := NoTeardown, cut := true);
    var s' := SetChild(s, c, child).(strayed := s.strayed || child.alive);
    if IsReaping(s, c) {
      CoreReapOver(s, s.lock.value, child);
      CoreSpawnRaises(s'.(active := None), s.lock.value, s.tasks[s.lock.value].op);
    }
  }

  lemma CoreTeardownReads(s: State, c: nat)
    requires Core(s) && Enabled(s, TeardownReads(c))
    ensures Core(DoTeardownReads(s, c))
  {
    hide Keeps, Frame, SameCuts, Named, DoCut;
    if Awaited(s, c) { CoreCut(s, c); }
  }

  lemma CoreTornDown(s: State, c: nat)
    requires Core(s) && Enabled(s, TornDown(c))
    ensures Core(DoTornDown(s, c))
  {
    hide Keeps, Frame, SameCuts, Named;
  }

  lemma CoreDie(s: State, c: nat)
    requires Core(s) && Enabled(s, Die(c))
    ensures Core(DoDie(s, c))
  {
    hide Keeps, Frame, SameCuts, Named;
  }

  lemma CoreMarkFailed(s: State, c: nat)
    requires Core(s) && Enabled(s, MarkFailed(c))
    ensures Core(DoMarkFailed(s, c))
  {
  }

  // ---- routing -------------------------------------------------------------

  lemma RoutesGoto(s: State, t: nat, pc: Pc)
    requires Routes(s) && t in s.tasks && (HasOp(pc) ==> OpRouted(s, t, pc.op)) && CallerOk(s, t, pc)
    ensures Routes(Goto(s, t, pc)) && Routes(Release(s, t, pc))
  {
  }

  // What may happen to a child that requests have been sent to.
  predicate Settled(old': Child, new': Child) {
    && new'.name == old'.name && (old'.recorded ==> new'.recorded)
    && (old'.state != STARTING ==> new'.state != STARTING && new'.voices == old'.voices)
  }

  lemma RoutesSetChild(s: State, c: nat, child: Child)
    requires Routes(s) && c < |s.children| && Settled(s.children[c], child)
    ensures Routes(SetChild(s, c, child))
  {
    var q := SetChild(s, c, child);
    forall i | 0 <= i < |q.sent| ensures SentOk(q, q.sent[i]) {
      assert SentOk(s, s.sent[i]);
    }
  }

  lemma RoutesStartReap(s: State, t: nat, op: Op, c: nat, next: Option<Name>)
    requires Routes(s) && c < |s.children| && t in s.tasks && OpRouted(s, t, op)
    ensures Routes(StartReap(s, t, op, c, next))
  {
    var s' := SetChild(s, c, s.children[c].(state := SHUTTING_DOWN, teardown := ByShutdown, heard := false));
    RoutesSetChild(s, c, s'.children[c]);
    RoutesGoto(s', t, Reaping(op, c, next));
  }

  lemma RoutesSpawnRaises(s: State, t: nat, op: Op)
    requires Routes(s) && t in s.tasks
    ensures Routes(SpawnRaises(s, t, op))
  {
    if op.Enumerate? { RoutesGoto(s, t, EnumAt(op.rest)); } else { RoutesGoto(s, t, Raised); }
  }

  lemma RoutesStartSpawn(s: State, t: nat, op: Op, name: Name, ok: bool)
    requires Routes(s) && t in s.tasks && OpRouted(s, t, op)
    ensures Routes(StartSpawn(s, t, op, name, ok))
  {
    if ok && name in s.registry { RoutesGoto(s, t, Creating(op, name)); } else { RoutesSpawnRaises(s, t, op); }
  }

  lemma RoutesMove(s: State, t: nat, pc: Pc)
    requires Routes(s) && t in s.tasks && !pc.Creating? && !IsCaller(pc) && (HasOp(pc) ==> OpRouted(s, t, pc.op))
    ensures Routes(Move(s, t, pc))
  {
    hide Keeps, Frame, SameCuts, Named, Routes;
    RoutesGoto(s, t, pc);
  }

  // Handing child c to a request: the one place where a synthesize frame gets its
  // process and voice.
  lemma RoutesHanded(s: State, t: nat, v: Id, target: Name, c: nat)
    requires Routes(s) && t in s.tasks && OpRouted(s, t, Again(v, target))
    requires c < |s.children| && s.children[c].recorded && s.children[c].state == READY
    requires s.children[c].name == target && LocalIdIn(s.index, v) in s.children[c].voices
    ensures Routes(Hand(s, t, v, c))
  {
    hide Keeps, Frame, SameCuts, Named;
    var d := DispatchOf(s, t, v, c);
    assert SentOk(s, d);
    hide Routes, SentOk, OpRouted;
    RoutesSend(s, d);
    RoutesGoto(s.(sent := s.sent + [d]), t, Holding(c, |s.sent|));
  }

  lemma RoutesReturn(s: State, t: nat, op: Op, c: nat)
    requires Routes(s) && t in s.tasks && OpRouted(s, t, op) && Ensures(op)
    requires c < |s.children| && s.active == Some(c)
    requires s.children[c].recorded && s.children[c].state == READY && s.children[c].name == op.target
    ensures Routes(Return(s, t, op, c))
  {
    hide Keeps, Frame, SameCuts, Named, Routes, Hand, Move, DispatchOf, LocalIdIn;
    var child := s.children[c];
    var s' := if op.Switch? then s else s.(handed := s.handed + [Handed(op.target, child.name, child.state)]);
    RoutesHand(s, s', Handed(op.target, child.name, child.state));
    match op
    case Route(v, _) =>
      RoutesMove(s', t, if LocalIdIn(s.index, v) in child.voices then Queued(Again(v, TargetName(s))) else Finished);
    case Again(v, target) =>
      if LocalIdIn(s.index, v) in child.voices {
        RoutesHanded(s', t, v, target, c);
      } else {
        RoutesMove(s', t, Raised);
      }
    case _ => RoutesMove(s', t, Finished);
  }

  lemma RoutesHand(s: State, s': State, h: Handed)
    requires Routes(s) && (s' == s || s' == s.(handed := s.handed + [h]))
    requires h.state == READY && h.name == h.target
    ensures Routes(s')
  {
    forall i | 0 <= i < |s'.sent| ensures SentOk(s', s'.sent[i]) {
      assert SentOk(s, s.sent[i]);
    }
  }

  lemma RoutesSend(s: State, d: Dispatch)
    requires Routes(s) && SentOk(s, d)
    ensures Routes(s.(sent := s.sent + [d]))
  {
    var q := s.(sent := s.sent + [d]);
    forall i | 0 <= i < |q.sent| ensures SentOk(q, q.sent[i]) {
      if i < |s.sent| { assert SentOk(s, s.sent[i]); }
    }
  }

  lemma RoutesEnsure(s: State, t: nat, op: Op, ok: bool)
    requires Routes(s) && t in s.tasks && OpRouted(s, t, op) && Ensures(op)
    requires ActiveExists(s) && (s.active.Some? ==> s.children[s.active.value].recorded)
    ensures Routes(EnsureSegment(s, t, op, ok))
  {
    if ActiveIs(s, op.target) { RoutesReturn(s, t, op, s.active.value); }
    else if s.active.Some? { RoutesStartReap(s, t, op, s.active.value, Some(op.target)); }
    else { RoutesStartSpawn(s, t, op, op.target, ok); }
  }

  // Fields no routing fact depends on.
  lemma RoutesFrame(s: State, q: State)
    requires Routes(s) && q.children == s.children && q.tasks == s.tasks && q.routed == s.routed
    requires q.handed == s.handed && q.sent == s.sent
    ensures Routes(q)
  {
    forall i | 0 <= i < |q.sent| ensures SentOk(q, q.sent[i]) {
      assert SentOk(s, s.sent[i]);
    }
  }

  lemma RoutesBegin(s: State, t: nat, op: Op)
    requires Core(s) && Routes(s) && Enabled(s, Begin(t, op))
    ensures Routes(DoBegin(s, t, op))
  {
    var q := DoBegin(s, t, op);
    forall i | 0 <= i < |q.sent| ensures SentOk(q, q.sent[i]) {
      assert SentOk(s, s.sent[i]);
    }
  }

  lemma RoutesLock(s: State, t: nat, ok: bool)
    requires Core(s) && Routes(s) && Enabled(s, Lock(t, ok))
    ensures Routes(DoLock(s, t, s.tasks[t].op, ok))
  {
    hide Keeps, Frame, SameCuts, Named;
    var s' := s.(lock := Some(t));
    var op := s.tasks[t].op;
    RoutesFrame(s, s');
    match op
    case Evict =>
      if s.active.Some? && ok { RoutesStartReap(s', t, op, s.active.value, None); }
      else { RoutesGoto(s', t, Finished); }
    case Close =>
      if s.active.Some? { RoutesStartReap(s', t, op, s.active.value, None); } else { RoutesGoto(s', t, Finished); }
    case Enumerate(rest) => RoutesGoto(s', t, EnumAt(rest));
    case _ => RoutesEnsure(s', t, op, ok);
  }

  lemma RoutesReaped(s: State, t: nat, ok: bool)
    requires Core(s) && Routes(s) && Enabled(s, Reaped(t, ok))
    ensures Routes(DoReaped(s, t, s.tasks[t].op, s.tasks[t].child, s.tasks[t].next, ok))
  {
    hide Keeps, Frame, SameCuts, Named;
    var op, c, next := s.tasks[t].op, s.tasks[t].child, s.tasks[t].next;
    var child := s.children[c].(state := STOPPED, alive := false, teardown := NoTeardown);
    RoutesSetChild(s, c, child);
    var s' := SetChild(s, c, child).(active := None);
    RoutesFrame(SetChild(s, c, child), s');
    match next
    case Some(name) => RoutesStartSpawn(s', t, op, name, ok);
    case None =>
      if op.Enumerate? { RoutesGoto(s', t, EnumAt(op.rest)); } else { RoutesGoto(s', t, Finished); }
  }

  lemma RoutesCreated(s: State, t: nat)
    requires Core(s) && Routes(s) && Enabled(s, Created(t))
    ensures Routes(DoCreated(s, t, s.tasks[t].op, s.tasks[t].name))
  {
    var s' := s.(children := s.children + [Child(s.tasks[t].name, t, STARTING, true, false, NoTeardown, {})]);
    forall i | 0 <= i < |s'.sent| ensures SentOk(s', s'.sent[i]) {
      assert SentOk(s, s.sent[i]);
    }
    RoutesGoto(s', t, Connecting(s.tasks[t].op, |s.children|));
  }

  lemma RoutesConnected(s: State, t: nat)
    requires Core(s) && Routes(s) && Enabled(s, Connected(t))
    ensures Routes(DoConnected(s, t, s.tasks[t].op, s.tasks[t].child))
  {
    var op, c := s.tasks[t].op, s.tasks[t].child;
    var child := s.children[c].(recorded := true);
    RoutesSetChild(s, c, child);
    var s' := SetChild(s, c, child).(active := Some(c));
    RoutesFrame(SetChild(s, c, child), s');
    RoutesGoto(s', t, Warming(op, c));
  }

  lemma RoutesWarmed(s: State, t: nat, voices: set<Id>)
    requires Core(s) && Routes(s) && Enabled(s, Warmed(t, voices))
    ensures Routes(DoWarmed(s, t, s.tasks[t].op, s.tasks[t].child, voices))
  {
    var op, c := s.tasks[t].op, s.tasks[t].child;
    var child := s.children[c].(state := READY, voices := voices);
    RoutesSetChild(s, c, child);
    var s' := SetChild(s, c, child);
    if op.Enumerate? {
      RoutesStartReap(s', t, op, c, None);
    } else {
      RoutesReturn(s', t, op, c);
      if op.Switch? { RoutesFrame(Return(s', t, op, c), Return(s', t, op, c).(fallback := op.target)); }
    }
  }

  lemma RoutesWarmupFails(s: State, t: nat, cancelled: bool)
    requires Core(s) && Routes(s) && t in s.tasks && s.tasks[t].Warming?
    ensures Routes(DoWarmupFails(s, t, s.tasks[t].op, s.tasks[t].child, cancelled))
  {
    var op, c := s.tasks[t].op, s.tasks[t].child;
    var child := s.children[c].(state := FAILED, teardown := ByKill);
    RoutesSetChild(s, c, child);
    RoutesGoto(SetChild(s, c, child), t, Killing(op, c, cancelled));
  }

  lemma RoutesKilled(s: State, t: nat)
    requires Core(s) && Routes(s) && Enabled(s, Killed(t))
    ensures Routes(DoKilled(s, t, s.tasks[t].op, s.tasks[t].child, s.tasks[t].cancelled))
  {
    var op, c := s.tasks[t].op, s.tasks[t].child;
    var child := s.children[c].(alive := false, teardown := NoTeardown);
    RoutesSetChild(s, c, child);
    var s' := SetChild(s, c, child).(active := None);
    RoutesFrame(SetChild(s, c, child), s');
    if s.tasks[t].cancelled { RoutesGoto(s', t, Cancelled); } else { RoutesSpawnRaises(s', t, op); }
  }

  lemma RoutesEnumGo(s: State, t: nat, installed: bool)
    requires Core(s) && Routes(s) && Enabled(s, EnumGo(t, installed))
    ensures Routes(DoEnumGo(s, t, s.tasks[t].rest, installed))
  {
    hide Keeps, Frame, SameCuts, Named;
    var rest := s.tasks[t].rest;
    if rest == [] { RoutesGoto(s, t, Publishing); }
    else if !installed || ActiveIs(s, rest[0]) { RoutesGoto(s, t, EnumAt(rest[1..])); }
    else if s.active.Some? && rest[0] in s.registry {
      RoutesStartReap(s, t, Enumerate(rest[1..]), s.active.value, Some(rest[0]));
    } else {
      RoutesStartSpawn(s, t, Enumerate(rest[1..]), rest[0], installed);
    }
  }

  lemma RoutesDrop(s: State, c: nat)
    requires Routes(s) && c < |s.children|
    ensures Routes(Drop(s, c))
  {
    var child := s.children[c].(dropped := true);
    RoutesSetChild(s, c, child);
    RoutesFrame(SetChild(s, c, child), Drop(s, c));
  }

  lemma RoutesCancel(s: State, t: nat)
    requires Core(s) && Routes(s) && Enabled(s, Cancel(t))
    ensures Routes(DoCancel(s, t))
  {
    hide Keeps, Frame, SameCuts, Named, DoWarmupFails, Drop, Routes;
    match s.tasks[t]
    case Warming(op, c) => RoutesWarmupFails(s, t, true);
    case Reaping(_, c, _) =>
      var s' := s.(active := None, strayed := s.strayed || s.children[c].alive);
      RoutesFrame(s, s');
      RoutesGoto(s', t, Cancelled);
    case Connecting(_, c) => RoutesDropped(s, t, c);
    case _ => RoutesGoto(s, t, Cancelled);
  }

  lemma RoutesDropped(s: State, t: nat, c: nat)
    requires Routes(s) && c < |s.children| && t in s.tasks
    ensures Routes(Release(Drop(s, c), t, Cancelled))
  {
    hide Routes;
    RoutesDrop(s, c);
    RoutesGoto(Drop(s, c), t, Cancelled);
  }

  lemma RoutesCut(s: State, c: nat)
    requires Core(s) && Routes(s) && Enabled(s, TeardownReads(c))
    ensures Routes(DoCut(s, c))
  {
    hide Keeps, Frame, SameCuts, Named;
    var child := s.children[c].(teardown := NoTeardown, cut := true);
    var s' := SetChild(s, c, child).(strayed := s.strayed || s.children[c].alive);
    RoutesSetChild(s, c, child);
    RoutesFrame(SetChild(s, c, child), s');
    if IsReaping(s, c) {
      RoutesFrame(s', s'.(active := None));
      RoutesSpawnRaises(s'.(active := None), s.lock.value, s.tasks[s.lock.value].op);
    }
  }

  lemma RoutesTeardownReads(s: State, c: nat)
    requires Core(s) && Routes(s) && Enabled(s, TeardownReads(c))
    ensures Routes(DoTeardownReads(s, c))
  {
    hide Keeps, Frame, SameCuts, Named, DoCut;
    if Awaited(s, c) { RoutesCut(s, c); } else { RoutesSetChild(s, c, s.children[c].(heard := true)); }
  }

  lemma RoutesPublish(s: State, t: nat, listing: map<Id, Entry>)
    requires Routes(s) && Enabled(s, Publish(t, listing))
    ensures Routes(DoPublish(s, t, listing))
  {
    RoutesFrame(s, s.(index := listing));
    RoutesGoto(s.(index := listing), t, Published);
  }

  lemma RoutesDies(s: State, c: nat)
    requires Routes(s) && c < |s.children|
    ensures Routes(DoTornDown(s, c)) && Routes(DoDie(s, c))
  {
    RoutesSetChild(s, c, DoTornDown(s, c).children[c]);
    RoutesSetChild(s, c, s.children[c].(alive := false));
  }

  lemma RoutesMarkFailed(s: State, c: nat)
    requires Routes(s) && Enabled(s, MarkFailed(c))
    ensures Routes(DoMarkFailed(s, c))
  {
    RoutesSetChild(s, c, s.children[c].(state := FAILED));
  }

  lemma RoutesTurn(s: State, t: nat, ok: bool)
    requires Routes(s) && t in s.tasks && IsCaller(s.tasks[t])
    ensures Routes(DoRead(s, t)) && Routes(DoReceive(s, t)) && Routes(DoLeave(s, t, ok))
  {
    hide OpRouted, SentOk;
    assert CallerOk(s, t, s.tasks[t]);
    RoutesGoto(s, t, Reading(s.tasks[t].child, s.tasks[t].request));
    RoutesGoto(s, t, Holding(s.tasks[t].child, s.tasks[t].request));
    RoutesGoto(s, t, if ok then Finished else Raised);
  }

  lemma RoutesConnectFails(s: State, t: nat)
    requires Routes(s) && Enabled(s, ConnectFails(t))
    ensures Routes(SpawnRaises(Drop(s, s.tasks[t].child), t, s.tasks[t].op))
  {
    RoutesDrop(s, s.tasks[t].child);
    RoutesSpawnRaises(Drop(s, s.tasks[t].child), t, s.tasks[t].op);
  }

  lemma RoutesStep(s: State, step: Step)
    requires Core(s) && Routes(s) && Enabled(s, step)
    ensures Routes(Apply(s, step))
  {
    hide Keeps, Frame, SameCuts, Named, Core, Routes, DoBegin, DoPublish,
      DoLock, DoReaped, SpawnRaises, DoCreated, DoConnected, DoWarmed, DoWarmupFails, DoKilled, DoEnumGo,
      DoCancel, DoTornDown, DoTeardownReads, DoRead, DoReceive, DoLeave, DoDie, DoMarkFailed, Drop;
    match step
    case Begin(t, op) => RoutesBegin(s, t, op);
    case Lock(t, ok) => RoutesLock(s, t, ok);
    case Reaped(t, ok) => RoutesReaped(s, t, ok);
    case Created(t) => RoutesCreated(s, t);
    case CreateFails(t) => RoutesSpawnRaises(s, t, s.tasks[t].op);
    case Connected(t) => RoutesConnected(s, t);
    case ConnectFails(t) => RoutesConnectFails(s, t);
    case Warmed(t, voices) => RoutesWarmed(s, t, voices);
    case WarmupFails(t) => RoutesWarmupFails(s, t, false);
    case Killed(t) => RoutesKilled(s, t);
    case EnumGo(t, installed) => RoutesEnumGo(s, t, installed);
    case Publish(t, listing) => RoutesPublish(s, t, listing);
    case Cancel(t) => RoutesCancel(s, t);
    case TornDown(c) => RoutesDies(s, c);
    case Read(t) => RoutesTurn(s, t, true);
    case Receive(t) => RoutesTurn(s, t, true);
    case Leave(t, ok) => RoutesTurn(s, t, ok);
    case TeardownReads(c) => RoutesTeardownReads(s, c);
    case Die(c) => RoutesDies(s, c);
    case MarkFailed(c) => RoutesMarkFailed(s, c);
  }

  lemma CoreStep(s: State, step: Step)
    requires Core(s) && Enabled(s, step)
    ensures Core(Apply(s, step))
  {
    hide Keeps, Frame, SameCuts, Named, Core, DoBegin, DoPublish,
      DoLock, DoReaped, SpawnRaises, DoCreated, DoConnected, DoWarmed, DoWarmupFails, DoKilled, DoEnumGo,
      DoCancel, DoTornDown, DoTeardownReads, DoRead, DoReceive, DoLeave, DoDie, DoMarkFailed, Drop;
    match step
    case Begin(t, op) => CoreBegin(s, t, op);
    case Lock(t, ok) => CoreLock(s, t, ok);
    case Reaped(t, ok) => CoreReaped(s, t, ok);
    case Created(t) => CoreCreated(s, t);
    case CreateFails(t) => CoreCreateFails(s, t);
    case Connected(t) => CoreConnected(s, t);
    case ConnectFails(t) => CoreConnectFails(s, t);
    case Warmed(t, voices) => CoreWarmed(s, t, voices);
    case WarmupFails(t) => CoreWarmupFails(s, t, false);
    case Killed(t) => CoreKilled(s, t);
    case EnumGo(t, installed) => CoreEnumGo(s, t, installed);
    case Publish(t, listing) => CorePublish(s, t, listing);
    case Cancel(t) => CoreCancel(s, t);
    case TornDown(c) => CoreTornDown(s, c);
    case Read(t) => CoreTurn(s, t, true);
    case Receive(t) => CoreTurn(s, t, true);
    case Leave(t, ok) => CoreTurn(s, t, ok);
    case TeardownReads(c) => CoreTeardownReads(s, c);
    case Die(c) => CoreDie(s, c);
    case MarkFailed(c) => CoreMarkFailed(s, c);
  }

  lemma CoreBegin(s: State, t: nat, op: Op)
    requires Core(s) && Enabled(s, Begin(t, op))
    ensures Core(DoBegin(s, t, op))
  {
  }

  lemma CorePublish(s: State, t: nat, listing: map<Id, Entry>)
    requires Core(s) && Enabled(s, Publish(t, listing))
    ensures Core(DoPublish(s, t, listing))
  {
  }

  // ---- enumeration -----------------------------------------------------------

  lemma EnumGoto(s: State, t: nat, pc: Pc)
    requires EnumInv(s) && t in s.tasks && (pc.Queued? ==> !pc.op.Enumerate?)
    requires Enumerated(pc) && ActiveExists(s) && s.active.Some? ==> s.children[s.active.value].spawner != t
    ensures EnumInv(Goto(s, t, pc)) && EnumInv(Release(s, t, pc))
  {
  }

  lemma EnumSetChild(s: State, c: nat, child: Child)
    requires EnumInv(s) && c < |s.children| && child.spawner == s.children[c].spawner
    ensures EnumInv(SetChild(s, c, child)) && EnumInv(SetChild(s, c, child).(active := None))
  {
    var q := SetChild(s, c, child);
    assert forall i :: 0 <= i < |q.children| ==> q.children[i].spawner == s.children[i].spawner;
  }

  lemma EnumStartReap(s: State, t: nat, op: Op, c: nat, next: Option<Name>)
    requires EnumInv(s) && c < |s.children| && t in s.tasks
    ensures EnumInv(StartReap(s, t, op, c, next))
  {
    var child := s.children[c].(state := SHUTTING_DOWN, teardown := ByShutdown, heard := false);
    EnumSetChild(s, c, child);
    EnumGoto(SetChild(s, c, child), t, Reaping(op, c, next));
  }

  lemma EnumSpawnRaises(s: State, t: nat, op: Op)
    requires EnumInv(s) && t in s.tasks
    requires op.Enumerate? && ActiveExists(s) && s.active.Some? ==> s.children[s.active.value].spawner != t
    ensures EnumInv(SpawnRaises(s, t, op))
  {
    if op.Enumerate? { EnumGoto(s, t, EnumAt(op.rest)); } else { EnumGoto(s, t, Raised); }
  }

  lemma EnumStartSpawn(s: State, t: nat, op: Op, name: Name, ok: bool)
    requires EnumInv(s) && t in s.tasks
    requires op.Enumerate? && ActiveExists(s) && s.active.Some? ==> s.children[s.active.value].spawner != t
    ensures EnumInv(StartSpawn(s, t, op, name, ok))
  {
    if ok && name in s.registry { EnumGoto(s, t, Creating(op, name)); } else { EnumSpawnRaises(s, t, op); }
  }

  lemma EnumReturn(s: State, t: nat, op: Op, c: nat)
    requires EnumInv(s) && t in s.tasks && c < |s.children|
    ensures EnumInv(Return(s, t, op, c))
  {
    hide Keeps, Frame, SameCuts, Named;
    var q := Return(s, t, op, c);
    var s' := s.(handed := q.handed, sent := q.sent);
    assert EnumInv(s');
    EnumGoto(s', t, q.tasks[t]);
  }

  lemma EnumLock(s: State, t: nat, ok: bool)
    requires Core(s) && EnumInv(s) && Enabled(s, Lock(t, ok))
    ensures EnumInv(DoLock(s, t, s.tasks[t].op, ok))
  {
    hide Keeps, Frame, SameCuts, Named;
    var s' := s.(lock := Some(t));
    var op := s.tasks[t].op;
    assert EnumInv(s');
    match op
    case Evict =>
      if s.active.Some? && ok { EnumStartReap(s', t, op, s.active.value, None); } else { EnumGoto(s', t, Finished); }
    case Close =>
      if s.active.Some? { EnumStartReap(s', t, op, s.active.value, None); } else { EnumGoto(s', t, Finished); }
    case Enumerate(rest) => EnumGoto(s', t, EnumAt(rest));
    case _ =>
      if ActiveIs(s', op.target) { EnumReturn(s', t, op, s.active.value); }
      else if s.active.Some? { EnumStartReap(s', t, op, s.active.value, Some(op.target)); }
      else { EnumStartSpawn(s', t, op, op.target, ok); }
  }

  lemma EnumReaped(s: State, t: nat, ok: bool)
    requires Core(s) && EnumInv(s) && Enabled(s, Reaped(t, ok))
    ensures EnumInv(DoReaped(s, t, s.tasks[t].op, s.tasks[t].child, s.tasks[t].next, ok))
  {
    hide Keeps, Frame, SameCuts, Named;
    var op, c, next := s.tasks[t].op, s.tasks[t].child, s.tasks[t].next;
    var child := s.children[c].(state := STOPPED, alive := false, teardown := NoTeardown);
    EnumSetChild(s, c, child);
    var s' := SetChild(s, c, child).(active := None);
    match next
    case Some(name) => EnumStartSpawn(s', t, op, name, ok);
    case None =>
      if op.Enumerate? { EnumGoto(s', t, EnumAt(op.rest)); } else { EnumGoto(s', t, Finished); }
  }

  lemma EnumCreated(s: State, t: nat)
    requires Core(s) && EnumInv(s) && Enabled(s, Created(t))
    ensures EnumInv(DoCreated(s, t, s.tasks[t].op, s.tasks[t].name))
  {
    var s' := s.(children := s.children + [Child(s.tasks[t].name, t, STARTING, true, false, NoTeardown, {})]);
    assert EnumInv(s');
    EnumGoto(s', t, Connecting(s.tasks[t].op, |s.children|));
  }

  lemma EnumConnected(s: State, t: nat)
    requires Core(s) && EnumInv(s) && Enabled(s, Connected(t))
    ensures EnumInv(DoConnected(s, t, s.tasks[t].op, s.tasks[t].child))
  {
    var op, c := s.tasks[t].op, s.tasks[t].child;
    var child := s.children[c].(recorded := true);
    EnumSetChild(s, c, child);
    var s' := SetChild(s, c, child).(active := Some(c));
    assert EnumInv(s');
    EnumGoto(s', t, Warming(op, c));
  }

  lemma EnumWarmed(s: State, t: nat, voices: set<Id>)
    requires Core(s) && EnumInv(s) && Enabled(s, Warmed(t, voices))
    ensures EnumInv(DoWarmed(s, t, s.tasks[t].op, s.tasks[t].child, voices))
  {
    var op, c := s.tasks[t].op, s.tasks[t].child;
    var child := s.children[c].(state := READY, voices := voices);
    EnumSetChild(s, c, child);
    var s' := SetChild(s, c, child);
    if op.Enumerate? { EnumStartReap(s', t, op, c, None); } else { EnumReturn(s', t, op, c); }
  }

  lemma EnumWarmupFails(s: State, t: nat, cancelled: bool)
    requires Core(s) && EnumInv(s) && t in s.tasks && s.tasks[t].Warming?
    ensures EnumInv(DoWarmupFails(s, t, s.tasks[t].op, s.tasks[t].child, cancelled))
  {
    var op, c := s.tasks[t].op, s.tasks[t].child;
    var child := s.children[c].(state := FAILED, teardown := ByKill);
    EnumSetChild(s, c, child);
    EnumGoto(SetChild(s, c, child), t, Killing(op, c, cancelled));
  }

  lemma EnumKilled(s: State, t: nat)
    requires Core(s) && EnumInv(s) && Enabled(s, Killed(t))
    ensures EnumInv(DoKilled(s, t, s.tasks[t].op, s.tasks[t].child, s.tasks[t].cancelled))
  {
    var op, c := s.tasks[t].op, s.tasks[t].child;
    var child := s.children[c].(alive := false, teardown := NoTeardown);
    EnumSetChild(s, c, child);
    var s' := SetChild(s, c, child).(active := None);
    if s.tasks[t].cancelled { EnumGoto(s', t, Cancelled); } else { EnumSpawnRaises(s', t, op); }
  }

  lemma EnumEnumGo(s: State, t: nat, installed: bool)
    requires Core(s) && EnumInv(s) && Enabled(s, EnumGo(t, installed))
    ensures EnumInv(DoEnumGo(s, t, s.tasks[t].rest, installed))
  {
    hide Keeps, Frame, SameCuts, Named;
    var rest := s.tasks[t].rest;
    if rest == [] { EnumGoto(s, t, Publishing); }
    else if !installed || ActiveIs(s, rest[0]) { EnumGoto(s, t, EnumAt(rest[1..])); }
    else if s.active.Some? && rest[0] in s.registry {
      EnumStartReap(s, t, Enumerate(rest[1..]), s.active.value, Some(rest[0]));
    } else {
      EnumStartSpawn(s, t, Enumerate(rest[1..]), rest[0], installed);
    }
  }

  lemma EnumDrop(s: State, c: nat)
    requires EnumInv(s) && c < |s.children|
    ensures EnumInv(Drop(s, c))
  {
    EnumSetChild(s, c, s.children[c].(dropped := true));
  }

  lemma EnumCancel(s: State, t: nat)
    requires Core(s) && EnumInv(s) && Enabled(s, Cancel(t))
    ensures EnumInv(DoCancel(s, t))
  {
    hide Keeps, Frame, SameCuts, Named, DoWarmupFails, Drop, EnumInv;
    match s.tasks[t]
    case Warming(op, c) => EnumWarmupFails(s, t, true);
    case Reaping(_, c, _) => EnumCleared(s, t, s.strayed || s.children[c].alive);
    case Connecting(_, c) => EnumDropped(s, t, c);
    case _ => EnumGoto(s, t, Cancelled);
  }

  lemma EnumCleared(s: State, t: nat, strayed: bool)
    requires EnumInv(s) && t in s.tasks
    ensures EnumInv(Release(s.(active := None, strayed := strayed), t, Cancelled))
  {
    EnumGoto(s.(active := None, strayed := strayed), t, Cancelled);
  }

  lemma EnumDropped(s: State, t: nat, c: nat)
    requires EnumInv(s) && c < |s.children| && t in s.tasks
    ensures EnumInv(Release(Drop(s, c), t, Cancelled))
  {
    hide EnumInv;
    EnumDrop(s, c);
    EnumGoto(Drop(s, c), t, Cancelled);
  }

  lemma EnumTurn(s: State, t: nat, ok: bool)
    requires EnumInv(s) && t in s.tasks && IsCaller(s.tasks[t])
    ensures EnumInv(DoRead(s, t)) && EnumInv(DoReceive(s, t)) && EnumInv(DoLeave(s, t, ok))
  {
    hide Keeps, Frame, SameCuts, Named, EnumInv;
    EnumGoto(s, t, Reading(s.tasks[t].child, s.tasks[t].request));
    EnumGoto(s, t, Holding(s.tasks[t].child, s.tasks[t].request));
    EnumGoto(s, t, if ok then Finished else Raised);
  }

  lemma EnumCut(s: State, c: nat)
    requires Core(s) && EnumInv(s) && Enabled(s, TeardownReads(c))
    ensures EnumInv(DoCut(s, c))
  {
    hide Keeps, Frame, SameCuts, Named;
    var child := s.children[c].(teardown := NoTeardown, cut := true);
    var s' := SetChild(s, c, child).(strayed := s.strayed || s.children[c].alive);
    EnumSetChild(s, c, child);
    if IsReaping(s, c) { EnumSpawnRaises(s'.(active := None), s.lock.value, s.tasks[s.lock.value].op); }
  }

  lemma EnumTeardownReads(s: State, c: nat)
    requires Core(s) && EnumInv(s) && Enabled(s, TeardownReads(c))
    ensures EnumInv(DoTeardownReads(s, c))
  {
    hide Keeps, Frame, SameCuts, Named, DoCut;
    if Awaited(s, c) { EnumCut(s, c); } else { EnumSetChild(s, c, s.children[c].(heard := true)); }
  }

  lemma EnumBegin(s: State, t: nat, op: Op)
    requires Core(s) && EnumInv(s) && Enabled(s, Begin(t, op))
    ensures EnumInv(DoBegin(s, t, op))
  {
  }

  lemma EnumCreateFails(s: State, t: nat)
    requires Core(s) && EnumInv(s) && Enabled(s, CreateFails(t))
    ensures EnumInv(SpawnRaises(s, t, s.tasks[t].op))
  {
    EnumSpawnRaises(s, t, s.tasks[t].op);
  }

  lemma EnumConnectFails(s: State, t: nat)
    requires Core(s) && EnumInv(s) && Enabled(s, ConnectFails(t))
    ensures EnumInv(SpawnRaises(Drop(s, s.tasks[t].child), t, s.tasks[t].op))
  {
    EnumDrop(s, s.tasks[t].child);
    EnumSpawnRaises(Drop(s, s.tasks[t].child), t, s.tasks[t].op);
  }

  lemma EnumPublish(s: State, t: nat, listing: map<Id, Entry>)
    requires Core(s) && EnumInv(s) && Enabled(s, Publish(t, listing))
    ensures EnumInv(DoPublish(s, t, listing))
  {
    EnumGoto(s.(index := listing), t, Published);
  }

  lemma EnumChildOnly(s: State, c: nat)
    requires EnumInv(s) && c < |s.children|
    ensures EnumInv(DoTornDown(s, c)) && EnumInv(DoDie(s, c)) && EnumInv(DoMarkFailed(s, c))
  {
    hide EnumInv;
    EnumSetChild(s, c, DoTornDown(s, c).children[c]);
    EnumSetChild(s, c, DoDie(s, c).children[c]);
    EnumSetChild(s, c, DoMarkFailed(s, c).children[c]);
  }

  lemma EnumStep(s: State, step: Step)
    requires Core(s) && EnumInv(s) && Enabled(s, step)
    ensures EnumInv(Apply(s, step))
  {
    hide Keeps, Frame, SameCuts, Named, Core, EnumInv, DoBegin, DoPublish,
      DoLock, DoReaped, SpawnRaises, DoCreated, DoConnected, DoWarmed, DoWarmupFails, DoKilled, DoEnumGo,
      DoCancel, DoTornDown, DoTeardownReads, DoRead, DoReceive, DoLeave, DoDie, DoMarkFailed, Drop;
    match step
    case Begin(t, op) => EnumBegin(s, t, op);
    case Lock(t, ok) => EnumLock(s, t, ok);
    case Reaped(t, ok) => EnumReaped(s, t, ok);
    case Created(t) => EnumCreated(s, t);
    case CreateFails(t) => EnumCreateFails(s, t);
    case Connected(t) => EnumConnected(s, t);
    case ConnectFails(t) => EnumConnectFails(s, t);
    case Warmed(t, voices) => EnumWarmed(s, t, voices);
    case WarmupFails(t) => EnumWarmupFails(s, t, false);
    case Killed(t) => EnumKilled(s, t);
    case EnumGo(t, installed) => EnumEnumGo(s, t, installed);
    case Publish(t, listing) => EnumPublish(s, t, listing);
    case Cancel(t) => EnumCancel(s, t);
    case TornDown(c) => EnumChildOnly(s, c);
    case Read(t) => EnumTurn(s, t, true);
    case Receive(t) => EnumTurn(s, t, true);
    case Leave(t, ok) => EnumTurn(s, t, ok);
    case TeardownReads(c) => EnumTeardownReads(s, c);
    case Die(c) => EnumChildOnly(s, c);
    case MarkFailed(c) => EnumChildOnly(s, c);
  }

  ghost predicate Inv(s: State) {
    Core(s) && Routes(s) && EnumInv(s)
  }

  lemma StartsWell(s: State)
    requires Initial(s)
    ensures Inv(s)
  {
  }

  lemma {:induction false} InvAlways(run: seq<State>, steps: seq<Step>, i: nat)
    requires IsRun(run, steps) && i < |run|
    ensures Inv(run[i])
  {
    hide IsRun, Apply, Enabled, Core, Routes, EnumInv;
    RunLength(run, steps);
    if i == 0 {
      StartsWell(run[0]);
    } else {
      InvAlways(run, steps, i - 1);
      RunStep(run, steps, i - 1);
      CoreStep(run[i - 1], steps[i - 1]);
      RoutesStep(run[i - 1], steps[i - 1]);
      EnumStep(run[i - 1], steps[i - 1]);
    }
  }

  // ---- results -----------------------------------------------------------

  // Step j is the teardown's read of child c, made while a caller awaits a frame of it.
  ghost predicate CutAt(run: seq<State>, steps: seq<Step>, j: nat, c: nat) {
    j < |steps| && j < |run| && steps[j] == TeardownReads(c) && Awaited(run[j], c)
  }

  lemma CutStep(s: State, step: Step, c: nat)
    requires ActiveExists(s) && Enabled(s, step)
    ensures |s.children| <= |Apply(s, step).children|
    ensures c < |Apply(s, step).children| ==>
      (Apply(s, step).children[c].cut <==>
        c < |s.children| && (s.children[c].cut || (step == TeardownReads(c) && Awaited(s, c))))
  {
    hide DoLock, DoReaped, SpawnRaises, DoCreated, DoConnected, DoWarmed, DoWarmupFails, DoKilled, DoEnumGo,
      DoCancel, DoTornDown, DoTeardownReads, DoRead, DoReceive, DoLeave, DoDie, DoMarkFailed, Drop, Awaited, Named;
    if step.TeardownReads? { TeardownReadCuts(s, step.c, c); }
  }

  lemma TeardownReadCuts(s: State, r: nat, c: nat)
    requires r < |s.children|
    ensures var q := DoTeardownReads(s, r);
      && |q.children| == |s.children|
      && (c < |q.children| ==> (q.children[c].cut <==> s.children[c].cut || (r == c && Awaited(s, c))))
  {
    hide Awaited, Named, Frame, DoCut;
    OnlyCuts(s, r);
  }

  lemma OnlyCuts(s: State, r: nat)
    requires r < |s.children|
    ensures var q := DoCut(s, r);
      && |q.children| == |s.children| && q.children[r].cut
      && forall c :: 0 <= c < |q.children| && c != r ==> q.children[c].cut == s.children[c].cut
  {
    hide Named, Frame;
  }

  /** A child is cut when its teardown reads while a caller awaits a frame of it, and only then. */
  lemma {:induction false} CutExactly(run: seq<State>, steps: seq<Step>, i: nat, c: nat)
    requires IsRun(run, steps) && i < |run| && c < |run[i].children|
    ensures run[i].children[c].cut <==> exists j: nat :: j < i && CutAt(run, steps, j, c)
  {
    hide IsRun, Apply, Enabled, Awaited;
    RunLength(run, steps);
    if i > 0 {
      RunStep(run, steps, i - 1);
      CutStep(run[i - 1], steps[i - 1], c);
      if c < |run[i - 1].children| { CutExactly(run, steps, i - 1, c); } else { NotYetCut(run, steps, i - 1, c); }
      assert CutAt(run, steps, i - 1, c) <==> steps[i - 1] == TeardownReads(c) && Awaited(run[i - 1], c);
    }
  }

  // A child that does not exist yet has had no teardown.
  lemma {:induction false} NotYetCut(run: seq<State>, steps: seq<Step>, i: nat, c: nat)
    requires IsRun(run, steps) && i < |run| && c >= |run[i].children|
    ensures forall j: nat :: j <= i ==> !CutAt(run, steps, j, c)
  {
    hide IsRun, Apply, Awaited;
    RunLength(run, steps);
    if i < |steps| { RunStep(run, steps, i); }
    if i > 0 {
      RunStep(run, steps, i - 1);
      CutStep(run[i - 1], steps[i - 1], c);
      NotYetCut(run, steps, i - 1, c);
    }
  }

  /** Lost children, exactly: in every state of every run, a live child that was ever
      `_active` is neither `_active` nor being torn down if and only if some caller awaited a
      frame of it when its teardown read. Cancellation alone, at whatever await, loses none. */
  lemma LostExactly(run: seq<State>, steps: seq<Step>, i: nat, c: nat)
    requires IsRun(run, steps) && i < |run| && c < |run[i].children|
    requires run[i].children[c].recorded && run[i].children[c].alive
    ensures run[i].active != Some(c) && run[i].children[c].teardown == NoTeardown <==>
            exists j: nat :: j < i && CutAt(run, steps, j, c)
  {
    InvAlways(run, steps, i);
    CutExactly(run, steps, i, c);
  }

  /** The caller such a teardown meets is one whose request was sent to that very process. */
  lemma CutHadCaller(run: seq<State>, steps: seq<Step>, j: nat, c: nat) returns (n: nat)
    requires IsRun(run, steps) && CutAt(run, steps, j, c)
    ensures n < |run[j].sent| && run[j].sent[n].child == c
    ensures run[j].sent[n].task in run[j].tasks && run[j].tasks[run[j].sent[n].task] == Reading(c, n)
  {
    InvAlways(run, steps, j);
    var s := run[j];
    var t :| t in s.tasks && s.tasks[t].Reading? && s.tasks[t].child == c;
    assert CallerOk(s, t, s.tasks[t]);
    n := s.tasks[t].request;
  }

  /** Unrecorded children, exactly: a live child that was never stored in `_active` has no
      task connecting it if and only if its spawner was cancelled, or failed, in between. */
  lemma UnownedExactly(run: seq<State>, steps: seq<Step>, i: nat, c: nat)
    requires IsRun(run, steps) && i < |run| && c < |run[i].children| && !run[i].children[c].recorded
    ensures run[i].active != Some(c) && run[i].children[c].teardown == NoTeardown
    ensures !IsConnecting(run[i], c) <==> run[i].children[c].dropped
  {
    InvAlways(run, steps, i);
  }

  // A teardown ends with the child dead or cut, and stays so.
  lemma TeardownStep(s: State, step: Step, c: nat)
    requires ActiveExists(s) && Enabled(s, step) && c < |s.children| && Doomed(s.children[c])
    ensures c < |Apply(s, step).children| && Doomed(Apply(s, step).children[c])
  {
    hide DoLock, DoReaped, SpawnRaises, DoCreated, DoConnected, DoWarmed, DoWarmupFails, DoKilled, DoEnumGo,
      DoCancel, DoTornDown, DoTeardownReads, DoRead, DoReceive, DoLeave, DoDie, DoMarkFailed, Drop;
  }

  lemma TeardownKills(run: seq<State>, steps: seq<Step>, i: nat, j: nat, c: nat)
    requires IsRun(run, steps) && i <= j < |run| && c < |run[i].children|
    requires run[i].children[c].teardown != NoTeardown
    ensures c < |run[j].children|
    ensures run[j].children[c].teardown == NoTeardown ==> !run[j].children[c].alive || run[j].children[c].cut
  {
    DoomedStays(run, steps, i, j, c);
  }

  lemma {:induction false} DoomedStays(run: seq<State>, steps: seq<Step>, i: nat, j: nat, c: nat)
    requires IsRun(run, steps) && i <= j < |run| && c < |run[i].children| && Doomed(run[i].children[c])
    ensures c < |run[j].children| && Doomed(run[j].children[c])
    decreases j
  {
    hide IsRun, Apply, Enabled;
    RunLength(run, steps);
    if i < j {
      DoomedStays(run, steps, i, j - 1, c);
      RunStep(run, steps, j - 1);
      TeardownStep(run[j - 1], steps[j - 1], c);
    }
  }

  /** As long as no live child was left neither active nor being connected, two children are
      never alive at once, whatever else was cancelled. */
  lemma AtMostOneAlive(run: seq<State>, steps: seq<Step>, i: nat, c: nat, d: nat)
    requires IsRun(run, steps) && i < |run| && !run[i].strayed
    requires c < |run[i].children| && d < |run[i].children|
    requires run[i].children[c].alive && run[i].children[d].alive
    ensures c == d
  {
    InvAlways(run, steps, i);
  }

  /** `ensure_ready` only ever returns a READY process of the provider it was asked for. */
  lemma HandedOutReady(run: seq<State>, steps: seq<Step>, i: nat, k: nat)
    requires IsRun(run, steps) && i < |run| && k < |run[i].handed|
    ensures run[i].handed[k].state == READY && run[i].handed[k].name == run[i].handed[k].target
  {
    InvAlways(run, steps, i);
  }

  /** When an enumeration has gone through its list, no child it spawned is `_active`. */
  lemma EnumerationLeavesNothing(run: seq<State>, steps: seq<Step>, i: nat, t: nat)
    requires IsRun(run, steps) && i < |run| && t in run[i].tasks
    requires run[i].tasks[t].Publishing? || run[i].tasks[t].Published?
    ensures run[i].active.Some? ==>
              run[i].active.value < |run[i].children| && run[i].children[run[i].active.value].spawner != t
  {
    InvAlways(run, steps, i);
  }

  // ---- routing and sending ---------------------------------------------------

  lemma RoutedStep(s: State, step: Step, t: nat)
    requires ActiveExists(s) && Enabled(s, step) && t in Apply(s, step).routed
    ensures var r := Apply(s, step).routed[t];
      || (t in s.routed && s.routed[t] == r)
      || (step == Begin(t, Route(r.voice, r.provider))
          && r.voice in s.index && s.index[r.voice] == Entry(r.provider, r.local))
  {
    hide DoLock, DoReaped, SpawnRaises, DoCreated, DoConnected, DoWarmed, DoWarmupFails, DoKilled, DoEnumGo,
      DoCancel, DoTornDown, DoTeardownReads, DoRead, DoReceive, DoLeave, DoDie, DoMarkFailed, Drop;
  }

  // A routing on record is what the index said in one earlier step.
  lemma {:induction false} RoutedBegan(run: seq<State>, steps: seq<Step>, i: nat, t: nat) returns (k: nat)
    requires IsRun(run, steps) && i < |run| && t in run[i].routed
    ensures var r := run[i].routed[t];
      && k < i && steps[k] == Begin(t, Route(r.voice, r.provider))
      && r.voice in run[k].index && run[k].index[r.voice] == Entry(r.provider, r.local)
  {
    hide IsRun, Apply, Enabled;
    RunLength(run, steps);
    RunStep(run, steps, i - 1);
    RoutedStep(run[i - 1], steps[i - 1], t);
    if t in run[i - 1].routed && run[i - 1].routed[t] == run[i].routed[t] {
      k := RoutedBegan(run, steps, i - 1, t);
    } else {
      k := i - 1;
    }
  }

  lemma SentStep(s: State, step: Step)
    requires ActiveExists(s) && Enabled(s, step)
    ensures s.sent <= Apply(s, step).sent && |Apply(s, step).sent| <= |s.sent| + 1
    ensures |Apply(s, step).sent| > |s.sent| ==> FromIndex(s.index, Apply(s, step).sent[|s.sent|])
    ensures !step.Publish? ==> Apply(s, step).index == s.index
  {
    hide DoLock, DoReaped, SpawnRaises, DoCreated, DoConnected, DoWarmed, DoWarmupFails, DoKilled, DoEnumGo,
      DoCancel, DoTornDown, DoTeardownReads, DoRead, DoReceive, DoLeave, DoDie, DoMarkFailed, Drop;
  }

  // A dispatch on record was made in one earlier step, from the index as it was then.
  lemma {:induction false} SentWhen(run: seq<State>, steps: seq<Step>, i: nat, n: nat) returns (m: nat)
    requires IsRun(run, steps) && i < |run| && n < |run[i].sent|
    ensures m < i && |run[m].sent| == n && n < |run[m + 1].sent| && run[m + 1].sent[n] == run[i].sent[n]
    ensures FromIndex(run[m].index, run[i].sent[n])
  {
    hide IsRun, Apply, Enabled, FromIndex;
    RunLength(run, steps);
    RunStep(run, steps, i - 1);
    SentStep(run[i - 1], steps[i - 1]);
    var before, after := run[i - 1].sent, run[i].sent;
    assert before <= after && |after| <= |before| + 1;
    if n < |before| {
      assert after[n] == before[n];
      m := SentWhen(run, steps, i - 1, n);
      assert run[m + 1].sent[n] == after[n];
    } else {
      m := i - 1;
      assert run[m + 1] == run[i];
    }
  }

  lemma {:induction false} IndexKept(run: seq<State>, steps: seq<Step>, k: nat, m: nat)
    requires IsRun(run, steps) && k <= m < |run| && forall j :: k <= j < m ==> !steps[j].Publish?
    ensures run[m].index == run[k].index
    decreases m
  {
    hide IsRun, Apply, Enabled;
    RunLength(run, steps);
    if k < m {
      IndexKept(run, steps, k, m - 1);
      RunStep(run, steps, m - 1);
      SentStep(run[m - 1], steps[m - 1]);
    }
  }

  /** Routing survives interleaving: whatever else ran in between, a synthesize request
      was handed to a process of the provider the index named for that public id when the
      proxy looked it up, with a voice that process reported. */
  lemma SentWhereIndexed(run: seq<State>, steps: seq<Step>, i: nat, n: nat) returns (k: nat)
    requires IsRun(run, steps) && i < |run| && n < |run[i].sent|
    ensures var d := run[i].sent[n];
      && d.child < |run[i].children|
      && d.local in run[i].children[d.child].voices
      && k < i && d.voice in run[k].index
      && run[k].index[d.voice].provider == run[i].children[d.child].name
      && steps[k] == Begin(d.task, Route(d.voice, run[i].children[d.child].name))
  {
    InvAlways(run, steps, i);
    assert SentOk(run[i], run[i].sent[n]);
    k := RoutedBegan(run, steps, i, run[i].sent[n].task);
  }

  /** What is sent is what was routed, exactly: provider and local id are at once the routed
      pair and the pair the index holds at sending if and only if the index at sending still
      names the routed provider and local id. */
  lemma SentAsRoutedExactly(run: seq<State>, steps: seq<Step>, i: nat, n: nat)
    requires IsRun(run, steps) && i < |run| && n < |run[i].sent|
    ensures var d := run[i].sent[n];
      && d.child < |run[i].children| && d.task in run[i].routed
      && var r, pair := run[i].routed[d.task], Entry(run[i].children[d.child].name, d.local);
      && pair.provider == r.provider
      && (pair == Entry(r.provider, r.local) && d.seen == Some(pair) <==> d.seen == Some(Entry(r.provider, r.local)))
      && (d.seen == Some(pair) <==> d.seen.Some? && d.seen.value.provider == pair.provider)
  {
    InvAlways(run, steps, i);
    assert SentOk(run[i], run[i].sent[n]);
  }

  /** With no index update between a request's routing and its sending, the routed pair is
      what is sent. */
  lemma SentAsRouted(run: seq<State>, steps: seq<Step>, i: nat, n: nat) returns (k: nat, m: nat)
    requires IsRun(run, steps) && i < |run| && n < |run[i].sent|
    ensures var d := run[i].sent[n];
      && d.child < |run[i].children| && d.task in run[i].routed
      && k < i && m < i && steps[k] == Begin(d.task, Route(d.voice, run[i].children[d.child].name))
      && |run[m].sent| == n && n < |run[m + 1].sent| && run[m + 1].sent[n] == d
      && (k <= m && (forall j :: k <= j < m ==> !steps[j].Publish?) ==>
            d.seen == Some(Entry(run[i].children[d.child].name, d.local)) && d.local == run[i].routed[d.task].local)
  {
    InvAlways(run, steps, i);
    var d := run[i].sent[n];
    assert SentOk(run[i], d);
    k := RoutedBegan(run, steps, i, d.task);
    m := SentWhen(run, steps, i, n);
    if k <= m && forall j :: k <= j < m ==> !steps[j].Publish? { IndexKept(run, steps, k, m); }
  }

  // ---- a stray child is enough for two ------------------------------------------

  lemma NamedStep(s: State, step: Step)
    requires ActiveExists(s) && Named(s) && Enabled(s, step)
    ensures Named(Apply(s, step))
  {
    assert step.Created? ==> s.tasks[step.t].name in s.registry;
    hide DoLock, DoReaped, SpawnRaises, DoCreated, DoConnected, DoWarmed, DoWarmupFails, DoKilled, DoEnumGo,
      DoCancel, DoTornDown, DoTeardownReads, DoRead, DoReceive, DoLeave, DoDie, DoMarkFailed, Drop, Frame, SameCuts,
      Named, DoBegin, DoPublish;
  }

  lemma StartsNamed(s: State)
    requires Initial(s)
    ensures Named(s)
  {
  }

  lemma {:induction false} NamedAlways(run: seq<State>, steps: seq<Step>, i: nat)
    requires IsRun(run, steps) && i < |run|
    ensures Named(run[i])
  {
    hide IsRun, Apply, Enabled, Named;
    RunLength(run, steps);
    if i == 0 {
      StartsNamed(run[0]);
    } else {
      NamedAlways(run, steps, i - 1);
      RunStep(run, steps, i - 1);
      NamedStep(run[i - 1], steps[i - 1]);
    }
  }

  lemma ExtendRun(run: seq<State>, steps: seq<Step>, step: Step) returns (run': seq<State>, steps': seq<Step>)
    requires |run| == |steps| + 1 && IsRun(run, steps) && ActiveExists(run[|steps|]) && Enabled(run[|steps|], step)
    ensures |run'| == |steps'| + 1 && IsRun(run', steps') && steps' == steps + [step]
    ensures run <= run' && run'[0] == run[0]
    ensures run'[|steps'|] == Apply(run[|steps|], step)
  {
    hide Apply, Enabled, Initial;
    run' := run + [Apply(run[|steps|], step)];
    steps' := steps + [step];
  }

  lemma {:induction false} UnusedId(ids: set<nat>) returns (u: nat)
    ensures forall k :: k in ids ==> k < u
  {
    if ids == {} {
      u := 0;
    } else {
      var k :| k in ids;
      var v := UnusedId(ids - {k});
      assert forall j :: j in ids ==> j in ids - {k} || j == k;
      u := if v > k then v else k + 1;
    }
  }

  // The later run goes on from the earlier one, and no task was cancelled on the way.
  ghost predicate GoesOn(run: seq<State>, steps: seq<Step>, run': seq<State>, steps': seq<Step>) {
    && |run'| == |steps'| + 1 && IsRun(run', steps') && run <= run' && steps <= steps'
    && forall i :: |steps| <= i < |steps'| ==> !steps'[i].Cancel?
  }

  // An enumeration that holds the lock can finish by finding nothing installed.
  lemma {:induction false} EnumerationEnds(run: seq<State>, steps: seq<Step>, t: nat)
    returns (run': seq<State>, steps': seq<Step>)
    requires |run| == |steps| + 1 && IsRun(run, steps) && ActiveExists(run[|steps|]) && run[|steps|].lock == Some(t)
    requires t in run[|steps|].tasks && run[|steps|].tasks[t].EnumAt?
    ensures GoesOn(run, steps, run', steps')
    ensures run'[|steps'|].lock.None? && run'[|steps'|].active == run[|steps|].active
    ensures run'[|steps'|].children == run[|steps|].children && run'[|steps'|].registry == run[|steps|].registry
    decreases |run[|steps|].tasks[t].rest|
  {
    hide IsRun, Frame, SameCuts, Named;
    run', steps' := ExtendRun(run, steps, EnumGo(t, false));
    if run[|steps|].tasks[t].rest != [] { run', steps' := EnumerationEnds(run', steps', t); }
  }

  // With the lock free and nothing active, switching to an enabled provider starts a child.
  lemma SpawnAnother(run: seq<State>, steps: seq<Step>, c: nat)
    returns (run': seq<State>, steps': seq<Step>)
    requires |run| == |steps| + 1 && IsRun(run, steps) && run[|steps|].lock.None? && run[|steps|].active.None?
    requires c < |run[|steps|].children|
    requires run[|steps|].children[c].alive && run[|steps|].children[c].name in run[|steps|].registry
    ensures IsRun(run', steps') && run <= run' && |run'| == |steps'| + 1 && TwoAlive(run'[|steps'|])
  {
    hide IsRun, Frame, SameCuts, Named;
    var s := run[|steps|];
    var name := s.children[c].name;
    var u := UnusedId(s.tasks.Keys);
    assert u !in s.tasks;
    run', steps' := ExtendRun(run, steps, Begin(u, Switch(name)));
    assert run'[|steps'|] == s.(tasks := s.tasks[u := Queued(Switch(name))]);
    run', steps' := ExtendRun(run', steps', Lock(u, true));
    var creating := s.tasks[u := Queued(Switch(name))][u := Creating(Switch(name), name)];
    assert run'[|steps'|] == s.(lock := Some(u), tasks := creating);
    run', steps' := ExtendRun(run', steps', Created(u));
    var q := run'[|steps'|];
    assert q.children[c].alive && q.children[|s.children|].alive;
  }

  ghost predicate TwoAlive(s: State) {
    exists c, d :: 0 <= c < d < |s.children| && s.children[c].alive && s.children[d].alive
  }

  // The steps that leave a live child behind leave nothing active, and the lock free or
  // with an enumeration.
  ghost predicate LeftBehind(q: State, c: nat) {
    && c < |q.children| && q.children[c].alive && q.active.None?
    && (q.lock.Some? ==> q.lock.value in q.tasks && q.tasks[q.lock.value].EnumAt?)
  }

  lemma CancelStrays(s: State, t: nat)
    requires Core(s) && Enabled(s, Cancel(t)) && !s.strayed && DoCancel(s, t).strayed
    ensures HasChild(s.tasks[t]) && LeftBehind(DoCancel(s, t), s.tasks[t].child)
  {
    hide DoWarmupFails, Frame, SameCuts, Named;
  }

  lemma ConnectFailureStrays(s: State, t: nat)
    requires Core(s) && Enabled(s, ConnectFails(t)) && !s.strayed && Apply(s, ConnectFails(t)).strayed
    ensures LeftBehind(Apply(s, ConnectFails(t)), s.tasks[t].child)
  {
    hide Frame, SameCuts, Named;
  }

  lemma CutStrays(s: State, c: nat)
    requires Core(s) && Enabled(s, TeardownReads(c)) && !s.strayed && DoTeardownReads(s, c).strayed
    ensures LeftBehind(DoTeardownReads(s, c), c)
  {
    hide Frame, SameCuts, Named;
  }

  lemma OthersDoNotStray(s: State, step: Step)
    requires ActiveExists(s) && Enabled(s, step) && !step.Cancel? && !step.ConnectFails? && !step.TeardownReads?
    ensures Apply(s, step).strayed == s.strayed
  {
    hide DoLock, DoReaped, SpawnRaises, DoCreated, DoConnected, DoWarmed, DoWarmupFails, DoKilled, DoEnumGo,
      DoCancel, DoTornDown, DoTeardownReads, DoRead, DoReceive, DoLeave, DoDie, DoMarkFailed, Drop, Frame, SameCuts,
      Named;
  }

  lemma StrayStep(s: State, step: Step) returns (c: nat)
    requires Core(s) && Enabled(s, step) && !s.strayed && Apply(s, step).strayed
    ensures LeftBehind(Apply(s, step), c)
  {
    hide DoLock, DoReaped, SpawnRaises, DoCreated, DoConnected, DoWarmed, DoWarmupFails, DoKilled, DoEnumGo,
      DoCancel, DoTornDown, DoTeardownReads, DoRead, DoReceive, DoLeave, DoDie, DoMarkFailed, Drop, Core, LeftBehind,
      Frame, SameCuts, Named;
    if step.TeardownReads? {
      CutStrays(s, step.c);
      c := step.c;
    } else if step.Cancel? {
      CancelStrays(s, step.t);
      c := s.tasks[step.t].child;
    } else {
      if !step.ConnectFails? { OthersDoNotStray(s, step); }
      ConnectFailureStrays(s, step.t);
      c := s.tasks[step.t].child;
    }
  }

  /** The condition is exact: whenever a step does leave a live child neither active nor being
      connected, the run can go on to a state with two live children. */
  lemma StrayMeansTwo(run: seq<State>, steps: seq<Step>)
    returns (run': seq<State>, steps': seq<Step>)
    requires IsRun(run, steps) && |steps| > 0 && !run[|steps| - 1].strayed && run[|steps|].strayed
    ensures IsRun(run', steps') && run <= run' && TwoAlive(run'[|steps'|])
  {
    hide IsRun, Core, Routes, EnumInv, Apply, Enabled, FromIndex;
    var k := |steps| - 1;
    RunLength(run, steps);
    RunStep(run, steps, k);
    InvAlways(run, steps, k);
    NamedAlways(run, steps, k + 1);
    var c := StrayStep(run[k], steps[k]);
    run', steps' := run, steps;
    if run[k + 1].lock.Some? { run', steps' := EnumerationEnds(run, steps, run[k + 1].lock.value); }
    run', steps' := SpawnAnother(run', steps', c);
  }

  // ---- why the conditions are there -------------------------------------------

  const Boot: State := State({"a", "b"}, None, None, "a", [], map[], map[], map[], [], [], false)

  lemma UnrecordedChildLeaks() returns (run: seq<State>, steps: seq<Step>)
    ensures IsRun(run, steps) && |run| == |steps| + 1
    ensures var s := run[|steps|];
      s.active.None? && s.lock.None? && |s.children| == 1 && s.children[0].alive && s.children[0].teardown == NoTeardown
  {
    hide Frame, SameCuts, Named, FromIndex;
    run, steps := [Boot], [];
    run, steps := ExtendRun(run, steps, Begin(0, Start("a")));
    run, steps := ExtendRun(run, steps, Lock(0, true));
    run, steps := ExtendRun(run, steps, Created(0));
    run, steps := ExtendRun(run, steps, Cancel(0));
  }

  // Provider a is READY as child 0 and task 0 is done.
  lemma ReadyRun() returns (run: seq<State>, steps: seq<Step>)
    ensures |run| == |steps| + 1 && IsRun(run, steps) && run[0] == Boot
    ensures run[|steps|] ==
      State({"a", "b"}, None, Some(0), "a", [Child("a", 0, READY, true, true, NoTeardown, {})],
            map[0 := Finished], map[], map[], [Handed("a", "a", READY)], [], false)
  {
    hide Frame, SameCuts, Named, FromIndex;
    run, steps := [Boot], [];
    run, steps := ExtendRun(run, steps, Begin(0, Start("a")));
    run, steps := ExtendRun(run, steps, Lock(0, true));
    run, steps := ExtendRun(run, steps, Created(0));
    run, steps := ExtendRun(run, steps, Connected(0));
    run, steps := ExtendRun(run, steps, Warmed(0, {}));
    assert run[|steps|].children == [Child("a", 0, READY, true, true, NoTeardown, {})];
  }

  /** Cancelling a task that waits for a teardown lets the next spawn overlap with it. */
  lemma TwoAliveAfterCancel() returns (run: seq<State>, steps: seq<Step>)
    ensures IsRun(run, steps) && |run| == |steps| + 1
    ensures |run[|steps|].children| == 2 && run[|steps|].children[0].alive && run[|steps|].children[1].alive
  {
    hide IsRun, Frame, SameCuts, Named, FromIndex;
    run, steps := ReadyRun();
    run, steps := ExtendRun(run, steps, Begin(1, Switch("b")));
    run, steps := ExtendRun(run, steps, Lock(1, true));
    run, steps := ExtendRun(run, steps, Cancel(1));
    run, steps := ExtendRun(run, steps, Begin(2, Start("a")));
    run, steps := ExtendRun(run, steps, Lock(2, true));
    run, steps := ExtendRun(run, steps, Created(2));
  }

  // No task was cancelled, and no connection failed.
  ghost predicate Undisturbed(steps: seq<Step>) {
    forall i :: 0 <= i < |steps| ==> !steps[i].Cancel? && !steps[i].ConnectFails?
  }

  // Task t begins an enumeration and takes the free lock.
  lemma EnumerationHolds(run: seq<State>, steps: seq<Step>, t: nat)
    returns (run': seq<State>, steps': seq<Step>)
    requires |run| == |steps| + 1 && IsRun(run, steps) && Undisturbed(steps)
    requires run[|steps|].lock.None? && t !in run[|steps|].tasks && ActiveExists(run[|steps|])
    ensures |run'| == |steps'| + 1 && IsRun(run', steps') && run'[0] == run[0] && Undisturbed(steps')
    ensures run'[|steps'|] == run[|steps|].(lock := Some(t), tasks := run[|steps|].tasks[t := EnumAt([])])
  {
    hide IsRun, Frame, SameCuts, Named, FromIndex, EnsureSegment, StartReap;
    var s := run[|steps|];
    run', steps' := ExtendRun(run, steps, Begin(t, Enumerate([])));
    assert run'[|steps'|] == s.(tasks := s.tasks[t := Queued(Enumerate([]))]);
    run', steps' := ExtendRun(run', steps', Lock(t, true));
    assert s.tasks[t := Queued(Enumerate([]))][t := EnumAt([])] == s.tasks[t := EnumAt([])];
  }

  // Task t enumerates nothing and publishes `listing`.
  lemma PublishRun(run: seq<State>, steps: seq<Step>, t: nat, listing: map<Id, Entry>)
    returns (run': seq<State>, steps': seq<Step>)
    requires |run| == |steps| + 1 && IsRun(run, steps) && Undisturbed(steps)
    requires run[|steps|].lock.None? && t !in run[|steps|].tasks && ActiveExists(run[|steps|])
    ensures |run'| == |steps'| + 1 && IsRun(run', steps') && run'[0] == run[0] && Undisturbed(steps')
    ensures run'[|steps'|] == run[|steps|].(index := listing, tasks := run[|steps|].tasks[t := Published])
  {
    hide IsRun, Frame, SameCuts, Named, FromIndex, StartReap, StartSpawn;
    var s := run[|steps|];
    run', steps' := EnumerationHolds(run, steps, t);
    run', steps' := ExtendRun(run', steps', EnumGo(t, true));
    assert s.tasks[t := EnumAt([])][t := Publishing] == s.tasks[t := Publishing];
    assert run'[|steps'|] == s.(tasks := s.tasks[t := Publishing]);
    run', steps' := ExtendRun(run', steps', Publish(t, listing));
    assert s.tasks[t := Publishing][t := Published] == s.tasks[t := Published];
  }

  // A request for public voice x was routed to provider a, which is to be started.
  lemma CreatingRun() returns (run: seq<State>, steps: seq<Step>)
    ensures |run| == |steps| + 1 && IsRun(run, steps) && run[0] == Boot && Undisturbed(steps)
    ensures run[|steps|] ==
      State({"a", "b"}, Some(0), None, "a", [], map[8 := Published, 0 := Creating(Route("x", "a"), "a")],
            map["x" := Entry("a", "x")], map[0 := Routing("x", "a", "x")], [], [], false)
  {
    hide Frame, SameCuts, Named, FromIndex;
    run, steps := PublishRun([Boot], [], 8, map["x" := Entry("a", "x")]);
    run, steps := ExtendRun(run, steps, Begin(0, Route("x", "a")));
    run, steps := ExtendRun(run, steps, Lock(0, true));
    assert run[|steps|].tasks == map[8 := Published, 0 := Creating(Route("x", "a"), "a")];
  }

  // Its child is warming up.
  lemma WarmingRun() returns (run: seq<State>, steps: seq<Step>)
    ensures |run| == |steps| + 1 && IsRun(run, steps) && run[0] == Boot && Undisturbed(steps)
    ensures run[|steps|] ==
      State({"a", "b"}, Some(0), Some(0), "a", [Child("a", 0, STARTING, true, true, NoTeardown, {})],
            map[8 := Published, 0 := Warming(Route("x", "a"), 0)], map["x" := Entry("a", "x")],
            map[0 := Routing("x", "a", "x")], [], [], false)
  {
    hide IsRun, Frame, SameCuts, Named, FromIndex;
    run, steps := CreatingRun();
    run, steps := ExtendRun(run, steps, Created(0));
    assert run[|steps|].children == [Child("a", 0, STARTING, true, false, NoTeardown, {})];
    run, steps := ExtendRun(run, steps, Connected(0));
    assert run[|steps|].children == [Child("a", 0, STARTING, true, true, NoTeardown, {})];
    assert run[|steps|].tasks == map[8 := Published, 0 := Warming(Route("x", "a"), 0)];
  }

  // It then waits in its second `ensure_ready`.
  lemma RoutedRun() returns (run: seq<State>, steps: seq<Step>)
    ensures |run| == |steps| + 1 && IsRun(run, steps) && run[0] == Boot && Undisturbed(steps)
    ensures run[|steps|] ==
      State({"a", "b"}, None, Some(0), "a", [Child("a", 0, READY, true, true, NoTeardown, {"x", "y"})],
            map[8 := Published, 0 := Queued(Again("x", "a"))], map["x" := Entry("a", "x")],
            map[0 := Routing("x", "a", "x")], [Handed("a", "a", READY)], [], false)
  {
    hide IsRun, Frame, SameCuts, Named, FromIndex;
    run, steps := WarmingRun();
    run, steps := ExtendRun(run, steps, Warmed(0, {"x", "y"}));
    var s := run[|steps|];
    assert s.children == [Child("a", 0, READY, true, true, NoTeardown, {"x", "y"})];
    assert s.tasks == map[8 := Published, 0 := Queued(Again("x", "a"))];
  }

  // The request is sent to child 0, and its caller awaits the first frame.
  lemma SentRun() returns (run: seq<State>, steps: seq<Step>)
    ensures |run| == |steps| + 1 && IsRun(run, steps) && run[0] == Boot && Undisturbed(steps)
    ensures var s := run[|steps|];
      && s.registry == {"a", "b"} && s.lock.None? && s.active == Some(0) && s.tasks.Keys == {0, 8} && !s.strayed
      && s.tasks[0] == Reading(0, 0)
      && s.children == [Child("a", 0, READY, true, true, NoTeardown, {"x", "y"})]
      && s.sent == [Dispatch(0, "x", 0, "x", Some(Entry("a", "x")))]
  {
    hide IsRun, Frame, SameCuts, Named, FromIndex;
    run, steps := RoutedRun();
    run, steps := ExtendRun(run, steps, Lock(0, true));
    assert run[|steps|].tasks == map[8 := Published, 0 := Holding(0, 0)];
    run, steps := ExtendRun(run, steps, Read(0));
    assert run[|steps|].tasks == map[8 := Published, 0 := Reading(0, 0)];
  }

  /** With nothing cancelled at all: switching provider while a caller waits for a frame cuts
      the teardown and loses the child: alive, not active and under no teardown. */
  lemma PendingReadLosesChild() returns (run: seq<State>, steps: seq<Step>)
    ensures |run| == |steps| + 1 && IsRun(run, steps) && Undisturbed(steps)
    ensures var s := run[|steps|];
      && s.active.None? && s.lock.None? && |s.children| == 1
      && s.children[0].recorded && s.children[0].alive && s.children[0].teardown == NoTeardown && s.children[0].cut
  {
    hide IsRun, Frame, SameCuts, Named, FromIndex;
    run, steps := SentRun();
    run, steps := ExtendRun(run, steps, Begin(1, Switch("b")));
    run, steps := ExtendRun(run, steps, Lock(1, true));
    var s := run[|steps|];
    assert s.tasks[1] == Reaping(Switch("b"), 0, Some("b")) && s.lock == Some(1) && s.tasks[0] == Reading(0, 0);
    run, steps := ExtendRun(run, steps, TeardownReads(0));
  }

  /** The provider is fixed when the request is routed, the local id only when it is
      sent: re-enumerating in between can send provider a the local id of a voice the
      index then lists under provider b. */
  lemma StaleProviderFreshVoice() returns (run: seq<State>, steps: seq<Step>)
    ensures IsRun(run, steps) && |run| == |steps| + 1
    ensures var s := run[|steps|];
      && |s.sent| == 1 && s.sent[0].child < |s.children| && s.children[s.sent[0].child].name == "a"
      && s.sent[0].voice == "x" && s.sent[0].local == "y"
      && "x" in s.index && s.index["x"] == Entry("b", "y")
  {
    hide IsRun, Frame, SameCuts, Named, FromIndex;
    run, steps := RoutedRun();
    run, steps := PublishRun(run, steps, 9, map["x" := Entry("b", "y")]);
    run, steps := ExtendRun(run, steps, Lock(0, true));
  }
}
