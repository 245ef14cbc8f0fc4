# Verification model of neural-tts-daemon

neural-tts-daemon runs one text-to-speech provider at a time as a child process, routes
speech-dispatcher requests to the provider that owns the requested voice, and streams audio
back. This project models that machinery in Dafny and proves what it keeps.

## What is modelled

- **The request pipe** (`RequestPipe`, `Recovery`, `Exchange`). Callers share one provider
  process through a lock, a `needs_drain` flag and two byte streams. `RequestPipe` is a transition
  system: a step is the code between two awaits, and a run is any interleaving of callers, the
  provider's serve loop and teardown. Frames carry the id of the request they were made for, which
  no step reads. `Recovery` is about what its runs can still reach: that a caller can leave
  anywhere and the next one is served behind it, and that a failed answer costs the process.
  `Exchange` has the same loops as methods of a process object, one caller at a time, and computes
  the outcome of every call in a sequence exactly.
- **The provider lifecycle** (`Lifecycle`, `LifecycleProgress`, `Supervision`). `Lifecycle`
  interleaves any number of tasks (start, routing and its nested second `ensure_ready`, switch,
  eviction, shutdown, enumeration) around the lifecycle lock, with cancellation at every await and
  shielded teardowns that outlive their task. `LifecycleProgress` proves what stopping and
  switching achieve, and that no run is ever stuck. `Supervision` has the supervisor's methods on
  an object, one task at a time, including enumeration with allowlists and locale overrides.
- **The voice index** (`VoiceIndexing`, `Ordering`). The index object with its three
  dictionaries, its rebuild loop, and the facts about public ids.
- **Text** (`Text`, `Chunker`, `Segmenter`). The sentence chunker that three providers share and
  the command line client's segmenter. Both end in the same greedy packing, whose optimality is
  proved once. The "ink" of a text is its non-whitespace characters in order; its words are the
  stretches between whitespace.
- **Playback** (`Playback`, `JitterBuffer`). The adaptive prebuffer as an object with its loop,
  and the arithmetic of gap-free playback over exact reals.
- **Framing** (`Framing`), **the voice-state cache** (`VoiceCache`), **the reply to a client**
  (`Reply`), and **the speech-dispatcher voice listing** (`ListVoices`).

`Wire` and `Options` hold shared types. `dafny verify dfyconfig.toml` checks everything.

## What the steps stand for

In `RequestPipe`: `Acquire` is taking the request lock and, with `needs_drain` clear, writing the
request (supervisor.py:369-382); `DrainRead`, `DrainFail` and `DrainCancel` are one turn, the
failure and the cancellation of the drain (412-430); `Flushed`, `ReadHeader`, `ReadBody` and
`Resume` are the awaits and the yield of `synthesize` (382-410); `Abandon` is a consumer leaving, a
cancellation, or the stream ending under a caller, at any of them; `Consume`, `Emit` and `Die` are
the provider (kokoro-onnx `__main__.py`:82-165); `BeginTeardown`, `TeardownRead` and `EndTeardown`
are `_do_shutdown` and `_kill` (590-623).

In `Lifecycle`: `Begin` queues a task on the lifecycle lock, `Lock` is the code from taking it to
the next await (338-354, 438-448, 470-472, 639-644), `Reaped` what follows a teardown, `Created`
and `Connected` the two halves of a spawn (522-547), `Warmed`, `WarmupFails` and `Killed` its end
(547-567), `EnumGo` one turn of the enumeration (220-250), `Publish` the index update (294-297),
`Read`, `Receive` and `Leave` a caller of `synthesize` starting to await a frame, being given one and
leaving (384-410), `TeardownReads` the one read of a teardown, which raises when a caller awaits a
frame of that process (595), `Cancel` a cancellation at an await, `TornDown` the end of a shielded
teardown (590-623), `Die` a child exiting, `MarkFailed` a failed drain (424-428).

## Where code and documentation differ

- `supervisor.py:403` expects audio_end after a mid-stream error. The providers send the error
  last, so the drain that follows can only end by marking the process FAILED
  (`RequestPipe.DrainAfterErrorIsHopeless`).
- `needs_drain` is cleared even when the drain failed or was cancelled. After a failure the
  process is FAILED but callers that already hold it go on and can be given foreign audio, even
  when their own drain saw an audio_end. After a cancellation inside the drain the process is
  even READY (`FailedDrainLeaks`, `CancelledDrainLeaks`). The guarantees hold exactly as long as
  no drain is given up with something left in the pipe (`GiveUpExactly`,
  `Exchange.OwnAnswerExactly`); the failed drain after an error leaves nothing.
- `_do_shutdown` reads the stream without the request lock. While a caller waits for a frame the
  stream reader refuses a second one with a RuntimeError, which nothing there catches: the wait and
  the kill are skipped and `_active` is cleared, so the child is left alive until it acts on the
  shutdown request by itself. This needs no cancellation (`Lifecycle.PendingReadLosesChild`), and
  it is the only way a recorded child is lost: some caller was awaiting a frame of it when its
  teardown read (`Lifecycle.LostExactly`). While a caller is at its `yield` the read succeeds and
  throws one of the caller's chunks away (`RequestPipe.TeardownTakesChunk`).
- A child is unprotected between its creation and the assignment to `_active`
  (`UnrecordedChildLeaks`).
- Enumeration keeps the active process only if nothing else has to be spawned: any installed
  provider that sorts before it shuts it down first, and any after it does so afterwards
  (`Supervision.Supervisor.AskProviders`).
- The prebuffer the README calls required, D(1-r)/r, is sufficient in the fluid limit
  (`JitterBuffer.ShortYieldsPlayThrough`) but not required; the exact threshold is
  D(1-r) + r*a for yields of at most a seconds. Both need the rate to hold from the start of
  playback on; a rate that only holds from the start of production needs the whole piece held back
  (`Playback.CumulativeThresholdIsExact`).
- `voice_index.py` speaks of ids that two providers expose; an id that one provider lists twice
  is suffixed too. The statement holds of all ids exactly when each such id is also reported by
  another provider (`VoiceIndexing.SuffixedMeansShared`).
- The chunkers promise never to cut inside a word. Without a soft break or a space past its first
  character, the head is cut at the cap, wherever that falls: inside a word longer than the cap, or
  a short one behind a tab (`Chunker.CutInsideWord`, `Chunker.WordsAreCut`).
- The protocol promises exactly one end frame after a header. If the resampling library cannot
  be loaded, or the task is cancelled, the header is the start of a reply without one
  (`Reply.Connection.Handle` says exactly when).
- A listed display name is meant to select its voice. The name map ignores the language, so one
  display name in two languages selects the voice listed last.

## Model

| member | source | states |
|---|---|---|
| `RequestPipe.NoCrossTalk` | daemon/src/neural_tts_daemon/supervisor.py:369-430 | In every state of every interleaving of callers, abandonments, provider failures and teardown in which no drain was given up with anything of a request left in the pipe: every frame a request was given carries its id, and everything queued, being produced or unread is one response, that of the request inside its exchange, or else `needs_drain` is set |
| `RequestPipe.ReadyMeansNoCrossTalk` | daemon/src/neural_tts_daemon/supervisor.py:424-430 | The same conclusions, for delivered frames and for the pipe, read off the state the daemon looks at: the process is READY and no drain was cancelled with something left |
| `RequestPipe.DeliveryIsExact` | daemon/src/neural_tts_daemon/supervisor.py:393-410 | A call that returned normally was given exactly the chunks the provider made for it, every other call a prefix of them, before and during a teardown, unless the teardown took one of its chunks |
| `RequestPipe.TakenNeverExact` | daemon/src/neural_tts_daemon/supervisor.py:590-597 | A caller in its exchange from which a teardown read a chunk has from then on been given fewer chunks than were made for it, so it never returns with all of them |
| `RequestPipe.TeardownTakesChunk` | daemon/src/neural_tts_daemon/supervisor.py:590-597 | A run in which a caller returns normally one chunk short, because the teardown read while it was at its yield |
| `RequestPipe.InvStep` | daemon/src/neural_tts_daemon/supervisor.py:369-430 | Every single step, of callers, provider or teardown, keeps the lock, flow and accounting invariants |
| `RequestPipe.NeverReadyAgain` | daemon/src/neural_tts_daemon/supervisor.py:339-351 | A process that has left READY never returns to it, so it is never handed out again |
| `RequestPipe.ErrorIsHopeless` | providers/kokoro-onnx/src/neural_tts_provider_kokoro_onnx/__main__.py:159-165 | A drain that meets the provider's `error` has nothing behind it that could end it |
| `RequestPipe.DrainAfterErrorIsHopeless` | daemon/src/neural_tts_daemon/supervisor.py:402-408 | So is the drain of the caller after one that raised on a mid-stream error: no audio_end follows, against the comment there |
| `RequestPipe.ErrorEndsInFailed` | daemon/src/neural_tts_daemon/supervisor.py:424-430 | However such a run continues, once that drain is over the process is not READY and never is again, unless the drain was cancelled |
| `RequestPipe.QuietAfterTerminal` | providers/kokoro-onnx/src/neural_tts_provider_kokoro_onnx/__main__.py:135-165 | Once the terminal frame of a response is read nothing of any request is left in the pipe |
| `RequestPipe.GiveUpExactly` | daemon/src/neural_tts_daemon/supervisor.py:412-430 | Giving up a drain, by timeout or by cancellation, keeps the flow guarantee if and only if nothing is left: no queued request, none being served, no frame unread |
| `RequestPipe.FailureMisleads` | daemon/src/neural_tts_daemon/supervisor.py:424-430 | The other half on deliveries: from any state in which a drain fails with something left that can still be read, some continuation makes the same caller read a frame not its own as the start of its answer |
| `RequestPipe.CancellationMisleads` | daemon/src/neural_tts_daemon/supervisor.py:429-430 | So does a cancellation inside the drain for the next caller of the READY process |
| `RequestPipe.FailureAfterErrorIsHarmless` | daemon/src/neural_tts_daemon/supervisor.py:424-430 | A failed drain that has read all of an error-ended response keeps every invariant: the request behind it is served its own audio on the FAILED process |
| `RequestPipe.CancelledDrainLeaks` | daemon/src/neural_tts_daemon/supervisor.py:412-430 | A run in which a caller is cancelled inside its drain: the process stays READY and the next caller gets another request's audio |
| `RequestPipe.FailedDrainLeaks` | daemon/src/neural_tts_daemon/supervisor.py:370-382 | A run in which a caller whose own drain did see audio_end is given a foreign chunk, because an earlier drain had failed |
| `Recovery.LeavingIsRecovered` | daemon/src/neural_tts_daemon/supervisor.py:369-430 | From every run that ends READY with no drain given up and a caller anywhere in its exchange, on a provider that runs and has not failed: the caller can leave there, the lock is free at once with `needs_drain` set, and a new caller drains up to the audio_end of what was left and returns normally with exactly its own chunks, READY and clean again |
| `Recovery.ErrorIsNotRecovered` | daemon/src/neural_tts_daemon/supervisor.py:402-430 | From every such run with the provider sending the answer: it can fail there, the caller is then raised to, the drain of the next caller is hopeless, and its failure marks the process FAILED |
| `Recovery.AnyoneCanLeave` | daemon/src/neural_tts_daemon/proxy.py:103-116 | Every caller that is not over, wherever it stands, can leave in one step; it then no longer holds the lock, nothing in the pipe has moved, and inside the exchange `needs_drain` stays as it was |
| `Recovery.NeedsDrainMeansLeft` | daemon/src/neural_tts_daemon/supervisor.py:382-408 | With no caller draining and no teardown or exit behind it, a set `needs_drain` means that a response is still to come or its last frame is unread, or else that the last request read an error in the middle of its answer |
| `Recovery.OpensOwnAnswer` | daemon/src/neural_tts_daemon/supervisor.py:386-392 | The frame a caller reads first is its own header or its own error, as long as no drain was given up and no teardown has begun |
| `Recovery.RefusedIsClean` | daemon/src/neural_tts_daemon/supervisor.py:386-390 | From every run that leaves the process at rest, a request answered with an error in place of the header is raised to and leaves the process at rest, with nothing to drain |
| `Recovery.StopIsAnswered` | daemon/src/neural_tts_daemon/supervisor.py:590-612 | From every such run the process can be stopped: the one frame the teardown reads is the reply to its shutdown, and nothing is behind it |
| `Recovery.CanDieAndStop` | daemon/src/neural_tts_daemon/supervisor.py:590-623 | In every state of every run the provider can die, and a teardown can run to its end without moving any caller |
| `Exchange.ProviderProcess.HandleSynthesize` | providers/kokoro-onnx/src/neural_tts_provider_kokoro_onnx/__main__.py:129-165 | Appends to the stream exactly header, one frame per chunk, and audio_end or error; a crash leaves a prefix |
| `Exchange.ProviderProcess.DrainIfNeeded` | daemon/src/neural_tts_daemon/supervisor.py:412-430 | Reads up to and including the first audio_end and nothing more, or marks the process FAILED when there is none or the wait times out first; clears the flag either way |
| `Exchange.ProviderProcess.Synthesize` | daemon/src/neural_tts_daemon/supervisor.py:356-410 | Whether the drain succeeds, exactly; in either case what the call yields and how it ends (reading what the drain left, then its own answer), what stays unread, and `needs_drain` set exactly when the call did not settle |
| `Exchange.ReadsOwnAnswer` | daemon/src/neural_tts_daemon/supervisor.py:384-410 | Closed form of one call for every answer and every moment the consumer may leave: which chunks, which outcome, how many frames |
| `Exchange.DrainResynchronises` | daemon/src/neural_tts_daemon/supervisor.py:412-430 | From any abandoned position, audio_end is the last residual frame if the answer finished, and absent if it failed or crashed |
| `Exchange.AfterDrainIs` | daemon/src/neural_tts_daemon/supervisor.py:412-430 | What a drain leaves unread: everything behind the first audio_end if it saw one, otherwise everything behind the frames read before the end or the timeout |
| `Exchange.Serve` | daemon/src/neural_tts_daemon/supervisor.py:329-410 | Over any sequence of calls, with `ensure_ready` before each: which calls run on a clean stream and what every call is given, exactly; the clean ones get their own answer |
| `Exchange.OwnAnswerExactly` | daemon/src/neural_tts_daemon/supervisor.py:370-410 | A call behind a given-up drain is sure of its own answer if and only if the drain left nothing unread |
| `Exchange.RunsCleanExactly` | daemon/src/neural_tts_daemon/supervisor.py:402-430 | The call behind a clean one is clean if and only if that answer came to its end and the drain's patience covers what was left of it; behind a failed answer the drain fails |
| `Exchange.FailureAfterErrorIsHarmless` | daemon/src/neural_tts_daemon/supervisor.py:402-430 | After an error-ended response the drain fails with nothing left |
| `Exchange.FailedDrainMisdelivers` | daemon/src/neural_tts_daemon/supervisor.py:424-430 | The request whose drain timed out goes on and is given the stale response |
| `Lifecycle.LostExactly` | daemon/src/neural_tts_daemon/supervisor.py:575-623 | In every state of every run, with cancellation at any await: a live child that was ever `_active` is neither `_active` nor under a shielded teardown if and only if some caller was awaiting a frame of it at the step in which its teardown read |
| `Lifecycle.CutExactly` | daemon/src/neural_tts_daemon/supervisor.py:590-599 | A child's teardown has been cut if and only if, in one earlier step, it read while a caller awaited a frame of that child |
| `Lifecycle.CutHadCaller` | daemon/src/neural_tts_daemon/supervisor.py:360-399 | That caller is one whose synthesize request was sent to that very process |
| `Lifecycle.UnownedExactly` | daemon/src/neural_tts_daemon/supervisor.py:522-540 | A child never stored in `_active` has no task connecting it if and only if its spawner was cancelled, or failed, between creating and storing it |
| `Lifecycle.TeardownKills` | daemon/src/neural_tts_daemon/supervisor.py:575-623 | A teardown that has begun ends only with the child dead or with the cut by a pending read |
| `Lifecycle.AtMostOneAlive` | daemon/src/neural_tts_daemon/supervisor.py:338-354 | No two children are alive together as long as no live child was left neither active nor being connected; cancellations that leave none are allowed |
| `Lifecycle.StrayMeansTwo` | daemon/src/neural_tts_daemon/supervisor.py:338-354 | The condition is exact: whenever a step does leave such a child, the run has a continuation with two live children |
| `Lifecycle.HandedOutReady` | daemon/src/neural_tts_daemon/supervisor.py:329-354 | `ensure_ready` returns only a READY process of the provider it was asked for |
| `Lifecycle.EnumerationLeavesNothing` | daemon/src/neural_tts_daemon/supervisor.py:236-250 | When an enumeration has gone through its list, no child it spawned is `_active` |
| `Lifecycle.SentWhereIndexed` | daemon/src/neural_tts_daemon/proxy.py:50-96 | A synthesize frame goes only to a process of the provider the index named for that public id when the proxy looked it up, with a voice that process reported, whatever ran in between |
| `Lifecycle.RoutedBegan` | daemon/src/neural_tts_daemon/proxy.py:50-60 | Every routing on record is the entry the index held in one earlier step, and never changed |
| `Lifecycle.SentWhen` | daemon/src/neural_tts_daemon/supervisor.py:360-366 | Every dispatch on record was made in one earlier step, with the local id the index gave then |
| `Lifecycle.SentAsRoutedExactly` | daemon/src/neural_tts_daemon/supervisor.py:360-366 | What is sent is the routed provider and local id, and what the index holds at sending, if and only if the index at sending still names the routed entry |
| `Lifecycle.SentAsRouted` | daemon/src/neural_tts_daemon/supervisor.py:360-366 | With no index update between routing and sending, it does |
| `Lifecycle.InvAlways` | daemon/src/neural_tts_daemon/supervisor.py:329-623 | The invariants behind these results hold in every state of every run |
| `Lifecycle.PendingReadLosesChild` | daemon/src/neural_tts_daemon/supervisor.py:590-599 | A run with no cancellation at all: switching while a caller waits for a frame leaves the child alive, not active and under no teardown |
| `Lifecycle.UnrecordedChildLeaks` | daemon/src/neural_tts_daemon/supervisor.py:522-540 | A cancellation between creating the child and recording it leaves it alive and unowned |
| `Lifecycle.TwoAliveAfterCancel` | daemon/src/neural_tts_daemon/supervisor.py:575-588 | A cancelled wait for a teardown lets the next spawn overlap with it |
| `Lifecycle.StaleProviderFreshVoice` | daemon/src/neural_tts_daemon/supervisor.py:360-366 | The provider is fixed at routing, the local id only at sending: a re-enumeration in between can pair the two wrongly |
| `LifecycleProgress.StopTearsDown` | daemon/src/neural_tts_daemon/supervisor.py:466-472 | Over every run: a task that took the lock to shut down, or to evict a provider whose time had run out, is done at once if nothing was active; otherwise the child that was active is from then on under a teardown, dead or cut, and the task waits for it or is over |
| `LifecycleProgress.StopFinishes` | daemon/src/neural_tts_daemon/supervisor.py:639-644 | The step in which such a task finishes leaves nothing active, and the child dead if it waited for one; an eviction that stops nothing found that it was not time, or nothing active, and changes nothing |
| `LifecycleProgress.SwitchFinishes` | daemon/src/neural_tts_daemon/supervisor.py:432-448 | A switch that finishes leaves a READY process of the named provider active, and the default moves exactly when one was started |
| `LifecycleProgress.StartAsks` | daemon/src/neural_tts_daemon/supervisor.py:337-354 | Where the lock is free `ensure_ready` without a name can be called; it means the provider of the active process whatever its state, and the default only with nothing active: a READY process is returned untouched, another is stopped for a new one of the same provider |
| `LifecycleProgress.LockCanBeFreed` | daemon/src/neural_tts_daemon/supervisor.py:338-354 | No deadlock: from every state of every run, with no cancellation, whoever holds the lifecycle lock can come to release it |
| `LifecycleProgress.CanAlwaysSwitch` | daemon/src/neural_tts_daemon/supervisor.py:432-448 | From every state of every run, whatever failed, died, was cut or cancelled in it, a switch to any enabled provider can come to leave its READY process active with the lock free |
| `LifecycleProgress.TeardownCanEnd` | daemon/src/neural_tts_daemon/supervisor.py:590-623 | Every teardown in progress can come to its end with the child dead |
| `LifecycleProgress.CancelLetsGo` | daemon/src/neural_tts_daemon/supervisor.py:556-588 | A task cancelled at any await is over without the lock, at once or, while it warms its child up, when that child is killed; until then the child is FAILED and alive, and behind it nothing is active |
| `LifecycleProgress.EnumerationAsksAll` | daemon/src/neural_tts_daemon/supervisor.py:219-239 | An enumeration that comes to publish came to every provider of its list: it went past one that is not installed, took the active READY one as it is, and for any other stopped what was active and went on to start it |
| `LifecycleProgress.EnumerationSurvives` | daemon/src/neural_tts_daemon/supervisor.py:219-250 | Over every run, an enumeration that has taken the lock is under way, publishing or done, unless it is cancelled: no provider that is missing, fails, dies or cannot be stopped ends it |
| `LifecycleProgress.RequestBegins` | daemon/src/neural_tts_daemon/proxy.py:50-60 | A request for a listed voice can begin at any moment, whoever holds the lock, and is routed to what the index holds then |
| `LifecycleProgress.RequestIsSent` | daemon/src/neural_tts_daemon/proxy.py:50-96 | With the lock free and its provider active, READY and reporting the voice, a request is two turns of the lock later sent to that very process, which nothing has touched |
| `LifecycleProgress.CallerGoesOn` | daemon/src/neural_tts_daemon/supervisor.py:384-410 | Whatever holds the lifecycle lock, a caller that was given its process can await a frame unless another caller of it does, be given it, and return or raise |
| `LifecycleProgress.ProcessCanFail` | daemon/src/neural_tts_daemon/supervisor.py:424-428 | A process past its start can be marked FAILED in every state, and can die at any time |
| `LifecycleProgress.TeardownReadsOn` | daemon/src/neural_tts_daemon/supervisor.py:590-599 | A teardown reads whether or not its task still waits for it, is cut exactly when a caller awaits a frame of the child, and leaves the child alive |
| `Supervision.Supervisor.EnsureReady` | daemon/src/neural_tts_daemon/supervisor.py:329-354 | Which provider is meant: a non-empty name, else that of the active process whatever its state, else the default. Of that one, the READY active process is kept untouched, or a new process is started, or none is left; success and failure cases exactly |
| `Supervision.Supervisor.Switch` | daemon/src/neural_tts_daemon/supervisor.py:432-448 | An unknown or missing provider changes nothing; otherwise the new one is READY or none is; the default moves only with an actual start |
| `Supervision.Supervisor.SwitchThenUse` | daemon/src/neural_tts_daemon/supervisor.py:329-448 | After a successful switch, a request that names no provider is given that very process; the switch succeeds exactly when the provider is installed and is READY already or warms up |
| `Supervision.Supervisor.SpawnLocked` | daemon/src/neural_tts_daemon/supervisor.py:476-554 | Reaps whatever is active, then records one new READY child, or kills it and leaves none |
| `Supervision.Supervisor.AskProviders` | daemon/src/neural_tts_daemon/supervisor.py:214-250 | Which providers answer and with what, and whether the formerly active process survives, for any mix of missing, failing, active and stopped providers |
| `Supervision.Supervisor.ReusedHere` | daemon/src/neural_tts_daemon/supervisor.py:220-239 | The active READY provider is reused exactly when no installed provider sorts before it; otherwise it has been shut down by then |
| `Supervision.Supervisor.EnumerateAllVoices` | daemon/src/neural_tts_daemon/supervisor.py:214-298 | No child spawned here is left, and the index holds for each answering provider its voices after allowlist and overrides |
| `Supervision.AllowedKeeps` | daemon/src/neural_tts_daemon/supervisor.py:252-262 | The allowlist keeps exactly the voices it names, in the order reported |
| `Supervision.MatchLocaleOverride` | daemon/src/neural_tts_daemon/supervisor.py:62-69 | The tags of the first pattern that matches, or none |
| `Supervision.ApplyOverrides` | daemon/src/neural_tts_daemon/supervisor.py:264-292 | Each voice in place with its id, gender and name; the tags of the first matching override are its language and, behind it, its extra languages |
| `Supervision.Supervisor.PublishedExactly` | daemon/src/neural_tts_daemon/supervisor.py:252-292 | What is published of a provider's voices: exactly the reported positions its non-empty allowlist names, or all of them, in order, each with the languages of its first matching override or its own |
| `VoiceIndexing.VoiceIndex.SetProviderVoices` | daemon/src/neural_tts_daemon/voice_index.py:41-44 | One provider's raw list is replaced and the whole index agrees with the raw lists again |
| `VoiceIndexing.VoiceIndex.Clear` | daemon/src/neural_tts_daemon/voice_index.py:46-49 | Everything is empty, and agrees |
| `VoiceIndexing.VoiceIndex.Rebuild` | daemon/src/neural_tts_daemon/voice_index.py:84-126 | Whatever the derived fields held, they now are what the raw lists determine |
| `VoiceIndexing.VoiceIndex.IsEmpty` | daemon/src/neural_tts_daemon/voice_index.py:51-52 | True exactly when no provider reported any voice |
| `VoiceIndexing.VoiceIndex.AllVoices` | daemon/src/neural_tts_daemon/voice_index.py:56-63 | The listing is the providers' lists in sorted provider order; it has no public id twice and exactly the ids of the lookup |
| `VoiceIndexing.VoiceIndex.CountAll` | daemon/src/neural_tts_daemon/voice_index.py:91-94 | The counts do not depend on the order in which the dictionary yields providers |
| `VoiceIndexing.CountAnyOrder` | daemon/src/neural_tts_daemon/voice_index.py:91-94 | Counting over any permutation of the providers gives the same counts |
| `VoiceIndexing.ListedResolves` | daemon/src/neural_tts_daemon/voice_index.py:96-126 | Every listed voice resolves to its own provider and to a bare id that provider reported, with the gender, languages and display name of that report under the public id |
| `VoiceIndexing.ListedOnce` | daemon/src/neural_tts_daemon/voice_index.py:96-126 | No public id is listed twice, within a provider or across providers |
| `VoiceIndexing.LookupIsListed` | daemon/src/neural_tts_daemon/voice_index.py:96-126 | Every entry of the lookup is listed |
| `VoiceIndexing.FirstClaimWins` | daemon/src/neural_tts_daemon/voice_index.py:117-125 | The lookup has exactly the public ids claimed, each with its first claimant in sorted order |
| `VoiceIndexing.LookupInverts` | daemon/src/neural_tts_daemon/voice_index.py:117-125 | A reported voice keeps its entry unless its public id was claimed earlier; with distinct public ids the lookup inverts the naming |
| `VoiceIndexing.PublicNamesDistinct` | daemon/src/neural_tts_daemon/voice_index.py:96-116 | With dotless provider names, public ids are distinct exactly when each provider's ids are and no unsuffixed id equals a suffixed one |
| `VoiceIndexing.SuffixedExactly` | daemon/src/neural_tts_daemon/voice_index.py:84-94 | An id is suffixed if and only if two providers report it or one provider lists it at two positions |
| `VoiceIndexing.SuffixedMeansShared` | daemon/src/neural_tts_daemon/voice_index.py:84-94 | "Suffixed exactly when two providers report it" holds of every id if and only if every id that some provider lists twice is also reported by another provider; distinct ids per provider are enough |
| `VoiceIndexing.SuffixInjective` | daemon/src/neural_tts_daemon/voice_index.py:100-101 | A suffixed id determines the bare id and the provider |
| `VoiceIndexing.DuplicateInOneProvider` | daemon/src/neural_tts_daemon/voice_index.py:84-94 | The failing input: an id only one provider reports, listed there twice, is suffixed, and its second copy dropped |
| `VoiceIndexing.SameRawSameIndex` | daemon/src/neural_tts_daemon/voice_index.py:84-126 | Two indexes with the same raw lists agree, whatever calls built them |
| `Ordering.SortsUnique` | daemon/src/neural_tts_daemon/voice_index.py:98 | The sorted order of a set of names is unique |
| `Ordering.BelowIs` | daemon/src/neural_tts_daemon/voice_index.py:98 | The order is the dictionary order: at the first difference the smaller string ends or has the smaller character |
| `Chunker.LastMatchEnd` | providers/qwen3-tts/src/neural_tts_provider_qwen3_tts/chunker.py:76-79 | The last match of the regular-expression scan is the last soft break of the head |
| `Chunker.CutIsWhere` | providers/qwen3-tts/src/neural_tts_provider_qwen3_tts/chunker.py:76-82 | The cut is behind the last soft break if there is one, even before a later space; else behind the last space past the first character; else at the end of the head |
| `Chunker.CutInsideWord` | providers/qwen3-tts/src/neural_tts_provider_qwen3_tts/chunker.py:75-82 | A cut falls inside a word exactly when the head has no soft break and no space past its first character and the cap itself is inside a word |
| `Chunker.WordsAreCut` | providers/longcat-audiodit/src/neural_tts_provider_longcat_audiodit/chunker.py:55-82 | "Never mid-word" does not hold of a word longer than the cap, nor of a short word behind a tab |
| `Chunker.ProgressExactly` | providers/qwen3-tts/src/neural_tts_provider_qwen3_tts/chunker.py:75-85 | A turn of the cutting loop shortens the rest if and only if the cap, which is configurable, is positive |
| `Chunker.SplitOversized` | providers/qwen3-tts/src/neural_tts_provider_qwen3_tts/chunker.py:70-87 | The loop ends and gives the non-empty pieces of the recursive cutting |
| `Chunker.RawPiecesKeep` | providers/qwen3-tts/src/neural_tts_provider_qwen3_tts/chunker.py:75-87 | Every piece is at most the cap and the pieces hold the sentence's non-whitespace characters in order |
| `Chunker.RawPiecesWords` | providers/qwen3-tts/src/neural_tts_provider_qwen3_tts/chunker.py:75-87 | The pieces hold the words of the sentence, and one more for every cut that falls inside a word |
| `Chunker.RawPiecesAreSlices` | providers/qwen3-tts/src/neural_tts_provider_qwen3_tts/chunker.py:75-87 | The pieces are slices of the sentence, with nothing but whitespace before, between and behind them |
| `Chunker.ExpandKeeps` | providers/qwen3-tts/src/neural_tts_provider_qwen3_tts/chunker.py:95-100 | The expanded sentence list has non-empty entries within the cap and the same non-whitespace characters |
| `Chunker.PackAll` | providers/qwen3-tts/src/neural_tts_provider_qwen3_tts/chunker.py:102-114 | The packing loop, with its running length, computes the greedy groups, joined |
| `Chunker.PackIsPartition` | providers/qwen3-tts/src/neural_tts_provider_qwen3_tts/chunker.py:102-114 | The groups are consecutive, cover everything, and each is one sentence or joins to at most the target |
| `Chunker.PackIsOptimal` | providers/qwen3-tts/src/neural_tts_provider_qwen3_tts/chunker.py:102-114 | Every other cut into consecutive groups that fit has at least as many groups |
| `Chunker.PackIsGreedy` | providers/qwen3-tts/src/neural_tts_provider_qwen3_tts/chunker.py:102-114 | No group could have taken the first sentence of the next |
| `Chunker.GreedyIsUnique` | providers/qwen3-tts/src/neural_tts_provider_qwen3_tts/chunker.py:102-114 | Only one cut into consecutive groups that fit has that property |
| `Chunker.ChunksAreFewest` | providers/qwen3-tts/src/neural_tts_provider_qwen3_tts/chunker.py:90-114 | The chunks of a text are as few as the expanded sentences allow |
| `Chunker.ChunksKeep` | providers/qwen3-tts/src/neural_tts_provider_qwen3_tts/chunker.py:90-114 | Every chunk is non-empty and within target or cap; together they hold the sentences' non-whitespace characters in order |
| `Chunker.ChunksWords` | providers/qwen3-tts/src/neural_tts_provider_qwen3_tts/chunker.py:90-114 | The chunks hold the words of the sentences, in order, if and only if no cut falls inside a word |
| `Chunker.RegexSentencesSplit` | providers/qwen3-tts/src/neural_tts_provider_qwen3_tts/chunker.py:65-67 | The fallback's sentences are slices of the stripped text: with the whitespace between them, each stretch behind a stop, they are that text again |
| `Chunker.RegexSegment` | providers/qwen3-tts/src/neural_tts_provider_qwen3_tts/chunker.py:65-67 | The sentences with non-empty stretches of whitespace between them, each behind a stop, are the stripped text; none has such a stretch inside; the words are those of the text |
| `Chunker.StrippedKeeps` | providers/qwen3-tts/src/neural_tts_provider_qwen3_tts/chunker.py:58-67 | Stripping parts and dropping blank ones conserves the non-whitespace characters |
| `Chunker.Segment` | providers/qwen3-tts/src/neural_tts_provider_qwen3_tts/chunker.py:47-62 | The library's segments stripped, or the whole text when all are blank, or the fallback's sentences without it; non-empty, and the text conserved; without the library its words too |
| `Chunker.Chunk` | providers/qwen3-tts/src/neural_tts_provider_qwen3_tts/chunker.py:90-114 | The whole function: the chunks of this text's sentences, with conservation and bounds, none for a blank text; without the library the words of the text are kept if and only if no cut falls inside one |
| `Text.SplitAfter` | bin/neural-tts-say:271 | The pieces between the maximal stretches of whitespace that stand behind a stop |
| `Text.PiecesSplit` | bin/neural-tts-say:271 | Woven with those stretches they are the text again; no piece has such a place inside, each but the last ends in a stop, none but the first begins with whitespace |
| `Text.WordsConcat` | bin/neural-tts-say:264 | The words of a concatenation are those of its parts, or one fewer where a word goes on across the seam |
| `Text.JoinWords` | providers/qwen3-tts/src/neural_tts_provider_qwen3_tts/chunker.py:107 | Joining with spaces keeps the words |
| `Text.JoinInk` | providers/qwen3-tts/src/neural_tts_provider_qwen3_tts/chunker.py:107 | Joining with spaces keeps the non-whitespace characters |
| `Segmenter.SplitParagraphs` | bin/neural-tts-say:263 | The scan yields the paragraphs of the recursive definition |
| `Segmenter.ParagraphsWeave` | bin/neural-tts-say:263 | Paragraphs and the separators between them put the text back together, and every separator is a blank line |
| `Segmenter.ParagraphsAreWhole` | bin/neural-tts-say:263 | No paragraph contains a blank line |
| `Segmenter.CollapseSpaces` | bin/neural-tts-say:264 | The line holds the words of the paragraph in order, with single spaces between them and none at the ends |
| `Segmenter.SentencesInKeep` | bin/neural-tts-say:264-271 | The sentences of a paragraph hold its words, and with the spaces behind the stops they are its one line |
| `Segmenter.PackSentences` | bin/neural-tts-say:270-286 | The nested loops, hard splits included, compute a greedy packing of sentence fragments |
| `Segmenter.FullPieceStandsAlone` | bin/neural-tts-say:272-277 | A hard-split piece is always a segment of its own |
| `Segmenter.HardSplitIs` | bin/neural-tts-say:272-277 | Glued together the pieces are the sentence, and each but the last has exactly max characters |
| `Segmenter.FragmentsKeep` | bin/neural-tts-say:271-277 | Fragments have 1 to max characters and conserve the sentences |
| `Segmenter.SegmentsAreFewest` | bin/neural-tts-say:270-286 | No other packing of the fragments into segments that fit is shorter |
| `Segmenter.SegmentParagraph` | bin/neural-tts-say:263-286 | One paragraph's segments: conservation, bounds, and the words of the paragraph if and only if no hard split falls inside one |
| `Segmenter.SplitSegments` | bin/neural-tts-say:259-287 | Every segment has 1 to max characters, none crosses a blank line, and the segments hold the words of the text in order if and only if no hard split falls inside one; each such split adds one |
| `Segmenter.ShortSentencesKeepWords` | bin/neural-tts-say:259-287 | Where no sentence is longer than max there is no such split |
| `Playback.ThresholdIsExact` | providers/qwen3-tts/src/neural_tts_provider_qwen3_tts/provider.py:293-303 | A prebuffer target makes every admissible piece gap-free if and only if it is at least D(1-r) + r*a, or D/(1+r) when a whole yield no longer fits |
| `Playback.EnoughIsGapFree` | providers/qwen3-tts/src/neural_tts_provider_qwen3_tts/provider.py:384-395 | The sufficient half, for any number of yields |
| `Playback.NotEnoughHasGap` | providers/qwen3-tts/src/neural_tts_provider_qwen3_tts/provider.py:384-395 | Below the threshold, an admissible piece that runs dry |
| `Playback.PrebufferIsGapFree` | providers/qwen3-tts/src/neural_tts_provider_qwen3_tts/provider.py:301-303 | The provider's own target is gap-free whenever est_D(1-r)^2/r + safety >= r*a |
| `Playback.CumulativeThresholdIsExact` | providers/qwen3-tts/src/neural_tts_provider_qwen3_tts/provider.py:301-303 | If the rate r holds only from the start of production, a target makes every such piece gap-free if and only if it is no shorter than the longest piece: nothing less than holding the whole piece suffices |
| `Playback.LessThanTheWholePieceSuffices` | README.md:528-533 | The prebuffer the documentation says is required is more than required |
| `Playback.RealTimeIsGapFree` | providers/qwen3-tts/src/neural_tts_provider_qwen3_tts/provider.py:298-300 | At or above real time nothing is held back and playback has no gap, if no yield is longer than the first |
| `JitterBuffer.RtfOf` | providers/qwen3-tts/src/neural_tts_provider_qwen3_tts/provider.py:97-101 | A positive rate, audio seconds per compute second, once any compute time was reported |
| `JitterBuffer.Bridge.BridgeFast` | providers/qwen3-tts/src/neural_tts_provider_qwen3_tts/provider.py:232-272 | Emits the producer's chunks in order, to the end, an error, a cancellation at the queue (before the first chunk too) or the consumer's leaving; the producer has settled at the exit unless a further cancellation arrived during the wait for it |
| `JitterBuffer.Bridge.BridgeBuffered` | providers/qwen3-tts/src/neural_tts_provider_qwen3_tts/provider.py:274-401 | What comes out, without the target: with no compute time observed nothing leaves before the initial seconds are held or the piece ends, at a rate of 1 or more every yield at its own time, below 1 nothing before the estimated deficit and the margin are held; all that is held leaves at the first yield at which they are. Cut where the consumer leaves or is cancelled at the queue, which drops what is held; estimates carried on; the producer settled unless a further cancellation arrived during the wait for it |
| `JitterBuffer.TargetIs` | providers/qwen3-tts/src/neural_tts_provider_qwen3_tts/provider.py:293-303 | The target from the estimates, without division: initial; zero; or, times the rate, the estimated seconds times what the rate lacks to 1, plus the margin |
| `JitterBuffer.BufferedIs` | providers/qwen3-tts/src/neural_tts_provider_qwen3_tts/provider.py:331-401 | The specified sequence behind that target has the timing stated for BridgeBuffered |
| `JitterBuffer.Bridge.OnItem` | providers/qwen3-tts/src/neural_tts_provider_qwen3_tts/provider.py:374-395 | Each item keeps: passthrough and nothing held, or everything held and the target not reached |
| `JitterBuffer.BufferIsTransparent` | providers/qwen3-tts/src/neural_tts_provider_qwen3_tts/provider.py:331-401 | On a normal end the buffered path has yielded the fast path's sequence, otherwise a prefix of it |
| `JitterBuffer.NothingEarly` | providers/qwen3-tts/src/neural_tts_provider_qwen3_tts/provider.py:347-353 | Nothing leaves before the held audio reached the target or the piece ended |
| `JitterBuffer.OutputPlaysThrough` | providers/qwen3-tts/src/neural_tts_provider_qwen3_tts/provider.py:331-401 | A player of the actual output is never left waiting exactly when the schedule is gap-free |
| `JitterBuffer.ProviderPlaysThrough` | providers/qwen3-tts/src/neural_tts_provider_qwen3_tts/provider.py:293-401 | End to end: behind the target computed from the request's own estimates, and with the arithmetic condition, what comes out plays without a gap |
| `JitterBuffer.ShortYieldsPlayThrough` | providers/qwen3-tts/src/neural_tts_provider_qwen3_tts/provider.py:293-401 | The fluid limit: whatever has been observed, with a rate below 1 and no negative safety margin, there is a yield length up to which every such piece plays without a gap behind that target |
| `JitterBuffer.HeldBackPlaysThrough` | providers/qwen3-tts/src/neural_tts_provider_qwen3_tts/provider.py:347-353 | A piece that never reaches the target is held whole and plays without a gap |
| `JitterBuffer.SynthesizeStream` | providers/qwen3-tts/src/neural_tts_provider_qwen3_tts/provider.py:211-220 | Over all pieces of a request: exactly the pieces' outputs in turn, up to the first failure or cancellation or the consumer's leaving, and which of them it was; each piece that is begun leaves, behind the chunks of those before it, as stated for BridgeBuffered with what those have shown |
| `JitterBuffer.SeenIsMade` | providers/qwen3-tts/src/neural_tts_provider_qwen3_tts/provider.py:85-105 | What a request has seen: if every yield so far was made at r seconds of audio for a reported second of compute time, the observed rate is r; the characters are those of the pieces |
| `JitterBuffer.RequestIsTransparent` | providers/qwen3-tts/src/neural_tts_provider_qwen3_tts/provider.py:211-220 | That sequence is a prefix of all pieces' audio in order, and all of it when every piece ends |
| `Framing.StreamReader.RecvExact` | bin/neural-tts-say:78-85 | Exactly n bytes however the stream is split into receives, or the short read with nothing left |
| `Framing.StreamReader.ReadMessage` | daemon/src/neural_tts_daemon/protocol.py:30-46 | One frame or the precise failure, as a function of the bytes to come |
| `Framing.StreamReader.ReadAll` | daemon/src/neural_tts_daemon/protocol.py:30-46 | All frames up to the first failure, independent of the splitting |
| `Framing.StreamWriter.WriteMessage` | daemon/src/neural_tts_daemon/protocol.py:49-54 | Appends one frame, or refuses an oversized payload without writing |
| `Framing.FrameReads` | daemon/src/neural_tts_daemon/protocol.py:30-54 | A written frame reads back exactly when its payload has 1 byte to 16 MiB |
| `Framing.BigEndianOrders` | daemon/src/neural_tts_daemon/protocol.py:30-54 | Lengths compare as their four bytes do from the front: the first byte counts most |
| `Framing.RoundTrip` | daemon/src/neural_tts_daemon/protocol.py:30-54 | Any list of such payloads reads back as itself, then the clean close |
| `Framing.Truncated` | daemon/src/neural_tts_daemon/protocol.py:30-40 | A truncated stream gives its complete frames, then the error that fits the place of the cut |
| `Framing.DecodeIsSound` | daemon/src/neural_tts_daemon/protocol.py:30-46 | Whatever bytes arrive, the payloads read are the ones framed at their front |
| `Framing.EmptyFrameIsUnreadable` | daemon/src/neural_tts_daemon/protocol.py:35-36 | The writer accepts an empty payload that every reader rejects |
| `VoiceCache.FileNameInjective` | providers/pocket-tts/src/neural_tts_provider_pocket_tts/provider.py:196 | The cache file name determines voice id and modification time, dots in ids included |
| `VoiceCache.GlobReaches` | providers/pocket-tts/src/neural_tts_provider_pocket_tts/provider.py:214 | The clean-up glob reaches the files of this voice and of voices whose id extends it by a dot, no others |
| `VoiceCache.Provider.GetVoiceState` | providers/pocket-tts/src/neural_tts_provider_pocket_tts/provider.py:167-225 | The state is the encoding of the clip as it is now; which replies are errors; memory, and exactly which cache files there are afterwards: all as before unless the clip had to be encoded, and then without the old files of the glob that could be removed and with the new one if it could be written |
| `VoiceCache.Provider.Request` | providers/pocket-tts/src/neural_tts_provider_pocket_tts/provider.py:108-125 | The reply of a provider without any cache; lacking the cloning model, a cached encoding of the same clip may stand in |
| `VoiceCache.Provider.Run` | providers/pocket-tts/src/neural_tts_provider_pocket_tts/provider.py:45-225 | The same for every request of any run of requests, rescans, edits, removals, restarts, failed unlinks and failed exports |
| `Reply.Connection.Pump` | daemon/src/neural_tts_daemon/proxy.py:132-168 | What the pump writes and how it ends; the audio written is that of the first chunks, resampled, then what the resampler held once the stream has ended, converted sample by sample; all of it if the pump finished |
| `Reply.FramesAre` | daemon/src/neural_tts_daemon/proxy.py:138-163 | One frame for each chunk that resamples to anything, none empty or over the limit, in order, none left out before the last one written; the client has left exactly when one more was written than it stayed for |
| `Reply.FinishesExactly` | daemon/src/neural_tts_daemon/proxy.py:138-168 | The pump finishes if and only if it is not cancelled, the synthesis does not raise, every chunk is whole samples and fits in a frame, and the client stays |
| `Reply.Connection.Handle` | daemon/src/neural_tts_daemon/proxy.py:26-129 | The reply is grammatical whatever happens, cancellation at any await before or inside the stream included; when it is empty, one error, or ends in the one End frame, exactly; and the audio in it is that of the pump |
| `Reply.PrefixGrammatical` | proto/neural_tts.proto:11-13 | What a client that leaves early has received is still a prefix of nothing, one error, or header, chunks and one end |
| `Reply.FailureIsSilent` | daemon/src/neural_tts_daemon/proxy.py:140-168 | A synthesis that fails writes what one that ends there writes: the client cannot tell them apart |
| `Reply.MoreSamples` | daemon/src/neural_tts_daemon/resample.py:21-23 | Converting chunk by chunk is converting the concatenation |
| `Reply.ConversionError` | daemon/src/neural_tts_daemon/resample.py:48-54 | Within [-1, 1] a sample is off by less than one step, towards zero, symmetrically |
| `Reply.ConversionMonotone` | daemon/src/neural_tts_daemon/resample.py:48-54 | The conversion keeps the order of samples |
| `Reply.ConversionClips` | daemon/src/neural_tts_daemon/resample.py:48-54 | At 1 and above a sample is 32767; below -1 it is clipped at -32768 |
| `ListVoices.Module.WriteRow` | bin/sd-neural-tts:574-608 | At most one row, under the display name unless that was written for this language before, then under the id; the name map stays the last owner of each name; a wanted row is missing only if both names were taken |
| `ListVoices.Module.ListAll` | bin/sd-neural-tts:552-644 | No (name, lang) row twice; names from the voices; only languages the filter asks for; with ids apart from names, every voice has a row in each of its languages (and in US English if it is English) that the filter asks for, and, without one, every row selects its own voice if and only if the first listed voice of each display name is due wherever a later one is |
| `ListVoices.BaseIs` | bin/sd-neural-tts:602 | A voice is shown by its stripped display name; a blank one gives way to the id, an empty one to the stripped id |
| `ListVoices.Module.DueExactly` | bin/sd-neural-tts:617-636 | A voice is due in its own languages, and in US English if one of them is English |
| `ListVoices.Module.WantedExactly` | bin/sd-neural-tts:580-588 | What a filter lets through: the languages that agree with the one asked for before the first hyphen, letter case aside, and then only the variant asked for, if any; without a language everything |
| `ListVoices.Module.SelectsIffCovers` | bin/sd-neural-tts:574-636 | That equivalence, for the rows a finished listing wrote |
| `ListVoices.Module.PickRow` | bin/sd-neural-tts:457-467 | When different voices share no name, a row's name sent back selects the voice of that row, reserved words aside |
| `ListVoices.DisjointRoundTrip` | bin/sd-neural-tts:594-608 | Disjoint sets of display name and id are enough for that, whatever the filter |
| `ListVoices.SelectsExactly` | bin/sd-neural-tts:589-590 | Every row selects its own voice if and only if no name is listed for two voices |
| `ListVoices.SharedNameMisdirects` | bin/sd-neural-tts:552-644 | Two voices of one display name, en-US and fr-FR, listed by the module: the name sent back selects the wrong voice for one of the two rows |

## Left out

- RequestPipe.NoCrossTalk: holds while no drain was given up with something left in the pipe, because the code gives no such guarantee afterwards; the two leak lemmas give the runs.
- RequestPipe.DeliveryIsExact: leaves out callers that a teardown's read took a chunk from, because the code gives them no such guarantee; TakenNeverExact says what they get instead.
- RequestPipe.TeardownTakesChunk: a teardown whose read meets a pending read takes nothing from the pipe; what that does to the process is in Lifecycle.
- Lifecycle.AtMostOneAlive: holds while no live child is left neither active nor being connected, because the code gives no such guarantee afterwards; StrayMeansTwo shows it.
- Exchange.Serve: has one caller at a time; interleavings are the subject of RequestPipe.
- Supervision.Supervisor.EnsureReady: has one task at a time and no cancellation; those are the subject of Lifecycle.
- Supervision.MatchLocaleOverride: takes glob matching as a given relation.
- Chunker.Segment: takes the sentence library's segments as an argument that conserves non-whitespace characters.
- VoiceCache.Provider.GetVoiceState: the clip does not change during one call, a modification time determines what the clip holds, exports are all-or-nothing, and ids hold no glob characters.
- Reply.ConversionError: is about exact reals; single-precision rounding and NaN are not modelled.
- JitterBuffer.Bridge.BridgeBuffered: the queue between the producer thread and the consumer is a sequence of arrivals; the thread itself is only settled or not.
- JitterBuffer.SynthesizeStream: no further cancellation arrives while the generator waits for a producer; BridgeBuffered has that case.
- ListVoices.Module.ListAll: language canonicalisation and lower-casing are given functions; line breaks inside names are not modelled.
- Frames are read whole: cancelling a read in the middle of a frame is not modelled.
- Timeouts are nondeterministic choices; seconds are reals; there is no clock.
- `Supervisor.reload_voices`, which sets no drain flag and has no caller in the daemon.
- Protocol buffer encoding, which is taken as opaque payload bytes, and parse failures.
- The models, tokenizers and the resampler's filter.
- Sockets, socket activation, environment assembly, process arguments, logging and audio output.
- Configuration files, the control socket, directory scans for voices and device selection.
- omnivoice's prompt cache, which is keyed by voice id alone and so does not see edits within one process.
- Slot-based voice selection (`MALE1` and the like) and SSML text extraction.
