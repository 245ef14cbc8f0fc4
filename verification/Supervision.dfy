/**
  The supervisor with one task at a time: starting, switching, evicting and stopping the
  provider process, and `enumerate_all_voices`, which asks every enabled provider for its
  voices, briefly spawned unless it is the active one, and rebuilds the voice index from
  the answers. Lifecycle has the interleavings and cancellations.
*/
module Supervision {
  import opened Options
  import opened Ordering
  import opened VoiceIndexing
  import opened Wire

  datatype Override = Override(pattern: string, tags: seq<string>)

  datatype Proc = Proc(name: string, pid: nat, state: ProviderState, voices: seq<Voice>)

  // ---- allowlists ---------------------------------------------------------------

  function Allowed(voices: seq<Voice>, allow: set<string>): seq<Voice> {
    if voices == [] then []
    else
      var v := voices[|voices| - 1];
      Allowed(voices[..|voices| - 1], allow) + (if v.id in allow then [v] else [])
  }

  // Where the allowed voices stand.
  function Positions(voices: seq<Voice>, allow: set<string>): (at: seq<nat>)
    ensures forall k :: 0 <= k < |at| ==> at[k] < |voices|
    ensures forall j, k :: 0 <= j < k < |at| ==> at[j] < at[k]
  {
    if voices == [] then []
    else
      var n := |voices| - 1;
      Positions(voices[..n], allow) + (if voices[n].id in allow then [n] else [])
  }

  /** The allowlist keeps exactly the voices it names, in the order the provider gave. */
  lemma {:induction false} AllowedKeeps(voices: seq<Voice>, allow: set<string>)
    ensures |Allowed(voices, allow)| == |Positions(voices, allow)|
    ensures forall k :: 0 <= k < |Positions(voices, allow)| ==>
      Allowed(voices, allow)[k] == voices[Positions(voices, allow)[k]]
    ensures forall i: nat :: i < |voices| ==> (i in Positions(voices, allow) <==> voices[i].id in allow)
  {
    if voices != [] {
      var n := |voices| - 1;
      AllowedKeeps(voices[..n], allow);
      assert n !in Positions(voices[..n], allow);
      forall i: nat | i < |voices| ensures i in Positions(voices, allow) <==> voices[i].id in allow {
        if i < n { assert voices[..n][i] == voices[i]; }
      }
    }
  }

  method KeepAllowed(voices: seq<Voice>, allow: set<string>) returns (kept: seq<Voice>)
    ensures kept == Allowed(voices, allow)
  {
    kept := [];
    for i := 0 to |voices|
      invariant kept == Allowed(voices[..i], allow)
    {
      assert voices[..i + 1][..i] == voices[..i];
      if voices[i].id in allow { kept := kept + [voices[i]]; }
    }
    assert voices[..|voices|] == voices;
  }

  // ---- locale overrides ------------------------------------------------------------

  // The first override whose pattern matches.
  function FirstMatch(entries: seq<Override>, id: string, matches: (string, string) -> bool): (k: Option<nat>)
    ensures k.Some? ==> k.value < |entries| && matches(id, entries[k.value].pattern)
    ensures k.Some? ==> forall j :: 0 <= j < k.value ==> !matches(id, entries[j].pattern)
    ensures k.None? ==> forall j :: 0 <= j < |entries| ==> !matches(id, entries[j].pattern)
  {
    if entries == [] then None
    else if matches(id, entries[0].pattern) then Some(0)
    else match FirstMatch(entries[1..], id, matches) case None => None case Some(k) => Some(k + 1)
  }

  // `_match_locale_override`
  method MatchLocaleOverride(id: string, entries: seq<Override>, matches: (string, string) -> bool)
    returns (tags: Option<seq<string>>)
    ensures tags == match FirstMatch(entries, id, matches) case None => None case Some(k) => Some(entries[k].tags)
  {
    for i := 0 to |entries|
      invariant forall j :: 0 <= j < i ==> !matches(id, entries[j].pattern)
    {
      if matches(id, entries[i].pattern) { return Some(entries[i].tags); }
    }
    tags := None;
  }

  function Localized(v: Voice, entries: seq<Override>, matches: (string, string) -> bool): (w: Voice)
    requires forall e :: e in entries ==> e.tags != []
    ensures w.id == v.id && w.gender == v.gender && w.displayName == v.displayName
    ensures (forall k :: 0 <= k < |entries| ==> !matches(v.id, entries[k].pattern)) ==> w == v
    ensures forall k :: 0 <= k < |entries| && matches(v.id, entries[k].pattern)
                        && (forall j :: 0 <= j < k ==> !matches(v.id, entries[j].pattern)) ==>
              [w.language] + w.extraLanguages == entries[k].tags
  {
    match FirstMatch(entries, v.id, matches)
    case None => v
    case Some(k) =>
      assert entries[k] in entries;
      v.(language := entries[k].tags[0], extraLanguages := entries[k].tags[1..])
  }

  method ApplyOverrides(voices: seq<Voice>, entries: seq<Override>, matches: (string, string) -> bool)
    returns (patched: seq<Voice>)
    requires forall e :: e in entries ==> e.tags != []
    ensures |patched| == |voices|
    ensures forall i :: 0 <= i < |voices| ==> patched[i] == Localized(voices[i], entries, matches)
  {
    patched := [];
    for i := 0 to |voices|
      invariant |patched| == i && forall j :: 0 <= j < i ==> patched[j] == Localized(voices[j], entries, matches)
    {
      var v := voices[i];
      var tags := MatchLocaleOverride(v.id, entries, matches);
      if tags.None? {
        patched := patched + [v];
      } else {
        var k := FirstMatch(entries, v.id, matches).value;
        assert entries[k] in entries;
        patched := patched + [Voice(v.id, tags.value[0], v.gender, v.displayName, tags.value[1..])];
      }
    }
  }

  // ---- the supervisor ------------------------------------------------------------------

  class Supervisor {
    const registry: map<string, bool>   // enabled providers, and whether each is installed
    const allowlists: map<string, set<string>>
    const overrides: map<string, seq<Override>>
    const matches: (string, string) -> bool
    const warmup: (string, bool) -> Option<seq<Voice>>   // spawned eagerly or not: its voices, or failure
    const eagerStartup: bool
    const idleTimeout: int
    const index: VoiceIndex
    var active: Option<Proc>
    var children: set<nat>   // live child processes
    var nextPid: nat
    var defaultProvider: string

    predicate Installed(name: string) {
      name in registry && registry[name]
    }

    ghost predicate Valid()
      reads this, index
    {
      && index.Valid()
      && (forall name, e :: name in overrides && e in overrides[name] ==> e.tags != [])
      && children == (if active.Some? then {active.value.pid} else {})
      && (active.Some? ==> active.value.pid < nextPid)
    }

    constructor (registry: map<string, bool>, allowlists: map<string, set<string>>,
                 overrides: map<string, seq<Override>>,
                 matches: (string, string) -> bool, warmup: (string, bool) -> Option<seq<Voice>>,
                 eagerStartup: bool, idleTimeout: int, defaultProvider: string)
      requires forall name, e :: name in overrides && e in overrides[name] ==> e.tags != []
      ensures Valid() && active == None && fresh(index)
    {
      this.registry, this.allowlists, this.overrides, this.matches := registry, allowlists, overrides, matches;
      this.warmup, this.eagerStartup, this.idleTimeout := warmup, eagerStartup, idleTimeout;
      this.defaultProvider := defaultProvider;
      active, children, nextPid := None, {}, 0;
      index := new VoiceIndex([]);
    }

    // `_shutdown_locked`: the child ends by itself or is killed.
    method ShutdownLocked()
      requires Valid()
      modifies `active, `children
      ensures Valid() && active == None && children == {}
    {
      if active.None? { return; }
      children := children - {active.value.pid};
      active := None;
    }

    // `_spawn_locked`, with the warmup.
    method SpawnLocked(name: string, eager: bool) returns (ok: bool)
      requires Valid()
      modifies `active, `children, `nextPid
      ensures Valid()
      ensures !Installed(name) ==> !ok && active == old(active) && children == old(children)
      ensures Installed(name) ==> ok == warmup(name, eager).Some?
      ensures Installed(name) && !ok ==> active == None
      ensures ok ==> active == Some(Proc(name, old(nextPid), READY, warmup(name, eager).value))
      ensures nextPid >= old(nextPid)
    {
      if name !in registry || !registry[name] { return false; }
      if active.Some? { ShutdownLocked(); }
      var pid := nextPid;
      nextPid := nextPid + 1;
      children := children + {pid};
      active := Some(Proc(name, pid, STARTING, []));
      var voices := warmup(name, eager);
      if voices.None? {
        children := children - {pid};
        active := None;
        return false;
      }
      active := Some(Proc(name, pid, READY, voices.value));
      ok := true;
    }

    predicate IsActive(name: string)
      reads this
    {
      active.Some? && active.value.name == name && active.value.state == READY
    }

    function Target(name: Option<string>): string
      reads this
    {
      if name.Some? && name.value != "" then name.value
      else if active.Some? then active.value.name
      else defaultProvider
    }

    // What asking for this provider comes to, given the active process and the next id before.
    predicate Readied(wanted: string, was: Option<Proc>, firstPid: nat, ok: bool)
      reads this
    {
      if was.Some? && was.value.name == wanted && was.value.state == READY then ok && active == was
      else
        && (ok <==> Installed(wanted) && warmup(wanted, true).Some?)
        && (ok ==> active.Some? && active.value.name == wanted && active.value.state == READY)
        && (ok ==> active.value.pid >= firstPid && active.value.voices == warmup(wanted, true).value)
        && (!ok ==> active == None)
    }

    /** `ensure_ready`: a READY process of the provider asked for, reused or new, or nothing at
        all: a start that fails has already stopped the process it was to replace. A name that
        is given wins; without one it is the active process's provider, whatever its state, and
        the default only when nothing is active. */
    method EnsureReady(name: Option<string>) returns (ok: bool)
      requires Valid()
      modifies `active, `children, `nextPid
      ensures Valid()
      ensures name.Some? && name.value != "" ==> Readied(name.value, old(active), old(nextPid), ok)
      ensures (name.None? || name.value == "") && old(active).Some? ==>
                Readied(old(active).value.name, old(active), old(nextPid), ok)
      ensures (name.None? || name.value == "") && old(active).None? ==>
                Readied(old(defaultProvider), old(active), old(nextPid), ok)
      ensures active == old(active) ==> children == old(children)
    {
      var target := Target(name);
      if active.Some? && active.value.name == target && active.value.state == READY { return true; }
      if active.Some? { ShutdownLocked(); }
      ok := SpawnLocked(target, true);
    }

    /** `switch`: an unknown or missing provider changes nothing; otherwise the new provider
        is the READY one, or none is. The default moves only with an actual start. */
    method Switch(newName: string) returns (ok: bool)
      requires Valid()
      modifies `active, `children, `nextPid, `defaultProvider
      ensures Valid()
      ensures !Installed(newName) ==> !ok && active == old(active)
      ensures ok ==> IsActive(newName)
      ensures Installed(newName) && !ok ==> active == None
      ensures Installed(newName) && !old(IsActive(newName)) ==> ok == warmup(newName, eagerStartup).Some?
      ensures old(IsActive(newName)) && Installed(newName) ==> ok && active == old(active)
      ensures defaultProvider == if ok && !old(IsActive(newName)) then newName else old(defaultProvider)
      ensures children <= old(children) || (ok && active.value.pid >= old(nextPid) && children == {active.value.pid})
    {
      if newName !in registry || !registry[newName] { return false; }
      if active.Some? && active.value.name == newName && active.value.state == READY { return true; }
      if active.Some? { ShutdownLocked(); }
      ok := SpawnLocked(newName, eagerStartup);
      if ok { defaultProvider := newName; }
    }

    /** After a successful switch, a request that names no provider is given that very process. */
    method SwitchThenUse(newName: string) returns (switched: bool, ready: bool, ghost made: Option<Proc>)
      requires Valid()
      modifies `active, `children, `nextPid, `defaultProvider
      ensures Valid()
      ensures switched ==> ready && active == made
      ensures switched ==> made.Some? && made.value.name == newName && made.value.state == READY
      ensures switched <==> Installed(newName) && (old(IsActive(newName)) || warmup(newName, eagerStartup).Some?)
    {
      switched := Switch(newName);
      made := active;
      ready := EnsureReady(None);
    }

    /** One turn of the idle loop; the idle time is read again under the lock. */
    method EvictIdle(idle: int, idleUnderLock: int)
      requires Valid()
      modifies `active, `children
      ensures Valid()
      ensures active == old(active) || active == None
      ensures old(active).Some? ==>
                (active == None <==> old(active).value.state == READY
                                     && 0 < idleTimeout <= idle && idleTimeout <= idleUnderLock)
    {
      if idleTimeout <= 0 { return; }
      if active.None? || active.value.state != READY { return; }
      if idle >= idleTimeout {
        if active.Some? && idleUnderLock >= idleTimeout { ShutdownLocked(); }
      }
    }

    // A drain that saw no audio_end.
    method MarkFailed()
      requires Valid()
      modifies `active
      ensures Valid() && (active.Some? <==> old(active).Some?)
      ensures active.Some? ==> active.value == old(active).value.(state := FAILED)
    {
      if active.Some? { active := Some(active.value.(state := FAILED)); }
    }

    // Reuse happens only while nothing has been spawned: for the active READY provider,
    // when no installed provider sorts before it.
    ghost predicate Reused(was: Option<Proc>, name: string) {
      && Installed(name) && was.Some? && was.value.state == READY && was.value.name == name
      && forall n :: Installed(n) && n != name ==> !Below(n, name)
    }

    ghost function Answer(was: Option<Proc>, name: string): Option<seq<Voice>> {
      if !Installed(name) then None
      else if Reused(was, name) then Some(was.value.voices)
      else warmup(name, false)
    }

    ghost predicate Spawns(was: Option<Proc>, name: string) {
      Installed(name) && !Reused(was, name)
    }

    // Some provider of names[..i] was spawned.
    ghost predicate SpawnedAny(was: Option<Proc>, names: seq<string>, i: nat)
      requires i <= |names|
    {
      exists k :: 0 <= k < i && Spawns(was, names[k])
    }

    // What the lifecycle-locked loop has done after names[..i].
    ghost predicate AskedUpTo(was: Option<Proc>, names: seq<string>, i: nat, out: map<string, seq<Voice>>)
      requires i <= |names|
      reads this
    {
      && (forall n :: n in out ==> Some(out[n]) == Answer(was, n))
      && (forall k :: 0 <= k < i ==> (names[k] in out <==> Answer(was, names[k]).Some?))
      && (forall n :: n in out ==> n in names[..i])
      && active == (if SpawnedAny(was, names, i) then None else was)
    }

    method AskProviders() returns (out: map<string, seq<Voice>>)
      requires Valid()
      modifies `active, `children, `nextPid
      ensures Valid()
      ensures forall n :: n in out <==> Answer(old(active), n).Some?
      ensures forall n :: n in out ==> Some(out[n]) == Answer(old(active), n)
      ensures active == if exists n :: Spawns(old(active), n) then None else old(active)
    {
      hide Answer, Reused, Spawns;
      ghost var was := active;
      out := map[];
      var names := Sort(registry.Keys);
      for i := 0 to |names|
        invariant Valid() && AskedUpTo(was, names, i, out)
      {
        out := AskNext(was, names, i, out);
      }
      forall n ensures Spawns(was, n) ==> SpawnedAny(was, names, |names|)
               ensures Answer(was, n).Some? ==> n in out {
        Known(was, n);
        if n in registry { assert n in names; var k :| 0 <= k < |names| && names[k] == n; }
      }
      forall n | n in out ensures Answer(was, n).Some? {}
    }

    lemma Known(was: Option<Proc>, n: string)
      ensures Spawns(was, n) || Answer(was, n).Some? ==> n in registry
    {
    }

    // One turn of the loop: reuse, or spawn briefly and shut down.
    method Visit(name: string) returns (answer: Option<seq<Voice>>)
      requires Valid()
      modifies `active, `children, `nextPid
      ensures Valid()
      ensures !Installed(name) ==> answer == None && active == old(active)
      ensures Installed(name) && old(IsActive(name)) ==> active == old(active) && answer == Some(active.value.voices)
      ensures Installed(name) && !old(IsActive(name)) ==> answer == warmup(name, false) && active == None
    {
      answer := None;
      if name !in registry || !registry[name] { return; }
      if active.Some? && active.value.name == name && active.value.state == READY {
        return Some(active.value.voices);
      }
      var spawnedHere := SpawnLocked(name, false);
      if spawnedHere { answer := Some(active.value.voices); }
      if spawnedHere && active.Some? && active.value.name == name { ShutdownLocked(); }
    }

    method AskNext(ghost was: Option<Proc>, names: seq<string>, i: nat, out: map<string, seq<Voice>>)
      returns (out': map<string, seq<Voice>>)
      requires Valid() && Sorts(names, registry.Keys) && i < |names| && AskedUpTo(was, names, i, out)
      modifies `active, `children, `nextPid
      ensures Valid() && AskedUpTo(was, names, i + 1, out')
    {
      hide Reused, Below;
      var name := names[i];
      if registry[name] { ReusedHere(was, names, i); }
      var answer := Visit(name);
      out' := if answer.Some? then out[name := answer.value] else out;
      AskedNext(was, names, i, out, answer);
    }

    lemma AskedNext(was: Option<Proc>, names: seq<string>, i: nat, out: map<string, seq<Voice>>,
                    answer: Option<seq<Voice>>)
      requires Sorts(names, registry.Keys) && i < |names|
      requires forall n :: n in out ==> Some(out[n]) == Answer(was, n)
      requires forall k :: 0 <= k < i ==> (names[k] in out <==> Answer(was, names[k]).Some?)
      requires forall n :: n in out ==> n in names[..i]
      requires answer == Answer(was, names[i])
      requires active == if SpawnedAny(was, names, i) || Spawns(was, names[i]) then None else was
      ensures AskedUpTo(was, names, i + 1, if answer.Some? then out[names[i] := answer.value] else out)
    {
      hide Answer, Spawns;
      assert names[..i + 1] == names[..i] + [names[i]];
      forall k | 0 <= k < i ensures names[k] != names[i] { AscendingDistinct(names, k, i); }
      assert SpawnedAny(was, names, i + 1) <==> SpawnedAny(was, names, i) || Spawns(was, names[i]);
    }

    // At its turn, the active READY provider is reused just when nothing was spawned before.
    lemma ReusedHere(was: Option<Proc>, names: seq<string>, i: nat)
      requires Sorts(names, registry.Keys) && i < |names| && Installed(names[i])
      ensures Reused(was, names[i]) <==>
        && was.Some? && was.value.name == names[i] && was.value.state == READY
        && !SpawnedAny(was, names, i)
    {
      var name := names[i];
      if was.Some? && was.value.name == name && was.value.state == READY {
        forall k | 0 <= k < i
          ensures Below(names[k], name) && names[k] != name && (Installed(names[k]) ==> Spawns(was, names[k]))
        {
          AscendingDistinct(names, k, i);
        }
        forall n | Installed(n) && n != name && n !in names[..i] ensures !Below(n, name) {
          assert n in names;
          var k :| 0 <= k < |names| && names[k] == n;
          assert k > i;
          if Below(n, name) { Transitive(name, n, name); Irreflexive(name); }
        }
        if SpawnedAny(was, names, i) {
          var k :| 0 <= k < i && Spawns(was, names[k]);
          assert Installed(names[k]) && names[k] != name && Below(names[k], name);
        }
      }
    }

    function Kept(name: string, voices: seq<Voice>): seq<Voice> {
      if name in allowlists && allowlists[name] != {} then Allowed(voices, allowlists[name]) else voices
    }

    function Entries(name: string): seq<Override> {
      if name in overrides then overrides[name] else []
    }

    ghost predicate Published(name: string, voices: seq<Voice>, ws: seq<Voice>)
      requires forall n, e :: n in overrides && e in overrides[n] ==> e.tags != []
    {
      var kept := Kept(name, voices);
      |ws| == |kept| && forall i :: 0 <= i < |kept| ==> ws[i] == Localized(kept[i], Entries(name), matches)
    }

    // A voice as published: the provider's, but for the languages of the first override that
    // matches.
    ghost predicate PublishedAs(v: Voice, w: Voice, entries: seq<Override>) {
      && w.id == v.id && w.gender == v.gender && w.displayName == v.displayName
      && ((forall k :: 0 <= k < |entries| ==> !matches(v.id, entries[k].pattern)) ==> w == v)
      && (forall k :: 0 <= k < |entries| && matches(v.id, entries[k].pattern)
                      && (forall j :: 0 <= j < k ==> !matches(v.id, entries[j].pattern)) ==>
            [w.language] + w.extraLanguages == entries[k].tags)
    }

    /** What is published of a provider's voices, in the order reported: all of them, or those
        its non-empty allowlist names; each with the languages of its first matching override. */
    lemma PublishedExactly(name: string, voices: seq<Voice>, ws: seq<Voice>) returns (at: seq<nat>)
      requires forall n, e :: n in overrides && e in overrides[n] ==> e.tags != []
      requires Published(name, voices, ws)
      ensures |at| == |ws| && (forall k :: 0 <= k < |at| ==> at[k] < |voices|)
      ensures forall j, k :: 0 <= j < k < |at| ==> at[j] < at[k]
      ensures forall i: nat :: i < |voices| ==>
                (i in at <==> (name in allowlists && allowlists[name] != {} ==> voices[i].id in allowlists[name]))
      ensures forall k :: 0 <= k < |at| ==>
                PublishedAs(voices[at[k]], ws[k], if name in overrides then overrides[name] else [])
    {
      if name in allowlists && allowlists[name] != {} {
        at := Positions(voices, allowlists[name]);
        AllowedKeeps(voices, allowlists[name]);
      } else {
        at := seq(|voices|, i requires 0 <= i < |voices| => i);
        forall i: nat | i < |voices| ensures i in at { assert at[i] == i; }
      }
    }

    // Allowlist, then overrides.
    method Filter(name: string, voices: seq<Voice>) returns (patched: seq<Voice>)
      requires Valid()
      ensures Published(name, voices, patched)
    {
      patched := voices;
      if name in allowlists && allowlists[name] != {} { patched := KeepAllowed(voices, allowlists[name]); }
      if name in overrides && overrides[name] != [] {
        patched := ApplyOverrides(patched, overrides[name], matches);
      }
    }

    method FilterAll(asked: map<string, seq<Voice>>) returns (out: map<string, seq<Voice>>)
      requires Valid()
      ensures out.Keys == asked.Keys && forall n :: n in out ==> Published(n, asked[n], out[n])
    {
      out := map[];
      var rest := asked.Keys;
      while rest != {}
        invariant rest <= asked.Keys && out.Keys == asked.Keys - rest
        invariant forall n :: n in out ==> Published(n, asked[n], out[n])
        decreases rest
      {
        var n :| n in rest;
        var voices := Filter(n, asked[n]);
        out := out[n := voices];
        rest := rest - {n};
      }
    }

    method Reindex(out: map<string, seq<Voice>>)
      requires Valid()
      modifies index
      ensures Valid() && index.raw == out
    {
      index.Clear();
      var rest := out.Keys;
      while rest != {}
        invariant rest <= out.Keys && index.Valid()
        invariant index.raw.Keys == out.Keys - rest && forall n :: n in index.raw ==> index.raw[n] == out[n]
        decreases rest
      {
        var n :| n in rest;
        index.SetProviderVoices(n, out[n]);
        rest := rest - {n};
      }
    }

    /** `enumerate_all_voices`: whatever mix of providers is missing, failing, active or
        stopped, no child spawned here is left, and the index holds exactly the answers. */
    method EnumerateAllVoices() returns (out: map<string, seq<Voice>>)
      requires Valid()
      modifies this, index
      ensures Valid()
      ensures forall n :: n in out <==> Answer(old(active), n).Some?
      ensures forall n :: n in out ==> Published(n, Answer(old(active), n).value, out[n])
      ensures index.raw == out
      ensures active == if exists n :: Spawns(old(active), n) then None else old(active)
      ensures children <= old(children)
    {
      hide Answer, Spawns, Published;
      var asked := AskProviders();
      out := FilterAll(asked);
      Reindex(out);
    }
  }
}
