/**
  The pocket-tts voice states: a memory cache in front of a disk cache, keyed by the
  reference clip's modification time, against encoding the clip on every request.
*/
module VoiceCache {
  type Id = string
  type Clip = seq<int>
  type State = seq<int>

  // ---- cache file names -------------------------------------------------------

  function Digits(n: nat): (s: string)
    ensures s != [] && forall k :: 0 <= k < |s| ==> '0' <= s[k] <= '9'
  {
    (if n < 10 then [] else Digits(n / 10)) + ['0' + (n % 10) as char]
  }

  function Decimal(n: int): (s: string)
    ensures s != [] && forall k :: 0 <= k < |s| ==> s[k] != '.'
  {
    if n < 0 then "-" + Digits(-n) else Digits(n)
  }

  function DigitsValue(s: string): int {
    if s == [] then 0 else DigitsValue(s[..|s| - 1]) * 10 + (s[|s| - 1] as int - '0' as int)
  }

  lemma {:induction false} DigitsRoundTrip(n: nat)
    ensures DigitsValue(Digits(n)) == n
  {
    var s := Digits(n);
    if n < 10 {
      assert s[..0] == [];
    } else {
      DigitsRoundTrip(n / 10);
      assert s[..|s| - 1] == Digits(n / 10);
    }
  }

  lemma DecimalInjective(m: int, n: int)
    requires Decimal(m) == Decimal(n)
    ensures m == n
  {
    hide DigitsValue;
    if m >= 0 { DigitsRoundTrip(m); } else { DigitsRoundTrip(-m); assert Decimal(m)[1..] == Digits(-m); }
    if n >= 0 { DigitsRoundTrip(n); } else { DigitsRoundTrip(-n); assert Decimal(n)[1..] == Digits(-n); }
    assert (Decimal(m)[0] == '-') == (m < 0) && (Decimal(n)[0] == '-') == (n < 0);
  }

  const SUFFIX := ".safetensors"

  function FileName(id: Id, mtime: int): string {
    id + "." + Decimal(mtime) + SUFFIX
  }

  // The glob `{id}.*.safetensors`.
  predicate Matches(id: Id, name: string) {
    id + "." <= name && |name| >= |id| + 1 + |SUFFIX| && name[|name| - |SUFFIX|..] == SUFFIX
  }

  lemma LastDot(id: Id, d: string)
    requires forall k :: 0 <= k < |d| ==> d[k] != '.'
    ensures var stem := id + "." + d;
      stem[|id|] == '.' && forall k :: |id| < k < |stem| ==> stem[k] != '.'
  {
  }

  /** The file name determines the voice and the time, dots in the voice's id included. */
  lemma FileNameInjective(id: Id, mtime: int, id': Id, mtime': int)
    requires FileName(id, mtime) == FileName(id', mtime')
    ensures id == id' && mtime == mtime'
  {
    hide Decimal;
    var d, d' := Decimal(mtime), Decimal(mtime');
    var stem, stem' := id + "." + d, id' + "." + d';
    assert stem == FileName(id, mtime)[..|FileName(id, mtime)| - |SUFFIX|];
    assert stem' == FileName(id', mtime')[..|FileName(id', mtime')| - |SUFFIX|];
    LastDot(id, d);
    LastDot(id', d');
    assert id == stem[..|id|] && d == stem[|id| + 1..] && d' == stem'[|id| + 1..];
    DecimalInjective(mtime, mtime');
  }

  /** The glob for one voice also reaches the files of voices whose id extends it by a dot,
      and of no others. */
  lemma GlobReaches(id: Id, id': Id, mtime: int)
    ensures Matches(id, FileName(id', mtime)) <==> id == id' || id + "." <= id'
  {
    hide Decimal;
    var d := Decimal(mtime);
    var name := FileName(id', mtime);
    var n := |id'| + 1 + |d|;
    assert name[n..] == SUFFIX && |name| == n + |SUFFIX|;
    assert name[..|id'|] == id' && name[|id'|] == '.';
    assert forall k :: |id'| < k < n ==> name[k] == d[k - |id'| - 1] && name[k] != '.';
    if id + "." <= name {
      assert name[|id|] == (id + ".")[|id|] == '.';
      assert name[..|id| + 1] == id + ".";
      if |id| < |id'| {
        assert id'[..|id| + 1] == name[..|id| + 1];
      } else if |id| == |id'| {
        assert id == name[..|id|];
      }
    }
  }

  // ---- the provider ------------------------------------------------------------

  datatype Reply = Ok(state: State) | UnknownVoice | MissingClip | NeedsCloningModel

  // The clip files: modification time and audio, by voice.
  type Clips = map<Id, (int, Clip)>

  class Provider {
    const presets: set<Id>
    const presetState: Id -> State
    const encode: Clip -> State
    // What each voice's clip holds, or held, at each modification time.
    ghost const clipAt: (Id, int) -> Clip

    var clips: Clips
    var disk: map<string, State>
    var cloning: bool
    var voices: set<Id>
    var memory: map<Id, (int, State)>
    // The files that cannot be removed at the moment, and whether none can be written.
    var stuck: set<string>
    var full: bool

    ghost predicate Current()
      reads this
    {
      forall id :: id in clips ==> id !in presets && clips[id].1 == clipAt(id, clips[id].0)
    }

    ghost predicate Valid()
      reads this
    {
      && Current()
      && (forall id, m :: FileName(id, m) in disk ==> disk[FileName(id, m)] == encode(clipAt(id, m)))
      && (forall id :: id in memory ==>
        memory[id] == if id in presets then (0, presetState(id)) else (memory[id].0, encode(clipAt(id, memory[id].0))))
    }

    constructor (presets: set<Id>, presetState: Id -> State, encode: Clip -> State, ghost clipAt: (Id, int) -> Clip,
                 cloning: bool)
      ensures Valid()
      ensures clips == map[] && disk == map[] && voices == {} && memory == map[]
      ensures this.presets == presets && this.encode == encode && this.presetState == presetState
      ensures this.clipAt == clipAt && this.cloning == cloning
    {
      this.presets, this.presetState, this.encode, this.clipAt := presets, presetState, encode, clipAt;
      this.cloning := cloning;
      clips, disk, voices, memory := map[], map[], {}, map[];
      stuck, full := {}, false;
    }

    // `_rescan_voices`
    method Rescan()
      requires Valid()
      modifies `voices, `memory
      ensures Valid()
      ensures voices == presets + clips.Keys
      ensures memory == map id | id in old(memory) && id in voices :: old(memory)[id]
    {
      voices := presets + clips.Keys;
      memory := map id | id in memory && id in voices :: memory[id];
    }

    // `_get_voice_state`
    method GetVoiceState(id: Id) returns (r: Reply)
      requires Valid() && id in voices
      modifies `memory, `disk
      ensures Valid()
      ensures id in presets ==> r == Ok(presetState(id)) && disk == old(disk)
      ensures id !in presets && id !in clips ==> r == MissingClip && memory == old(memory) && disk == old(disk)
      ensures id !in presets && id in clips ==>
        r == if cloning || (id in old(memory) && old(memory)[id].0 == clips[id].0)
                || FileName(id, clips[id].0) in old(disk)
             then Ok(encode(clips[id].1)) else NeedsCloningModel
      ensures r.Ok? ==> memory == old(memory)[id := (if id in presets then 0 else clips[id].0, r.state)]
      ensures !r.Ok? ==> memory == old(memory) && disk == old(disk)
      ensures var encodes :=
        id !in presets && id in clips && cloning && !(id in old(memory) && old(memory)[id].0 == clips[id].0)
        && FileName(id, clips[id].0) !in old(disk);
        disk == if encodes then Exported(Cleaned(old(disk), id), id, clips[id].0) else old(disk)
    {
      hide FileName, Matches, Cleaned, Exported;
      if id in presets {
        if id in memory {
          assert memory == memory[id := memory[id]];
          return Ok(memory[id].1);
        }
        memory := memory[id := (0, presetState(id))];
        return Ok(presetState(id));
      }
      if id !in clips { return MissingClip; }
      var (mtime, clip) := clips[id];
      if id in memory && memory[id].0 == mtime {
        assert memory == memory[id := memory[id]];
        return Ok(memory[id].1);
      }
      var file := FileName(id, mtime);
      var state;
      if file in disk {
        state := disk[file];
      } else {
        if !cloning { return NeedsCloningModel; }
        state := encode(clip);
        DropStale(id);
        Export(id, mtime, state);
      }
      memory := memory[id := (mtime, state)];
      r := Ok(state);
    }

    // The files after the clean-up for this voice.
    ghost function Cleaned(files: map<string, State>, id: Id): map<string, State>
      reads `stuck
    {
      map name | name in files && (!Matches(id, name) || name in stuck) :: files[name]
    }

    // The files after the encoding of this clip was written, if it could be.
    ghost function Exported(files: map<string, State>, id: Id, mtime: int): map<string, State>
      reads `full
    {
      if full then files else files[FileName(id, mtime) := encode(clipAt(id, mtime))]
    }

    // Unlink every cache file the glob finds; any unlink may fail.
    method DropStale(id: Id)
      requires Valid()
      modifies `disk
      ensures Valid()
      ensures disk == Cleaned(old(disk), id)
    {
      hide FileName;
      var found := set name | name in disk && Matches(id, name);
      while found != {}
        invariant Valid() && disk.Keys <= old(disk).Keys
        invariant forall name :: name in disk ==> disk[name] == old(disk)[name]
        invariant forall name :: name in old(disk) && (!Matches(id, name) || name in stuck) ==> name in disk
        invariant forall name :: name in disk && Matches(id, name) ==> name in stuck || name in found
        invariant forall name :: name in found ==> Matches(id, name)
        decreases found
      {
        var name :| name in found;
        found := found - {name};
        if name !in stuck { disk := disk - {name}; }
      }
    }

    // The export may fail; nothing is written then.
    method Export(id: Id, mtime: int, state: State)
      requires Valid() && state == encode(clipAt(id, mtime))
      modifies `disk
      ensures Valid()
      ensures disk == Exported(old(disk), id, mtime)
    {
      hide FileName;
      if !full {
        disk := disk[FileName(id, mtime) := state];
        forall id', m | FileName(id', m) in disk ensures disk[FileName(id', m)] == encode(clipAt(id', m)) {
          if FileName(id', m) == FileName(id, mtime) { FileNameInjective(id, mtime, id', m); }
        }
      }
    }

    // The voice check of `synthesize_stream`, then the state.
    method Request(id: Id) returns (r: Reply)
      requires Valid()
      modifies `memory, `disk
      ensures Valid()
      ensures Serves(r, Uncached(World(clips, voices, cloning), id), World(clips, voices, cloning), id)
    {
      if id !in voices { return UnknownVoice; }
      r := GetVoiceState(id);
    }

    // The clip is replaced; its time determines what it holds.
    method Edit(id: Id, mtime: int, clip: Clip)
      requires Valid() && id !in presets && clip == clipAt(id, mtime)
      modifies `clips
      ensures Valid() && clips == old(clips)[id := (mtime, clip)]
    {
      clips := clips[id := (mtime, clip)];
    }

    method Remove(id: Id)
      requires Valid()
      modifies `clips
      ensures Valid() && clips == old(clips) - {id}
    {
      clips := clips - {id};
    }

    // A new process, with or without the cloning model; the files stay.
    method Restart(cloning: bool)
      requires Valid()
      modifies `cloning, `voices, `memory
      ensures Valid() && this.cloning == cloning && voices == {} && memory == map[]
    {
      this.cloning := cloning;
      voices, memory := {}, map[];
    }

    // What the file system refuses from now on.
    method Refuse(stuck: set<string>, full: bool)
      requires Valid()
      modifies `stuck, `full
      ensures Valid() && this.stuck == stuck && this.full == full
    {
      this.stuck, this.full := stuck, full;
    }

    // ---- against no cache at all -------------------------------------------------

    function Uncached(w: World, id: Id): Reply {
      if id !in w.voices then UnknownVoice
      else if id in presets then Ok(presetState(id))
      else if id !in w.clips then MissingClip
      else if w.cloning then Ok(encode(w.clips[id].1))
      else NeedsCloningModel
    }

    // The reply of the uncached provider; without the cloning model a cached encoding of
    // the same clip may stand in.
    ghost predicate Serves(r: Reply, uncached: Reply, w: World, id: Id) {
      r == uncached || (uncached == NeedsCloningModel && id in w.clips && r == Ok(encode(w.clips[id].1)))
    }

    function Step(w: World, op: Op): World {
      match op
      case Ask(id) => w
      case Scan => w.(voices := presets + w.clips.Keys)
      case Replace(id, mtime, clip) => w.(clips := w.clips[id := (mtime, clip)])
      case Delete(id) => w.(clips := w.clips - {id})
      case Reboot(c) => w.(cloning := c, voices := {})
      case Trouble(_, _) => w
    }

    function After(w: World, ops: seq<Op>): World {
      if ops == [] then w else Step(After(w, ops[..|ops| - 1]), ops[|ops| - 1])
    }

    ghost predicate Possible(op: Op) {
      op.Replace? ==> op.id !in presets && op.clip == clipAt(op.id, op.mtime)
    }

    /** Over any run of requests, rescans, edits and restarts, with any unlinks and exports
        failing, every reply is the one an uncached provider would give at that moment. */
    method Run(ops: seq<Op>) returns (replies: seq<Reply>)
      requires Valid() && forall i :: 0 <= i < |ops| ==> Possible(ops[i])
      modifies this
      ensures Valid()
      ensures |replies| == |ops|
      ensures forall i :: 0 <= i < |ops| && ops[i].Ask? ==>
        var w := After(old(World(clips, voices, cloning)), ops[..i]);
        Serves(replies[i], Uncached(w, ops[i].id), w, ops[i].id)
    {
      hide Valid, After, Serves;
      replies := [];
      ghost var start := World(clips, voices, cloning);
      AfterNone(start);
      for i := 0 to |ops|
        invariant Valid() && |replies| == i
        invariant World(clips, voices, cloning) == After(start, ops[..i])
        invariant forall j :: 0 <= j < i && ops[j].Ask? ==>
          var w := After(start, ops[..j]);
          Serves(replies[j], Uncached(w, ops[j].id), w, ops[j].id)
      {
        assert Possible(ops[i]);
        AfterStep(start, ops, i);
        var r := UnknownVoice;
        match ops[i] {
          case Ask(id) => r := Request(id);
          case Scan => Rescan();
          case Replace(id, mtime, clip) => Edit(id, mtime, clip);
          case Delete(id) => Remove(id);
          case Reboot(c) => Restart(c);
          case Trouble(stuck, full) => Refuse(stuck, full);
        }
        replies := replies + [r];
      }
    }

    lemma AfterNone(w: World)
      ensures After(w, []) == w
    {
    }

    lemma AfterStep(w: World, ops: seq<Op>, i: nat)
      requires i < |ops|
      ensures After(w, ops[..i + 1]) == Step(After(w, ops[..i]), ops[i])
    {
      assert ops[..i + 1][..i] == ops[..i];
    }
  }

  // What a provider without caches depends on.
  datatype World = World(clips: Clips, voices: set<Id>, cloning: bool)

  datatype Op =
    | Ask(id: Id)
    | Scan
    | Replace(id: Id, mtime: int, clip: Clip)
    | Delete(id: Id)
    | Reboot(cloning: bool)
    | Trouble(stuck: set<string>, full: bool)
}
