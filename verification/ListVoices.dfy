/**
  The speech-dispatcher module's LIST VOICES: display names are chosen per language, every
  row is remembered by name, and a name sent back as `synthesis_voice` selects a voice.
*/
module ListVoices {
  import opened Options
  import opened Text

  datatype Voice = Voice(id: string, displayName: string, language: string, extraLanguages: seq<string>)

  // A line of the listing, and the voice it was written for.
  datatype Row = Row(name: string, lang: string, id: string)

  const US_LANG := "en-US"

  // The stripped display name, or the id.
  function Base(v: Voice): string {
    var shown := Strip(if v.displayName != "" then v.displayName else v.id);
    if shown != "" then shown else v.id
  }

  /** The name a voice is shown by: its display name without the whitespace around it. A blank
      one gives way to the id, an empty one to the id without the whitespace around it. */
  lemma BaseIs(v: Voice)
    ensures WordsOf(v.displayName) != [] ==>
      Base(v) == Strip(v.displayName) && WordsOf(Base(v)) == WordsOf(v.displayName)
    ensures v.displayName != "" && WordsOf(v.displayName) == [] ==> Base(v) == v.id
    ensures v.displayName == "" ==> Base(v) == v.id || (Base(v) == Strip(v.id) && Base(v) != "")
  {
    hide WordsOf, Strip;
    StripWords(v.displayName);
    NoWords();
    var shown := Strip(v.displayName);
    StripEnds(v.displayName);
    if shown != "" { HasWords(shown); }
  }

  lemma HasWords(s: string)
    requires s != "" && !IsSpace(s[0])
    ensures WordsOf(s) != []
  {
    WordsHere(s);
  }

  function Names(v: Voice): set<string> {
    {Base(v), v.id}
  }

  // p is what stands before the first hyphen of s.
  predicate IsSubtag(p: string, s: string) {
    p <= s && '-' !in p && (|p| == |s| || s[|p|] == '-')
  }

  function ShortLang(s: string): (p: string)
    ensures IsSubtag(p, s)
  {
    if s == "" || s[0] == '-' then "" else [s[0]] + ShortLang(s[1..])
  }

  // ---- rows -------------------------------------------------------------------------

  lemma {:induction false} SubtagUnique(p: string, s: string)
    requires IsSubtag(p, s)
    ensures p == ShortLang(s)
  {
    if p != "" {
      assert p[0] == s[0];
      SubtagUnique(p[1..], s[1..]);
      assert p == [p[0]] + p[1..];
    }
  }

  // The name map after the rows: the last row of a name owns it.
  function Owners(rows: seq<Row>): map<string, string> {
    if rows == [] then map[] else Owners(rows[..|rows| - 1])[rows[|rows| - 1].name := rows[|rows| - 1].id]
  }

  lemma {:induction false} OwnerIsLast(rows: seq<Row>, i: nat) returns (j: nat)
    requires i < |rows|
    ensures i <= j < |rows| && rows[j].name == rows[i].name
    ensures rows[i].name in Owners(rows) && Owners(rows)[rows[i].name] == rows[j].id
  {
    var n := |rows| - 1;
    if rows[n].name == rows[i].name {
      j := n;
    } else {
      j := OwnerIsLast(rows[..n], i);
    }
  }

  ghost predicate Selects(rows: seq<Row>, i: nat)
    requires i < |rows|
  {
    rows[i].name in Owners(rows) && Owners(rows)[rows[i].name] == rows[i].id
  }

  ghost predicate AllSelect(rows: seq<Row>) {
    forall i: nat :: i < |rows| ==> Selects(rows, i)
  }

  // Every row selects its own voice exactly when no name is listed for two voices.
  lemma SelectsExactly(rows: seq<Row>)
    ensures AllSelect(rows)
      <==> forall i: nat, j: nat :: i < |rows| && j < |rows| && rows[i].name == rows[j].name ==>
             rows[i].id == rows[j].id
  {
    if forall i: nat, j: nat :: i < |rows| && j < |rows| && rows[i].name == rows[j].name ==> rows[i].id == rows[j].id {
      forall i: nat | i < |rows| ensures Selects(rows, i) {
        var j := OwnerIsLast(rows, i);
      }
    }
    if forall i: nat :: i < |rows| ==> Selects(rows, i) {
      forall i: nat, j: nat | i < |rows| && j < |rows| && rows[i].name == rows[j].name
        ensures rows[i].id == rows[j].id
      {
        assert Selects(rows, i) && Selects(rows, j);
      }
    }
  }

  ghost predicate Disjoint(voices: seq<Voice>) {
    forall i, j :: 0 <= i < j < |voices| ==> Names(voices[i]) !! Names(voices[j])
  }

  // No voice's id is a name of another; display names may repeat.
  ghost predicate IdsApart(voices: seq<Voice>) {
    forall i, j :: 0 <= i < |voices| && 0 <= j < |voices| && i != j ==> voices[i].id !in Names(voices[j])
  }

  ghost predicate NamesSome(r: Row, voices: seq<Voice>) {
    exists i :: 0 <= i < |voices| && r.id == voices[i].id && r.name in Names(voices[i])
  }

  ghost predicate FromVoices(rows: seq<Row>, voices: seq<Voice>) {
    forall k :: 0 <= k < |rows| ==> NamesSome(rows[k], voices)
  }

  /** When different voices share no name, every row selects the voice it was written for. */
  lemma DisjointRoundTrip(rows: seq<Row>, voices: seq<Voice>)
    ensures Disjoint(voices) && FromVoices(rows, voices) ==> forall k: nat :: k < |rows| ==> Selects(rows, k)
  {
    hide Base;
    if !Disjoint(voices) || !FromVoices(rows, voices) { return; }
    forall a: nat, b: nat | a < |rows| && b < |rows| && rows[a].name == rows[b].name ensures rows[a].id == rows[b].id {
      assert NamesSome(rows[a], voices) && NamesSome(rows[b], voices);
      var i :| 0 <= i < |voices| && rows[a].id == voices[i].id && rows[a].name in Names(voices[i]);
      var j :| 0 <= j < |voices| && rows[b].id == voices[j].id && rows[b].name in Names(voices[j]);
      assert i == j;
    }
    SelectsExactly(rows);
  }

  // ---- bookkeeping ------------------------------------------------------------------

  ghost predicate Once(rows: seq<Row>) {
    forall i, j :: 0 <= i < j < |rows| ==> rows[i].name != rows[j].name || rows[i].lang != rows[j].lang
  }

  ghost predicate Lists(rows: seq<Row>, id: string, lang: string) {
    exists k :: 0 <= k < |rows| && rows[k].id == id && rows[k].lang == lang
  }

  ghost predicate HasKey(rows: seq<Row>, key: (string, string)) {
    exists k :: 0 <= k < |rows| && rows[k].name == key.0 && rows[k].lang == key.1
  }

  // Rows are within `written`, which holds exactly the names used under each language.
  ghost predicate Tracked(rows: seq<Row>, written: set<(string, string)>, used: map<string, set<string>>) {
    && (forall k :: 0 <= k < |rows| ==> (rows[k].name, rows[k].lang) in written)
    && Once(rows)
    && (forall key :: key in written ==> key.1 in used && key.0 in used[key.1])
    && (forall lang, name :: lang in used && name in used[lang] ==> (name, lang) in written)
  }

  // Without a filter, what is written is listed.
  ghost predicate AllShown(rows: seq<Row>, written: set<(string, string)>) {
    forall key :: key in written ==> HasKey(rows, key)
  }

  lemma ListsMore(before: seq<Row>, after: seq<Row>, id: string, lang: string)
    requires before <= after && Lists(before, id, lang)
    ensures Lists(after, id, lang)
  {
    var k :| 0 <= k < |before| && before[k].id == id && before[k].lang == lang;
    assert after[k] == before[k];
  }

  lemma Added(rows: seq<Row>, r: Row, written: set<(string, string)>, used: map<string, set<string>>,
              names: set<string>)
    requires Tracked(rows, written, used) && (r.name, r.lang) !in written
    requires names == if r.lang in used then used[r.lang] else {}
    ensures Tracked(rows + [r], written + {(r.name, r.lang)}, used[r.lang := names + {r.name}])
    ensures Tracked(rows, written + {(r.name, r.lang)}, used[r.lang := names + {r.name}])
  {
    var all := rows + [r];
    assert forall i :: 0 <= i < |rows| ==> all[i] == rows[i] && (rows[i].name, rows[i].lang) in written;
    assert Once(all) by { OnceMore(rows, r, written); }
  }

  lemma OnceMore(rows: seq<Row>, r: Row, written: set<(string, string)>)
    requires Once(rows) && (r.name, r.lang) !in written
    requires forall i :: 0 <= i < |rows| ==> (rows[i].name, rows[i].lang) in written
    ensures Once(rows + [r])
  {
    forall i | 0 <= i < |rows| ensures rows[i].name != r.name || rows[i].lang != r.lang {
      assert (rows[i].name, rows[i].lang) in written;
    }
  }

  lemma OwnersNext(rows: seq<Row>, r: Row)
    ensures Owners(rows + [r]) == Owners(rows)[r.name := r.id]
  {
    assert (rows + [r])[..|rows + [r]| - 1] == rows;
  }

  // ---- the module -----------------------------------------------------------------------

  class Module {
    const lower: string -> string
    const normalize: string -> string    // canonical language tag
    var rows: seq<Row>
    var written: set<(string, string)>
    var used: map<string, set<string>>
    var nameToId: map<string, string>
    var voiceName: string
    var explicitVoice: bool

    constructor (lower: string -> string, normalize: string -> string)
      ensures this.lower == lower && this.normalize == normalize && nameToId == map[]
    {
      this.lower, this.normalize := lower, normalize;
      rows, written, used, nameToId, voiceName, explicitVoice := [], {}, map[], map[], "af_heart", false;
    }

    // The languages of a voice, each with a row of its own.
    function Langs(v: Voice): seq<string> {
      [if v.language != "" then normalize(v.language) else "none"] + Extras(v.extraLanguages)
    }

    function Extras(tags: seq<string>): seq<string> {
      if tags == [] then []
      else (if tags[0] != "" then [normalize(tags[0])] else []) + Extras(tags[1..])
    }

    predicate Wanted(lang: string, variant: string, askedLang: Option<string>, askedVariant: Option<string>) {
      askedLang.Some? && askedLang.value != "" ==>
        && (lower(askedLang.value) == lower(lang) || ShortLang(lower(askedLang.value)) == ShortLang(lower(lang)))
        && (askedVariant.Some? && askedVariant.value != "" ==> lower(askedVariant.value) == lower(variant))
    }

    // With this filter, what is written and wanted is listed.
    ghost predicate ShownFor(rs: seq<Row>, keys: set<(string, string)>, askedLang: Option<string>,
                             askedVariant: Option<string>) {
      forall key :: key in keys && Wanted(key.1, "none", askedLang, askedVariant) ==> HasKey(rs, key)
    }

    ghost predicate OnlyWanted(rs: seq<Row>, askedLang: Option<string>, askedVariant: Option<string>) {
      forall k :: 0 <= k < |rs| ==> Wanted(rs[k].lang, "none", askedLang, askedVariant)
    }

    /** What a filter asks for: the same language before the first hyphen, letter case aside,
        and then the same variant. Without a language there is no filter, whatever the variant. */
    lemma WantedExactly(lang: string, variant: string, askedLang: Option<string>, askedVariant: Option<string>)
      ensures Wanted(lang, variant, askedLang, askedVariant) <==>
        || askedLang.None? || askedLang.value == ""
        || (&& (exists p :: IsSubtag(p, lower(askedLang.value)) && IsSubtag(p, lower(lang)))
            && (askedVariant.None? || askedVariant.value == "" || lower(askedVariant.value) == lower(variant)))
    {
      if askedLang.Some? {
        var asked, listed := lower(askedLang.value), lower(lang);
        assert IsSubtag(ShortLang(asked), asked);
        if p :| IsSubtag(p, asked) && IsSubtag(p, listed) {
          SubtagUnique(p, asked);
          SubtagUnique(p, listed);
        }
      }
    }

    lemma ShownForMore(rs: seq<Row>, keys: set<(string, string)>, r: Row, shown: bool, askedLang: Option<string>,
                       askedVariant: Option<string>)
      requires ShownFor(rs, keys, askedLang, askedVariant)
      requires shown <==> Wanted(r.lang, "none", askedLang, askedVariant)
      ensures ShownFor(if shown then rs + [r] else rs, keys + {(r.name, r.lang)}, askedLang, askedVariant)
    {
      hide Wanted;
      var all := rs + [r];
      assert all[|rs|] == r;
      forall key | key in keys + {(r.name, r.lang)} && Wanted(key.1, "none", askedLang, askedVariant)
        ensures HasKey(if shown then all else rs, key)
      {
        if key in keys {
          assert HasKey(rs, key);
          var k :| 0 <= k < |rs| && rs[k].name == key.0 && rs[k].lang == key.1;
          assert all[k] == rs[k];
        }
      }
    }

    ghost predicate Valid()
      reads this
    {
      Tracked(rows, written, used) && nameToId == Owners(rows)
    }

    // `_pick_display_name` then `_emit`.
    method WriteRow(v: Voice, lang: string, askedLang: Option<string>, askedVariant: Option<string>)
      returns (ghost row: Option<Row>)
      requires Valid()
      modifies `rows, `written, `used, `nameToId
      ensures Valid()
      ensures rows == old(rows) + (if row.Some? then [row.value] else [])
      ensures row.Some? ==> row.value.id == v.id && row.value.lang == lang
      ensures row.Some? ==> row.value.name == if (Base(v), lang) in old(written) then v.id else Base(v)
      ensures row.Some? ==> Wanted(lang, "none", askedLang, askedVariant)
      ensures old(ShownFor(rows, written, askedLang, askedVariant)) ==> ShownFor(rows, written, askedLang, askedVariant)
      ensures row.None? && Wanted(lang, "none", askedLang, askedVariant) ==>
        (Base(v), lang) in old(written) && (v.id, lang) in old(written)
      ensures var name := if (Base(v), lang) in old(written) then v.id else Base(v);
        written == old(written) + {(name, lang)} && (row.Some? ==> (name, lang) !in old(written))
    {
      hide Base, Wanted, ShownFor, Owners, Once;
      row := None;
      var names := if lang in used then used[lang] else {};
      var name := Base(v);
      if name in names { name := v.id; }
      if (name, lang) !in written {
        Added(rows, Row(name, lang, v.id), written, used, names);
        OwnersNext(rows, Row(name, lang, v.id));
        if ShownFor(rows, written, askedLang, askedVariant) {
          var shown := Wanted(lang, "none", askedLang, askedVariant);
          ShownForMore(rows, written, Row(name, lang, v.id), shown, askedLang, askedVariant);
        }
        used := used[lang := names + {name}];
        written := written + {(name, lang)};
        if Wanted(lang, "none", askedLang, askedVariant) {
          row := Some(Row(name, lang, v.id));
          rows := rows + [Row(name, lang, v.id)];
          nameToId := nameToId[name := v.id];
        }
      } else {
        assert lang in used && name in used[lang];
        assert names + {name} == names && written + {(name, lang)} == written;
        used := used[lang := names + {name}];
      }
    }

    predicate English(lang: string) {
      "en-" <= lower(lang)
    }

    // A row a voice may get: one of its names, in one of its languages, or in US English for
    // an English one.
    ghost predicate RowOf(r: Row, v: Voice) {
      && r.id == v.id && r.name in Names(v)
      && (r.lang in Langs(v) || (r.lang == US_LANG && exists l :: l in Langs(v) && English(l)))
    }

    ghost predicate RowsOf(rs: seq<Row>, voices: seq<Voice>) {
      forall k :: 0 <= k < |rs| ==> RowOfSome(rs[k], voices)
    }

    ghost predicate RowOfSome(r: Row, voices: seq<Voice>) {
      exists i :: 0 <= i < |voices| && RowOf(r, voices[i])
    }

    lemma RowsOfMore(rs: seq<Row>, row: Option<Row>, voices: seq<Voice>, n: nat)
      requires n < |voices| && RowsOf(rs, voices) && (row.Some? ==> RowOf(row.value, voices[n]))
      ensures RowsOf(rs + (if row.Some? then [row.value] else []), voices)
    {
      hide RowOf;
      var all := rs + (if row.Some? then [row.value] else []);
      forall k | 0 <= k < |all| ensures RowOfSome(all[k], voices) {
        if k < |rs| { assert all[k] == rs[k]; } else { assert RowOf(all[k], voices[n]); }
      }
    }

    // The languages a voice must be listed under.
    ghost predicate Due(v: Voice, lang: string) {
      lang != "" && (lang in Langs(v) || (lang == US_LANG && exists l :: l in Langs(v) && l != "" && English(l)))
    }

    // The language a provider gave the voice, or one of the further ones; none is "none".
    ghost predicate IsOwn(v: Voice, lang: string) {
      || lang == (if v.language != "" then normalize(v.language) else "none")
      || exists k :: 0 <= k < |v.extraLanguages| && v.extraLanguages[k] != "" && lang == normalize(v.extraLanguages[k])
    }

    /** A voice is due in its own languages, and in US English if one of them is English. */
    lemma DueExactly(v: Voice, lang: string)
      ensures Due(v, lang) <==>
        lang != "" && (IsOwn(v, lang) || (lang == "en-US" && exists l :: IsOwn(v, l) && l != "" && "en-" <= lower(l)))
    {
      forall l ensures l in Langs(v) <==> IsOwn(v, l) {
        ExtrasAre(v.extraLanguages, l);
        var first := if v.language != "" then normalize(v.language) else "none";
        assert l in [first] + Extras(v.extraLanguages) <==> l == first || l in Extras(v.extraLanguages);
      }
      assert forall l :: English(l) <==> "en-" <= lower(l);
      hide Langs, English, IsOwn;
    }

    lemma {:induction false} ExtrasAre(tags: seq<string>, l: string)
      ensures l in Extras(tags) <==> exists k :: 0 <= k < |tags| && tags[k] != "" && l == normalize(tags[k])
    {
      if tags != [] {
        ExtrasAre(tags[1..], l);
        assert forall k :: 0 < k < |tags| ==> tags[k] == tags[1..][k - 1];
      }
    }

    ghost predicate AllListed(rs: seq<Row>, voices: seq<Voice>, n: nat, askedLang: Option<string>,
                              askedVariant: Option<string>)
      requires n <= |voices|
    {
      forall i, lang :: 0 <= i < n && Due(voices[i], lang) && Wanted(lang, "none", askedLang, askedVariant) ==>
        Lists(rs, voices[i].id, lang)
    }

    lemma AllListedMore(before: seq<Row>, after: seq<Row>, voices: seq<Voice>, n: nat, askedLang: Option<string>,
                        askedVariant: Option<string>)
      requires n < |voices| && before <= after && AllListed(before, voices, n, askedLang, askedVariant)
      requires forall lang :: Due(voices[n], lang) && Wanted(lang, "none", askedLang, askedVariant) ==>
                 Lists(after, voices[n].id, lang)
      ensures AllListed(after, voices, n + 1, askedLang, askedVariant)
    {
      hide Due, Lists, Wanted;
      forall i, lang | 0 <= i < n + 1 && Due(voices[i], lang) && Wanted(lang, "none", askedLang, askedVariant)
        ensures Lists(after, voices[i].id, lang)
      {
        if i < n { ListsMore(before, after, voices[i].id, lang); }
      }
    }

    lemma AlreadyListed(rs: seq<Row>, written: set<(string, string)>, voices: seq<Voice>, n: nat, lang: string,
                        askedLang: Option<string>, askedVariant: Option<string>)
      requires n < |voices| && RowsOf(rs, voices) && ShownFor(rs, written, askedLang, askedVariant) && IdsApart(voices)
      requires (voices[n].id, lang) in written && Wanted(lang, "none", askedLang, askedVariant)
      ensures Lists(rs, voices[n].id, lang)
    {
      hide Names, Wanted;
      var key := (voices[n].id, lang);
      assert HasKey(rs, key);
      var k :| 0 <= k < |rs| && rs[k].name == key.0 && rs[k].lang == key.1;
      assert RowOfSome(rs[k], voices);
      var i :| 0 <= i < |voices| && RowOf(rs[k], voices[i]);
      assert voices[n].id in Names(voices[i]);
    }

    // The first n voices are done under all their languages, voice n under those of `done`.
    ghost predicate Reached(voices: seq<Voice>, n: nat, done: set<string>, i: nat, lang: string)
      requires i < |voices|
    {
      (i < n && Due(voices[i], lang)) || (i == n && lang in done)
    }

    // Row r is voice i's; under its display name only if i is the first with that name there.
    ghost predicate OwnedBy(r: Row, voices: seq<Voice>, n: nat, done: set<string>, i: nat) {
      && i < |voices| && r.id == voices[i].id && r.name in Names(voices[i]) && Reached(voices, n, done, i, r.lang)
      && (r.name == Base(voices[i]) ==>
            forall h: nat :: h < i && Base(voices[h]) == Base(voices[i]) ==> !Reached(voices, n, done, h, r.lang))
    }

    ghost predicate Owned(r: Row, voices: seq<Voice>, n: nat, done: set<string>) {
      exists i: nat :: OwnedBy(r, voices, n, done, i)
    }

    ghost predicate Progress(rs: seq<Row>, keys: set<(string, string)>, voices: seq<Voice>, n: nat, done: set<string>) {
      && (forall k :: 0 <= k < |rs| ==> Owned(rs[k], voices, n, done))
      && (forall i: nat, lang :: i < |voices| && Reached(voices, n, done, i, lang) ==> (Base(voices[i]), lang) in keys)
    }

    lemma OwnedStays(r: Row, voices: seq<Voice>, n: nat, done: set<string>, lang: string)
      requires Owned(r, voices, n, done)
      ensures Owned(r, voices, n, done + {lang})
    {
      hide Base, Due, Names;
      var i: nat :| OwnedBy(r, voices, n, done, i);
      assert OwnedBy(r, voices, n, done + {lang}, i);
    }

    // One language more of voice n.
    lemma Advance(rs: seq<Row>, keys: set<(string, string)>, row: Option<Row>, voices: seq<Voice>, n: nat,
                  done: set<string>, lang: string)
      requires n < |voices| && Progress(rs, keys, voices, n, done)
      requires row.Some? ==>
        var name := if (Base(voices[n]), lang) in keys then voices[n].id else Base(voices[n]);
        row.value == Row(name, lang, voices[n].id) && (name, lang) !in keys
      ensures var name := if (Base(voices[n]), lang) in keys then voices[n].id else Base(voices[n]);
        Progress(rs + (if row.Some? then [row.value] else []), keys + {(name, lang)}, voices, n, done + {lang})
    {
      hide Base, Due, Owned;
      var all := rs + (if row.Some? then [row.value] else []);
      forall k | 0 <= k < |all| ensures Owned(all[k], voices, n, done + {lang}) {
        if k < |rs| {
          assert all[k] == rs[k];
          OwnedStays(rs[k], voices, n, done, lang);
        } else {
          NewOwned(rs, keys, row.value, voices, n, done);
        }
      }
    }

    lemma NewOwned(rs: seq<Row>, keys: set<(string, string)>, r: Row, voices: seq<Voice>, n: nat, done: set<string>)
      requires n < |voices| && Progress(rs, keys, voices, n, done)
      requires var name := if (Base(voices[n]), r.lang) in keys then voices[n].id else Base(voices[n]);
        r == Row(name, r.lang, voices[n].id) && (name, r.lang) !in keys
      ensures Owned(r, voices, n, done + {r.lang})
    {
      hide Base, Due;
      assert OwnedBy(r, voices, n, done + {r.lang}, n);
    }

    // Voice n is done under all its languages.
    lemma NextVoice(rs: seq<Row>, keys: set<(string, string)>, voices: seq<Voice>, n: nat, done: set<string>)
      requires n < |voices| && Progress(rs, keys, voices, n, done)
      requires forall lang :: lang in done <==> Due(voices[n], lang)
      ensures Progress(rs, keys, voices, n + 1, {})
    {
      hide Base, Due, Names;
      assert forall i: nat, lang :: i < |voices| ==>
        (Reached(voices, n + 1, {}, i, lang) <==> Reached(voices, n, done, i, lang));
      forall k | 0 <= k < |rs| ensures Owned(rs[k], voices, n + 1, {}) {
        assert Owned(rs[k], voices, n, done);
        var i: nat :| OwnedBy(rs[k], voices, n, done, i);
        assert OwnedBy(rs[k], voices, n + 1, {}, i);
      }
    }

    // ---- when every row selects its own voice -------------------------------------

    ghost predicate Listable(v: Voice) {
      exists lang :: Due(v, lang)
    }

    // The first voice of its display name that is listed at all.
    ghost predicate FirstOfName(voices: seq<Voice>, i: nat)
      requires i < |voices|
    {
      Listable(voices[i]) && forall h: nat :: h < i && Base(voices[h]) == Base(voices[i]) ==> !Listable(voices[h])
    }

    // The first listed voice of each display name is due wherever a later one is.
    ghost predicate Covers(voices: seq<Voice>) {
      forall i: nat, j: nat, lang ::
        (i < j < |voices| && Base(voices[i]) == Base(voices[j]) && FirstOfName(voices, i) && Due(voices[j], lang)) ==>
          Due(voices[i], lang)
    }

    lemma {:induction false} SomeFirst(voices: seq<Voice>, i: nat) returns (f: nat)
      requires i < |voices| && Listable(voices[i])
      ensures f <= i && Base(voices[f]) == Base(voices[i]) && FirstOfName(voices, f)
    {
      hide Base, Due, Listable;
      if FirstOfName(voices, i) {
        f := i;
      } else {
        var h: nat :| h < i && Base(voices[h]) == Base(voices[i]) && Listable(voices[h]);
        f := SomeFirst(voices, h);
      }
    }

    ghost predicate Finished(rs: seq<Row>, keys: set<(string, string)>, voices: seq<Voice>) {
      Progress(rs, keys, voices, |voices|, {}) && AllShown(rs, keys) && IdsApart(voices)
    }

    // A row of a display name, under a language where voice i is the first of that name, is
    // voice i's.
    lemma OwnerIsFirst(r: Row, voices: seq<Voice>, i: nat, o: nat)
      requires IdsApart(voices) && i < |voices| && OwnedBy(r, voices, |voices|, {}, o)
      requires r.name == Base(voices[i]) && Due(voices[i], r.lang)
      requires forall h: nat :: h < i && Base(voices[h]) == Base(voices[i]) ==> !Due(voices[h], r.lang)
      ensures o == i
    {
      hide Base, Due;
    }

    // Such a row exists.
    lemma RowOfFirst(rs: seq<Row>, keys: set<(string, string)>, voices: seq<Voice>, i: nat, lang: string)
      returns (k: nat)
      requires Finished(rs, keys, voices) && i < |voices| && Due(voices[i], lang)
      requires forall h: nat :: h < i && Base(voices[h]) == Base(voices[i]) ==> !Due(voices[h], lang)
      ensures k < |rs| && rs[k] == Row(Base(voices[i]), lang, voices[i].id)
    {
      hide Base, Due, OwnedBy, IdsApart;
      var key := (Base(voices[i]), lang);
      assert Reached(voices, |voices|, {}, i, lang) && HasKey(rs, key);
      k :| k < |rs| && rs[k].name == key.0 && rs[k].lang == key.1;
      assert Owned(rs[k], voices, |voices|, {});
      var o: nat :| OwnedBy(rs[k], voices, |voices|, {}, o);
      OwnerIsFirst(rs[k], voices, i, o);
      OwnerHasId(rs[k], voices, o);
    }

    lemma OwnerHasId(r: Row, voices: seq<Voice>, o: nat)
      requires OwnedBy(r, voices, |voices|, {}, o)
      ensures o < |voices| && r.id == voices[o].id
    {
    }

    // Two rows of one name: the same voice, or two voices of one display name, each the first
    // in its row's language.
    lemma SameName(rs: seq<Row>, keys: set<(string, string)>, voices: seq<Voice>, a: nat, b: nat)
      returns (i: nat, j: nat)
      requires Finished(rs, keys, voices) && a < |rs| && b < |rs| && rs[a].name == rs[b].name
      ensures i < |voices| && j < |voices| && rs[a].id == voices[i].id && rs[b].id == voices[j].id
      ensures i != j ==> Base(voices[i]) == Base(voices[j]) && Due(voices[i], rs[a].lang) && Due(voices[j], rs[b].lang)
      ensures i != j ==> forall h: nat :: h < i && Base(voices[h]) == Base(voices[i]) ==> !Due(voices[h], rs[a].lang)
      ensures i != j ==> forall h: nat :: h < j && Base(voices[h]) == Base(voices[j]) ==> !Due(voices[h], rs[b].lang)
    {
      hide Base, Due, AllShown;
      assert Owned(rs[a], voices, |voices|, {}) && Owned(rs[b], voices, |voices|, {});
      i :| OwnedBy(rs[a], voices, |voices|, {}, i);
      j :| OwnedBy(rs[b], voices, |voices|, {}, j);
      if i != j {
        assert voices[i].id !in Names(voices[j]) && voices[j].id !in Names(voices[i]);
        assert forall h: nat :: h < |voices| && !Reached(voices, |voices|, {}, h, rs[a].lang) ==>
          !Due(voices[h], rs[a].lang);
        assert forall h: nat :: h < |voices| && !Reached(voices, |voices|, {}, h, rs[b].lang) ==>
          !Due(voices[h], rs[b].lang);
      }
    }

    // Under `Covers` a voice that is first in some language is the first of its name.
    lemma FirstHere(voices: seq<Voice>, i: nat, lang: string)
      requires Covers(voices) && i < |voices| && Due(voices[i], lang)
      requires forall h: nat :: h < i && Base(voices[h]) == Base(voices[i]) ==> !Due(voices[h], lang)
      ensures FirstOfName(voices, i)
    {
      hide Base, Due, FirstOfName;
      assert Listable(voices[i]);
      var f := SomeFirst(voices, i);
      assert f == i;
    }

    lemma CoveredSelects(rs: seq<Row>, keys: set<(string, string)>, voices: seq<Voice>, a: nat, b: nat)
      requires Finished(rs, keys, voices) && Covers(voices) && a < |rs| && b < |rs| && rs[a].name == rs[b].name
      ensures rs[a].id == rs[b].id
    {
      hide Base, Due, Finished, FirstOfName, Covers;
      var i, j := SameName(rs, keys, voices, a, b);
      if i != j {
        FirstHere(voices, i, rs[a].lang);
        FirstHere(voices, j, rs[b].lang);
        FirstIsOne(voices, i, j);
      }
    }

    lemma FirstIsOne(voices: seq<Voice>, i: nat, j: nat)
      requires i < |voices| && j < |voices| && FirstOfName(voices, i) && FirstOfName(voices, j)
      requires Base(voices[i]) == Base(voices[j])
      ensures i == j
    {
      hide Base, Listable;
    }

    lemma UncoveredMisdirects(rs: seq<Row>, keys: set<(string, string)>, voices: seq<Voice>) returns (a: nat, b: nat)
      requires Finished(rs, keys, voices) && !Covers(voices)
      ensures a < |rs| && b < |rs| && rs[a].name == rs[b].name && rs[a].id != rs[b].id
    {
      hide Base, Due, Finished;
      var f: nat, j: nat, lang :| f < j < |voices| && Base(voices[f]) == Base(voices[j]) && FirstOfName(voices, f)
        && Due(voices[j], lang) && !Due(voices[f], lang);
      var home :| Due(voices[f], home);
      assert forall h: nat :: h < f && Base(voices[h]) == Base(voices[f]) ==> !Due(voices[h], home);
      a := RowOfFirst(rs, keys, voices, f, home);
      var i := FirstDue(voices, j, lang);
      b := RowOfFirst(rs, keys, voices, i, lang);
      IdsDiffer(rs, keys, voices, f, i);
    }

    lemma IdsDiffer(rs: seq<Row>, keys: set<(string, string)>, voices: seq<Voice>, i: nat, j: nat)
      requires Finished(rs, keys, voices) && i < |voices| && j < |voices| && i != j
      ensures voices[i].id != voices[j].id
    {
      hide Base, Progress, AllShown;
      assert voices[i].id !in Names(voices[j]);
    }

    lemma {:induction false} FirstDue(voices: seq<Voice>, j: nat, lang: string) returns (i: nat)
      requires j < |voices| && Due(voices[j], lang)
      ensures i <= j && Base(voices[i]) == Base(voices[j]) && Due(voices[i], lang)
      ensures forall h: nat :: h < i && Base(voices[h]) == Base(voices[i]) ==> !Due(voices[h], lang)
    {
      hide Base, Due;
      if h: nat :| h < j && Base(voices[h]) == Base(voices[j]) && Due(voices[h], lang) {
        i := FirstDue(voices, h, lang);
      } else {
        i := j;
      }
    }

    lemma SelectsIffCovers(rs: seq<Row>, keys: set<(string, string)>, voices: seq<Voice>)
      requires Finished(rs, keys, voices)
      ensures AllSelect(rs) <==> Covers(voices)
    {
      hide Base, Due, Finished, Covers;
      SelectsExactly(rs);
      if Covers(voices) {
        forall a: nat, b: nat | a < |rs| && b < |rs| && rs[a].name == rs[b].name ensures rs[a].id == rs[b].id {
          CoveredSelects(rs, keys, voices, a, b);
        }
      } else {
        var a, b := UncoveredMisdirects(rs, keys, voices);
      }
    }

    // Under one language: the row, unless the voice has it already.
    method WriteFor(voices: seq<Voice>, n: nat, lang: string, askedLang: Option<string>, askedVariant: Option<string>,
                    ghost done: set<string>)
      requires Progress(rows, written, voices, n, done)
      requires n < |voices| && Valid() && RowsOf(rows, voices)
      requires lang in Langs(voices[n]) || (lang == US_LANG && exists l :: l in Langs(voices[n]) && English(l))
      requires ShownFor(rows, written, askedLang, askedVariant) && OnlyWanted(rows, askedLang, askedVariant)
      modifies `rows, `written, `used, `nameToId
      ensures Valid() && RowsOf(rows, voices) && old(rows) <= rows
      ensures Progress(rows, written, voices, n, done + {lang})
      ensures ShownFor(rows, written, askedLang, askedVariant) && OnlyWanted(rows, askedLang, askedVariant)
      ensures IdsApart(voices) && Wanted(lang, "none", askedLang, askedVariant) ==> Lists(rows, voices[n].id, lang)
    {
      hide Base, Langs, Valid, ShownFor, RowsOf, IdsApart, Progress, Wanted;
      ghost var was, keys := rows, written;
      ghost var row := WriteRow(voices[n], lang, askedLang, askedVariant);
      RowsOfMore(was, row, voices, n);
      Advance(was, keys, row, voices, n, done, lang);
      if row.Some? { assert rows[|rows| - 1] == row.value; }
      if row.None? && Wanted(lang, "none", askedLang, askedVariant) && IdsApart(voices) {
        AlreadyListed(rows, written, voices, n, lang, askedLang, askedVariant);
      }
    }

    method WriteVoice(voices: seq<Voice>, n: nat, askedLang: Option<string>, askedVariant: Option<string>)
      requires n < |voices| && Valid() && RowsOf(rows, voices) && Progress(rows, written, voices, n, {})
      requires ShownFor(rows, written, askedLang, askedVariant) && OnlyWanted(rows, askedLang, askedVariant)
      modifies `rows, `written, `used, `nameToId
      ensures Valid() && RowsOf(rows, voices) && old(rows) <= rows && Progress(rows, written, voices, n + 1, {})
      ensures ShownFor(rows, written, askedLang, askedVariant) && OnlyWanted(rows, askedLang, askedVariant)
      ensures IdsApart(voices) ==>
        forall lang :: Due(voices[n], lang) && Wanted(lang, "none", askedLang, askedVariant) ==>
          Lists(rows, voices[n].id, lang)
    {
      hide Names, Langs, Valid, ShownFor, OnlyWanted, RowsOf, IdsApart, Lists, English, Progress, Wanted;
      var v := voices[n];
      var langs := Langs(v);
      var seen: set<string> := {};
      ghost var done: set<string> := {};
      for j := 0 to |langs|
        invariant Valid() && RowsOf(rows, voices) && old(rows) <= rows && Progress(rows, written, voices, n, done)
        invariant ShownFor(rows, written, askedLang, askedVariant) && OnlyWanted(rows, askedLang, askedVariant)
        invariant forall l :: l in langs[..j] && l != "" ==> l in seen
        invariant forall l :: l in seen ==> l in langs && l != ""
        invariant forall l :: l in done <==> l in seen || (l == US_LANG && exists e :: e in seen && English(e))
        invariant IdsApart(voices) ==> SeenListed(rows, v.id, seen, askedLang, askedVariant)
      {
        var lang := langs[j];
        assert langs[..j + 1] == langs[..j] + [lang];
        if lang != "" && lang !in seen {
          ghost var first := rows;
          WriteFor(voices, n, lang, askedLang, askedVariant, done);
          done := done + {lang};
          ghost var second := rows;
          if English(lang) && lang != US_LANG {
            WriteFor(voices, n, US_LANG, askedLang, askedVariant, done);
            done := done + {US_LANG};
          }
          SeenStay(first, second, rows, v.id, seen, lang, IdsApart(voices), askedLang, askedVariant);
          seen := seen + {lang};
        }
      }
      assert langs[..|langs|] == langs;
      NextVoice(rows, written, voices, n, done);
    }

    // The voice has its rows under the languages seen, and in US English if one is English.
    ghost predicate SeenListed(rs: seq<Row>, id: string, seen: set<string>, askedLang: Option<string>,
                               askedVariant: Option<string>)
    {
      forall l :: l in seen ==>
        && (Wanted(l, "none", askedLang, askedVariant) ==> Lists(rs, id, l))
        && (English(l) && Wanted(US_LANG, "none", askedLang, askedVariant) ==> Lists(rs, id, US_LANG))
    }

    lemma SeenStay(first: seq<Row>, second: seq<Row>, third: seq<Row>, id: string, seen: set<string>,
                   lang: string, sure: bool, askedLang: Option<string>, askedVariant: Option<string>)
      requires first <= second <= third
      requires sure && Wanted(lang, "none", askedLang, askedVariant) ==> Lists(second, id, lang)
      requires sure && lang != US_LANG && English(lang) && Wanted(US_LANG, "none", askedLang, askedVariant) ==>
                 Lists(third, id, US_LANG)
      requires sure ==> SeenListed(first, id, seen, askedLang, askedVariant)
      ensures sure ==> SeenListed(third, id, seen + {lang}, askedLang, askedVariant)
    {
      hide Lists, English, Wanted;
      if sure {
        if Lists(second, id, lang) { ListsMore(second, third, id, lang); }
        forall l | l in seen
          ensures Wanted(l, "none", askedLang, askedVariant) ==> Lists(third, id, l)
          ensures English(l) && Wanted(US_LANG, "none", askedLang, askedVariant) ==> Lists(third, id, US_LANG)
        {
          if Lists(first, id, l) { ListsMore(first, third, id, l); }
          if Lists(first, id, US_LANG) { ListsMore(first, third, id, US_LANG); }
        }
      }
    }

    // The rows of all voices, from none.
    method WriteAll(voices: seq<Voice>, askedLang: Option<string>, askedVariant: Option<string>)
      requires Valid() && rows == [] && written == {}
      modifies `rows, `written, `used, `nameToId
      ensures Valid() && RowsOf(rows, voices) && Progress(rows, written, voices, |voices|, {})
      ensures ShownFor(rows, written, askedLang, askedVariant) && OnlyWanted(rows, askedLang, askedVariant)
      ensures IdsApart(voices) ==> AllListed(rows, voices, |voices|, askedLang, askedVariant)
    {
      hide *;
      NothingYet(voices, askedLang, askedVariant);
      for n := 0 to |voices|
        invariant Valid() && RowsOf(rows, voices) && Progress(rows, written, voices, n, {})
        invariant ShownFor(rows, written, askedLang, askedVariant) && OnlyWanted(rows, askedLang, askedVariant)
        invariant IdsApart(voices) ==> AllListed(rows, voices, n, askedLang, askedVariant)
      {
        ghost var before := rows;
        WriteVoice(voices, n, askedLang, askedVariant);
        if IdsApart(voices) { AllListedMore(before, rows, voices, n, askedLang, askedVariant); }
      }
    }

    /** `cmd_list_voices`: no (name, lang) row twice, names from the voices, only languages the
        filter asks for, and every voice under each such language of its own unless ids clash
        with names. Then, with no filter, every row selects its own voice if and only if the
        first listed voice of each display name is due in every language in which a later one
        is. */
    method ListAll(voices: seq<Voice>, askedLang: Option<string>, askedVariant: Option<string>) returns (ok: bool)
      modifies `rows, `written, `used, `nameToId
      ensures voices == [] ==> !ok && rows == old(rows) && nameToId == old(nameToId)
      ensures voices != [] ==> Once(rows) && nameToId == Owners(rows) && RowsOf(rows, voices) && (ok <==> rows != [])
      ensures voices != [] ==> OnlyWanted(rows, askedLang, askedVariant)
      ensures voices != [] && IdsApart(voices) ==> AllListed(rows, voices, |voices|, askedLang, askedVariant)
      ensures voices != [] && askedLang.None? && IdsApart(voices) ==> Finished(rows, written, voices)
      ensures voices != [] && askedLang.None? && IdsApart(voices) ==> (AllSelect(rows) <==> Covers(voices))
    {
      hide *;
      if voices == [] { return false; }
      rows, written, used, nameToId := [], {}, map[], map[];
      ValidAtFirst();
      WriteAll(voices, askedLang, askedVariant);
      if askedLang.None? { Unfiltered(rows, written, askedVariant); }
      if askedLang.None? && IdsApart(voices) { Concludes(rows, written, voices); }
      ValidMeans();
      ok := rows != [];
    }

    lemma Unfiltered(rs: seq<Row>, keys: set<(string, string)>, askedVariant: Option<string>)
      requires ShownFor(rs, keys, None, askedVariant)
      ensures AllShown(rs, keys)
    {
    }

    lemma Concludes(rs: seq<Row>, keys: set<(string, string)>, voices: seq<Voice>)
      requires Progress(rs, keys, voices, |voices|, {}) && AllShown(rs, keys) && IdsApart(voices)
      ensures Finished(rs, keys, voices) && (AllSelect(rs) <==> Covers(voices))
    {
      hide Progress, AllShown, IdsApart, AllSelect, Covers;
      SelectsIffCovers(rs, keys, voices);
    }

    lemma ValidMeans()
      requires Valid()
      ensures Once(rows) && nameToId == Owners(rows)
    {
    }

    lemma ValidAtFirst()
      requires rows == [] && written == {} && used == map[] && nameToId == map[]
      ensures Valid()
    {
    }

    lemma NothingYet(voices: seq<Voice>, askedLang: Option<string>, askedVariant: Option<string>)
      ensures RowsOf([], voices) && AllListed([], voices, 0, askedLang, askedVariant) && Progress([], {}, voices, 0, {})
      ensures ShownFor([], {}, askedLang, askedVariant) && OnlyWanted([], askedLang, askedVariant)
    {
    }

    // `_apply_setting` for `synthesis_voice`.
    method SetVoice(val: string)
      modifies `voiceName, `explicitVoice
      ensures explicitVoice == (val != "" && lower(val) !in {"none", "null", ""})
      ensures voiceName == if !explicitVoice then old(voiceName) else if val in nameToId then nameToId[val] else val
    {
      if val != "" && lower(val) != "none" && lower(val) != "null" && lower(val) != "" {
        voiceName := if val in nameToId then nameToId[val] else val;
        explicitVoice := true;
      } else {
        explicitVoice := false;
      }
    }

    // Each of the two has the row of the shared name under its own language.
    lemma AnnasRows() returns (a: nat, b: nat)
      requires Finished(rows, written, ANNAS) && normalize == Same && lower == Same
      ensures a < |rows| && b < |rows| && rows[a] == Row("Anna", "en-US", "a") && rows[b] == Row("Anna", "fr-FR", "b")
    {
      hide Base, Finished;
      AnnasShareAName();
      assert "en-"[0] != "fr-FR"[0];
      assert Langs(ANNAS[0]) == ["en-US"] && Langs(ANNAS[1]) == ["fr-FR"];
      assert Due(ANNAS[0], "en-US") && Due(ANNAS[1], "fr-FR") && !Due(ANNAS[0], "fr-FR");
      a := RowOfFirst(rows, written, ANNAS, 0, "en-US");
      b := RowOfFirst(rows, written, ANNAS, 1, "fr-FR");
    }

    lemma AreFromVoices(rs: seq<Row>, voices: seq<Voice>)
      ensures RowsOf(rs, voices) ==> FromVoices(rs, voices)
    {
      hide Base;
      if !RowsOf(rs, voices) { return; }
      forall j | 0 <= j < |rs| ensures NamesSome(rs[j], voices) {
        assert RowOfSome(rs[j], voices);
        var i :| 0 <= i < |voices| && RowOf(rs[j], voices[i]);
        assert rs[j].id == voices[i].id && rs[j].name in Names(voices[i]);
      }
    }

    /** A listed name sent back selects the voice of its row, reserved words aside, when
        different voices share no name. */
    method PickRow(voices: seq<Voice>, askedLang: Option<string>, askedVariant: Option<string>, k: nat)
      requires voices != [] && Disjoint(voices)
      modifies this
      ensures k < |rows| && rows[k].name != "" && lower(rows[k].name) !in {"none", "null", ""} ==>
          voiceName == rows[k].id
    {
      hide Names, RowsOf, FromVoices, Disjoint, Owners, Once;
      var ok := ListAll(voices, askedLang, askedVariant);
      AreFromVoices(rows, voices);
      DisjointRoundTrip(rows, voices);
      if k < |rows| {
        assert Selects(rows, k);
        SetVoice(rows[k].name);
      }
    }
  }

  // Two voices of one display name, each in a language of its own.
  const ANNAS: seq<Voice> := [Voice("a", "Anna", "en-US", []), Voice("b", "Anna", "fr-FR", [])]

  lemma AnnasShareAName()
    ensures |ANNAS| == 2 && Base(ANNAS[0]) == "Anna" && Base(ANNAS[1]) == "Anna" && IdsApart(ANNAS)
  {
    hide Strip;
    StripKeeps("Anna");
    var names := {"Anna", "a"};
    assert Names(ANNAS[0]) == {"Anna", "a"} && Names(ANNAS[1]) == {"Anna", "b"};
  }

  function Same(s: string): string {
    s
  }

  lemma SameIs(s: string)
    ensures Same(s) == s
  {
  }

  /** Listed, they share a row name, and that name sent back selects one of them for both. */
  method SharedNameMisdirects() returns (m: Module)
    ensures exists k :: 0 <= k < |m.rows| && m.rows[k].name == "Anna" && m.explicitVoice && m.voiceName != m.rows[k].id
  {
    hide *;
    AnnasShareAName();
    SameIs("Anna");
    m := new Module(Same, Same);
    var ok := m.ListAll(ANNAS, None, None);
    ghost var a, b := m.AnnasRows();
    m.SetVoice("Anna");
    assert m.voiceName != m.rows[a].id || m.voiceName != m.rows[b].id;
  }
}
