/**
  The daemon's voice index: raw per-provider voice lists, and the public listing and
  lookup derived from them with collision suffixes.
*/
module VoiceIndexing {
  import opened Options
  import opened Ordering

  datatype Voice = Voice(id: string, language: string, gender: string, displayName: Option<string>,
                         extraLanguages: seq<string>)
  datatype Entry = Entry(provider: string, local: string)
  datatype Report = Report(provider: string, voice: Voice)

  type Raw = map<string, seq<Voice>>

  // `local_id_for`: an id the lookup does not list is passed on unchanged.
  function LocalIdIn(lookup: map<string, Entry>, publicId: string): (id: string)
    ensures publicId in lookup ==> id == lookup[publicId].local
    ensures publicId !in lookup ==> id == publicId
  {
    if publicId in lookup then lookup[publicId].local else publicId
  }

  // ---- the derived index, as a function of the raw lists -------------------

  function Of(provider: string, voices: seq<Voice>): (rs: seq<Report>)
    ensures |rs| == |voices| && forall i :: 0 <= i < |voices| ==> rs[i] == Report(provider, voices[i])
  {
    seq(|voices|, i requires 0 <= i < |voices| => Report(provider, voices[i]))
  }

  // Every reported voice, provider by provider.
  function Reports(raw: Raw, order: seq<string>): seq<Report>
    requires forall p :: p in order ==> p in raw
  {
    if order == [] then []
    else Reports(raw, order[..|order| - 1]) + Of(order[|order| - 1], raw[order[|order| - 1]])
  }

  ghost function AllReports(raw: Raw): seq<Report> {
    Reports(raw, Sorted(raw.Keys))
  }

  function Count(rs: seq<Report>, id: string): nat {
    if rs == [] then 0
    else Count(rs[..|rs| - 1], id) + (if rs[|rs| - 1].voice.id == id then 1 else 0)
  }

  function PublicId(rs: seq<Report>, r: Report): string {
    if Count(rs, r.voice.id) > 1 then r.voice.id + "." + r.provider else r.voice.id
  }

  function PublicVoice(rs: seq<Report>, r: Report): Voice {
    r.voice.(id := PublicId(rs, r))
  }

  // The lookup after the first n reports: the first to claim a public id keeps it.
  function LookupUpTo(rs: seq<Report>, n: nat): map<string, Entry>
    requires n <= |rs|
  {
    if n == 0 then map[]
    else
      var before := LookupUpTo(rs, n - 1);
      var id := PublicId(rs, rs[n - 1]);
      if id in before then before else before[id := Entry(rs[n - 1].provider, rs[n - 1].voice.id)]
  }

  // What is listed for provider p after the first n reports.
  function ListedUpTo(rs: seq<Report>, n: nat, p: string): seq<Voice>
    requires n <= |rs|
  {
    if n == 0 then []
    else
      var before := ListedUpTo(rs, n - 1, p);
      if rs[n - 1].provider == p && PublicId(rs, rs[n - 1]) !in LookupUpTo(rs, n - 1)
      then before + [PublicVoice(rs, rs[n - 1])]
      else before
  }

  function Lookup(rs: seq<Report>): map<string, Entry> {
    LookupUpTo(rs, |rs|)
  }

  function Listed(rs: seq<Report>, p: string): seq<Voice> {
    ListedUpTo(rs, |rs|, p)
  }

  // ---- facts about reports ---------------------------------------------------

  lemma {:induction false} CountConcat(a: seq<Report>, b: seq<Report>, id: string)
    ensures Count(a + b, id) == Count(a, id) + Count(b, id)
  {
    if b == [] {
      assert a + b == a;
    } else {
      CountConcat(a, b[..|b| - 1], id);
      assert (a + b)[..|a + b| - 1] == a + b[..|b| - 1];
    }
  }

  lemma {:induction false} ReportsConcat(raw: Raw, a: seq<string>, b: seq<string>)
    requires forall p :: p in a + b ==> p in raw
    ensures (forall p :: p in a ==> p in raw) && (forall p :: p in b ==> p in raw)
    ensures Reports(raw, a + b) == Reports(raw, a) + Reports(raw, b)
  {
    hide Reports, Of;
    assert forall p :: p in a ==> p in a + b;
    assert forall p :: p in b ==> p in a + b;
    if b == [] {
      assert a + b == a;
      ReportsNone(raw);
    } else {
      var init, last := b[..|b| - 1], b[|b| - 1];
      BackOf(a, b);
      ReportsLast(raw, a + b);
      ReportsLast(raw, b);
      ReportsConcat(raw, a, init);
      Regrouped(Reports(raw, a), Reports(raw, init), Of(last, raw[last]));
    }
  }

  lemma ReportsNone(raw: Raw)
    ensures Reports(raw, []) == []
  {
  }

  lemma BackOf(a: seq<string>, b: seq<string>)
    requires b != []
    ensures var ab := a + b; ab[..|ab| - 1] == a + b[..|b| - 1] && ab[|ab| - 1] == b[|b| - 1]
    ensures forall p :: p in a + b[..|b| - 1] ==> p in a + b
  {
    var ab, init := a + b, b[..|b| - 1];
    assert ab[..|ab| - 1] == a + init;
  }

  lemma Regrouped(a: seq<Report>, b: seq<Report>, c: seq<Report>)
    ensures a + (b + c) == (a + b) + c
  {
  }

  lemma ReportsLast(raw: Raw, order: seq<string>)
    requires order != [] && forall p :: p in order ==> p in raw
    ensures var init, last := order[..|order| - 1], order[|order| - 1];
      Reports(raw, order) == Reports(raw, init) + Of(last, raw[last])
  {
  }

  lemma CountParts(raw: Raw, l: seq<string>, x: string, r: seq<string>, id: string)
    requires forall p :: p in l + [x] + r ==> p in raw
    ensures forall p :: p in l + r ==> p in raw
    ensures x in raw
    ensures Count(Reports(raw, l + [x] + r), id) == Count(Reports(raw, l + r), id) + Count(Of(x, raw[x]), id)
  {
    assert x in l + [x] + r;
    assert forall p :: p in l + r ==> p in l + [x] + r;
    ReportsConcat(raw, l + [x], r);
    ReportsConcat(raw, l, r);
    assert (l + [x])[..|l + [x]| - 1] == l;
    assert Reports(raw, l + [x]) == Reports(raw, l) + Of(x, raw[x]);
    CountConcat(Reports(raw, l + [x]), Reports(raw, r), id);
    CountConcat(Reports(raw, l), Of(x, raw[x]), id);
    CountConcat(Reports(raw, l), Reports(raw, r), id);
  }

  lemma Without(b: seq<string>, k: nat)
    requires k < |b|
    ensures b == b[..k] + [b[k]] + b[k + 1..]
    ensures multiset(b[..k] + b[k + 1..]) == multiset(b) - multiset{b[k]}
  {
    var l, r := b[..k], b[k + 1..];
    assert b == l + [b[k]] + r;
    assert multiset(b) == multiset(l) + multiset{b[k]} + multiset(r);
  }

  lemma RemoveOne(a: seq<string>, b: seq<string>) returns (k: nat)
    requires multiset(a) == multiset(b) && a != []
    ensures k < |b| && b[k] == a[|a| - 1]
    ensures b == b[..k] + [b[k]] + b[k + 1..]
    ensures multiset(a[..|a| - 1]) == multiset(b[..k] + b[k + 1..])
  {
    var n := |a| - 1;
    Without(a, n);
    assert a[..n] + a[n + 1..] == a[..n];
    assert a[n] in multiset(a);
    k :| 0 <= k < |b| && b[k] == a[n];
    Without(b, k);
  }

  // The order in which providers are counted does not matter.
  lemma {:induction false} CountAnyOrder(raw: Raw, a: seq<string>, b: seq<string>, id: string)
    requires multiset(a) == multiset(b)
    requires (forall p :: p in a ==> p in raw) && (forall p :: p in b ==> p in raw)
    ensures Count(Reports(raw, a), id) == Count(Reports(raw, b), id)
    decreases |a|
  {
    if a == [] {
      assert |multiset(a)| == |multiset(b)| == |b|;
    } else {
      var k := RemoveOne(a, b);
      CountParts(raw, b[..k], b[k], b[k + 1..], id);
      var init := a[..|a| - 1];
      assert init + [b[k]] + [] == a && init + [] == init;
      CountParts(raw, init, b[k], [], id);
      CountAnyOrder(raw, init, b[..k] + b[k + 1..], id);
    }
  }

  // ---- facts about the derived index -------------------------------------------

  ghost predicate ListsUpTo(rs: seq<Report>, n: nat, p: string, a: nat)
    requires n <= |rs|
  {
    a < |ListedUpTo(rs, n, p)|
  }

  // v is the reported voice under its public id: suffixed if the bare id is reported twice.
  ghost predicate IsPublic(rs: seq<Report>, r: Report, v: Voice) {
    && v.language == r.voice.language && v.gender == r.voice.gender && v.displayName == r.voice.displayName
    && v.extraLanguages == r.voice.extraLanguages
    && v.id == (if Count(rs, r.voice.id) > 1 then r.voice.id + "." + r.provider else r.voice.id)
  }

  // Every listed voice resolves to its own provider and to a voice that provider reported, and
  // is that voice but for its id.
  lemma {:induction false} ListedResolves(rs: seq<Report>, n: nat, p: string, a: nat)
    requires n <= |rs| && a < |ListedUpTo(rs, n, p)|
    ensures var v := ListedUpTo(rs, n, p)[a];
      && v.id in LookupUpTo(rs, n)
      && LookupUpTo(rs, n)[v.id].provider == p
      && exists i :: 0 <= i < n && rs[i].provider == p && IsPublic(rs, rs[i], v)
                     && LookupUpTo(rs, n)[v.id].local == rs[i].voice.id
  {
    if a < |ListedUpTo(rs, n - 1, p)| {
      ListedResolves(rs, n - 1, p, a);
    }
  }

  // No public id is listed twice, within a provider or across providers.
  lemma {:induction false} ListedOnce(rs: seq<Report>, n: nat, p: string, a: nat, q: string, b: nat)
    requires n <= |rs| && a < |ListedUpTo(rs, n, p)| && b < |ListedUpTo(rs, n, q)|
    requires ListedUpTo(rs, n, p)[a].id == ListedUpTo(rs, n, q)[b].id
    ensures p == q && a == b
  {
    var p', q' := ListedUpTo(rs, n - 1, p), ListedUpTo(rs, n - 1, q);
    if a < |p'| { ListedResolves(rs, n - 1, p, a); }
    if b < |q'| { ListedResolves(rs, n - 1, q, b); }
    if a < |p'| && b < |q'| { ListedOnce(rs, n - 1, p, a, q, b); }
  }

  // Every entry of the lookup is listed.
  lemma {:induction false} LookupIsListed(rs: seq<Report>, n: nat, id: string)
    requires n <= |rs| && id in LookupUpTo(rs, n)
    ensures exists p, a: nat :: ListsUpTo(rs, n, p, a) && ListedUpTo(rs, n, p)[a].id == id
  {
    var r := rs[n - 1];
    if id in LookupUpTo(rs, n - 1) {
      LookupIsListed(rs, n - 1, id);
      var p, a: nat :| ListsUpTo(rs, n - 1, p, a) && ListedUpTo(rs, n - 1, p)[a].id == id;
      assert ListsUpTo(rs, n, p, a) && ListedUpTo(rs, n, p)[a].id == id;
    } else {
      var a := |ListedUpTo(rs, n - 1, r.provider)|;
      assert ListsUpTo(rs, n, r.provider, a) && ListedUpTo(rs, n, r.provider)[a].id == id;
    }
  }

  // An entry, once made, stays; what it says is the first claim.
  lemma {:induction false} FirstClaimWins(rs: seq<Report>, n: nat, id: string)
    requires n <= |rs|
    ensures id in LookupUpTo(rs, n) <==> exists i :: 0 <= i < n && PublicId(rs, rs[i]) == id
    ensures id in LookupUpTo(rs, n) ==>
      exists i :: 0 <= i < n && PublicId(rs, rs[i]) == id
        && LookupUpTo(rs, n)[id] == Entry(rs[i].provider, rs[i].voice.id)
        && forall j :: 0 <= j < i ==> PublicId(rs, rs[j]) != id
  {
    if n > 0 { FirstClaimWins(rs, n - 1, id); }
  }

  // ---- when public naming is a bijection -----------------------------------------

  ghost predicate DistinctWithin(raw: Raw) {
    forall p, a, b :: p in raw && 0 <= a < b < |raw[p]| ==> raw[p][a].id != raw[p][b].id
  }

  ghost predicate Distinct(order: seq<string>) {
    forall a, b :: 0 <= a < b < |order| ==> order[a] != order[b]
  }

  ghost predicate DotlessProviders(raw: Raw) {
    forall p :: p in raw ==> '.' !in p
  }

  lemma {:induction false} ReportAt(raw: Raw, order: seq<string>, i: nat)
    requires (forall p :: p in order ==> p in raw) && i < |Reports(raw, order)|
    ensures var r := Reports(raw, order)[i];
      r.provider in order && exists a :: 0 <= a < |raw[r.provider]| && raw[r.provider][a] == r.voice
  {
    var init, last := order[..|order| - 1], order[|order| - 1];
    var before := Reports(raw, init);
    if i < |before| {
      ReportAt(raw, init, i);
    } else {
      assert Reports(raw, order)[i] == Of(last, raw[last])[i - |before|];
    }
  }

  lemma {:induction false} ReportedAt(raw: Raw, order: seq<string>, p: string, a: nat) returns (i: nat)
    requires (forall q :: q in order ==> q in raw) && p in order && a < |raw[p]|
    ensures i < |Reports(raw, order)| && Reports(raw, order)[i] == Report(p, raw[p][a])
  {
    var init, last := order[..|order| - 1], order[|order| - 1];
    if p == last {
      i := |Reports(raw, init)| + a;
      assert Reports(raw, order)[i] == Of(last, raw[last])[a];
    } else {
      i := ReportedAt(raw, init, p, a);
    }
  }

  // Two positions of one list are reported in their order.
  lemma {:induction false} ReportedInOrder(raw: Raw, order: seq<string>, p: string, a: nat, b: nat)
    returns (i: nat, j: nat)
    requires (forall q :: q in order ==> q in raw) && p in order && a < b < |raw[p]|
    ensures i < j < |Reports(raw, order)|
    ensures Reports(raw, order)[i] == Report(p, raw[p][a]) && Reports(raw, order)[j] == Report(p, raw[p][b])
  {
    var init, last := order[..|order| - 1], order[|order| - 1];
    if p == last {
      i, j := |Reports(raw, init)| + a, |Reports(raw, init)| + b;
      assert Reports(raw, order)[i] == Of(last, raw[last])[a];
      assert Reports(raw, order)[j] == Of(last, raw[last])[b];
    } else {
      i, j := ReportedInOrder(raw, init, p, a, b);
    }
  }

  // Two reports of one provider stand at two positions of its list.
  lemma {:induction false} PositionsOf(raw: Raw, order: seq<string>, i: nat, j: nat) returns (a: nat, b: nat)
    requires (forall p :: p in order ==> p in raw) && Distinct(order)
    requires i < j < |Reports(raw, order)| && Reports(raw, order)[i].provider == Reports(raw, order)[j].provider
    ensures Reports(raw, order)[i].provider in raw
    ensures var rs := Reports(raw, order); var voices := raw[rs[i].provider];
      a < b < |voices| && voices[a] == rs[i].voice && voices[b] == rs[j].voice
  {
    var init, last := order[..|order| - 1], order[|order| - 1];
    var before := Reports(raw, init);
    if j < |before| {
      a, b := PositionsOf(raw, init, i, j);
    } else {
      if i < |before| { ReportAt(raw, init, i); }
      a, b := i - |before|, j - |before|;
      assert Reports(raw, order)[j] == Of(last, raw[last])[b];
    }
  }

  // With distinct ids inside each provider, no (provider, id) pair is reported twice.
  lemma PairsDistinct(raw: Raw, order: seq<string>, i: nat, j: nat)
    requires (forall p :: p in order ==> p in raw) && Distinct(order) && DistinctWithin(raw)
    requires i < j < |Reports(raw, order)|
    ensures var rs := Reports(raw, order);
      rs[i].provider != rs[j].provider || rs[i].voice.id != rs[j].voice.id
  {
    if Reports(raw, order)[i].provider == Reports(raw, order)[j].provider {
      var a, b := PositionsOf(raw, order, i, j);
    }
  }

  lemma {:induction false} CountAtLeast(rs: seq<Report>, i: nat, id: string)
    requires i < |rs| && rs[i].voice.id == id
    ensures Count(rs, id) >= 1
  {
    if i < |rs| - 1 { CountAtLeast(rs[..|rs| - 1], i, id); }
  }

  lemma {:induction false} CountTwo(rs: seq<Report>, i: nat, j: nat, id: string)
    requires i < j < |rs| && rs[i].voice.id == id && rs[j].voice.id == id
    ensures Count(rs, id) >= 2
  {
    if j < |rs| - 1 { CountTwo(rs[..|rs| - 1], i, j, id); } else { CountAtLeast(rs[..|rs| - 1], i, id); }
  }

  lemma {:induction false} CountedTwice(rs: seq<Report>, id: string) returns (i: nat, j: nat)
    requires Count(rs, id) >= 2
    ensures i < j < |rs| && rs[i].voice.id == id && rs[j].voice.id == id
  {
    var init := rs[..|rs| - 1];
    if Count(init, id) >= 2 {
      i, j := CountedTwice(init, id);
    } else {
      i := CountedOnce(init, id);
      j := |rs| - 1;
    }
  }

  lemma {:induction false} CountedOnce(rs: seq<Report>, id: string) returns (i: nat)
    requires Count(rs, id) >= 1
    ensures i < |rs| && rs[i].voice.id == id
  {
    var init := rs[..|rs| - 1];
    if Count(init, id) >= 1 { i := CountedOnce(init, id); } else { i := |rs| - 1; }
  }

  /** A suffixed public id can be taken apart again. */
  lemma SuffixInjective(a: string, p: string, b: string, q: string)
    requires '.' !in p && '.' !in q && a + "." + p == b + "." + q
    ensures a == b && p == q
  {
    var s := a + "." + p;
    assert s[|a|] == '.' && s[|b|] == '.';
    forall k | |a| < k < |s| ensures s[k] != '.' {
      assert s[k] == p[k - |a| - 1];
    }
    forall k | |b| < k < |s| ensures s[k] != '.' {
      assert s[k] == q[k - |b| - 1];
    }
    assert |a| == |b|;
    assert s[..|a|] == a && s[..|b|] == b;
    assert s[|a| + 1..] == p && s[|b| + 1..] == q;
  }

  ghost predicate Unambiguous(rs: seq<Report>) {
    forall i, j :: 0 <= i < |rs| && 0 <= j < |rs| && Count(rs, rs[i].voice.id) == 1 && Count(rs, rs[j].voice.id) > 1 ==>
      rs[i].voice.id != rs[j].voice.id + "." + rs[j].provider
  }

  ghost predicate PublicDistinct(rs: seq<Report>) {
    forall i, j :: 0 <= i < j < |rs| ==> PublicId(rs, rs[i]) != PublicId(rs, rs[j])
  }

  lemma OrderDistinct(raw: Raw)
    ensures Distinct(Sorted(raw.Keys))
  {
    var order := Sorted(raw.Keys);
    forall a, b | 0 <= a < b < |order| ensures order[a] != order[b] { AscendingDistinct(order, a, b); }
  }

  // Two reports with the same public id: one is suffixed, the other is not.
  lemma SamePublic(raw: Raw, i: nat, j: nat)
    requires DistinctWithin(raw) && DotlessProviders(raw) && i < j < |AllReports(raw)|
    requires var rs := AllReports(raw); PublicId(rs, rs[i]) == PublicId(rs, rs[j])
    ensures var rs := AllReports(raw); (Count(rs, rs[i].voice.id) > 1) != (Count(rs, rs[j].voice.id) > 1)
  {
    var rs, order := AllReports(raw), Sorted(raw.Keys);
    OrderDistinct(raw);
    PairsDistinct(raw, order, i, j);
    ReportAt(raw, order, i);
    ReportAt(raw, order, j);
    var x, y := rs[i].voice.id, rs[j].voice.id;
    if Count(rs, x) > 1 && Count(rs, y) > 1 {
      SuffixInjective(x, rs[i].provider, y, rs[j].provider);
    } else if Count(rs, x) <= 1 && Count(rs, y) <= 1 {
      CountTwo(rs, i, j, x);
    }
  }

  // An id one provider lists twice has one public id for both.
  lemma DistinctNeedsWithin(raw: Raw)
    requires PublicDistinct(AllReports(raw))
    ensures DistinctWithin(raw)
  {
    var rs, order := AllReports(raw), Sorted(raw.Keys);
    forall p, a, b | p in raw && 0 <= a < b < |raw[p]| ensures raw[p][a].id != raw[p][b].id {
      var i, j := ReportedInOrder(raw, order, p, a, b);
      assert PublicId(rs, rs[i]) != PublicId(rs, rs[j]);
    }
  }

  /** If provider names have no dot, the public ids of all reported voices are distinct
      exactly when each provider's ids are and no unsuffixed id equals a suffixed one. */
  lemma PublicNamesDistinct(raw: Raw)
    requires DotlessProviders(raw)
    ensures PublicDistinct(AllReports(raw)) <==> DistinctWithin(raw) && Unambiguous(AllReports(raw))
  {
    var rs := AllReports(raw);
    if PublicDistinct(rs) {
      DistinctNeedsWithin(raw);
      forall i, j | 0 <= i < |rs| && 0 <= j < |rs| && Count(rs, rs[i].voice.id) == 1 && Count(rs, rs[j].voice.id) > 1
        ensures rs[i].voice.id != rs[j].voice.id + "." + rs[j].provider
      {
        assert PublicId(rs, rs[i]) == rs[i].voice.id;
        assert i != j;
        if i < j { assert PublicId(rs, rs[i]) != PublicId(rs, rs[j]); }
        else { assert PublicId(rs, rs[j]) != PublicId(rs, rs[i]); }
      }
    }
    if DistinctWithin(raw) && Unambiguous(rs) {
      forall i, j | 0 <= i < j < |rs| ensures PublicId(rs, rs[i]) != PublicId(rs, rs[j]) {
        CountAtLeast(rs, i, rs[i].voice.id);
        CountAtLeast(rs, j, rs[j].voice.id);
        if PublicId(rs, rs[i]) == PublicId(rs, rs[j]) { SamePublic(raw, i, j); }
      }
    }
  }

  /** Distinct public ids make the lookup invert the naming: every reported voice keeps
      its entry. Otherwise the ones that lose it are those claimed earlier. */
  lemma LookupInverts(rs: seq<Report>, i: nat)
    requires i < |rs|
    ensures PublicId(rs, rs[i]) in Lookup(rs)
    ensures (forall j :: 0 <= j < i ==> PublicId(rs, rs[j]) != PublicId(rs, rs[i])) ==>
              Lookup(rs)[PublicId(rs, rs[i])] == Entry(rs[i].provider, rs[i].voice.id)
    ensures PublicDistinct(rs) ==>
              Lookup(rs)[PublicId(rs, rs[i])] == Entry(rs[i].provider, rs[i].voice.id)
  {
    FirstClaimWins(rs, |rs|, PublicId(rs, rs[i]));
  }

  ghost predicate Lists(raw: Raw, p: string, id: string) {
    p in raw && exists a :: 0 <= a < |raw[p]| && raw[p][a].id == id
  }

  // Two providers report the id.
  ghost predicate Shared(raw: Raw, id: string) {
    exists p, q :: p != q && Lists(raw, p, id) && Lists(raw, q, id)
  }

  // Provider p lists the id at two positions.
  ghost predicate Twice(raw: Raw, p: string, id: string) {
    p in raw && exists a, b :: 0 <= a < b < |raw[p]| && raw[p][a].id == id && raw[p][b].id == id
  }

  lemma CountedIsListed(raw: Raw, id: string)
    requires Count(AllReports(raw), id) > 1
    ensures Shared(raw, id) || exists p :: Twice(raw, p, id)
  {
    var rs, order := AllReports(raw), Sorted(raw.Keys);
    var i, j := CountedTwice(rs, id);
    var p, q := rs[i].provider, rs[j].provider;
    if p == q {
      OrderDistinct(raw);
      var a, b := PositionsOf(raw, order, i, j);
      assert Twice(raw, p, id);
    } else {
      ReportAt(raw, order, i);
      ReportAt(raw, order, j);
      assert Lists(raw, p, id) && Lists(raw, q, id);
    }
  }

  lemma SharedIsCounted(raw: Raw, id: string)
    requires Shared(raw, id)
    ensures Count(AllReports(raw), id) > 1
  {
    var rs, order := AllReports(raw), Sorted(raw.Keys);
    var p, q :| p != q && Lists(raw, p, id) && Lists(raw, q, id);
    var a: nat :| a < |raw[p]| && raw[p][a].id == id;
    var b: nat :| b < |raw[q]| && raw[q][b].id == id;
    var i := ReportedAt(raw, order, p, a);
    var j := ReportedAt(raw, order, q, b);
    if i < j { CountTwo(rs, i, j, id); } else { CountTwo(rs, j, i, id); }
  }

  lemma TwiceIsCounted(raw: Raw, p: string, id: string)
    requires Twice(raw, p, id)
    ensures Count(AllReports(raw), id) > 1
  {
    var a: nat, b: nat :| a < b < |raw[p]| && raw[p][a].id == id && raw[p][b].id == id;
    var i, j := ReportedInOrder(raw, Sorted(raw.Keys), p, a, b);
    CountTwo(AllReports(raw), i, j, id);
  }

  /** An id is suffixed exactly when two providers report it or one lists it twice. */
  lemma SuffixedExactly(raw: Raw, id: string)
    ensures Count(AllReports(raw), id) > 1 <==> Shared(raw, id) || exists p :: Twice(raw, p, id)
  {
    hide Shared, Twice;
    if Count(AllReports(raw), id) > 1 { CountedIsListed(raw, id); }
    if Shared(raw, id) { SharedIsCounted(raw, id); }
    if p :| Twice(raw, p, id) { TwiceIsCounted(raw, p, id); }
  }

  /** "Suffixed exactly when two providers report it" holds of every id if and only if each
      id some provider lists twice is also reported by another; distinct ids inside each
      provider are enough. */
  lemma SuffixedMeansShared(raw: Raw)
    ensures (forall id :: Count(AllReports(raw), id) > 1 <==> Shared(raw, id)) <==>
            (forall p, id :: Twice(raw, p, id) ==> Shared(raw, id))
    ensures DistinctWithin(raw) ==> forall id :: Count(AllReports(raw), id) > 1 <==> Shared(raw, id)
  {
    assert DistinctWithin(raw) ==> forall p, id :: !Twice(raw, p, id);
    hide Shared, Twice, Count;
    forall id
      ensures Count(AllReports(raw), id) > 1 <==> Shared(raw, id) || exists p :: Twice(raw, p, id)
    {
      SuffixedExactly(raw, id);
    }
  }

  // A voice one provider lists twice is counted as a collision, although no other
  // provider has it, and its second copy is dropped.
  lemma DuplicateInOneProvider()
    ensures var v := Voice("x", "en", "MALE", None, []);
            var raw: Raw := map["a" := [v, v]];
            var rs := AllReports(raw);
            Twice(raw, "a", "x") && !Shared(raw, "x") &&
            Lookup(rs) == map["x.a" := Entry("a", "x")] && |Listed(rs, "a")| == 1
  {
    var v := Voice("x", "en", "MALE", None, []);
    var raw: Raw := map["a" := [v, v]];
    var order := Sorted(raw.Keys);
    assert Sorts(["a"], raw.Keys);
    SortsUnique(order, ["a"], raw.Keys);
    var rs := [Report("a", v), Report("a", v)];
    assert Of("a", raw["a"]) == rs;
    assert ["a"][..0] == [];
    assert Reports(raw, ["a"]) == Reports(raw, ["a"][..0]) + rs;
    assert Reports(raw, ["a"][..0]) == [];
    CountTwo(rs, 0, 1, "x");
    assert PublicId(rs, rs[0]) == "x.a";
    assert LookupUpTo(rs, 1) == map["x.a" := Entry("a", "x")];
    assert ListedUpTo(rs, 1, "a") == [PublicVoice(rs, rs[0])];
  }

  // ---- the index object ------------------------------------------------------------

  lemma {:induction false} ReportsGrow(raw: Raw, order: seq<string>, n: nat)
    requires (forall p :: p in order ==> p in raw) && n < |order|
    ensures Reports(raw, order[..n + 1]) == Reports(raw, order[..n]) + Of(order[n], raw[order[n]])
    ensures Reports(raw, order[..n + 1]) <= Reports(raw, order)
    decreases |order| - n
  {
    assert order[..n + 1][..n] == order[..n];
    if n + 1 == |order| {
      assert order[..n + 1] == order;
    } else {
      ReportsGrow(raw, order, n + 1);
    }
  }

  lemma OneReport(rs: seq<Report>, n: nat)
    requires n < |rs|
    ensures var id, p := PublicId(rs, rs[n]), rs[n].provider;
      if id in LookupUpTo(rs, n) then
        LookupUpTo(rs, n + 1) == LookupUpTo(rs, n) && ListedUpTo(rs, n + 1, p) == ListedUpTo(rs, n, p)
      else
        && LookupUpTo(rs, n + 1) == LookupUpTo(rs, n)[id := Entry(p, rs[n].voice.id)]
        && ListedUpTo(rs, n + 1, p) == ListedUpTo(rs, n, p) + [PublicVoice(rs, rs[n])]
  {
  }

  // Reports of other providers add nothing to p's list.
  lemma {:induction false} ListedUnchanged(rs: seq<Report>, m: nat, n: nat, p: string)
    requires m <= n <= |rs| && forall i :: m <= i < n ==> rs[i].provider != p
    ensures ListedUpTo(rs, n, p) == ListedUpTo(rs, m, p)
  {
    if m < n { ListedUnchanged(rs, m, n - 1, p); }
  }

  lemma {:induction false} SortedPermutation(a: seq<string>, b: seq<string>)
    requires forall k :: k in a <==> k in b
    requires forall i, j :: 0 <= i < j < |a| ==> a[i] != a[j]
    requires forall i, j :: 0 <= i < j < |b| ==> b[i] != b[j]
    ensures multiset(a) == multiset(b)
  {
    forall k ensures multiset(a)[k] == multiset(b)[k] {
      Once(a, k);
      Once(b, k);
    }
  }

  lemma {:induction false} Once(a: seq<string>, k: string)
    requires forall i, j :: 0 <= i < j < |a| ==> a[i] != a[j]
    ensures multiset(a)[k] == if k in a then 1 else 0
  {
    if a != [] {
      var init := a[..|a| - 1];
      Once(init, k);
      assert a == init + [a[|a| - 1]];
    }
  }

  // What a `Counter` holds after these reports.
  ghost predicate Counted(counts: map<string, nat>, rs: seq<Report>) {
    forall id :: (if id in counts then counts[id] else 0) == Count(rs, id)
  }

  lemma CountedNext(counts: map<string, nat>, rs: seq<Report>, r: Report)
    requires Counted(counts, rs)
    ensures Counted(counts[r.voice.id := (if r.voice.id in counts then counts[r.voice.id] else 0) + 1], rs + [r])
  {
    var counts' := counts[r.voice.id := (if r.voice.id in counts then counts[r.voice.id] else 0) + 1];
    forall id ensures (if id in counts' then counts'[id] else 0) == Count(rs + [r], id) {
      CountNext(rs, r, id);
    }
  }

  lemma CountNext(rs: seq<Report>, r: Report, id: string)
    ensures Count(rs + [r], id) == Count(rs, id) + (if r.voice.id == id then 1 else 0)
  {
    assert (rs + [r])[..|rs + [r]| - 1] == rs;
  }

  lemma ReportsNext(raw: Raw, order: seq<string>, p: string)
    requires (forall q :: q in order ==> q in raw) && p in raw
    ensures forall q :: q in order + [p] ==> q in raw
    ensures Reports(raw, order + [p]) == Reports(raw, order) + Of(p, raw[p])
  {
    assert (order + [p])[..|order|] == order;
  }

  ghost predicate HasId(vs: seq<Voice>, id: string) {
    exists i :: 0 <= i < |vs| && vs[i].id == id
  }

  // The lists of these providers, one after the other.
  function Listing(lists: map<string, seq<Voice>>, order: seq<string>): seq<Voice>
    requires forall p :: p in order ==> p in lists
  {
    if order == [] then [] else Listing(lists, order[..|order| - 1]) + lists[order[|order| - 1]]
  }

  lemma ListingNext(lists: map<string, seq<Voice>>, order: seq<string>, p: string)
    requires (forall q :: q in order ==> q in lists) && p in lists
    ensures forall q :: q in order + [p] ==> q in lists
    ensures Listing(lists, order + [p]) == Listing(lists, order) + lists[p]
  {
    assert (order + [p])[..|order|] == order;
  }

  // Where voice a of the k-th provider stands.
  lemma {:induction false} ListingAt(lists: map<string, seq<Voice>>, order: seq<string>, k: nat, a: nat)
    returns (i: nat)
    requires (forall q :: q in order ==> q in lists) && k < |order| && a < |lists[order[k]]|
    ensures i < |Listing(lists, order)| && Listing(lists, order)[i] == lists[order[k]][a]
  {
    var n := |order| - 1;
    if k == n {
      i := |Listing(lists, order[..n])| + a;
    } else {
      i := ListingAt(lists, order[..n], k, a);
    }
  }

  class VoiceIndex {
    const enabled: seq<string>
    var raw: Raw
    var listed: map<string, seq<Voice>>
    var byPublicId: map<string, Entry>

    // The public fields are what the raw lists determine, whatever calls led here.
    ghost predicate Valid()
      reads this
    {
      && byPublicId == Lookup(AllReports(raw))
      && listed.Keys == raw.Keys
      && forall p :: p in raw ==> listed[p] == Listed(AllReports(raw), p)
    }

    constructor (enabledProviders: seq<string>)
      ensures Valid() && raw == map[] && enabled == enabledProviders
    {
      enabled := enabledProviders;
      raw, listed, byPublicId := map[], map[], map[];
      new;
      assert raw.Keys == {};
      EmptySorts(Sorted(raw.Keys), raw.Keys);
    }

    method SetProviderVoices(provider: string, voices: seq<Voice>)
      requires Valid()
      modifies this
      ensures Valid() && raw == old(raw)[provider := voices]
    {
      raw := raw[provider := voices];
      Rebuild();
    }

    method Clear()
      requires Valid()
      modifies this
      ensures Valid() && raw == map[] && listed == map[] && byPublicId == map[]
    {
      raw, listed, byPublicId := map[], map[], map[];
      assert raw.Keys == {};
      EmptySorts(Sorted(raw.Keys), raw.Keys);
    }

    method IsEmpty() returns (b: bool)
      requires Valid()
      ensures b <==> AllReports(raw) == []
    {
      b := |byPublicId| == 0;
      var rs := AllReports(raw);
      if rs != [] {
        LookupInverts(rs, 0);
        assert PublicId(rs, rs[0]) in byPublicId;
      }
    }

    // The ids of one provider's voices, counted.
    method CountVoices(counts: map<string, nat>, ghost seen: seq<string>, provider: string)
      returns (counts': map<string, nat>)
      requires provider in raw && forall p :: p in seen ==> p in raw
      requires Counted(counts, Reports(raw, seen))
      ensures forall p :: p in seen + [provider] ==> p in raw
      ensures Counted(counts', Reports(raw, seen + [provider]))
    {
      hide Counted, Reports, Of;
      counts' := counts;
      var voices := raw[provider];
      ghost var before, all := Reports(raw, seen), Of(provider, voices);
      ReportsNext(raw, seen, provider);
      assert before + all[..0] == before;
      for i := 0 to |voices|
        invariant Counted(counts', before + all[..i])
      {
        var id := voices[i].id;
        assert before + all[..i + 1] == before + all[..i] + [all[i]];
        assert all[i].voice.id == id;
        CountedNext(counts', before + all[..i], all[i]);
        counts' := counts'[id := (if id in counts' then counts'[id] else 0) + 1];
      }
      assert all[..|voices|] == all;
    }

    // One provider's voices, published; `n` reports went before.
    method PublishProvider(counts: map<string, nat>, provider: string, ghost rs: seq<Report>, ghost n: nat)
      requires provider in raw && n + |raw[provider]| <= |rs|
      requires rs[n..n + |raw[provider]|] == Of(provider, raw[provider])
      requires Counted(counts, rs)
      requires byPublicId == LookupUpTo(rs, n) && ListedUpTo(rs, n, provider) == []
      modifies this`byPublicId, this`listed
      ensures byPublicId == LookupUpTo(rs, n + |raw[provider]|)
      ensures listed == old(listed)[provider := ListedUpTo(rs, n + |raw[provider]|, provider)]
    {
      hide Count, Reports, LookupUpTo, ListedUpTo;
      var voices := raw[provider];
      var publicList: seq<Voice> := [];
      for i := 0 to |voices|
        invariant byPublicId == LookupUpTo(rs, n + i)
        invariant publicList == ListedUpTo(rs, n + i, provider)
        invariant listed == old(listed)
      {
        var v := voices[i];
        assert rs[n + i] == rs[n..n + |voices|][i] == Report(provider, v);
        var count := if v.id in counts then counts[v.id] else 0;
        assert count == Count(rs, v.id);
        var publicId := if count > 1 then v.id + "." + provider else v.id;
        var publicV := if count > 1 then Voice(publicId, v.language, v.gender, v.displayName, v.extraLanguages) else v;
        assert publicId == PublicId(rs, rs[n + i]) && publicV == PublicVoice(rs, rs[n + i]);
        OneReport(rs, n + i);
        if publicId !in byPublicId {
          byPublicId := byPublicId[publicId := Entry(provider, v.id)];
          publicList := publicList + [publicV];
        }
      }
      listed := listed[provider := publicList];
    }

    // The providers order[..i] have been published.
    ghost predicate PublishedUpTo(order: seq<string>, rs: seq<Report>, i: nat)
      requires i <= |order| && forall p :: p in order ==> p in raw
      reads this
    {
      var done := |Reports(raw, order[..i])|;
      && Reports(raw, order[..i]) <= rs
      && byPublicId == LookupUpTo(rs, done)
      && (forall p :: p in listed <==> p in order[..i])
      && (forall p :: p in order[..i] ==> p in listed && listed[p] == ListedUpTo(rs, done, p))
    }

    method PublishNext(counts: map<string, nat>, order: seq<string>, ghost rs: seq<Report>, i: nat)
      requires (forall p :: p in order ==> p in raw) && Ascending(order) && i < |order|
      requires rs == Reports(raw, order) && PublishedUpTo(order, rs, i)
      requires Counted(counts, rs)
      modifies this`byPublicId, this`listed
      ensures PublishedUpTo(order, rs, i + 1)
    {
      hide LookupUpTo, ListedUpTo, Count, Counted, PublicId, Reports, Below;
      ghost var done := |Reports(raw, order[..i])|;
      var provider := order[i];
      ReportsGrow(raw, order, i);
      FreshProvider(order, rs, i, done);
      PublishProvider(counts, provider, rs, done);
      ghost var next := done + |raw[provider]|;
      assert next == |Reports(raw, order[..i + 1])|;
      assert forall k :: done <= k < next ==> rs[k] == rs[done..next][k - done];
      OthersUnchanged(order, rs, i, done, next);
      assert order[..i + 1] == order[..i] + [provider];
    }

    method Rebuild()
      modifies this`byPublicId, this`listed
      ensures Valid()
    {
      hide Count, Counted, PublicId, Of, Sorts;
      var counts := CountAll();
      byPublicId := map[];
      listed := map[];
      var order := Sort(raw.Keys);
      SortsUnique(order, Sorted(raw.Keys), raw.Keys);
      ghost var rs := Reports(raw, order);
      assert order[..0] == [];
      for i := 0 to |order|
        invariant PublishedUpTo(order, rs, i)
      {
        PublishNext(counts, order, rs, i);
      }
      assert order[..|order|] == order;
    }

    // The next provider's reports follow, and none came before.
    lemma FreshProvider(order: seq<string>, rs: seq<Report>, i: nat, n: nat)
      requires (forall p :: p in order ==> p in raw) && Ascending(order) && i < |order|
      requires n == |Reports(raw, order[..i])| && Reports(raw, order[..i + 1]) <= rs
      requires Reports(raw, order[..i + 1]) == Reports(raw, order[..i]) + Of(order[i], raw[order[i]])
      ensures n + |raw[order[i]]| <= |rs| && rs[n..n + |raw[order[i]]|] == Of(order[i], raw[order[i]])
      ensures ListedUpTo(rs, n, order[i]) == []
    {
      forall k | 0 <= k < n ensures rs[k].provider != order[i] {
        ReportAt(raw, order[..i], k);
        var j :| 0 <= j < i && order[j] == Reports(raw, order[..i])[k].provider;
        AscendingDistinct(order, j, i);
      }
      ListedUnchanged(rs, 0, n, order[i]);
    }

    // Publishing provider i leaves the lists of the earlier ones as they are.
    lemma OthersUnchanged(order: seq<string>, rs: seq<Report>, i: nat, m: nat, n: nat)
      requires Ascending(order) && i < |order| && m <= n <= |rs|
      requires forall k :: m <= k < n ==> rs[k].provider == order[i]
      ensures order[i] !in order[..i]
      ensures forall p :: p in order[..i] ==> ListedUpTo(rs, n, p) == ListedUpTo(rs, m, p)
    {
      forall k | 0 <= k < i ensures order[k] != order[i] { AscendingDistinct(order, k, i); }
      forall p | p in order[..i] ensures ListedUpTo(rs, n, p) == ListedUpTo(rs, m, p) {
        ListedUnchanged(rs, m, n, p);
      }
    }

    // `Counter` over all providers, in whatever order the dict yields them.
    method CountAll() returns (counts: map<string, nat>)
      ensures Counted(counts, AllReports(raw))
    {
      counts := map[];
      var rest := raw.Keys;
      ghost var seen: seq<string> := [];
      while rest != {}
        invariant rest <= raw.Keys
        invariant forall p :: p in seen <==> p in raw.Keys - rest
        invariant forall i, j :: 0 <= i < j < |seen| ==> seen[i] != seen[j]
        invariant Counted(counts, Reports(raw, seen))
        decreases rest
      {
        var provider :| provider in rest;
        counts := CountVoices(counts, seen, provider);
        assert provider !in seen;
        seen := seen + [provider];
        rest := rest - {provider};
      }
      OrderDistinct(raw);
      SortedPermutation(seen, Sorted(raw.Keys));
      forall id ensures Count(Reports(raw, seen), id) == Count(AllReports(raw), id) {
        CountAnyOrder(raw, seen, Sorted(raw.Keys), id);
      }
    }

    function ProviderFor(publicId: string): (p: Option<string>)
      reads this
      ensures p.Some? <==> publicId in byPublicId
      ensures p.Some? ==> p.value == byPublicId[publicId].provider
    {
      if publicId in byPublicId then Some(byPublicId[publicId].provider) else None
    }

    function LocalIdFor(publicId: string): (id: string)
      reads this
      ensures publicId in byPublicId ==> id == byPublicId[publicId].local
      ensures publicId !in byPublicId ==> id == publicId
    {
      LocalIdIn(byPublicId, publicId)
    }

    // One provider's list: each voice resolves to it, none twice.
    lemma ListOf(p: string)
      requires Valid() && p in listed
      ensures forall a :: 0 <= a < |listed[p]| ==>
                listed[p][a].id in byPublicId && byPublicId[listed[p][a].id].provider == p
      ensures forall a, b :: 0 <= a < b < |listed[p]| ==> listed[p][a].id != listed[p][b].id
    {
      ghost var rs := AllReports(raw);
      forall a | 0 <= a < |listed[p]|
        ensures listed[p][a].id in byPublicId && byPublicId[listed[p][a].id].provider == p
      {
        ListedResolves(rs, |rs|, p, a);
      }
      forall a, b | 0 <= a < b < |listed[p]| ensures listed[p][a].id != listed[p][b].id {
        if listed[p][a].id == listed[p][b].id { ListedOnce(rs, |rs|, p, a, p, b); }
      }
    }

    lemma EveryEntryListed(id: string) returns (p: string, a: nat)
      requires Valid() && id in byPublicId
      ensures p in listed && a < |listed[p]| && listed[p][a].id == id
    {
      ghost var rs := AllReports(raw);
      LookupIsListed(rs, |rs|, id);
      p, a :| ListsUpTo(rs, |rs|, p, a) && ListedUpTo(rs, |rs|, p)[a].id == id;
      ListsKnown(rs, |rs|, p, a);
    }

    /** The listing is every provider's list in provider order. It agrees with the lookup: no
        public id twice, and exactly the ids the lookup holds. */
    method AllVoices() returns (vs: seq<Voice>)
      requires Valid()
      ensures vs == Listing(listed, Sorted(listed.Keys))
      ensures forall i :: 0 <= i < |vs| ==> vs[i].id in byPublicId
      ensures forall i, j :: 0 <= i < j < |vs| ==> vs[i].id != vs[j].id
      ensures forall id :: id in byPublicId ==> HasId(vs, id)
    {
      hide Valid;
      var order := Sort(listed.Keys);
      SortsUnique(order, Sorted(listed.Keys), listed.Keys);
      vs := [];
      for n := 0 to |order|
        invariant vs == Listing(listed, order[..n])
      {
        assert order[..n + 1][..n] == order[..n];
        vs := vs + listed[order[n]];
      }
      assert order[..|order|] == order;
      ListingAgrees(order, |order|);
      ListingComplete(order);
    }

    // The lists of the first n providers: all resolve to those providers, none twice.
    lemma {:induction false} ListingAgrees(order: seq<string>, n: nat)
      requires Valid() && Ascending(order) && n <= |order| && forall p :: p in order ==> p in listed
      ensures var vs := Listing(listed, order[..n]);
        && (forall i :: 0 <= i < |vs| ==> vs[i].id in byPublicId && byPublicId[vs[i].id].provider in order[..n])
        && (forall i, j :: 0 <= i < j < |vs| ==> vs[i].id != vs[j].id)
    {
      hide Valid, Listing;
      if n == 0 {
        ListingNone();
      } else {
        var p := order[n - 1];
        ListingAgrees(order, n - 1);
        ListOf(p);
        forall k | 0 <= k < n - 1 ensures order[k] != p { AscendingDistinct(order, k, n - 1); }
        assert order[..n] == order[..n - 1] + [p] && p !in order[..n - 1];
        ListingNext(listed, order[..n - 1], p);
      }
    }

    lemma ListingNone()
      ensures Listing(listed, []) == []
    {
    }

    lemma ListingComplete(order: seq<string>)
      requires Valid() && Sorts(order, listed.Keys)
      ensures forall id :: id in byPublicId ==> HasId(Listing(listed, order), id)
    {
      forall id | id in byPublicId ensures HasId(Listing(listed, order), id) {
        hide Valid, Listing;
        var p, a := EveryEntryListed(id);
        assert p in order;
        var k :| 0 <= k < |order| && order[k] == p;
        assert listed[order[k]][a].id == id;
        var i := ListingAt(listed, order, k, a);
        assert Listing(listed, order)[i].id == id;
      }
    }

    lemma {:induction false} ListsKnown(rs: seq<Report>, n: nat, p: string, a: nat)
      requires rs == AllReports(raw) && n <= |rs| && ListsUpTo(rs, n, p, a)
      ensures p in raw
    {
      ListedResolves(rs, n, p, a);
      var i :| 0 <= i < n && rs[i].provider == p;
      ReportAt(raw, Sorted(raw.Keys), i);
    }
  }

  /** The derived fields depend on the raw lists alone: two indexes that hold the same raw
      lists agree, whatever sequence of calls built them. */
  lemma SameRawSameIndex(a: VoiceIndex, b: VoiceIndex)
    requires a.Valid() && b.Valid() && a.raw == b.raw
    ensures a.byPublicId == b.byPublicId && a.listed == b.listed
  {
    assert forall p :: p in a.listed ==> a.listed[p] == b.listed[p];
  }
}
