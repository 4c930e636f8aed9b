/**
 Search (packages/core/storage/thin_kb_store.py, search and _search_rows): the SQL selection, with
 SQLite's ranking as a parameter, and the meaning of the filter loop that follows it.
 */
module KbSearch {
  import opened Wrappers
  import opened Listing
  import opened KbModel
  import opened KbSpec
  import opened KbIndex
  import opened KbRuns

  /** What SQLite returns before clauses and limit: for a text query the positions of the matching FTS
      rows, best score first; for a blank query the ids of the whole table, in some order. */
  datatype Ranking = ByScore(matches: seq<nat>) | ByTable(ids: seq<string>)

  ghost predicate ValidRanking(st: State, ranking: Ranking) {
    match ranking
    case ByScore(ms) =>
      && (forall i :: 0 <= i < |ms| ==> ms[i] < |st.fts|)
      && (forall i, j :: 0 <= i < j < |ms| ==> ms[i] != ms[j])
    case ByTable(ids) =>
      && (forall i :: 0 <= i < |ids| ==> ids[i] in st.manifest)
      && (forall i, j :: 0 <= i < j < |ids| ==> ids[i] != ids[j])
  }

  /** The ids of the joined rows. The join itself repeats a row for every FTS row of its id. */
  function JoinedIds(st: State, ranking: Ranking): seq<string>
    requires ValidRanking(st, ranking)
  {
    match ranking
    case ByScore(ms) => Joined(st, seq(|ms|, i requires 0 <= i < |ms| => st.fts[ms[i]].id))
    case ByTable(ids) => ids
  }

  function Joined(st: State, ids: seq<string>): (r: seq<string>)
    ensures forall id :: id in r <==> id in ids && id in st.manifest
  {
    if ids == [] then []
    else if ids[0] in st.manifest then [ids[0]] + Joined(st, ids[1..])
    else Joined(st, ids[1..])
  }

  datatype Filters = Filters(
    objectTypes: seq<string>, scope: Option<string>, status: Option<string>,
    domainTags: seq<string>, version: Option<string>, env: map<string, string>)

  /** A filter argument that is absent or empty filters nothing. */
  predicate Wanted(filter: Option<string>, value: string) {
    filter.None? || filter.value == "" || filter.value == value
  }

  /** The WHERE clauses. */
  predicate Selected(f: Filters, row: Row) {
    && (f.objectTypes == [] || row.objectType in f.objectTypes)
    && Wanted(f.scope, row.scope) && Wanted(f.status, row.status)
  }

  function SelectIds(st: State, f: Filters, ids: seq<string>): (r: seq<string>)
    requires forall id :: id in ids ==> id in st.manifest
    ensures forall id :: id in r <==> id in ids && Selected(f, st.manifest[id])
  {
    if ids == [] then []
    else if Selected(f, st.manifest[ids[0]]) then [ids[0]] + SelectIds(st, f, ids[1..])
    else SelectIds(st, f, ids[1..])
  }

  function Take<T>(s: seq<T>, n: int): seq<T> {
    if n < 0 || |s| <= n then s else s[..n]
  }

  /** _search_rows: joined, filtered, and limited; a negative LIMIT is none. */
  function SearchRows(st: State, ranking: Ranking, f: Filters, limit: int): (r: seq<string>)
    requires ValidRanking(st, ranking)
    ensures forall id :: id in r ==> id in st.manifest && Selected(f, st.manifest[id])
  {
    JoinedInManifest(st, ranking);
    Take(SelectIds(st, f, JoinedIds(st, ranking)), limit)
  }

  lemma JoinedInManifest(st: State, ranking: Ranking)
    requires ValidRanking(st, ranking)
    ensures forall id :: id in JoinedIds(st, ranking) ==> id in st.manifest
  {
  }

  // ---------------------------------------------------------------- the loop's tests

  predicate TagsPass(f: Filters, p: Payload) {
    forall t :: t in f.domainTags ==> t in p.body.domainTags
  }

  /** item.get("version") or metadata.version: an empty version counts as none. */
  function VersionOf(p: Payload): Option<string> {
    if p.body.version.Some? && p.body.version.value != "" then p.body.version else p.body.metadataVersion
  }

  predicate VersionPasses(f: Filters, p: Payload) {
    f.version.None? || f.version.value == "" || VersionOf(p) == f.version
  }

  predicate EnvPasses(f: Filters, p: Payload) {
    f.env == map[] || p.objectType != Some("case")
    || forall k :: k in f.env ==> k in p.body.env && p.body.env[k] == f.env[k]
  }

  /** The query with case folding: the normalised text, and the folding used to compare. */
  datatype Query = Query(text: string, fold: string -> string)

  predicate ExactLookup(q: Query, p: Payload) {
    q.text != "" && (q.text == q.fold(p.id.GetOr("")) || q.text == q.fold(p.body.title.GetOr("")))
  }

  predicate IsHit(q: Query, f: Filters, p: Payload) {
    TagsPass(f, p) && (VersionPasses(f, p) || ExactLookup(q, p)) && EnvPasses(f, p)
  }

  predicate IsWarned(q: Query, f: Filters, p: Payload) {
    TagsPass(f, p) && !VersionPasses(f, p) && ExactLookup(q, p)
  }

  /** Every id of a run of rows has a file to load. */
  predicate Loaded(st: State, ids: seq<string>) {
    forall id :: id in ids ==> id in st.manifest && st.manifest[id].file in st.disk
  }

  function FileOf(st: State, id: string): Payload
    requires id in st.manifest && st.manifest[id].file in st.disk
  {
    st.disk[st.manifest[id].file]
  }

  function HitsOf(st: State, q: Query, f: Filters, ids: seq<string>): (r: seq<string>)
    requires Loaded(st, ids)
  {
    if ids == [] then []
    else
      var n := |ids| - 1;
      var before := HitsOf(st, q, f, ids[..n]);
      if IsHit(q, f, FileOf(st, ids[n])) then before + [ids[n]] else before
  }

  function WarnedOf(st: State, q: Query, f: Filters, ids: seq<string>): set<string>
    requires Loaded(st, ids)
  {
    set id | id in ids && IsWarned(q, f, FileOf(st, id))
  }

  // ---------------------------------------------------------------- properties

  ghost predicate Distinct(ids: seq<string>) {
    forall i, j :: 0 <= i < j < |ids| ==> ids[i] != ids[j]
  }

  lemma {:induction false} JoinedDistinct(st: State, ids: seq<string>)
    requires Distinct(ids)
    ensures Distinct(Joined(st, ids))
  {
    if ids != [] {
      JoinedDistinct(st, ids[1..]);
      assert ids[0] !in ids[1..];
    }
  }

  lemma {:induction false} SelectDistinct(st: State, f: Filters, ids: seq<string>)
    requires (forall id :: id in ids ==> id in st.manifest) && Distinct(ids)
    ensures Distinct(SelectIds(st, f, ids))
  {
    if ids != [] {
      SelectDistinct(st, f, ids[1..]);
      assert ids[0] !in ids[1..];
    }
  }

  /** Because the FTS table holds one row per id, the join repeats no object. */
  lemma RowsDistinct(st: State, ranking: Ranking, f: Filters, limit: int)
    requires ValidRanking(st, ranking) && DistinctIds(st.fts)
    ensures Distinct(SearchRows(st, ranking, f, limit))
  {
    JoinedInManifest(st, ranking);
    if ranking.ByScore? {
      var ids := seq(|ranking.matches|, i requires 0 <= i < |ranking.matches| => st.fts[ranking.matches[i]].id);
      forall i, j | 0 <= i < j < |ids| ensures ids[i] != ids[j] {
        var a, b := ranking.matches[i], ranking.matches[j];
        if a < b { assert st.fts[a].id != st.fts[b].id; } else { assert st.fts[b].id != st.fts[a].id; }
      }
      JoinedDistinct(st, ids);
    }
    SelectDistinct(st, f, JoinedIds(st, ranking));
  }

  lemma {:induction false} HitsAre(st: State, q: Query, f: Filters, ids: seq<string>)
    requires Loaded(st, ids)
    ensures forall id :: id in HitsOf(st, q, f, ids) <==> id in ids && IsHit(q, f, FileOf(st, id))
    ensures |HitsOf(st, q, f, ids)| <= |ids|
    ensures Distinct(ids) ==> Distinct(HitsOf(st, q, f, ids))
  {
    hide IsHit, FileOf;
    if ids != [] {
      var n := |ids| - 1;
      HitsAre(st, q, f, ids[..n]);
      assert ids == ids[..n] + [ids[n]];
      if Distinct(ids) {
        forall id | id in ids[..n] ensures id != ids[n] {
        }
      }
    }
  }

  /** A hit of another version than the one asked for is among the warnings. */
  lemma HitsWarned(st: State, q: Query, f: Filters, ids: seq<string>)
    requires Loaded(st, ids)
    ensures forall id :: id in HitsOf(st, q, f, ids) ==>
              id in ids && (VersionPasses(f, FileOf(st, id)) || id in WarnedOf(st, q, f, ids))
  {
    hide TagsPass, VersionPasses, ExactLookup, EnvPasses, FileOf, HitsOf;
    HitsAre(st, q, f, ids);
  }

  lemma {:induction false} HitsGrow(st: State, q: Query, f: Filters, ids: seq<string>, k: nat)
    requires Loaded(st, ids) && k <= |ids|
    ensures HitsOf(st, q, f, ids[..k]) <= HitsOf(st, q, f, ids)
  {
    hide IsHit, FileOf;
    if k == |ids| {
      assert ids[..k] == ids;
    } else {
      var n := |ids| - 1;
      assert ids[..n][..k] == ids[..k];
      HitsGrow(st, q, f, ids[..n], k);
    }
  }

  /** What search returns, in one line: the first `limit` hits among the first 4*limit rows. */
  function SearchHits(st: State, q: Query, f: Filters, ranking: Ranking, limit: int): seq<string>
    requires ValidRanking(st, ranking) && Loaded(st, SearchRows(st, ranking, f, limit * 4))
  {
    Take(HitsOf(st, q, f, SearchRows(st, ranking, f, limit * 4)), limit)
  }

  /** On a synced store of well-formed files every selected row can be loaded. */
  lemma RowsLoad(st: State, ranking: Ranking, f: Filters, limit: int)
    requires Inv(st) && ValidRanking(st, ranking)
    ensures Loaded(st, SearchRows(st, ranking, f, limit))
  {
    hide Inv;
    SyncedPointsInv(st);
    forall id | id in SearchRows(st, ranking, f, limit) ensures id in st.manifest && st.manifest[id].file in st.disk {
      assert RowPoints(st, id);
    }
  }

  // ---------------------------------------------------------------- what a search is for

  /** The query is the object's id or title, case aside. */
  predicate AsksFor(q: Query, p: Payload) {
    && q.text != ""
    && ((p.id.Some? && q.text == q.fold(p.id.value)) || (p.body.title.Some? && q.text == q.fold(p.body.title.value)))
  }

  /** The object carries this version itself or, if it has none, in its metadata. */
  predicate Carries(p: Payload, version: Option<string>) {
    if Given(p.body.version) then p.body.version == version else p.body.metadataVersion == version
  }

  /** What the caller asked for, of an object's own file: every filter that is given and not empty; the
      version as the object carries it, else as its metadata do; another version only when the object was
      asked for by id or title; the environment only of cases. */
  predicate Asked(q: Query, f: Filters, p: Payload) {
    && (f.objectTypes == [] || (p.objectType.Some? && p.objectType.value in f.objectTypes))
    && (Given(f.scope) ==> p.body.scope == f.scope)
    && (Given(f.status) ==> p.status == f.status)
    && (forall t :: t in f.domainTags ==> t in p.body.domainTags)
    && (Given(f.version) ==> Carries(p, f.version) || AsksFor(q, p))
    && (p.objectType == Some("case") ==> forall k :: k in f.env ==> k in p.body.env && p.body.env[k] == f.env[k])
  }

  lemma RowOfItsFile(st: State, id: string)
    requires Inv(st) && id in st.manifest
    ensures var file := st.manifest[id].file;
            && file in st.disk && st.disk[file].id == Some(id) && Indexable(st.disk[file])
            && st.manifest[id] == RowOf(st.disk[file], file, file.tier)
  {
    hide FileOk, FtsAll, Before, OneFile, RowOf, Indexable;
    PlainIff(st);
    assert RowPlain(st, id);
    FileOkName(st.manifest[id].file, st.disk[st.manifest[id].file]);
  }

  lemma FieldsExactly(q: Query, f: Filters, p: Payload, file: Path)
    requires Indexable(p)
    ensures Selected(f, RowOf(p, file, file.tier)) && IsHit(q, f, p) <==> Asked(q, f, p)
  {
    VersionExactly(q, f, p);
    hide VersionPasses, ExactLookup;
  }

  lemma VersionExactly(q: Query, f: Filters, p: Payload)
    requires Indexable(p)
    ensures ExactLookup(q, p) <==> AsksFor(q, p)
    ensures VersionPasses(f, p) <==> (Given(f.version) ==> Carries(p, f.version))
  {
  }

  /** The SQL clauses on the columns and the loop's tests on the file together ask exactly that. */
  lemma AskedExactly(st: State, q: Query, f: Filters, id: string)
    requires Inv(st) && id in st.manifest
    ensures st.manifest[id].file in st.disk && FileOf(st, id).id == Some(id)
    ensures Selected(f, st.manifest[id]) && IsHit(q, f, FileOf(st, id)) <==> Asked(q, f, FileOf(st, id))
  {
    hide Inv, Indexable, Selected, IsHit, Asked, RowOf;
    RowOfItsFile(st, id);
    FieldsExactly(q, f, FileOf(st, id), st.manifest[id].file);
  }

  /** The ids SQLite ranked, best first. */
  function Ranked(st: State, ranking: Ranking): seq<string>
    requires ValidRanking(st, ranking)
  {
    match ranking
    case ByScore(ms) => seq(|ms|, i requires 0 <= i < |ms| => st.fts[ms[i]].id)
    case ByTable(ids) => ids
  }

  /** r are some of the ids of s, in the order of s. */
  ghost predicate InOrder(r: seq<string>, s: seq<string>) {
    && (forall id :: id in r ==> id in s)
    && (forall i, j, a, b :: 0 <= i < j < |r| && 0 <= a < |s| && 0 <= b < |s| && s[a] == r[i] && s[b] == r[j] ==> a < b)
  }

  /** id is ranked before position a. */
  predicate Earlier(s: seq<string>, id: string, a: nat) {
    a <= |s| && id in s[..a]
  }

  lemma {:induction false} SelectInOrder(st: State, f: Filters, ids: seq<string>)
    requires (forall id :: id in ids ==> id in st.manifest) && Distinct(ids)
    ensures InOrder(SelectIds(st, f, ids), ids)
  {
    if ids != [] {
      SelectInOrder(st, f, ids[1..]);
      FrontInOrder(SelectIds(st, f, ids[1..]), ids);
    }
  }

  /** Order is kept when the first id is put back in front, on both sides or on one. */
  lemma FrontInOrder(r: seq<string>, s: seq<string>)
    requires s != [] && Distinct(s) && InOrder(r, s[1..])
    ensures InOrder(r, s) && InOrder([s[0]] + r, s)
  {
    forall i, j, a, b | 0 <= i < j < |r| && 0 <= a < |s| && 0 <= b < |s| && s[a] == r[i] && s[b] == r[j] ensures a < b {
      assert r[i] in s[1..] && r[j] in s[1..];
      if a > 0 { assert s[1..][a - 1] == r[i] && s[1..][b - 1] == r[j]; }
    }
    var t := [s[0]] + r;
    forall i, j, a, b | 0 <= i < j < |t| && 0 <= a < |s| && 0 <= b < |s| && s[a] == t[i] && s[b] == t[j] ensures a < b {
      assert t[j] == r[j - 1];
      assert r[j - 1] in s[1..];
    }
  }

  lemma {:induction false} HitsInOrder(st: State, q: Query, f: Filters, ids: seq<string>)
    requires Loaded(st, ids) && Distinct(ids)
    ensures InOrder(HitsOf(st, q, f, ids), ids)
  {
    hide IsHit, FileOf;
    if ids != [] {
      var n := |ids| - 1;
      HitsInOrder(st, q, f, ids[..n]);
      BackInOrder(HitsOf(st, q, f, ids[..n]), ids);
    }
  }

  lemma BackInOrder(r: seq<string>, s: seq<string>)
    requires s != [] && Distinct(s) && InOrder(r, s[..|s| - 1])
    ensures InOrder(r, s) && InOrder(r + [s[|s| - 1]], s)
  {
    var n := |s| - 1;
    forall i, j, a, b | 0 <= i < j < |r| && 0 <= a < |s| && 0 <= b < |s| && s[a] == r[i] && s[b] == r[j] ensures a < b {
      assert r[i] in s[..n] && r[j] in s[..n];
      assert s[..n][a] == r[i] && s[..n][b] == r[j];
    }
    var t := r + [s[n]];
    forall i, j, a, b | 0 <= i < j < |t| && 0 <= a < |s| && 0 <= b < |s| && s[a] == t[i] && s[b] == t[j] ensures a < b {
      assert t[i] in s[..n];
    }
  }

  lemma InOrderTransitive(r: seq<string>, s: seq<string>, t: seq<string>)
    requires InOrder(r, s) && InOrder(s, t)
    ensures InOrder(r, t)
  {
    forall i, j, a, b | 0 <= i < j < |r| && 0 <= a < |t| && 0 <= b < |t| && t[a] == r[i] && t[b] == r[j] ensures a < b {
      assert r[i] in s && r[j] in s;
      var c :| 0 <= c < |s| && s[c] == r[i];
      var d :| 0 <= d < |s| && s[d] == r[j];
    }
  }

  lemma TakeInOrder(r: seq<string>, n: int)
    requires Distinct(r)
    ensures InOrder(Take(r, n), r)
  {
  }

  /** Everything before the cut comes earlier in the order than what was cut off. */
  lemma CutIsEarlier(r: seq<string>, s: seq<string>, n: nat, a: nat)
    requires InOrder(r, s) && Distinct(r) && a < |s| && s[a] in r && s[a] !in Take(r, n)
    ensures |Take(r, n)| == n && forall id :: id in Take(r, n) ==> Earlier(s, id, a)
  {
    var j :| 0 <= j < |r| && r[j] == s[a];
    assert j >= n;
    forall id | id in Take(r, n) ensures Earlier(s, id, a) {
      var i :| 0 <= i < n && r[i] == id;
      assert r[i] in s;
      var b :| 0 <= b < |s| && s[b] == id;
      assert b < a;
      assert s[..a][b] == id;
    }
  }

  lemma JoinedAll(st: State, ids: seq<string>)
    requires forall id :: id in ids ==> id in st.manifest
    ensures Joined(st, ids) == ids
  {
    if ids != [] {
      JoinedAll(st, ids[1..]);
      assert ids == [ids[0]] + ids[1..];
    }
  }

  lemma RankedIsJoined(st: State, ranking: Ranking)
    requires Inv(st) && ValidRanking(st, ranking)
    ensures Distinct(Ranked(st, ranking)) && JoinedIds(st, ranking) == Ranked(st, ranking)
    ensures forall id :: id in Ranked(st, ranking) ==> id in st.manifest
  {
    hide WellFormed, OneFile, ManifestOn, Joined;
    var ids := Ranked(st, ranking);
    if ranking.ByScore? {
      forall id | id in ids ensures id in st.manifest {
        var i :| 0 <= i < |ids| && ids[i] == id;
        assert FtsRowIsOf(st, st.fts[ranking.matches[i]]);
      }
      forall i, j | 0 <= i < j < |ids| ensures ids[i] != ids[j] {
        var a, b := ranking.matches[i], ranking.matches[j];
        if a < b { assert st.fts[a].id != st.fts[b].id; } else { assert st.fts[b].id != st.fts[a].id; }
      }
      JoinedAll(st, ids);
    }
  }

  /** Soundness of search on a store of a run: no object twice, and every hit's own file is what was
      asked for. */
  lemma SearchSound(st: State, q: Query, f: Filters, ranking: Ranking, limit: int)
    requires Inv(st) && ValidRanking(st, ranking) && limit >= 1
    ensures Loaded(st, SearchRows(st, ranking, f, limit * 4))
    ensures var hits := SearchHits(st, q, f, ranking, limit);
            && |hits| <= limit && Distinct(hits) && Loaded(st, hits)
            && InOrder(hits, Ranked(st, ranking))
            && forall id :: id in hits ==> FileOf(st, id).id == Some(id) && Asked(q, f, FileOf(st, id))
  {
    hide Inv, Selected, Asked, IsHit, FileOf, InOrder, Ranked, JoinedIds, SelectIds, HitsOf, Distinct;
    var ids := Ranked(st, ranking);
    RankedIsJoined(st, ranking);
    var all := SelectIds(st, f, ids);
    SelectDistinct(st, f, ids);
    SelectInOrder(st, f, ids);
    RowsLoad(st, ranking, f, limit * 4);
    InvDistinct(st);
    RowsDistinct(st, ranking, f, limit * 4);
    var rows := SearchRows(st, ranking, f, limit * 4);
    TakeInOrder(all, limit * 4);
    InOrderTransitive(rows, all, ids);
    HitsAre(st, q, f, rows);
    HitsInOrder(st, q, f, rows);
    var found := HitsOf(st, q, f, rows);
    InOrderTransitive(found, rows, ids);
    TakeInOrder(found, limit);
    var hits := SearchHits(st, q, f, ranking, limit);
    InOrderTransitive(hits, found, ids);
    TakeKeepsDistinct(found, limit);
    forall id | id in hits
      ensures id in found && id in rows && FileOf(st, id).id == Some(id) && Asked(q, f, FileOf(st, id))
    {
      AskedExactly(st, q, f, id);
    }
  }

  lemma TakeKeepsDistinct(s: seq<string>, n: int)
    requires Distinct(s) && n >= 0
    ensures Distinct(Take(s, n)) && |Take(s, n)| <= n && forall id :: id in Take(s, n) ==> id in s
  {
  }

  /** Completeness: what was asked for and ranked is found, unless a limit cut it off: there were `limit`
      hits ranked before it, or four times as many rows that pass the column filters. */
  lemma SearchComplete(st: State, q: Query, f: Filters, ranking: Ranking, limit: int, a: nat)
    requires Inv(st) && ValidRanking(st, ranking) && limit >= 1
    requires a < |Ranked(st, ranking)| && Loaded(st, [Ranked(st, ranking)[a]])
    requires Asked(q, f, FileOf(st, Ranked(st, ranking)[a]))
    ensures Loaded(st, SearchRows(st, ranking, f, limit * 4))
    ensures var ids := Ranked(st, ranking);
            var hits := SearchHits(st, q, f, ranking, limit);
            var rows := SearchRows(st, ranking, f, limit * 4);
            || ids[a] in hits
            || (|hits| == limit && forall id :: id in hits ==> Earlier(ids, id, a))
            || (|rows| == limit * 4 && forall id :: id in rows ==> Earlier(ids, id, a))
  {
    hide Inv, Selected, Asked, IsHit, FileOf, InOrder, Ranked, JoinedIds, SelectIds, HitsOf, Distinct, Earlier, Take;
    var ids := Ranked(st, ranking);
    RankedIsJoined(st, ranking);
    assert ids[a] in ids;
    AskedExactly(st, q, f, ids[a]);
    var all := SelectIds(st, f, ids);
    assert ids[a] in all;
    SelectDistinct(st, f, ids);
    SelectInOrder(st, f, ids);
    RowsLoad(st, ranking, f, limit * 4);
    InvDistinct(st);
    RowsDistinct(st, ranking, f, limit * 4);
    var rows := SearchRows(st, ranking, f, limit * 4);
    assert rows == Take(all, limit * 4);
    if ids[a] !in rows {
      CutIsEarlier(all, ids, limit * 4, a);
    } else {
      HitsAre(st, q, f, rows);
      HitsInOrder(st, q, f, rows);
      TakeInOrder(all, limit * 4);
      InOrderTransitive(rows, all, ids);
      var found := HitsOf(st, q, f, rows);
      InOrderTransitive(found, rows, ids);
      if ids[a] !in Take(found, limit) {
        CutIsEarlier(found, ids, limit, a);
      }
    }
  }

  /** The warnings about some rows name exactly the objects that were asked for by id or title and carry
      the wanted tags and another version than the one asked for. */
  lemma WarnedExactly(st: State, q: Query, f: Filters, ids: seq<string>, id: string)
    requires Inv(st) && Loaded(st, ids)
    ensures id in WarnedOf(st, q, f, ids) <==>
            && id in ids && (forall t :: t in f.domainTags ==> t in FileOf(st, id).body.domainTags)
            && Given(f.version) && !Carries(FileOf(st, id), f.version) && AsksFor(q, FileOf(st, id))
  {
    hide Inv, Indexable, RowOf, VersionPasses, ExactLookup, AsksFor;
    if id in ids {
      RowOfItsFile(st, id);
      VersionExactly(q, f, FileOf(st, id));
    }
  }

  lemma InvDistinct(st: State)
    requires Inv(st)
    ensures DistinctIds(st.fts)
  {
  }

  lemma TakePrefix<T>(s: seq<T>, a: int, b: int)
    requires 0 <= a <= b
    ensures Take(s, a) <= Take(s, b)
  {
  }

  /** A larger limit only extends the list of hits. */
  lemma SearchMonotone(st: State, q: Query, f: Filters, ranking: Ranking, limit: int, more: int)
    requires Inv(st) && ValidRanking(st, ranking) && 1 <= limit <= more
    ensures Loaded(st, SearchRows(st, ranking, f, limit * 4)) && Loaded(st, SearchRows(st, ranking, f, more * 4))
    ensures SearchHits(st, q, f, ranking, limit) <= SearchHits(st, q, f, ranking, more)
  {
    hide Inv, Selected, IsHit;
    RowsLoad(st, ranking, f, limit * 4);
    RowsLoad(st, ranking, f, more * 4);
    JoinedInManifest(st, ranking);
    var all := SelectIds(st, f, JoinedIds(st, ranking));
    var short, long := SearchRows(st, ranking, f, limit * 4), SearchRows(st, ranking, f, more * 4);
    TakePrefix(all, limit * 4, more * 4);
    assert long[..|short|] == short;
    HitsGrow(st, q, f, long, |short|);
    TakePrefix(HitsOf(st, q, f, long), limit, more);
  }
}
