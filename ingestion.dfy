/**
  * Ingestion (fetch-stations.js): every upstream station record is written to the
  * stations table with INSERT OR REPLACE, and its tags and languages are added to the
  * station_tags and station_languages tables with INSERT OR IGNORE. Records arrive in
  * pages requested at offsets 0, BatchSize, 2 * BatchSize, ... while the offset is below
  * the reported total; the whole run is one transaction.
  *
  * The pure functions (Upsert, ApplyRecords, Run) are the specification; the class
  * StationDatabase holds the three tables and the summary table and updates them the
  * way the source does, loop by loop.
  */
module Ingestion {
  import opened Wrappers
  import opened Text
  import opened Collections
  import opened LanguageTable
  import opened Canonicalizer

  /** Records requested per page. */
  const BatchSize: nat := 1000

  /** One upstream station record; only the columns declared NOT NULL are nullable here. */
  datatype RawStation = RawStation(
    stationuuid: string,
    name: Option<string>,
    url: Option<string>,
    favicon: string,
    tags: Option<string>,
    country: string,
    state: string,
    language: string,
    votes: int,
    codec: string,
    bitrate: int,
    lastCheckOk: int,
    lastCheckTime: string,
    clickTimestamp: string,
    clickCount: int,
    clickTrend: int,
    sslError: int,
    hasExtendedInfo: bool,
    homepage: string)

  /** A row of the stations table. */
  datatype StationRow = StationRow(
    id: string,
    name: string,
    url: string,
    favicon: string,
    tags: Option<string>,
    country: string,
    state: string,
    language: string,
    votes: int,
    codec: string,
    bitrate: int,
    lastCheckOk: int,
    lastCheckTime: string,
    clickTimestamp: string,
    clickCount: int,
    clickTrend: int,
    sslError: int,
    hasExtendedInfo: int,
    homepage: string)

  /** A NOT NULL column without a default received null, so the statement aborts. */
  datatype DbError = NotNull(column: string)

  datatype RunError = FetchFailed(offset: nat) | InsertFailed(error: DbError)

  /** The stations table keyed by id, and the two association tables as sets of rows. */
  datatype Tables = Tables(
    stations: map<string, StationRow>,
    stationTags: set<(string, string)>,
    stationLanguages: set<(string, string)>)

  // ---------------------------------------------------------------------------
  // Parsing the comma-separated fields

  /** values.filter(s => s): the non-empty values, in order. */
  function NonEmpty(values: seq<string>): seq<string> {
    if |values| == 0 then []
    else if values[0] == "" then NonEmpty(values[1..])
    else [values[0]] + NonEmpty(values[1..])
  }

  lemma {:induction false} NonEmptyMembers(values: seq<string>, x: string)
    ensures x in NonEmpty(values) <==> x in values && x != ""
    decreases |values|
  {
    if |values| > 0 {
      NonEmptyMembers(values[1..], x);
      assert values == [values[0]] + values[1..];
    }
  }

  /** parts.map(s => s.trim()).filter(s => s): the non-empty trimmed parts, in order. */
  function NonEmptyTrimmed(parts: seq<string>): seq<string> {
    NonEmpty(TrimAll(parts))
  }

  /** A value is kept iff it is a non-empty trimmed part. */
  lemma NonEmptyTrimmedMembers(parts: seq<string>, x: string)
    ensures x in NonEmptyTrimmed(parts) <==> exists j | 0 <= j < |parts| :: Trim(parts[j]) == x && x != ""
  {
    var trimmed := TrimAll(parts);
    NonEmptyMembers(trimmed, x);
    if x in trimmed {
      var j :| 0 <= j < |trimmed| && trimmed[j] == x;
      assert Trim(parts[j]) == x;
    }
    if exists j | 0 <= j < |parts| :: Trim(parts[j]) == x && x != "" {
      var j :| 0 <= j < |parts| && Trim(parts[j]) == x && x != "";
      assert trimmed[j] == x;
    }
  }

  /** The comma segments of raw, trimmed, without the empty ones. */
  function Segments(raw: string): seq<string> {
    NonEmptyTrimmed(Split(raw, ','))
  }

  /** A segment is the trimmed form of some comma-separated part of raw. */
  ghost predicate IsSegmentOf(x: string, raw: string) {
    exists j | 0 <= j < |Split(raw, ',')| :: Trim(Split(raw, ',')[j]) == x && x != ""
  }

  /**
    * Each segment is non-empty, has no whitespace at either end, contains no comma and
    * occurs in raw; and every part of raw that is not blank gives a segment.
    */
  lemma SegmentShape(raw: string, x: string)
    ensures x in Segments(raw) <==> IsSegmentOf(x, raw)
    ensures x in Segments(raw) ==> x != "" && IsTrimmed(x) && ',' !in x && IsSubstring(x, raw)
  {
    NonEmptyTrimmedMembers(Split(raw, ','), x);
    if x in Segments(raw) {
      var j :| 0 <= j < |Split(raw, ',')| && Trim(Split(raw, ',')[j]) == x && x != "";
      SegmentOfRaw(raw, j);
      TrimShape(Split(raw, ',')[j]);
    }
  }

  /** A trimmed comma part of raw has no comma and occurs in raw. */
  lemma SegmentOfRaw(raw: string, j: int)
    requires 0 <= j < |Split(raw, ',')|
    ensures ',' !in Trim(Split(raw, ',')[j])
    ensures IsSubstring(Trim(Split(raw, ',')[j]), raw)
  {
    var parts := Split(raw, ',');
    var part := parts[j];
    var a := |part| - |TrimStart(part)|;
    TrimShape(part);
    NotInOccurrence(Trim(part), part, a, ',');
    PartOccursInJoin(parts, ',', j);
    JoinOfSplit(raw, ',');
    var i :| OccursAt(part, Join(parts, ','), i);
    OccursWithin(Trim(part), part, raw, a, i);
  }

  /** The tags inserted for a record: none when the field is null or empty. */
  function ParseTags(tags: Option<string>): seq<string> {
    if tags.Some? && tags.value != "" then Segments(tags.value) else []
  }

  /** Every inserted tag is non-empty, trimmed, comma-free and a segment of the raw field. */
  lemma ParsedTagShape(tags: Option<string>, x: string)
    requires x in ParseTags(tags)
    ensures tags.Some? && tags.value != ""
    ensures x != "" && IsTrimmed(x) && ',' !in x && IsSubstring(x, tags.value)
  {
    SegmentShape(tags.value, x);
  }

  /** The standardized languages of a raw language field. */
  function LanguageValues(table: seq<Group>, raw: string): (r: seq<string>) {
    var segments := Segments(raw);
    seq(|segments|, i requires 0 <= i < |segments| => StandardizeIn(table, segments[i]))
  }

  /** The languages inserted for a record: none when the field is empty. */
  function ParseLanguages(table: seq<Group>, language: string): seq<string> {
    if language != "" then LanguageValues(table, language) else []
  }

  /**
    * Every inserted language is standardizeLanguage of a non-blank trimmed comma segment
    * of the raw field, so it is never empty and contains no comma.
    */
  lemma ParsedLanguageSource(table: seq<Group>, language: string, x: string)
    requires x in ParseLanguages(table, language)
    ensures exists y :: IsSegmentOf(y, language) && x == StandardizeIn(table, y)
    ensures x != "" && ',' !in x
  {
    var segments := Segments(language);
    var i :| 0 <= i < |segments| && LanguageValues(table, language)[i] == x;
    SegmentShape(language, segments[i]);
    assert IsSegmentOf(segments[i], language) && x == StandardizeIn(table, segments[i]);
  }

  /** Each non-blank comma segment of the raw field gives an inserted language. */
  lemma SegmentLanguageInserted(table: seq<Group>, language: string, y: string)
    requires IsSegmentOf(y, language)
    ensures StandardizeIn(table, y) in ParseLanguages(table, language)
  {
    SegmentShape(language, y);
    var segments := Segments(language);
    var i :| 0 <= i < |segments| && segments[i] == y;
    assert LanguageValues(table, language)[i] == StandardizeIn(table, y);
  }

  // ---------------------------------------------------------------------------
  // One record

  /** The stations row written for a record, or the NOT NULL error that aborts it. */
  function RowOf(table: seq<Group>, s: RawStation): (r: Result<StationRow, DbError>)
    ensures r.Err? <==> s.name.None? || s.url.None?
    ensures r.Ok? ==> r.value.id == s.stationuuid && r.value.language == StandardizeIn(table, s.language)
  {
    if s.name.None? then
      Err(NotNull("name"))
    else if s.url.None? then
      Err(NotNull("url"))
    else
      Ok(StationRow(
        s.stationuuid, s.name.value, s.url.value, s.favicon, s.tags, s.country, s.state,
        StandardizeIn(table, s.language), s.votes, s.codec, s.bitrate, s.lastCheckOk, s.lastCheckTime,
        s.clickTimestamp, s.clickCount, s.clickTrend, s.sslError,
        if s.hasExtendedInfo then 1 else 0, s.homepage))
  }

  function RowsFor(id: string, values: seq<string>): set<(string, string)> {
    set x | x in values :: (id, x)
  }

  function TagRows(s: RawStation): set<(string, string)> {
    RowsFor(s.stationuuid, ParseTags(s.tags))
  }

  function LanguageRows(table: seq<Group>, s: RawStation): set<(string, string)> {
    RowsFor(s.stationuuid, ParseLanguages(table, s.language))
  }

  /** insertStation on the three tables. */
  function Upsert(table: seq<Group>, t: Tables, s: RawStation): (r: Result<Tables, DbError>)
    ensures r.Err? <==> RowOf(table, s).Err?
  {
    match RowOf(table, s)
    case Err(e) => Err(e)
    case Ok(row) =>
      Ok(Tables(
        t.stations[s.stationuuid := row],
        t.stationTags + TagRows(s),
        t.stationLanguages + LanguageRows(table, s)))
  }

  /** The three tables after a successful insertStation. */
  lemma UpsertRows(table: seq<Group>, t: Tables, s: RawStation)
    requires RowOf(table, s).Ok?
    ensures Upsert(table, t, s).value.stations == t.stations[s.stationuuid := RowOf(table, s).value]
    ensures Upsert(table, t, s).value.stationTags == t.stationTags + TagRows(s)
    ensures Upsert(table, t, s).value.stationLanguages == t.stationLanguages + LanguageRows(table, s)
  {
  }

  /**
    * After insertStation the record's id maps to its new row, whose language column
    * is the standardized raw field; every other id is as before.
    */
  lemma UpsertStation(table: seq<Group>, t: Tables, s: RawStation)
    requires Upsert(table, t, s).Ok?
    ensures s.stationuuid in Upsert(table, t, s).value.stations && Upsert(table, t, s).value.stations[s.stationuuid] == RowOf(table, s).value
    ensures Upsert(table, t, s).value.stations[s.stationuuid].language == StandardizeIn(table, s.language)
    ensures forall id | id != s.stationuuid :: (id in Upsert(table, t, s).value.stations <==> id in t.stations)
    ensures forall id | id != s.stationuuid && id in t.stations :: Upsert(table, t, s).value.stations[id] == t.stations[id]
  {
  }

  /**
    * The association inserts are set union: every earlier row stays, including stale
    * rows of an earlier version of the same station, the record's rows are added, and
    * no row of another station appears.
    */
  lemma UpsertAssociations(table: seq<Group>, t: Tables, s: RawStation)
    requires Upsert(table, t, s).Ok?
    ensures t.stationTags <= Upsert(table, t, s).value.stationTags
    ensures t.stationLanguages <= Upsert(table, t, s).value.stationLanguages
    ensures forall x | x in ParseTags(s.tags) :: (s.stationuuid, x) in Upsert(table, t, s).value.stationTags
    ensures forall x | x in ParseLanguages(table, s.language) :: (s.stationuuid, x) in Upsert(table, t, s).value.stationLanguages
    ensures forall row | row in Upsert(table, t, s).value.stationTags && row.0 != s.stationuuid :: row in t.stationTags
    ensures forall row | row in Upsert(table, t, s).value.stationLanguages && row.0 != s.stationuuid :: row in t.stationLanguages
  {
  }

  /** Inserting the same record twice leaves the state of inserting it once. */
  lemma UpsertIdempotent(table: seq<Group>, t: Tables, s: RawStation)
    requires Upsert(table, t, s).Ok?
    ensures Upsert(table, Upsert(table, t, s).value, s) == Upsert(table, t, s)
  {
    var row := RowOf(table, s).value;
    var u := Upsert(table, t, s).value;
    assert u.stations[s.stationuuid := row] == u.stations;
    assert u.stationTags + TagRows(s) == u.stationTags;
    assert u.stationLanguages + LanguageRows(table, s) == u.stationLanguages;
  }

  // ---------------------------------------------------------------------------
  // A sequence of records

  /** insertStation for each record in order; the first error ends the sequence. */
  function ApplyRecords(table: seq<Group>, t: Tables, rs: seq<RawStation>): Result<Tables, DbError> {
    if |rs| == 0 then
      Ok(t)
    else
      match ApplyRecords(table, t, rs[..|rs| - 1])
      case Err(e) => Err(e)
      case Ok(t1) => Upsert(table, t1, rs[|rs| - 1])
  }

  /** The error of the first record that cannot be written, if any. */
  function FirstError(table: seq<Group>, rs: seq<RawStation>): Option<DbError> {
    if |rs| == 0 then None
    else if FirstError(table, rs[..|rs| - 1]).Some? then FirstError(table, rs[..|rs| - 1])
    else if RowOf(table, rs[|rs| - 1]).Err? then Some(RowOf(table, rs[|rs| - 1]).error)
    else None
  }

  /** The last row written for each id. */
  function Writes(table: seq<Group>, rs: seq<RawStation>): map<string, StationRow> {
    if |rs| == 0 then map[]
    else
      var s := rs[|rs| - 1];
      if RowOf(table, s).Ok? then Writes(table, rs[..|rs| - 1])[s.stationuuid := RowOf(table, s).value] else Writes(table, rs[..|rs| - 1])
  }

  function AllTagRows(rs: seq<RawStation>): set<(string, string)> {
    if |rs| == 0 then {} else AllTagRows(rs[..|rs| - 1]) + TagRows(rs[|rs| - 1])
  }

  function AllLanguageRows(table: seq<Group>, rs: seq<RawStation>): set<(string, string)> {
    if |rs| == 0 then {} else AllLanguageRows(table, rs[..|rs| - 1]) + LanguageRows(table, rs[|rs| - 1])
  }

  /** t after writing every record of rs: rows replaced by id, association rows added. */
  function Merge(table: seq<Group>, t: Tables, rs: seq<RawStation>): Tables {
    Tables(t.stations + Writes(table, rs), t.stationTags + AllTagRows(rs), t.stationLanguages + AllLanguageRows(table, rs))
  }

  /** Writing records one by one is merging them all at once, unless one of them fails. */
  lemma {:induction false} ApplyRecordsIsMerge(table: seq<Group>, t: Tables, rs: seq<RawStation>)
    ensures ApplyRecords(table, t, rs) == if FirstError(table, rs).Some? then Err(FirstError(table, rs).value) else Ok(Merge(table, t, rs))
    decreases |rs|
  {
    if |rs| > 0 {
      var init, s := rs[..|rs| - 1], rs[|rs| - 1];
      assert rs == init + [s];
      ApplyRecordsIsMerge(table, t, init);
      ApplyRecordsSnoc(table, t, init, s);
      FirstErrorSnoc(table, init, s);
      if FirstError(table, init).None? && RowOf(table, s).Ok? {
        MergeStep(table, t, init, s);
      }
    } else {
      MergeOfNone(table, t);
    }
  }

  lemma ApplyRecordsSnoc(table: seq<Group>, t: Tables, rs: seq<RawStation>, s: RawStation)
    ensures ApplyRecords(table, t, rs + [s]) ==
      if ApplyRecords(table, t, rs).Err? then ApplyRecords(table, t, rs) else Upsert(table, ApplyRecords(table, t, rs).value, s)
  {
    var all := rs + [s];
    assert all[..|all| - 1] == rs && all[|all| - 1] == s;
  }

  lemma FirstErrorSnoc(table: seq<Group>, rs: seq<RawStation>, s: RawStation)
    ensures FirstError(table, rs + [s]) ==
      if FirstError(table, rs).Some? then FirstError(table, rs)
      else if RowOf(table, s).Err? then Some(RowOf(table, s).error) else None
  {
    var all := rs + [s];
    assert all[..|all| - 1] == rs && all[|all| - 1] == s;
  }

  lemma MergeOfNone(table: seq<Group>, t: Tables)
    ensures Merge(table, t, []) == t
  {
    assert t.stations + map[] == t.stations;
    assert t.stationTags + {} == t.stationTags;
    assert t.stationLanguages + {} == t.stationLanguages;
  }

  /** The writes and association rows of rs + [s] are those of rs and then those of s. */
  lemma RecordsStep(table: seq<Group>, rs: seq<RawStation>, s: RawStation)
    ensures Writes(table, rs + [s]) ==
      if RowOf(table, s).Ok? then Writes(table, rs)[s.stationuuid := RowOf(table, s).value] else Writes(table, rs)
    ensures AllTagRows(rs + [s]) == AllTagRows(rs) + TagRows(s)
    ensures AllLanguageRows(table, rs + [s]) == AllLanguageRows(table, rs) + LanguageRows(table, s)
    ensures FirstError(table, rs + [s]) ==
      if FirstError(table, rs).Some? then FirstError(table, rs)
      else if RowOf(table, s).Err? then Some(RowOf(table, s).error) else None
  {
    var all := rs + [s];
    assert all[..|all| - 1] == rs && all[|all| - 1] == s;
  }

  /** Merging one more writable record is writing it after the merge. */
  lemma MergeStep(table: seq<Group>, t: Tables, rs: seq<RawStation>, s: RawStation)
    requires RowOf(table, s).Ok?
    ensures Upsert(table, Merge(table, t, rs), s) == Ok(Merge(table, t, rs + [s]))
  {
    MergeStepStations(table, t, rs, s);
    MergeStepTags(table, t, rs, s);
    MergeStepLanguages(table, t, rs, s);
  }

  lemma MergeStepStations(table: seq<Group>, t: Tables, rs: seq<RawStation>, s: RawStation)
    requires RowOf(table, s).Ok?
    ensures Upsert(table, Merge(table, t, rs), s).value.stations == Merge(table, t, rs + [s]).stations
  {
    RecordsStep(table, rs, s);
    MapUpdateOfUnion(t.stations, Writes(table, rs), s.stationuuid, RowOf(table, s).value);
  }

  lemma MergeStepTags(table: seq<Group>, t: Tables, rs: seq<RawStation>, s: RawStation)
    requires RowOf(table, s).Ok?
    ensures Upsert(table, Merge(table, t, rs), s).value.stationTags == Merge(table, t, rs + [s]).stationTags
  {
    RecordsStep(table, rs, s);
  }

  lemma MergeStepLanguages(table: seq<Group>, t: Tables, rs: seq<RawStation>, s: RawStation)
    requires RowOf(table, s).Ok?
    ensures Upsert(table, Merge(table, t, rs), s).value.stationLanguages == Merge(table, t, rs + [s]).stationLanguages
  {
    RecordsStep(table, rs, s);
  }

  lemma {:induction false} WritesOfAppend(table: seq<Group>, rs: seq<RawStation>, more: seq<RawStation>)
    ensures Writes(table, rs + more) == Writes(table, rs) + Writes(table, more)
    decreases |more|
  {
    if |more| == 0 {
      assert rs + more == rs;
      assert Writes(table, rs) + map[] == Writes(table, rs);
    } else {
      var init, s := more[..|more| - 1], more[|more| - 1];
      assert more == init + [s];
      assert rs + more == (rs + init) + [s];
      WritesOfAppend(table, rs, init);
      RecordsStep(table, rs + init, s);
      RecordsStep(table, init, s);
      if RowOf(table, s).Ok? {
        MapUpdateOfUnion(Writes(table, rs), Writes(table, init), s.stationuuid, RowOf(table, s).value);
      }
    }
  }

  lemma {:induction false} TagRowsOfAppend(rs: seq<RawStation>, more: seq<RawStation>)
    ensures AllTagRows(rs + more) == AllTagRows(rs) + AllTagRows(more)
    decreases |more|
  {
    if |more| == 0 {
      assert rs + more == rs;
    } else {
      var init, s := more[..|more| - 1], more[|more| - 1];
      assert more == init + [s];
      var all := (rs + init) + [s];
      assert rs + more == all;
      assert all[..|all| - 1] == rs + init && all[|all| - 1] == s;
      TagRowsOfAppend(rs, init);
    }
  }

  lemma {:induction false} LanguageRowsOfAppend(table: seq<Group>, rs: seq<RawStation>, more: seq<RawStation>)
    ensures AllLanguageRows(table, rs + more) == AllLanguageRows(table, rs) + AllLanguageRows(table, more)
    decreases |more|
  {
    if |more| == 0 {
      assert rs + more == rs;
    } else {
      var init, s := more[..|more| - 1], more[|more| - 1];
      assert more == init + [s];
      var all := (rs + init) + [s];
      assert rs + more == all;
      assert all[..|all| - 1] == rs + init && all[|all| - 1] == s;
      LanguageRowsOfAppend(table, rs, init);
    }
  }

  /** Merging rs and then more is merging rs + more. */
  lemma MergeOfAppend(table: seq<Group>, t: Tables, rs: seq<RawStation>, more: seq<RawStation>)
    ensures Merge(table, Merge(table, t, rs), more) == Merge(table, t, rs + more)
  {
    WritesOfAppend(table, rs, more);
    TagRowsOfAppend(rs, more);
    LanguageRowsOfAppend(table, rs, more);
    MapUnionAssociative(t.stations, Writes(table, rs), Writes(table, more));
  }

  lemma MergeIdempotent(table: seq<Group>, t: Tables, rs: seq<RawStation>)
    ensures Merge(table, Merge(table, t, rs), rs) == Merge(table, t, rs)
  {
    assert t.stations + Writes(table, rs) + Writes(table, rs) == t.stations + Writes(table, rs);
  }

  /** Writing the same records a second time changes nothing. */
  lemma ApplyRecordsIdempotent(table: seq<Group>, t: Tables, rs: seq<RawStation>)
    requires ApplyRecords(table, t, rs).Ok?
    ensures ApplyRecords(table, ApplyRecords(table, t, rs).value, rs) == ApplyRecords(table, t, rs)
  {
    ApplyRecordsIsMerge(table, t, rs);
    ApplyRecordsIsMerge(table, Merge(table, t, rs), rs);
    MergeIdempotent(table, t, rs);
  }

  lemma {:induction false} ApplyRecordsErrorPersists(table: seq<Group>, t: Tables, rs: seq<RawStation>, k: nat)
    requires k <= |rs| && ApplyRecords(table, t, rs[..k]).Err?
    ensures ApplyRecords(table, t, rs) == ApplyRecords(table, t, rs[..k])
    decreases |rs| - k
  {
    if k < |rs| {
      assert rs[..k + 1][..k] == rs[..k];
      ApplyRecordsErrorPersists(table, t, rs, k + 1);
    } else {
      assert rs[..k] == rs;
    }
  }

  // ---------------------------------------------------------------------------
  // The paging loop

  /** The number of loop iterations: ceil(total / BatchSize), or none when total <= 0. */
  function Batches(total: int): nat {
    if total <= 0 then 0 else (total - 1) / BatchSize + 1
  }

  /** The offsets the loop requests. */
  function Offsets(total: int): (offsets: seq<nat>)
    ensures |offsets| == Batches(total)
    ensures forall i | 0 <= i < |offsets| :: offsets[i] == i * BatchSize
  {
    seq(Batches(total), i requires 0 <= i < Batches(total) => i * BatchSize)
  }

  /** The loop runs while offset < total: k pages are requested iff k * BatchSize < total. */
  lemma BatchesIsCeiling(total: int, k: nat)
    ensures k < Batches(total) <==> k * BatchSize < total
  {
  }

  /** The first k + 1 offsets are the first k followed by the k-th. */
  lemma OffsetsStep(total: int, k: nat)
    requires k < Batches(total)
    ensures Offsets(total)[..k + 1] == Offsets(total)[..k] + [k * BatchSize]
  {
    var o := Offsets(total);
    assert o[..k + 1] == o[..k] + [o[k]];
  }

  /** Every offset requested is below the total, and the pages together reach it. */
  lemma OffsetsCoverTotal(total: int)
    ensures forall i | 0 <= i < |Offsets(total)| :: Offsets(total)[i] < total
    ensures |Offsets(total)| * BatchSize >= total
  {
    forall i | 0 <= i < |Offsets(total)|
      ensures Offsets(total)[i] < total
    {
      BatchesIsCeiling(total, i);
    }
    BatchesIsCeiling(total, Batches(total));
  }

  function PageLength(fetch: nat -> Option<seq<RawStation>>, offset: nat): nat {
    match fetch(offset)
    case None => 0
    case Some(page) => |page|
  }

  function PageLengths(fetch: nat -> Option<seq<RawStation>>, offsets: seq<nat>): (r: seq<int>)
    ensures |r| == |offsets| && forall i | 0 <= i < |offsets| :: r[i] == PageLength(fetch, offsets[i])
  {
    seq(|offsets|, i requires 0 <= i < |offsets| => PageLength(fetch, offsets[i]) as int)
  }

  /** One more page adds its length to the count of records processed. */
  lemma ProcessedStep(fetch: nat -> Option<seq<RawStation>>, offsets: seq<nat>, o: nat)
    ensures Sum(PageLengths(fetch, offsets + [o])) == Sum(PageLengths(fetch, offsets)) + PageLength(fetch, o)
  {
    assert PageLengths(fetch, offsets + [o]) == PageLengths(fetch, offsets) + [PageLength(fetch, o) as int];
    SumOfAppend(PageLengths(fetch, offsets), [PageLength(fetch, o) as int]);
  }

  /** The pages at these offsets written in order; a failed request or write ends the run. */
  function RunPages(table: seq<Group>, t: Tables, offsets: seq<nat>, fetch: nat -> Option<seq<RawStation>>): Result<Tables, RunError> {
    if |offsets| == 0 then
      Ok(t)
    else
      match RunPages(table, t, offsets[..|offsets| - 1], fetch)
      case Err(e) => Err(e)
      case Ok(t1) =>
        match fetch(offsets[|offsets| - 1])
        case None => Err(FetchFailed(offsets[|offsets| - 1]))
        case Some(page) =>
          match ApplyRecords(table, t1, page)
          case Err(e) => Err(InsertFailed(e))
          case Ok(t2) => Ok(t2)
  }

  /** The tables after a whole run against a source reporting total stations. */
  function Run(table: seq<Group>, t: Tables, total: int, fetch: nat -> Option<seq<RawStation>>): Result<Tables, RunError> {
    RunPages(table, t, Offsets(total), fetch)
  }

  /** Every record the run reads, or the first failure, regardless of the tables it starts from. */
  function Records(table: seq<Group>, offsets: seq<nat>, fetch: nat -> Option<seq<RawStation>>): Result<seq<RawStation>, RunError> {
    if |offsets| == 0 then
      Ok([])
    else
      match Records(table, offsets[..|offsets| - 1], fetch)
      case Err(e) => Err(e)
      case Ok(rs) =>
        match fetch(offsets[|offsets| - 1])
        case None => Err(FetchFailed(offsets[|offsets| - 1]))
        case Some(page) =>
          if FirstError(table, page).Some? then Err(InsertFailed(FirstError(table, page).value)) else Ok(rs + page)
  }

  lemma {:induction false} RunPagesIsMerge(table: seq<Group>, t: Tables, offsets: seq<nat>, fetch: nat -> Option<seq<RawStation>>)
    ensures RunPages(table, t, offsets, fetch) ==
      match Records(table, offsets, fetch)
      case Err(e) => Err(e)
      case Ok(rs) => Ok(Merge(table, t, rs))
    decreases |offsets|
  {
    if |offsets| == 0 {
      assert t.stations + map[] == t.stations;
      assert Merge(table, t, []) == t;
    } else {
      var init := offsets[..|offsets| - 1];
      RunPagesIsMerge(table, t, init, fetch);
      match Records(table, init, fetch)
      case Err(e) =>
      case Ok(rs) =>
        match fetch(offsets[|offsets| - 1])
        case None =>
        case Some(page) =>
          ApplyRecordsIsMerge(table, Merge(table, t, rs), page);
          MergeOfAppend(table, t, rs, page);
    }
  }

  /**
    * Re-running ingestion against an unchanged source leaves the tables as the first
    * run left them: no row is duplicated or lost.
    */
  lemma RunIdempotent(table: seq<Group>, t: Tables, total: int, fetch: nat -> Option<seq<RawStation>>)
    requires Run(table, t, total, fetch).Ok?
    ensures Run(table, Run(table, t, total, fetch).value, total, fetch) == Run(table, t, total, fetch)
  {
    RunPagesIsMerge(table, t, Offsets(total), fetch);
    var rs := Records(table, Offsets(total), fetch).value;
    RunPagesIsMerge(table, Merge(table, t, rs), Offsets(total), fetch);
    MergeIdempotent(table, t, rs);
  }

  /** One more page after a successful prefix of the run. */
  lemma RunPagesStep(table: seq<Group>, t: Tables, offsets: seq<nat>, o: nat, fetch: nat -> Option<seq<RawStation>>, t1: Tables)
    requires RunPages(table, t, offsets, fetch) == Ok(t1)
    ensures fetch(o).None? ==> RunPages(table, t, offsets + [o], fetch) == Err(FetchFailed(o))
    ensures fetch(o).Some? && ApplyRecords(table, t1, fetch(o).value).Err? ==>
      RunPages(table, t, offsets + [o], fetch) == Err(InsertFailed(ApplyRecords(table, t1, fetch(o).value).error))
    ensures fetch(o).Some? && ApplyRecords(table, t1, fetch(o).value).Ok? ==>
      RunPages(table, t, offsets + [o], fetch) == Ok(ApplyRecords(table, t1, fetch(o).value).value)
  {
    var all := offsets + [o];
    assert all[..|all| - 1] == offsets && all[|all| - 1] == o;
  }

  lemma {:induction false} RunPagesErrorPersists(table: seq<Group>, t: Tables, offsets: seq<nat>, fetch: nat -> Option<seq<RawStation>>, k: nat)
    requires k <= |offsets| && RunPages(table, t, offsets[..k], fetch).Err?
    ensures RunPages(table, t, offsets, fetch) == RunPages(table, t, offsets[..k], fetch)
    decreases |offsets| - k
  {
    if k < |offsets| {
      assert offsets[..k + 1][..k] == offsets[..k];
      RunPagesErrorPersists(table, t, offsets, fetch, k + 1);
    } else {
      assert offsets[..k] == offsets;
    }
  }

  /** The summary table after a successful run. */
  function Summary(now: string, stationCount: nat): (summary: map<string, string>)
    ensures summary.Keys == {"last_updated", "total_stations"}
    ensures summary["last_updated"] == now
    ensures IsDecimal(summary["total_stations"]) && DecimalValue(summary["total_stations"]) == stationCount
  {
    DecimalValueOfNatToString(stationCount);
    map["last_updated" := now, "total_stations" := NatToString(stationCount)]
  }

  lemma RowsForAppend(id: string, values: seq<string>, i: int)
    requires 0 <= i < |values|
    ensures RowsFor(id, values[..i + 1]) == RowsFor(id, values[..i]) + {(id, values[i])}
  {
    assert values[..i + 1] == values[..i] + [values[i]];
  }

  class StationDatabase {
    var stations: map<string, StationRow>
    var stationTags: set<(string, string)>
    var stationLanguages: set<(string, string)>
    var summary: map<string, string>

    constructor ()
      ensures stations == map[] && stationTags == {} && stationLanguages == {} && summary == map[]
    {
      stations := map[];
      stationTags := {};
      stationLanguages := {};
      summary := map[];
    }

    function Contents(): Tables
      reads this
    {
      Tables(stations, stationTags, stationLanguages)
    }

    /** The INSERT OR IGNORE loop over a record's tags. */
    method InsertTags(id: string, tags: seq<string>)
      modifies this
      ensures stationTags == old(stationTags) + RowsFor(id, tags)
      ensures stations == old(stations) && stationLanguages == old(stationLanguages) && summary == old(summary)
    {
      for i := 0 to |tags|
        invariant stationTags == old(stationTags) + RowsFor(id, tags[..i])
        invariant stations == old(stations) && stationLanguages == old(stationLanguages) && summary == old(summary)
      {
        RowsForAppend(id, tags, i);
        stationTags := stationTags + {(id, tags[i])};
      }
      assert tags[..|tags|] == tags;
    }

    /** The INSERT OR IGNORE loop over a record's standardized languages. */
    method InsertLanguages(id: string, languages: seq<string>)
      modifies this
      ensures stationLanguages == old(stationLanguages) + RowsFor(id, languages)
      ensures stations == old(stations) && stationTags == old(stationTags) && summary == old(summary)
    {
      for i := 0 to |languages|
        invariant stationLanguages == old(stationLanguages) + RowsFor(id, languages[..i])
        invariant stations == old(stations) && stationTags == old(stationTags) && summary == old(summary)
      {
        RowsForAppend(id, languages, i);
        stationLanguages := stationLanguages + {(id, languages[i])};
      }
      assert languages[..|languages|] == languages;
    }

    /** The tag and language rows of one record; a null or empty field inserts none. */
    method InsertAssociations(table: seq<Group>, s: RawStation)
      modifies this
      ensures stationTags == old(stationTags) + TagRows(s)
      ensures stationLanguages == old(stationLanguages) + LanguageRows(table, s)
      ensures stations == old(stations) && summary == old(summary)
    {
      if s.tags.Some? && s.tags.value != "" {
        InsertTags(s.stationuuid, ParseTags(s.tags));
      } else {
        assert RowsFor(s.stationuuid, []) == {};
      }
      if s.language != "" {
        InsertLanguages(s.stationuuid, ParseLanguages(table, s.language));
      } else {
        assert RowsFor(s.stationuuid, []) == {};
      }
    }

    /** insertStation: one row replaced, then one INSERT OR IGNORE per tag and per language. */
    method InsertStation(table: seq<Group>, s: RawStation) returns (result: Result<(), DbError>)
      modifies this
      ensures Upsert(table, old(Contents()), s).Ok? ==> result == Ok(()) && Contents() == Upsert(table, old(Contents()), s).value
      ensures Upsert(table, old(Contents()), s).Err? ==>
        result == Err(Upsert(table, old(Contents()), s).error) && Contents() == old(Contents())
      ensures summary == old(summary)
    {
      ghost var t0 := Contents();
      var row := RowOf(table, s);
      if row.Err? {
        return Err(row.error);
      }
      stations := stations[s.stationuuid := row.value];
      InsertAssociations(table, s);
      UpsertRows(table, t0, s);
      return Ok(());
    }

    /**
      * The loop over one page: insertStation for each record in order. On a failure the
      * records before it stay written until the caller abandons the transaction.
      */
    method InsertPage(table: seq<Group>, page: seq<RawStation>) returns (result: Result<(), DbError>)
      modifies this
      ensures ApplyRecords(table, old(Contents()), page).Ok? ==>
        result == Ok(()) && Contents() == ApplyRecords(table, old(Contents()), page).value
      ensures ApplyRecords(table, old(Contents()), page).Err? ==>
        result == Err(ApplyRecords(table, old(Contents()), page).error)
      ensures summary == old(summary)
    {
      ghost var before := Contents();
      for k := 0 to |page|
        invariant ApplyRecords(table, before, page[..k]) == Ok(Contents())
        invariant summary == old(summary)
      {
        assert page[..k + 1][..k] == page[..k];
        var r := InsertStation(table, page[k]);
        if r.Err? {
          ApplyRecordsErrorPersists(table, before, page, k + 1);
          return Err(r.error);
        }
      }
      assert page[..|page|] == page;
      return Ok(());
    }

    /** One iteration of the paging loop: request the page at offset and write it. */
    method FetchPage(table: seq<Group>, ghost snapshot: Tables, ghost offsets: seq<nat>, offset: nat, fetch: nat -> Option<seq<RawStation>>)
      returns (result: Result<nat, RunError>)
      requires RunPages(table, snapshot, offsets, fetch) == Ok(Contents())
      modifies this
      ensures RunPages(table, snapshot, offsets + [offset], fetch).Ok? ==>
        result == Ok(PageLength(fetch, offset)) && RunPages(table, snapshot, offsets + [offset], fetch) == Ok(Contents())
      ensures RunPages(table, snapshot, offsets + [offset], fetch).Err? ==>
        result == Err(RunPages(table, snapshot, offsets + [offset], fetch).error)
      ensures summary == old(summary)
    {
      RunPagesStep(table, snapshot, offsets, offset, fetch, Contents());
      var page := fetch(offset);
      if page.None? {
        return Err(FetchFailed(offset));
      }
      var r := InsertPage(table, page.value);
      if r.Err? {
        return Err(InsertFailed(r.error));
      }
      return Ok(|page.value|);
    }

    /** The paging loop: pages are requested and written until the offset reaches the total or a step fails. */
    method WritePages(table: seq<Group>, total: int, fetch: nat -> Option<seq<RawStation>>)
      returns (result: Result<(), RunError>, offsets: seq<nat>, totalProcessed: int)
      modifies this
      ensures Run(table, old(Contents()), total, fetch).Ok? ==>
        && result == Ok(())
        && Contents() == Run(table, old(Contents()), total, fetch).value
        && offsets == Offsets(total)
        && totalProcessed == Sum(PageLengths(fetch, offsets))
      ensures Run(table, old(Contents()), total, fetch).Err? ==>
        result == Err(Run(table, old(Contents()), total, fetch).error)
      ensures summary == old(summary)
    {
      ghost var snapshot := Contents();
      var offset: nat := 0;
      totalProcessed := 0;
      offsets := [];
      while offset < total
        invariant offset == |offsets| * BatchSize
        invariant |offsets| <= Batches(total) && offsets == Offsets(total)[..|offsets|]
        invariant RunPages(table, snapshot, offsets, fetch) == Ok(Contents())
        invariant totalProcessed == Sum(PageLengths(fetch, offsets))
        invariant summary == old(summary)
        decreases total - offset
      {
        BatchesIsCeiling(total, |offsets|);
        OffsetsStep(total, |offsets|);
        var r := FetchPage(table, snapshot, offsets, offset, fetch);
        if r.Err? {
          assert Offsets(total)[..|offsets| + 1] == offsets + [offset];
          RunPagesErrorPersists(table, snapshot, Offsets(total), fetch, |offsets| + 1);
          return Err(r.error), offsets, totalProcessed;
        }
        ProcessedStep(fetch, offsets, offset);
        totalProcessed := totalProcessed + r.value;
        offsets := offsets + [offset];
        offset := offset + BatchSize;
      }
      BatchesIsCeiling(total, |offsets|);
      assert offsets == Offsets(total);
      return Ok(()), offsets, totalProcessed;
    }

    /**
      * fetchAllStations: the paging loop inside one transaction, then the summary table.
      * On any failure the transaction is never committed, so the tables and the summary
      * are as they were before the call.
      */
    method FetchAllStations(table: seq<Group>, total: int, fetch: nat -> Option<seq<RawStation>>, now: string)
      returns (result: Result<nat, RunError>, offsets: seq<nat>, totalProcessed: int)
      modifies this
      ensures Run(table, old(Contents()), total, fetch).Ok? ==>
        && Contents() == Run(table, old(Contents()), total, fetch).value
        && result == Ok(|stations|)
        && summary == Summary(now, |stations|)
        && offsets == Offsets(total)
        && totalProcessed == Sum(PageLengths(fetch, offsets))
      ensures Run(table, old(Contents()), total, fetch).Err? ==>
        && result == Err(Run(table, old(Contents()), total, fetch).error)
        && Contents() == old(Contents())
        && summary == old(summary)
    {
      var snapshot := Contents();
      var written;
      written, offsets, totalProcessed := WritePages(table, total, fetch);
      if written.Err? {
        stations, stationTags, stationLanguages := snapshot.stations, snapshot.stationTags, snapshot.stationLanguages;
        return Err(written.error), offsets, totalProcessed;
      }
      summary := map[];
      summary := summary["last_updated" := now];
      summary := summary["total_stations" := NatToString(|stations|)];
      return Ok(|stations|), offsets, totalProcessed;
    }
  }
}
