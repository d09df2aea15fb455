/**
  * export-stations.js: the joined station x language rows are grouped into one
  * bucket per language name, buckets of at most the threshold are deleted, every
  * surviving bucket is sorted by votes and written to a file named by the slug of
  * its language, and an index of the buckets, sorted by size, is written beside them.
  *
  * A JavaScript object filled by assignment keeps its keys in insertion order, and
  * that order decides the order of the written files and breaks ties in the index
  * sort, so stationsByLanguage is a Buckets value: its key order and its map.
  */
module Export {
  import opened Wrappers
  import opened Text
  import opened Collections
  import opened Sorting

  /** stationLimit in exportStations: a bucket needs more stations than this to be exported. */
  const StationLimit := 25

  /**
    * One row of the LEFT JOIN of stations with station_languages. languages is the
    * joined station_languages.language, null when the station has no language row.
    */
  datatype JoinedRow = JoinedRow(
    id: string, name: string, url: string, favicon: string, tags: Option<string>,
    country: string, state: string, language: Option<string>, votes: int,
    codec: string, bitrate: int, homepage: string, languages: Option<string>)

  /** The clean station object pushed into a bucket. */
  datatype ExportedStation = ExportedStation(
    id: string, name: string, url: string, favicon: string, tags: seq<string>,
    country: string, state: string, language: string, votes: int,
    codec: string, bitrate: int, homepage: string)

  function Votes(s: ExportedStation): int {
    s.votes
  }

  /** A string value is truthy in JavaScript iff it is neither null nor empty. */
  predicate Truthy(s: Option<string>) {
    s.Some? && s.value != ""
  }

  // ---------------------------------------------------------------------------
  // One row

  /** The tags of a clean station: the raw field split on commas and trimmed, empty parts kept. */
  function ExportTags(tags: Option<string>): seq<string> {
    if Truthy(tags) then TrimAll(Split(tags.value, ',')) else []
  }

  /** Each exported tag is trimmed and has no comma; null and empty fields give no tags. */
  lemma ExportTagsShape(tags: Option<string>)
    ensures !Truthy(tags) <==> ExportTags(tags) == []
    ensures forall i | 0 <= i < |ExportTags(tags)| :: IsTrimmed(ExportTags(tags)[i]) && ',' !in ExportTags(tags)[i]
  {
    if Truthy(tags) {
      var parts := Split(tags.value, ',');
      forall i | 0 <= i < |parts|
        ensures IsTrimmed(ExportTags(tags)[i]) && ',' !in ExportTags(tags)[i]
      {
        TrimShape(parts[i]);
        NotInOccurrence(Trim(parts[i]), parts[i], |parts[i]| - |TrimStart(parts[i])|, ',');
      }
    }
  }

  /**
    * The field is not filtered: the tags of a joined list are its parts, trimmed, one
    * for one, so an empty part gives an empty tag.
    */
  lemma ExportTagsOfJoin(parts: seq<string>)
    requires |parts| > 0 && forall i | 0 <= i < |parts| :: ',' !in parts[i]
    requires Join(parts, ',') != ""
    ensures ExportTags(Some(Join(parts, ','))) == TrimAll(parts)
    ensures forall i | 0 <= i < |parts| :: parts[i] == "" ==> ExportTags(Some(Join(parts, ',')))[i] == ""
  {
    SplitOfJoin(parts, ',');
  }

  /**
    * The language names a row is bucketed under: the joined value split on commas
    * when it is truthy, otherwise the station's own language column. A null column is
    * written "", as both are skipped.
    */
  function Candidates(row: JoinedRow): (r: seq<string>)
    ensures |r| > 0
  {
    if Truthy(row.languages) then Split(row.languages.value, ',')
    else [if row.language.Some? then row.language.value else ""]
  }

  /** The clean station object for a row under the language lang. */
  function Clean(row: JoinedRow, lang: string): (st: ExportedStation)
    ensures st.language == lang && st.votes == row.votes && st.tags == ExportTags(row.tags)
  {
    ExportedStation(row.id, row.name, row.url, row.favicon, ExportTags(row.tags), row.country, row.state,
      lang, row.votes, row.codec, row.bitrate, row.homepage)
  }

  // ---------------------------------------------------------------------------
  // Grouping

  /** stationsByLanguage: the keys in insertion order and the bucket of each key. */
  datatype Buckets = Buckets(order: seq<string>, stations: map<string, seq<ExportedStation>>)

  /** The key order lists each key once, and no key has an empty bucket. */
  predicate Valid(b: Buckets) {
    && NoDuplicates(b.order)
    && (forall l | l in b.order :: l in b.stations)
    && (forall l | l in b.stations :: l in b.order)
    && (forall l | l in b.stations :: |b.stations[l]| > 0)
  }

  /** The bucket under l, or [] when l is not a key. */
  function Get(m: map<string, seq<ExportedStation>>, l: string): seq<ExportedStation> {
    if l in m then m[l] else []
  }

  /** The two statements of the inner loop: create the bucket if needed, then push. */
  function Push(b: Buckets, l: string, st: ExportedStation): Buckets {
    if l in b.stations then Buckets(b.order, b.stations[l := b.stations[l] + [st]])
    else Buckets(b.order + [l], b.stations[l := [st]])
  }

  /** The inner loop over the names langs of one row, skipping empty names. */
  function AddRow(b: Buckets, row: JoinedRow, langs: seq<string>): Buckets
    decreases |langs|
  {
    if |langs| == 0 then b
    else
      var b' := AddRow(b, row, langs[..|langs| - 1]);
      var l := langs[|langs| - 1];
      if l == "" then b' else Push(b', l, Clean(row, l))
  }

  /** stationsByLanguage after the outer loop over the rows. */
  function Grouped(rows: seq<JoinedRow>): Buckets {
    if |rows| == 0 then Buckets([], map[])
    else AddRow(Grouped(rows[..|rows| - 1]), rows[|rows| - 1], Candidates(rows[|rows| - 1]))
  }

  /** The clean objects a row contributes under l: one per occurrence of l among langs. */
  function Hits(row: JoinedRow, langs: seq<string>, l: string): seq<ExportedStation>
    decreases |langs|
  {
    if |langs| == 0 then []
    else Hits(row, langs[..|langs| - 1], l) + (if langs[|langs| - 1] == l then [Clean(row, l)] else [])
  }

  /** The reference definition of a bucket: the hits of every row under l, in row order. */
  function Occurrences(rows: seq<JoinedRow>, l: string): seq<ExportedStation> {
    if |rows| == 0 then []
    else Occurrences(rows[..|rows| - 1], l) + Hits(rows[|rows| - 1], Candidates(rows[|rows| - 1]), l)
  }

  lemma PushValid(b: Buckets, l: string, st: ExportedStation)
    requires Valid(b)
    ensures Valid(Push(b, l, st))
    ensures forall x :: Get(Push(b, l, st).stations, x) == Get(b.stations, x) + (if x == l then [st] else [])
  {
  }

  lemma {:induction false} AddRowValid(b: Buckets, row: JoinedRow, langs: seq<string>)
    requires Valid(b) && "" !in b.stations
    ensures Valid(AddRow(b, row, langs)) && "" !in AddRow(b, row, langs).stations
    ensures forall x | x != "" :: Get(AddRow(b, row, langs).stations, x) == Get(b.stations, x) + Hits(row, langs, x)
    decreases |langs|
  {
    if |langs| > 0 {
      var b' := AddRow(b, row, langs[..|langs| - 1]);
      var l := langs[|langs| - 1];
      AddRowValid(b, row, langs[..|langs| - 1]);
      if l != "" {
        PushValid(b', l, Clean(row, l));
      }
    }
  }

  /**
    * The grouping is the reference: the bucket under every non-empty name is its
    * occurrences, a name is a key iff it occurs, and the empty name never is.
    */
  lemma {:induction false} GroupedIsOccurrences(rows: seq<JoinedRow>)
    ensures Valid(Grouped(rows)) && "" !in Grouped(rows).stations
    ensures forall l | l != "" :: Get(Grouped(rows).stations, l) == Occurrences(rows, l)
    decreases |rows|
  {
    if |rows| > 0 {
      var init := rows[..|rows| - 1];
      var row := rows[|rows| - 1];
      GroupedIsOccurrences(init);
      AddRowValid(Grouped(init), row, Candidates(row));
    }
  }

  lemma {:induction false} HitsLanguage(row: JoinedRow, langs: seq<string>, l: string)
    ensures forall st | st in Hits(row, langs, l) :: st == Clean(row, l)
    ensures Hits(row, langs, l) != [] <==> l in langs
    decreases |langs|
  {
    if |langs| > 0 {
      HitsLanguage(row, langs[..|langs| - 1], l);
      assert langs == langs[..|langs| - 1] + [langs[|langs| - 1]];
    }
  }

  /**
    * Every object in the bucket under l is the clean object of some row that names l,
    * so its language is l; and every row naming l contributes its object.
    */
  lemma {:induction false} OccurrencesSource(rows: seq<JoinedRow>, l: string)
    ensures forall st | st in Occurrences(rows, l) :: st.language == l
    ensures forall st | st in Occurrences(rows, l) :: exists i | 0 <= i < |rows| :: l in Candidates(rows[i]) && st == Clean(rows[i], l)
    ensures forall i | 0 <= i < |rows| && l in Candidates(rows[i]) :: Clean(rows[i], l) in Occurrences(rows, l)
    decreases |rows|
  {
    if |rows| > 0 {
      var init := rows[..|rows| - 1];
      var row := rows[|rows| - 1];
      OccurrencesSource(init, l);
      HitsLanguage(row, Candidates(row), l);
      forall st | st in Occurrences(rows, l)
        ensures exists i | 0 <= i < |rows| :: l in Candidates(rows[i]) && st == Clean(rows[i], l)
      {
        if st in Occurrences(init, l) {
          var i :| 0 <= i < |init| && l in Candidates(init[i]) && st == Clean(init[i], l);
          assert rows[i] == init[i];
        } else {
          assert l in Candidates(rows[|rows| - 1]) && st == Clean(rows[|rows| - 1], l);
        }
      }
      forall i | 0 <= i < |rows| && l in Candidates(rows[i])
        ensures Clean(rows[i], l) in Occurrences(rows, l)
      {
        if i < |init| {
          assert rows[i] == init[i];
        } else {
          var h := Hits(row, Candidates(row), l);
          assert h[0] in h;
        }
      }
    }
  }

  // ---------------------------------------------------------------------------
  // Threshold

  /** The key order after the delete loop: the keys whose bucket has more than limit stations. */
  function Kept(order: seq<string>, m: map<string, seq<ExportedStation>>, limit: int): seq<string> {
    if |order| == 0 then []
    else Kept(order[..|order| - 1], m, limit) + (if |Get(m, order[|order| - 1])| > limit then [order[|order| - 1]] else [])
  }

  /** The buckets left once the delete loop has visited the keys ks. */
  function DeleteFrom(m: map<string, seq<ExportedStation>>, ks: seq<string>, limit: int): map<string, seq<ExportedStation>> {
    if |ks| == 0 then m
    else
      var m' := DeleteFrom(m, ks[..|ks| - 1], limit);
      if |Get(m, ks[|ks| - 1])| <= limit then m' - {ks[|ks| - 1]} else m'
  }

  function Drop(b: Buckets, limit: int): Buckets {
    Buckets(Kept(b.order, b.stations, limit), DeleteFrom(b.stations, b.order, limit))
  }

  /** The result of getStationsByLanguage(rows, limit). */
  function StationsByLanguage(rows: seq<JoinedRow>, limit: int): Buckets {
    Drop(Grouped(rows), limit)
  }

  lemma {:induction false} KeptMembers(order: seq<string>, m: map<string, seq<ExportedStation>>, limit: int)
    ensures forall l :: l in Kept(order, m, limit) <==> l in order && |Get(m, l)| > limit
    ensures NoDuplicates(order) ==> NoDuplicates(Kept(order, m, limit))
    decreases |order|
  {
    if |order| > 0 {
      var init := order[..|order| - 1];
      KeptMembers(init, m, limit);
      assert order == init + [order[|order| - 1]];
    }
  }

  /** A bucket survives iff it was not visited or has more than limit stations, and keeps its stations. */
  lemma {:induction false} DeleteFromMembers(m: map<string, seq<ExportedStation>>, ks: seq<string>, limit: int)
    ensures forall l :: l in DeleteFrom(m, ks, limit) <==> l in m && (l !in ks || |m[l]| > limit)
    ensures forall l | l in DeleteFrom(m, ks, limit) :: DeleteFrom(m, ks, limit)[l] == m[l]
    decreases |ks|
  {
    if |ks| > 0 {
      DeleteFromMembers(m, ks[..|ks| - 1], limit);
      assert ks == ks[..|ks| - 1] + [ks[|ks| - 1]];
    }
  }

  lemma {:induction false} DeleteFromUnvisited(m: map<string, seq<ExportedStation>>, ks: seq<string>, limit: int, l: string)
    requires l in m && l !in ks
    ensures l in DeleteFrom(m, ks, limit) && DeleteFrom(m, ks, limit)[l] == m[l]
    decreases |ks|
  {
    if |ks| > 0 {
      DeleteFromUnvisited(m, ks[..|ks| - 1], limit, l);
    }
  }

  /** Deleting buckets keeps the key order and the map in agreement. */
  lemma DropValid(b: Buckets, limit: int)
    requires Valid(b)
    ensures Valid(Drop(b, limit))
  {
    KeptMembers(b.order, b.stations, limit);
    DeleteFromMembers(b.stations, b.order, limit);
  }

  /**
    * The threshold: a name keeps its bucket iff it occurs in more than limit rows'
    * names, so a bucket of exactly limit stations is dropped and one of limit + 1 is
    * kept, and a surviving bucket is the whole of its occurrences.
    */
  lemma Threshold(rows: seq<JoinedRow>, limit: int, l: string)
    ensures Valid(StationsByLanguage(rows, limit))
    ensures l in StationsByLanguage(rows, limit).stations <==>
      l != "" && |Occurrences(rows, l)| > 0 && |Occurrences(rows, l)| > limit
    ensures l in StationsByLanguage(rows, limit).stations ==> StationsByLanguage(rows, limit).stations[l] == Occurrences(rows, l)
  {
    var g := Grouped(rows);
    GroupedIsOccurrences(rows);
    DropValid(g, limit);
    DeleteFromMembers(g.stations, g.order, limit);
    if l != "" {
      assert Get(g.stations, l) == Occurrences(rows, l);
    }
  }

  /** Every exported station object carries the language of its bucket. */
  lemma BucketLanguage(rows: seq<JoinedRow>, limit: int, l: string, st: ExportedStation)
    requires l in StationsByLanguage(rows, limit).stations && st in StationsByLanguage(rows, limit).stations[l]
    ensures st.language == l
    ensures exists i | 0 <= i < |rows| :: l in Candidates(rows[i]) && st == Clean(rows[i], l)
  {
    Threshold(rows, limit, l);
    OccurrencesSource(rows, l);
  }

  // ---------------------------------------------------------------------------
  // getStationsByLanguage

  /** getStationsByLanguage: the nested grouping loops, then the delete loop. */
  method GetStationsByLanguage(rows: seq<JoinedRow>, limit: int) returns (result: Buckets)
    ensures result == StationsByLanguage(rows, limit)
  {
    var order: seq<string> := [];
    var stations: map<string, seq<ExportedStation>> := map[];
    for i := 0 to |rows|
      invariant Buckets(order, stations) == Grouped(rows[..i])
    {
      assert rows[..i + 1][..i] == rows[..i];
      order, stations := GroupRow(order, stations, rows[i]);
    }
    assert rows[..|rows|] == rows;
    GroupedIsOccurrences(rows);
    order, stations := DeleteSmall(order, stations, limit);
    result := Buckets(order, stations);
  }

  /** The inner loop for one row: each non-empty name gets the row's clean object. */
  method GroupRow(order: seq<string>, stations: map<string, seq<ExportedStation>>, row: JoinedRow)
    returns (order': seq<string>, stations': map<string, seq<ExportedStation>>)
    ensures Buckets(order', stations') == AddRow(Buckets(order, stations), row, Candidates(row))
  {
    var languages := Candidates(row);
    order', stations' := order, stations;
    for j := 0 to |languages|
      invariant Buckets(order', stations') == AddRow(Buckets(order, stations), row, languages[..j])
    {
      var lang := languages[j];
      assert languages[..j + 1][..j] == languages[..j];
      if lang == "" {
        continue;
      }
      order', stations' := PushStation(order', stations', lang, Clean(row, lang));
    }
    assert languages[..|languages|] == languages;
  }

  method PushStation(order: seq<string>, stations: map<string, seq<ExportedStation>>, lang: string, st: ExportedStation)
    returns (order': seq<string>, stations': map<string, seq<ExportedStation>>)
    ensures Buckets(order', stations') == Push(Buckets(order, stations), lang, st)
  {
    order', stations' := order, stations;
    if lang !in stations' {
      stations' := stations'[lang := []];
      order' := order' + [lang];
    }
    assert [] + [st] == [st];
    stations' := stations'[lang := stations'[lang] + [st]];
  }

  /** The state of the delete loop once it has visited keys[..i]. */
  ghost predicate Visited(stations: map<string, seq<ExportedStation>>, keys: seq<string>, limit: int, i: int,
                          order: seq<string>, current: map<string, seq<ExportedStation>>, kept: int) {
    && 0 <= i <= |keys|
    && order == Kept(keys[..i], stations, limit) + keys[i..]
    && kept == |Kept(keys[..i], stations, limit)|
    && current == DeleteFrom(stations, keys[..i], limit)
  }

  /** The delete loop over Object.keys(stationsByLanguage). */
  method DeleteSmall(order: seq<string>, stations: map<string, seq<ExportedStation>>, limit: int)
    returns (order': seq<string>, stations': map<string, seq<ExportedStation>>)
    requires Valid(Buckets(order, stations))
    ensures order' == Kept(order, stations, limit)
    ensures stations' == DeleteFrom(stations, order, limit)
  {
    var keys := order;
    order', stations' := order, stations;
    var kept := 0;
    assert keys[..0] == [] && keys[0..] == keys;
    for i := 0 to |keys|
      invariant Visited(stations, keys, limit, i, order', stations', kept)
    {
      order', stations', kept := DeleteOne(stations, keys, limit, i, order', stations', kept);
    }
    assert keys[..|keys|] == keys;
    assert order' == Kept(keys, stations, limit) + [];
  }

  /** One iteration of the delete loop, at the key keys[i]. */
  method DeleteOne(ghost stations: map<string, seq<ExportedStation>>, keys: seq<string>, limit: int, i: int,
                   order: seq<string>, current: map<string, seq<ExportedStation>>, kept: int)
    returns (order': seq<string>, current': map<string, seq<ExportedStation>>, kept': int)
    requires Valid(Buckets(keys, stations)) && i < |keys|
    requires Visited(stations, keys, limit, i, order, current, kept)
    ensures Visited(stations, keys, limit, i + 1, order', current', kept')
  {
    var lang := keys[i];
    ghost var done := Kept(keys[..i], stations, limit);
    KeptStep(keys, stations, limit, i);
    DeleteFromStep(keys, stations, limit, i);
    NotYetVisited(keys, i);
    DeleteFromUnvisited(stations, keys[..i], limit, lang);
    OrderAt(order, done, keys, i);
    order', current', kept' := order, current, kept;
    if |current[lang]| <= limit {
      current' := current - {lang};
      order' := order[..kept] + order[kept + 1..];
      assert done + [] == done;
    } else {
      kept' := kept + 1;
    }
  }

  lemma KeptStep(keys: seq<string>, m: map<string, seq<ExportedStation>>, limit: int, i: int)
    requires 0 <= i < |keys|
    ensures Kept(keys[..i + 1], m, limit) == Kept(keys[..i], m, limit) + (if |Get(m, keys[i])| > limit then [keys[i]] else [])
  {
    assert keys[..i + 1][..i] == keys[..i];
  }

  lemma DeleteFromStep(keys: seq<string>, m: map<string, seq<ExportedStation>>, limit: int, i: int)
    requires 0 <= i < |keys|
    ensures DeleteFrom(m, keys[..i + 1], limit) ==
      if |Get(m, keys[i])| <= limit then DeleteFrom(m, keys[..i], limit) - {keys[i]} else DeleteFrom(m, keys[..i], limit)
  {
    assert keys[..i + 1][..i] == keys[..i];
  }

  lemma NotYetVisited(keys: seq<string>, i: int)
    requires NoDuplicates(keys) && 0 <= i < |keys|
    ensures keys[i] !in keys[..i]
  {
  }

  /** The key under visit sits right after the kept ones in the loop's order. */
  lemma OrderAt(order: seq<string>, done: seq<string>, keys: seq<string>, i: int)
    requires 0 <= i < |keys| && order == done + keys[i..]
    ensures order[..|done|] == done && order[|done|] == keys[i] && order[|done| + 1..] == keys[i + 1..]
    ensures order == (done + [keys[i]]) + keys[i + 1..]
  {
    assert keys[i..] == [keys[i]] + keys[i + 1..];
  }

  // ---------------------------------------------------------------------------
  // File names

  predicate IsSlugChar(c: char) {
    'a' <= c <= 'z' || '0' <= c <= '9' || c == '-'
  }

  /** The replacement of /[^a-z0-9]/g by '-' on one character. */
  function SlugChar(c: char): char {
    if 'a' <= c <= 'z' || '0' <= c <= '9' then c else '-'
  }

  /** language.toLowerCase().replace(/[^a-z0-9]/g, '-') */
  function Slug(language: string): string {
    seq(|language|, i requires 0 <= i < |language| => SlugChar(LowerChar(language[i])))
  }

  /**
    * The slug has one character per character of the name, each of [a-z0-9-]: a
    * lower-case letter or digit stays, an ASCII capital becomes its lower-case letter,
    * anything else becomes '-'.
    */
  lemma SlugShape(s: string)
    ensures |Slug(s)| == |s|
    ensures forall i | 0 <= i < |s| :: IsSlugChar(Slug(s)[i])
    ensures forall i | 0 <= i < |s| && ('a' <= s[i] <= 'z' || '0' <= s[i] <= '9') :: Slug(s)[i] == s[i]
    ensures forall i | 0 <= i < |s| && 'A' <= s[i] <= 'Z' :: Slug(s)[i] == (s[i] as int + 32) as char
    ensures forall i | 0 <= i < |s| && !('a' <= LowerChar(s[i]) <= 'z' || '0' <= s[i] <= '9') :: Slug(s)[i] == '-'
  {
  }

  /** A slug is its own slug. */
  lemma SlugIdempotent(s: string)
    ensures Slug(Slug(s)) == Slug(s)
  {
    forall i | 0 <= i < |s|
      ensures Slug(Slug(s))[i] == Slug(s)[i]
    {
      var c := Slug(s)[i];
      assert IsSlugChar(c);
      assert LowerChar(c) == c;
    }
  }

  /** Names that differ only in case have one slug, so their files collide. */
  lemma SlugIgnoresCase(a: string, b: string)
    requires Lower(a) == Lower(b)
    ensures Slug(a) == Slug(b)
  {
    forall i | 0 <= i < |a|
      ensures Slug(a)[i] == Slug(b)[i]
    {
      assert Lower(a)[i] == Lower(b)[i];
    }
  }

  /** The file of a bucket: the slug with the .json extension. */
  function FileName(language: string): string {
    Slug(language) + ".json"
  }

  lemma FileNameInjective(a: string, b: string)
    ensures FileName(a) == FileName(b) <==> Slug(a) == Slug(b)
  {
    if FileName(a) == FileName(b) {
      assert |Slug(a)| == |Slug(b)|;
      assert FileName(a)[..|Slug(a)|] == Slug(a);
      assert FileName(b)[..|Slug(b)|] == Slug(b);
    }
  }

  // ---------------------------------------------------------------------------
  // The bucket files

  /** The content of one written file. */
  datatype ExportFile = ExportFile(language: string, count: nat, stations: seq<ExportedStation>)

  /** The file of the bucket under l: its stations sorted by votes, descending. */
  function FileOf(m: map<string, seq<ExportedStation>>, l: string): ExportFile {
    ExportFile(l, |Get(m, l)|, SortDesc(Get(m, l), Votes))
  }

  /** The files after writing the buckets in key order; a later write to a name replaces an earlier one. */
  function Files(order: seq<string>, m: map<string, seq<ExportedStation>>): map<string, ExportFile> {
    if |order| == 0 then map[]
    else Files(order[..|order| - 1], m)[FileName(order[|order| - 1]) := FileOf(m, order[|order| - 1])]
  }

  lemma FilesStep(order: seq<string>, m: map<string, seq<ExportedStation>>, i: int)
    requires 0 <= i < |order|
    ensures Files(order[..i + 1], m) == Files(order[..i], m)[FileName(order[i]) := FileOf(m, order[i])]
  {
    assert order[..i + 1][..i] == order[..i];
  }

  /** A file's stations are a permutation of the bucket, sorted by votes, equal votes in bucket order. */
  lemma FileSorted(m: map<string, seq<ExportedStation>>, l: string)
    ensures FileOf(m, l).count == |FileOf(m, l).stations| == |Get(m, l)|
    ensures multiset(FileOf(m, l).stations) == multiset(Get(m, l))
    ensures SortedDesc(FileOf(m, l).stations, Votes)
    ensures forall v :: WithKey(FileOf(m, l).stations, Votes, v) == WithKey(Get(m, l), Votes, v)
  {
    var s := Get(m, l);
    assert |multiset(SortDesc(s, Votes))| == |multiset(s)|;
    SortDescSorted(s, Votes);
    forall v
      ensures WithKey(SortDesc(s, Votes), Votes, v) == WithKey(s, Votes, v)
    {
      SortDescStable(s, Votes, v);
    }
  }

  /** The files written are exactly those named by some key. */
  lemma {:induction false} FilesKeys(order: seq<string>, m: map<string, seq<ExportedStation>>, l: string)
    ensures l in order ==> FileName(l) in Files(order, m)
    ensures forall f | f in Files(order, m) :: exists j | 0 <= j < |order| :: f == FileName(order[j])
    decreases |order|
  {
    if |order| > 0 {
      var init := order[..|order| - 1];
      FilesKeys(init, m, l);
      assert order == init + [order[|order| - 1]];
      forall f | f in Files(order, m)
        ensures exists j | 0 <= j < |order| :: f == FileName(order[j])
      {
        if f != FileName(order[|order| - 1]) {
          assert f in Files(init, m);
          var j :| 0 <= j < |init| && f == FileName(init[j]);
          assert order[j] == init[j];
        }
      }
    }
  }

  /**
    * The file named after a key holds that key's bucket unless a later key has the
    * same slug, in which case the later bucket overwrote it.
    */
  lemma {:induction false} FilesLastWriteWins(order: seq<string>, m: map<string, seq<ExportedStation>>, i: int)
    requires 0 <= i < |order|
    requires forall j | i < j < |order| :: Slug(order[j]) != Slug(order[i])
    ensures FileName(order[i]) in Files(order, m) && Files(order, m)[FileName(order[i])] == FileOf(m, order[i])
    decreases |order|
  {
    var last := |order| - 1;
    if i < last {
      FileNameInjective(order[last], order[i]);
      FilesLastWriteWins(order[..last], m, i);
    }
  }

  /** The loop of exportStations that writes one file per bucket. */
  method WriteBucketFiles(b: Buckets) returns (files: map<string, ExportFile>)
    requires Valid(b)
    ensures files == Files(b.order, b.stations)
  {
    files := map[];
    for i := 0 to |b.order|
      invariant files == Files(b.order[..i], b.stations)
    {
      FilesStep(b.order, b.stations, i);
      var language := b.order[i];
      var stations := b.stations[language];
      var safeLanguage := Slug(language);
      var filename := safeLanguage + ".json";
      var sorted := SortBucket(stations);
      files := files[filename := ExportFile(language, |stations|, sorted)];
    }
    assert b.order[..|b.order|] == b.order;
  }

  /** stations.sort((a, b) => b.votes - a.votes) on the bucket's array. */
  method SortBucket(stations: seq<ExportedStation>) returns (sorted: seq<ExportedStation>)
    ensures sorted == SortDesc(stations, Votes)
  {
    var a := new ExportedStation[|stations|](i requires 0 <= i < |stations| => stations[i]);
    assert a[..] == stations;
    SortInPlace(a, Votes);
    sorted := a[..];
  }

  // ---------------------------------------------------------------------------
  // The index

  datatype IndexEntry = IndexEntry(language: string, count: nat, filename: string)

  /** index.json: the totals and the entries sorted by count. */
  datatype IndexFile = IndexFile(totalLanguages: nat, totalStations: int, languages: seq<IndexEntry>)

  function Count(e: IndexEntry): int {
    e.count
  }

  /** Object.entries(stationsByLanguage).map(...): one entry per key, in key order. */
  function Entries(b: Buckets): (r: seq<IndexEntry>)
    ensures |r| == |b.order|
  {
    seq(|b.order|, i requires 0 <= i < |b.order| => IndexEntry(b.order[i], |Get(b.stations, b.order[i])|, FileName(b.order[i])))
  }

  /** The bucket sizes in key order. */
  function Sizes(b: Buckets): (r: seq<int>)
    ensures |r| == |b.order|
  {
    seq(|b.order|, i requires 0 <= i < |b.order| => |Get(b.stations, b.order[i])|)
  }

  function IndexOf(b: Buckets): IndexFile {
    var index := SortDesc(Entries(b), Count);
    IndexFile(|index|, KeySum(index, Count), index)
  }

  lemma {:induction false} KeySumOfEntries(b: Buckets, n: nat)
    requires n <= |b.order|
    ensures KeySum(Entries(b)[..n], Count) == Sum(Sizes(b)[..n])
    decreases n
  {
    if n > 0 {
      KeySumOfEntries(b, n - 1);
      assert Entries(b)[..n][..n - 1] == Entries(b)[..n - 1];
      assert Sizes(b)[..n][..n - 1] == Sizes(b)[..n - 1];
    }
  }

  /** The index is the entries sorted by count, descending, and a permutation of them. */
  lemma IndexSorted(b: Buckets)
    ensures SortedDesc(IndexOf(b).languages, Count)
    ensures multiset(IndexOf(b).languages) == multiset(Entries(b))
    ensures |IndexOf(b).languages| == |b.order|
  {
    var entries := Entries(b);
    SortDescSorted(entries, Count);
    assert |multiset(SortDesc(entries, Count))| == |multiset(entries)|;
  }

  /** The bucket half of IndexEntrySound. */
  lemma IndexEntryBucket(b: Buckets, e: IndexEntry)
    requires Valid(b) && e in IndexOf(b).languages
    ensures e.language in b.stations && e.count == |b.stations[e.language]|
    ensures e.filename == FileName(e.language) && e.filename in Files(b.order, b.stations)
  {
    IndexSorted(b);
    var entries := Entries(b);
    assert e in multiset(entries);
    var i :| 0 <= i < |entries| && entries[i] == e;
    FilesKeys(b.order, b.stations, b.order[i]);
  }

  /**
    * Each index entry names a bucket, its count is that bucket's size, and its
    * filename is the name under which a file was written; in the directory that file
    * is the index itself exactly when the language's slug is "index".
    */
  lemma IndexEntrySound(b: Buckets, e: IndexEntry)
    requires Valid(b) && e in IndexOf(b).languages
    ensures e.language in b.stations && e.count == |b.stations[e.language]|
    ensures e.filename == FileName(e.language) && e.filename in Files(b.order, b.stations)
    ensures e.filename in Directory(b)
    ensures Directory(b)[e.filename].IndexArtifact? <==> Slug(e.language) == "index"
  {
    IndexEntryBucket(b, e);
    IndexFileNameClash(e.language);
    DirectoryContents(b, e.filename);
  }

  /** Every bucket has an index entry. */
  lemma IndexComplete(b: Buckets, l: string)
    requires Valid(b) && l in b.stations
    ensures exists e | e in IndexOf(b).languages :: e.language == l
  {
    IndexSorted(b);
    var i :| 0 <= i < |b.order| && b.order[i] == l;
    assert Entries(b)[i] in multiset(IndexOf(b).languages);
  }

  /** total_stations is the sum of the bucket sizes. */
  lemma IndexTotalStations(b: Buckets)
    ensures IndexOf(b).totalStations == Sum(Sizes(b))
  {
    KeySumOfSortDesc(Entries(b), Count);
    KeySumOfEntries(b, |b.order|);
    assert Entries(b)[..|b.order|] == Entries(b);
    assert Sizes(b)[..|b.order|] == Sizes(b);
  }

  /** total_languages is the number of buckets. */
  lemma IndexTotalLanguages(b: Buckets)
    requires Valid(b)
    ensures IndexOf(b).totalLanguages == |b.stations|
  {
    IndexSorted(b);
    MapCardOfKeyOrder(b.order, b.stations);
  }

  // ---------------------------------------------------------------------------
  // The export directory

  /** The index is written last, into the directory that holds the bucket files. */
  const IndexFileName := "index.json"

  /** A file of the export directory: a bucket file or the index. */
  datatype Artifact = BucketArtifact(file: ExportFile) | IndexArtifact(index: IndexFile)

  /** The directory after exportStations: the bucket files, then index.json over whatever had its name. */
  function Directory(b: Buckets): map<string, Artifact> {
    var files := Files(b.order, b.stations);
    (map f | f in files :: BucketArtifact(files[f]))[IndexFileName := IndexArtifact(IndexOf(b))]
  }

  /** Only a name whose slug is "index" shares its file with the index. */
  lemma IndexFileNameClash(l: string)
    ensures FileName(l) == IndexFileName <==> Slug(l) == "index"
  {
    assert Slug("index") == "index";
    FileNameInjective(l, "index");
  }

  /**
    * The directory holds the index under index.json and every bucket file under any
    * other name; nothing else is written.
    */
  lemma DirectoryContents(b: Buckets, f: string)
    ensures f in Directory(b) <==> f in Files(b.order, b.stations) || f == IndexFileName
    ensures Directory(b)[IndexFileName] == IndexArtifact(IndexOf(b))
    ensures f != IndexFileName && f in Files(b.order, b.stations) ==>
      Directory(b)[f] == BucketArtifact(Files(b.order, b.stations)[f])
  {
  }

  /**
    * The file of the bucket under l, when no later key shares its slug: it holds that
    * bucket, unless the slug is "index", in which case the index replaced it.
    */
  lemma BucketInDirectory(b: Buckets, i: int)
    requires 0 <= i < |b.order|
    requires forall j | i < j < |b.order| :: Slug(b.order[j]) != Slug(b.order[i])
    ensures FileName(b.order[i]) in Directory(b)
    ensures Slug(b.order[i]) != "index" ==> Directory(b)[FileName(b.order[i])] == BucketArtifact(FileOf(b.stations, b.order[i]))
    ensures Slug(b.order[i]) == "index" ==> Directory(b)[FileName(b.order[i])] == IndexArtifact(IndexOf(b))
  {
    FilesLastWriteWins(b.order, b.stations, i);
    IndexFileNameClash(b.order[i]);
  }

  // ---------------------------------------------------------------------------
  // exportStations

  /**
    * exportStations: group with the limit 25, write a file per bucket, then the index
    * into the same directory.
    */
  method ExportStations(rows: seq<JoinedRow>) returns (directory: map<string, Artifact>, index: IndexFile)
    ensures directory == Directory(StationsByLanguage(rows, StationLimit))
    ensures index == IndexOf(StationsByLanguage(rows, StationLimit))
    ensures directory[IndexFileName] == IndexArtifact(index)
  {
    var stationLimit := StationLimit;
    var stationsByLanguage := GetStationsByLanguage(rows, stationLimit);
    Threshold(rows, stationLimit, "");
    var files := WriteBucketFiles(stationsByLanguage);
    directory := map f | f in files :: BucketArtifact(files[f]);
    index := IndexOf(stationsByLanguage);
    directory := directory[IndexFileName := IndexArtifact(index)];
  }

  /** The number of occurrences of each name, in the given order. */
  function OccurrenceCounts(rows: seq<JoinedRow>, order: seq<string>): (r: seq<int>)
    ensures |r| == |order|
  {
    seq(|order|, i requires 0 <= i < |order| => |Occurrences(rows, order[i])|)
  }

  /**
    * In the index a station object is counted once per surviving bucket it is in:
    * total_stations sums the occurrence counts of the surviving names.
    */
  lemma TotalStationsOfRows(rows: seq<JoinedRow>, limit: int)
    ensures IndexOf(StationsByLanguage(rows, limit)).totalStations
      == Sum(OccurrenceCounts(rows, StationsByLanguage(rows, limit).order))
  {
    var r := StationsByLanguage(rows, limit);
    IndexTotalStations(r);
    forall i | 0 <= i < |r.order|
      ensures Sizes(r)[i] == OccurrenceCounts(rows, r.order)[i]
    {
      Threshold(rows, limit, r.order[i]);
    }
    assert Sizes(r) == OccurrenceCounts(rows, r.order);
  }
}
