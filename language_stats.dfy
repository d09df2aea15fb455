/**
  * Language-list deduplication (process-languages.js): the reverse index from each
  * canonical name to its spellings, the collapse of the upstream language list to one
  * entry per standardized name, the sort by station count and the totals printed by
  * main.
  *
  * The reverse index is module state in the source, so it is a field of the class
  * LanguageProcessor; the deduplication loop only reads its input and is a method that
  * changes nothing.
  */
module LanguageStats {
  import opened Collections
  import opened Sorting
  import opened LanguageTable
  import opened Canonicalizer

  // ---------------------------------------------------------------------------
  // The reverse index

  /** The canonical names of the entries, in entry order. */
  function Canonicals(es: seq<(Key, Canonical)>): (vs: seq<string>)
    ensures |vs| == |es|
  {
    if |es| == 0 then [] else Canonicals(es[..|es| - 1]) + [es[|es| - 1].1]
  }

  /** The reverse index built from these entries: each variant pushed onto its canonical name's list. */
  function ReverseOf(es: seq<(Key, Canonical)>): map<string, seq<string>> {
    if |es| == 0 then map[]
    else
      var m := ReverseOf(es[..|es| - 1]);
      var k: string, v: string := es[|es| - 1].0, es[|es| - 1].1;
      m[v := (if v in m then m[v] else []) + [k]]
  }

  lemma ReverseSnoc(es: seq<(Key, Canonical)>, e: (Key, Canonical))
    ensures var m := ReverseOf(es); var k: string, v: string := e.0, e.1;
      ReverseOf(es + [e]) == m[v := (if v in m then m[v] else []) + [k]]
  {
    assert (es + [e])[..|es|] == es;
  }

  /** reverseMap after initializeReverseMap: untouched when it already has a key. */
  function Initialized(reverseMap: map<string, seq<string>>, table: seq<Group>): map<string, seq<string>> {
    if |reverseMap| > 0 then reverseMap else ReverseOf(ObjectEntries(Flatten(table)))
  }

  /** A second initialization changes nothing. */
  lemma InitializedIdempotent(reverseMap: map<string, seq<string>>, table: seq<Group>)
    ensures Initialized(Initialized(reverseMap, table), table) == Initialized(reverseMap, table)
  {
  }

  /** The reverse index has a list exactly for the canonical names that occur. */
  lemma {:induction false} ReverseKeys(es: seq<(Key, Canonical)>, v: string)
    ensures v in ReverseOf(es) <==> v in Canonicals(es)
    decreases |es|
  {
    if |es| > 0 {
      ReverseKeys(es[..|es| - 1], v);
    }
  }

  /** Every entry's variant is listed under its canonical name. */
  lemma {:induction false} ReverseComplete(es: seq<(Key, Canonical)>, i: int)
    requires 0 <= i < |es|
    ensures es[i].1 in ReverseOf(es) && es[i].0 in ReverseOf(es)[es[i].1]
    decreases |es|
  {
    if i < |es| - 1 {
      ReverseComplete(es[..|es| - 1], i);
    }
  }

  /** Every listed variant comes from an entry with that canonical name. */
  lemma {:induction false} ReverseSound(es: seq<(Key, Canonical)>, v: string, k: string)
    requires v in ReverseOf(es) && k in ReverseOf(es)[v]
    ensures exists i | 0 <= i < |es| :: es[i].0 == k && es[i].1 == v
    decreases |es|
  {
    var init := es[..|es| - 1];
    var last := es[|es| - 1];
    if !(last.0 == k && last.1 == v) {
      ReverseSound(init, v, k);
      var i :| 0 <= i < |init| && init[i].0 == k && init[i].1 == v;
      assert es[i] == init[i];
    }
  }

  /** The list lengths under the given names, 0 for a name without a list. */
  function ListLengths(m: map<string, seq<string>>, names: seq<string>): (r: seq<int>)
    ensures |r| == |names|
  {
    seq(|names|, i requires 0 <= i < |names| => if names[i] in m then |m[names[i]]| else 0)
  }

  lemma {:induction false} SumOfIncrement(s: seq<int>, i: int)
    requires 0 <= i < |s|
    ensures Sum(s[i := s[i] + 1]) == Sum(s) + 1
    decreases |s|
  {
    var t := s[i := s[i] + 1];
    assert t[..|t| - 1] == if i < |s| - 1 then s[..|s| - 1][i := s[i] + 1] else s[..|s| - 1];
    if i < |s| - 1 {
      SumOfIncrement(s[..|s| - 1], i);
    }
  }

  /** Growing the list under a name that is listed once adds one to the total. */
  lemma ListLengthsGrow(m: map<string, seq<string>>, v: string, xs: seq<string>, names: seq<string>, j: int)
    requires NoDuplicates(names) && 0 <= j < |names| && names[j] == v
    requires |xs| == (if v in m then |m[v]| else 0) + 1
    ensures Sum(ListLengths(m[v := xs], names)) == Sum(ListLengths(m, names)) + 1
  {
    var before := ListLengths(m, names);
    assert ListLengths(m[v := xs], names) == before[j := before[j] + 1];
    SumOfIncrement(before, j);
  }

  /** A list under a name not yet listed adds its length at the end. */
  lemma ListLengthsExtend(m: map<string, seq<string>>, v: string, xs: seq<string>, names: seq<string>)
    requires v !in names
    ensures Sum(ListLengths(m[v := xs], names + [v])) == Sum(ListLengths(m, names)) + |xs|
  {
    assert ListLengths(m[v := xs], names + [v]) == ListLengths(m, names) + [|xs|];
    SumOfAppend(ListLengths(m, names), [|xs|]);
  }

  /**
    * The lists, taken once per canonical name in the order the names first occur, hold
    * one variant per entry.
    */
  lemma {:induction false} ReverseSizes(es: seq<(Key, Canonical)>)
    ensures Sum(ListLengths(ReverseOf(es), Distinct(Canonicals(es)))) == |es|
    decreases |es|
  {
    if |es| > 0 {
      var init := es[..|es| - 1];
      var k: string, v: string := es[|es| - 1].0, es[|es| - 1].1;
      var m := ReverseOf(init);
      var xs := (if v in m then m[v] else []) + [k];
      var d := Distinct(Canonicals(init));
      ReverseSizes(init);
      assert Canonicals(es)[..|es| - 1] == Canonicals(init);
      ReverseKeys(init, v);
      if v in d {
        var j :| 0 <= j < |d| && d[j] == v;
        ListLengthsGrow(m, v, xs, d, j);
      } else {
        ListLengthsExtend(m, v, xs, d);
      }
    }
  }

  /**
    * For the source's object literal: every key k is listed under languageMap[k], and
    * every listed variant maps back to the name it is listed under.
    */
  lemma ReverseIndexOfTable(table: seq<Group>, k: string, v: string)
    ensures Lookup(table, k).Some? ==>
      Lookup(table, k).value in ReverseOf(ObjectEntries(Flatten(table)))
      && k in ReverseOf(ObjectEntries(Flatten(table)))[Lookup(table, k).value]
    ensures v in ReverseOf(ObjectEntries(Flatten(table))) && k in ReverseOf(ObjectEntries(Flatten(table)))[v] ==>
      Lookup(table, k).Some? && Lookup(table, k).value == v
  {
    var es := ObjectEntries(Flatten(table));
    LookupIsObjectValue(table, k);
    ObjectEntriesShape(Flatten(table));
    if Lookup(table, k).Some? {
      assert k in Keys(es);
      var i :| 0 <= i < |es| && Keys(es)[i] == k;
      ReverseComplete(es, i);
    }
    if v in ReverseOf(es) && k in ReverseOf(es)[v] {
      ReverseSound(es, v, k);
      var i :| 0 <= i < |es| && es[i].0 == k && es[i].1 == v;
    }
  }

  /** The list lengths sum to the number of keys of the object literal. */
  lemma ReverseSizesOfTable(table: seq<Group>)
    ensures var es := ObjectEntries(Flatten(table));
      Sum(ListLengths(ReverseOf(es), Distinct(Canonicals(es)))) == |Distinct(Keys(Flatten(table)))|
  {
    ReverseSizes(ObjectEntries(Flatten(table)));
  }

  // ---------------------------------------------------------------------------
  // Deduplication

  /** standardizeLanguage with the given table, as a function value. */
  function Standardizer(table: seq<Group>): string -> string {
    n => StandardizeIn(table, n)
  }

  /** One element of the upstream /languages list. */
  datatype ApiLanguage = ApiLanguage(name: string, iso639: string, stationcount: int)

  /** One element of processed_languages.json. */
  datatype ProcessedLanguage = ProcessedLanguage(name: string, iso639: string, stationcount: int, variations: seq<string>)

  /** An entry of languageStats; variations is a Set, kept in insertion order. */
  datatype LanguageStat = LanguageStat(name: string, iso639: string, stationcount: int, variations: seq<string>)

  function StationCount(p: ProcessedLanguage): int {
    p.stationcount
  }

  /** Set.prototype.add on an insertion-ordered set. */
  function AddVariation(vs: seq<string>, x: string): (r: seq<string>)
    ensures NoDuplicates(vs) ==> NoDuplicates(r)
    ensures forall y :: y in r <==> y in vs || y == x
  {
    if x in vs then vs else vs + [x]
  }

  function Names(ps: seq<ProcessedLanguage>): (r: seq<string>)
    ensures |r| == |ps| && forall i | 0 <= i < |ps| :: r[i] == ps[i].name
  {
    seq(|ps|, i requires 0 <= i < |ps| => ps[i].name)
  }

  /** The standardized name of every input, in input order. */
  function StandardNames(standardize: string -> string, ls: seq<ApiLanguage>): (r: seq<string>)
    ensures |r| == |ls| && forall i | 0 <= i < |ls| :: r[i] == standardize(ls[i].name)
  {
    seq(|ls|, i requires 0 <= i < |ls| => standardize(ls[i].name))
  }

  /** The entry pushed for an input whose standardized name has not been seen. */
  function Snapshot(standardize: string -> string, l: ApiLanguage): ProcessedLanguage {
    ProcessedLanguage(standardize(l.name), l.iso639, l.stationcount, [l.name])
  }

  /** One iteration's update of languageStats. */
  function Tally(stats: map<string, LanguageStat>, standardize: string -> string, l: ApiLanguage): map<string, LanguageStat> {
    var n := standardize(l.name);
    var s := if n in stats then stats[n] else LanguageStat(n, l.iso639, 0, []);
    stats[n := s.(stationcount := s.stationcount + l.stationcount, variations := AddVariation(s.variations, l.name))]
  }

  lemma TallyOf(stats: map<string, LanguageStat>, standardize: string -> string, l: ApiLanguage, prior: LanguageStat)
    requires prior == if standardize(l.name) in stats then stats[standardize(l.name)]
      else LanguageStat(standardize(l.name), l.iso639, 0, [])
    ensures Tally(stats, standardize, l) == stats[standardize(l.name) :=
      prior.(stationcount := prior.stationcount + l.stationcount, variations := AddVariation(prior.variations, l.name))]
  {
  }

  /** languageStats after the loop: the running totals per standardized name. */
  function Aggregate(standardize: string -> string, ls: seq<ApiLanguage>): map<string, LanguageStat> {
    if |ls| == 0 then map[] else Tally(Aggregate(standardize, ls[..|ls| - 1]), standardize, ls[|ls| - 1])
  }

  /** processed after the loop: an input is appended iff its standardized name is new. */
  function Dedup(standardize: string -> string, ls: seq<ApiLanguage>): seq<ProcessedLanguage> {
    if |ls| == 0 then []
    else
      var d := Dedup(standardize, ls[..|ls| - 1]);
      if standardize(ls[|ls| - 1].name) in Names(d) then d else d + [Snapshot(standardize, ls[|ls| - 1])]
  }

  lemma AggregateSnoc(standardize: string -> string, ls: seq<ApiLanguage>, l: ApiLanguage)
    ensures Aggregate(standardize, ls + [l]) == Tally(Aggregate(standardize, ls), standardize, l)
  {
    assert (ls + [l])[..|ls|] == ls;
  }

  lemma DedupSnoc(standardize: string -> string, ls: seq<ApiLanguage>, l: ApiLanguage)
    ensures Dedup(standardize, ls + [l]) == if standardize(l.name) in Names(Dedup(standardize, ls))
      then Dedup(standardize, ls) else Dedup(standardize, ls) + [Snapshot(standardize, l)]
  {
    assert (ls + [l])[..|ls|] == ls;
  }

  /** languageStats has a key exactly for the names processed lists. */
  lemma {:induction false} AggregateKeys(standardize: string -> string, ls: seq<ApiLanguage>, n: string)
    ensures n in Aggregate(standardize, ls) <==> n in Names(Dedup(standardize, ls))
    decreases |ls|
  {
    if |ls| > 0 {
      var d := Dedup(standardize, ls[..|ls| - 1]);
      AggregateKeys(standardize, ls[..|ls| - 1], n);
      assert Names(d + [Snapshot(standardize, ls[|ls| - 1])]) == Names(d) + [standardize(ls[|ls| - 1].name)];
    }
  }

  /** The output names are the distinct standardized input names, in first-occurrence order. */
  lemma {:induction false} DedupNames(standardize: string -> string, ls: seq<ApiLanguage>)
    ensures Names(Dedup(standardize, ls)) == Distinct(StandardNames(standardize, ls))
    decreases |ls|
  {
    if |ls| > 0 {
      var init := ls[..|ls| - 1];
      var d := Dedup(standardize, init);
      DedupNames(standardize, init);
      assert StandardNames(standardize, ls)[..|ls| - 1] == StandardNames(standardize, init);
      assert Names(d + [Snapshot(standardize, ls[|ls| - 1])]) == Names(d) + [standardize(ls[|ls| - 1].name)];
    }
  }

  /**
    * The output names are pairwise distinct, each is standardizeLanguage of some input
    * name, every standardized input name is present, and there are at most as many as
    * inputs.
    */
  lemma DedupShape(standardize: string -> string, ls: seq<ApiLanguage>)
    ensures NoDuplicates(Names(Dedup(standardize, ls)))
    ensures |Dedup(standardize, ls)| <= |ls|
    ensures forall n :: n in Names(Dedup(standardize, ls)) <==> exists j | 0 <= j < |ls| :: n == standardize(ls[j].name)
  {
    DedupNames(standardize, ls);
    forall n
      ensures n in StandardNames(standardize, ls) <==> exists j | 0 <= j < |ls| :: n == standardize(ls[j].name)
    {
      if n in StandardNames(standardize, ls) {
        var j :| 0 <= j < |ls| && StandardNames(standardize, ls)[j] == n;
      }
    }
  }

  /**
    * Each output entry is the snapshot of the first input with its standardized name:
    * that input's count and a one-element variations list, whatever later duplicates add.
    */
  lemma {:induction false} DedupIsFirstOccurrence(standardize: string -> string, ls: seq<ApiLanguage>, i: int)
    requires 0 <= i < |Dedup(standardize, ls)|
    ensures exists j | 0 <= j < |ls| ::
      && Dedup(standardize, ls)[i] == Snapshot(standardize, ls[j])
      && forall k | 0 <= k < j :: standardize(ls[k].name) != Dedup(standardize, ls)[i].name
    decreases |ls|
  {
    var init, last := ls[..|ls| - 1], ls[|ls| - 1];
    var d := Dedup(standardize, init);
    assert ls == init + [last];
    DedupSnoc(standardize, init, last);
    if i < |d| {
      assert Dedup(standardize, ls)[i] == d[i];
      DedupIsFirstOccurrence(standardize, init, i);
      var j :| 0 <= j < |init| && d[i] == Snapshot(standardize, init[j])
        && forall k | 0 <= k < j :: standardize(init[k].name) != d[i].name;
      assert ls[j] == init[j];
      assert forall k | 0 <= k < j :: ls[k] == init[k];
    } else {
      var j := |ls| - 1;
      var n := standardize(last.name);
      assert n !in Names(d);
      assert Dedup(standardize, ls)[i] == Snapshot(standardize, ls[j]);
      DedupNames(standardize, init);
      forall k | 0 <= k < j
        ensures standardize(ls[k].name) != n
      {
        assert StandardNames(standardize, init)[k] == standardize(ls[k].name);
      }
    }
  }

  /**
    * Two spellings of one language: the output entry keeps the first one's count and
    * spelling only, while languageStats records the sum and both spellings.
    */
  lemma SnapshotIsNotTotal(standardize: string -> string, a: ApiLanguage, b: ApiLanguage)
    requires standardize(a.name) == standardize(b.name) && a.name != b.name
    ensures Dedup(standardize, [a, b]) == [ProcessedLanguage(standardize(a.name), a.iso639, a.stationcount, [a.name])]
    ensures Aggregate(standardize, [a, b])[standardize(a.name)]
      == LanguageStat(standardize(a.name), a.iso639, a.stationcount + b.stationcount, [a.name, b.name])
  {
    var ls := [a, b];
    assert ls[..1] == [a];
    assert Names(Dedup(standardize, [a])) == [standardize(a.name)];
    var n := standardize(a.name);
    var first := Aggregate(standardize, [a]);
    assert [a][..0] == [];
    assert Aggregate(standardize, []) == map[];
    assert first == Tally(map[], standardize, a);
    assert first[n] == LanguageStat(n, a.iso639, a.stationcount, [a.name]);
    assert Aggregate(standardize, ls) == Tally(first, standardize, b);
  }

  /** One iteration of the loop of processLanguages, stated on languageStats' keys. */
  lemma LoopStep(standardize: string -> string, ls: seq<ApiLanguage>, l: ApiLanguage)
    ensures Aggregate(standardize, ls + [l]) == Tally(Aggregate(standardize, ls), standardize, l)
    ensures Dedup(standardize, ls + [l]) == if standardize(l.name) in Aggregate(standardize, ls)
      then Dedup(standardize, ls) else Dedup(standardize, ls) + [Snapshot(standardize, l)]
  {
    AggregateSnoc(standardize, ls, l);
    DedupSnoc(standardize, ls, l);
    AggregateKeys(standardize, ls, standardize(l.name));
  }

  /**
    * The loop of processLanguages: Dedup is what it pushes onto processed and
    * Aggregate what it leaves in languageStats, which the source then discards.
    */
  method Deduplicate(standardize: string -> string, languages: seq<ApiLanguage>)
    returns (processed: seq<ProcessedLanguage>, languageStats: map<string, LanguageStat>)
    ensures processed == Dedup(standardize, languages)
    ensures languageStats == Aggregate(standardize, languages)
  {
    var seen: set<string> := {};
    processed := [];
    languageStats := map[];
    for i := 0 to |languages|
      invariant processed == Dedup(standardize, languages[..i])
      invariant languageStats == Aggregate(standardize, languages[..i])
      invariant seen == languageStats.Keys
    {
      assert languages[..i + 1] == languages[..i] + [languages[i]];
      processed, languageStats, seen := ProcessOne(standardize, languages[..i], languages[i], processed, languageStats, seen);
    }
    assert languages[..|languages|] == languages;
  }

  /** One iteration of that loop, for the input l after the inputs done. */
  method ProcessOne(standardize: string -> string, ghost done: seq<ApiLanguage>, lang: ApiLanguage,
                    processed: seq<ProcessedLanguage>, languageStats: map<string, LanguageStat>, seen: set<string>)
    returns (processed': seq<ProcessedLanguage>, languageStats': map<string, LanguageStat>, seen': set<string>)
    requires processed == Dedup(standardize, done)
    requires languageStats == Aggregate(standardize, done)
    requires seen == languageStats.Keys
    ensures processed' == Dedup(standardize, done + [lang])
    ensures languageStats' == Aggregate(standardize, done + [lang])
    ensures seen' == languageStats'.Keys
  {
    LoopStep(standardize, done, lang);
    var standardizedName := standardize(lang.name);
    languageStats' := AddToStats(languageStats, standardize, lang);
    processed', seen' := processed, seen;
    if standardizedName !in seen {
      seen' := seen + {standardizedName};
      processed' := processed + [ProcessedLanguage(
        standardizedName, lang.iso639, languageStats'[standardizedName].stationcount, languageStats'[standardizedName].variations)];
    }
  }

  /** The languageStats update of one loop iteration. */
  method AddToStats(stats: map<string, LanguageStat>, standardize: string -> string, l: ApiLanguage)
    returns (updated: map<string, LanguageStat>)
    ensures updated == Tally(stats, standardize, l)
    ensures standardize(l.name) !in stats ==>
      updated[standardize(l.name)] == LanguageStat(standardize(l.name), l.iso639, l.stationcount, [l.name])
  {
    var n := standardize(l.name);
    updated := stats;
    if n !in updated {
      updated := updated[n := LanguageStat(n, l.iso639, 0, [])];
    }
    var stat := updated[n];
    updated := updated[n := stat.(stationcount := stat.stationcount + l.stationcount, variations := AddVariation(stat.variations, l.name))];
  }

  // ---------------------------------------------------------------------------
  // Totals

  /** The three figures main prints after processing. */
  datatype LanguageTotals = LanguageTotals(totalStations: int, totalUniqueLanguages: nat, languagesWithStations: nat)

  /** processedLanguages.filter(lang => lang.stationcount > 0).length */
  function CountWithStations(ps: seq<ProcessedLanguage>): (r: nat)
    ensures r <= |ps|
  {
    if |ps| == 0 then 0
    else CountWithStations(ps[..|ps| - 1]) + (if ps[|ps| - 1].stationcount > 0 then 1 else 0)
  }

  function Totals(ps: seq<ProcessedLanguage>): (r: LanguageTotals)
    ensures r.languagesWithStations <= r.totalUniqueLanguages == |ps|
  {
    LanguageTotals(KeySum(ps, StationCount), |ps|, CountWithStations(ps))
  }

  /**
    * The totals of the sorted output: the station total is that of the first-occurrence
    * counts, and the number of languages is the number of distinct standardized names.
    */
  lemma TotalsOfOutput(standardize: string -> string, ls: seq<ApiLanguage>)
    ensures Totals(SortDesc(Dedup(standardize, ls), StationCount)).totalStations == KeySum(Dedup(standardize, ls), StationCount)
    ensures Totals(SortDesc(Dedup(standardize, ls), StationCount)).totalUniqueLanguages == |Distinct(StandardNames(standardize, ls))|
    ensures Totals(SortDesc(Dedup(standardize, ls), StationCount)).languagesWithStations <= |ls|
  {
    KeySumOfSortDesc(Dedup(standardize, ls), StationCount);
    DedupNames(standardize, ls);
    DedupShape(standardize, ls);
    var d := Dedup(standardize, ls);
    assert |SortDesc(d, StationCount)| == |d| by {
      assert |multiset(SortDesc(d, StationCount))| == |multiset(d)|;
    }
  }

  // ---------------------------------------------------------------------------
  // The module state

  class LanguageProcessor {
    /** reverseMap: canonical name to the variant spellings listed for it. */
    var reverseMap: map<string, seq<string>>

    constructor ()
      ensures reverseMap == map[]
    {
      reverseMap := map[];
    }

    /** initializeReverseMap: returns at once when the index already has a key. */
    method InitializeReverseMap(table: seq<Group>)
      modifies this
      ensures reverseMap == Initialized(old(reverseMap), table)
    {
      if |reverseMap| > 0 {
        return;
      }
      assert reverseMap == map[];
      IndexEntries(ObjectEntries(Flatten(table)));
    }

    /** The loop over Object.entries(languageMap), starting from an empty index. */
    method IndexEntries(entries: seq<(Key, Canonical)>)
      requires reverseMap == map[]
      modifies this
      ensures reverseMap == ReverseOf(entries)
    {
      for i := 0 to |entries|
        invariant reverseMap == ReverseOf(entries[..i])
      {
        assert entries[..i + 1] == entries[..i] + [entries[i]];
        ReverseSnoc(entries[..i], entries[i]);
        AddVariant(entries[i].0, entries[i].1);
      }
      assert entries[..|entries|] == entries;
    }

    /** One step of that loop: the variation is pushed onto its standard name's list. */
    method AddVariant(variation: string, standard: string)
      modifies this
      ensures reverseMap == old(reverseMap)[standard :=
        (if standard in old(reverseMap) then old(reverseMap)[standard] else []) + [variation]]
    {
      if standard !in reverseMap {
        reverseMap := reverseMap[standard := []];
      }
      reverseMap := reverseMap[standard := reverseMap[standard] + [variation]];
    }

    /** processLanguages: initialize the index, deduplicate, then sort by station count. */
    method ProcessLanguages(table: seq<Group>, languages: seq<ApiLanguage>) returns (result: seq<ProcessedLanguage>)
      modifies this
      ensures reverseMap == Initialized(old(reverseMap), table)
      ensures result == SortDesc(Dedup(Standardizer(table), languages), StationCount)
    {
      InitializeReverseMap(table);
      var processed, languageStats := Deduplicate(Standardizer(table), languages);
      var a := new ProcessedLanguage[|processed|](i requires 0 <= i < |processed| => processed[i]);
      assert a[..] == processed;
      SortInPlace(a, StationCount);
      result := a[..];
    }
  }
}
