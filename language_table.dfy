/**
  * The label-to-language table that fetch-stations.js and process-languages.js both
  * define: 263 lower-case spellings, grouped by the 78 canonical names they map to, in
  * the order of the source. The subset types carry the two facts about the table
  * that the rest of the model needs: no key is empty, and no canonical name contains
  * a comma.
  */
module LanguageTable {
  import opened Wrappers
  import opened Collections

  /** A table key; the empty string is never one. */
  type Key = s: string | |s| > 0 witness "a"

  predicate IsCanonical(s: string) {
    |s| > 0 && forall i | 0 <= i < |s| :: s[i] != ','
  }

  /** A canonical language name: non-empty and free of the list separator. */
  type Canonical = s: string | IsCanonical(s) witness "A"

  /** One commented block of the source table: every variant maps to canonical. */
  datatype Group = Group(canonical: Canonical, variants: seq<Key>)

  const ChineseVariations := Group("Chinese", ["chinese", "china", "mandarin", "mandarin chinese", "chinese mandarin", "国语"] + ["中文", "中国", "cantonese", "hakka", "hokkien", "teochew"] + ["chaoshan dialect"])
  const EnglishVariations := Group("English", ["english", "american english", "british english", "australian", "engilsh", "engilsh uk"] + ["engish", "englisg", "englsih", "englsh", "engllish", "englisj"] + ["caribbean english", "english uk", "english/", "engels", "en gb", "английский"])
  const SpanishVariations := Group("Spanish", ["spanish", "español", "castellano", "andaluz.español", "espa", "españa"] + ["españo", "español - latinoamerica", "español argentina", "español chile", "español colombia", "español costa rica"] + ["español ecuador", "español internacional", "español mexico", "español paraguay", "español peruano", "espaňol"] + ["espsñol", "castellano. español", "castilian", "castelhano", "испанский"])
  const ArabicVariations := Group("Arabic", ["arabic", "arabi", "arapça", "arabesk", "العربية", "عربي"] + ["عربية", "moroccan arabic"])
  const JapaneseVariations := Group("Japanese", ["japanese", "japan", "日本語", "japones"])
  const KoreanVariations := Group("Korean", ["korean", "korea", "한국어"])
  const FrenchVariations := Group("French", ["french", "français", "francaise", "franch", "francés", "louisiana french"])
  const GermanVariations := Group("German", ["german", "deutsch", "deu", "deutsch fränkisch", "gernan", "schweizerdeutsch"] + ["pfälzisch", "norddeutsch", "sächsisch", "kölscher dialekt", "德语"])
  const RussianVariations := Group("Russian", ["russian", "русский", "rus", "rossia", "язык: russia", "язык: ру"] + ["язык: русский", "язык: русский английский"])
  const PortugueseVariations := Group("Portuguese", ["portuguese", "português", "brazilian portuguese", "portugues do braasil", "portugues do brasil", "português  brasil"] + ["português (br)", "português (brasil)", "pt-br", "portoguese", "portguese", "porguês"] + ["port", "por"])
  const ItalianVariations := Group("Italian", ["italian", "italiano"])
  const DutchVariations := Group("Dutch", ["dutch", "nederlands", "durch", "holland", "nederland", "nedersaksisch"] + ["limburgs", "twents", "belge"])
  const HindiVariations := Group("Hindi", ["hindi", "हिंदी", "hindu"])
  const TurkishVariations := Group("Turkish", ["turkish", "türkçe", "türkisch", "türkish", "turkt", "turkçe"])
  const UkrainianVariations := Group("Ukrainian", ["ukrainian", "ukranian", "ukraninan", "ukrainisch", "украина", "ucrânia"])
  const PolishVariations := Group("Polish", ["polish", "śląski"])
  const CzechVariations := Group("Czech", ["czech", "česky"])
  const RomanianVariations := Group("Romanian", ["romanian", "româna", "românä", "română", "moldovan", "moldovian"] + ["молдавский"])
  const GreekVariations := Group("Greek", ["greek", "greel"])
  const HungarianVariations := Group("Hungarian", ["hungarian", "ungarisch"])
  const BulgarianVariations := Group("Bulgarian", ["bulgarian", "bulgaria"])
  const CroatianVariations := Group("Croatian", ["croatian", "croatia", "kroatisch"])
  const SerbianVariations := Group("Serbian", ["serbian", "српски"])
  const SlovakVariations := Group("Slovak", ["slovak"])
  const SlovenianVariations := Group("Slovenian", ["slovenian", "slovenski", "slowenisch"])
  const BelarusianVariations := Group("Belarusian", ["belarusian", "беларуская"])
  const LithuanianVariations := Group("Lithuanian", ["lithuanian"])
  const LatvianVariations := Group("Latvian", ["latvian", "latviešu"])
  const EstonianVariations := Group("Estonian", ["estonian", "eesti"])
  const FinnishVariations := Group("Finnish", ["finnish", "suomi", "finish"])
  const SwedishVariations := Group("Swedish", ["swedish", "swe"])
  const NorwegianVariations := Group("Norwegian", ["norwegian", "norsk", "norwwegian"])
  const DanishVariations := Group("Danish", ["danish", "dansk/oldnordisk"])
  const IcelandicVariations := Group("Icelandic", ["icelandic"])
  const VietnameseVariations := Group("Vietnamese", ["vietnamese", "月南"])
  const ThaiVariations := Group("Thai", ["thai", "ภาษาไทย"])
  const IndonesianVariations := Group("Indonesian", ["indonesian", "bahasa indonesia"])
  const MalayVariations := Group("Malay", ["malay", "melayu", "kelantanese malay"])
  const TagalogVariations := Group("Tagalog", ["tagalog", "filipino"])
  const BengaliVariations := Group("Bengali", ["bengali", "bangla"])
  const TamilVariations := Group("Tamil", ["tamil"])
  const TeluguVariations := Group("Telugu", ["telugu"])
  const KannadaVariations := Group("Kannada", ["kannada"])
  const MalayalamVariations := Group("Malayalam", ["malayalam", "ml"])
  const PunjabiVariations := Group("Punjabi", ["punjabi", "punjab", "panjabi"])
  const GujaratiVariations := Group("Gujarati", ["gujarati", "gujrati"])
  const MarathiVariations := Group("Marathi", ["marathi"])
  const NepaliVariations := Group("Nepali", ["nepali"])
  const SinhalaVariations := Group("Sinhala", ["sinhala", "sinhalese"])
  const BurmeseVariations := Group("Burmese", ["burmese"])
  const KhmerVariations := Group("Khmer", ["khmer"])
  const LaoVariations := Group("Lao", ["lao"])
  const MongolianVariations := Group("Mongolian", ["mongolian", "monoglian"])
  const KazakhVariations := Group("Kazakh", ["kazakh"])
  const UzbekVariations := Group("Uzbek", ["uzbek"])
  const KyrgyzVariations := Group("Kyrgyz", ["kyrgyz"])
  const TajikVariations := Group("Tajik", ["tajik"])
  const TurkmenVariations := Group("Turkmen", ["turkmen"])
  const PersianVariations := Group("Persian", ["persian", "iran", "irani", "iranian"])
  const KurdishVariations := Group("Kurdish", ["kurdish", "kurdi", "kurdish."])
  const HebrewVariations := Group("Hebrew", ["hebrew", "he"])
  const YiddishVariations := Group("Yiddish", ["yiddish"])
  const AmharicVariations := Group("Amharic", ["amharic"])
  const SwahiliVariations := Group("Swahili", ["swahili", "kiswahili"])
  const HausaVariations := Group("Hausa", ["hausa", "hausa l"])
  const YorubaVariations := Group("Yoruba", ["yoruba"])
  const IgboVariations := Group("Igbo", ["ibo"])
  const ZuluVariations := Group("Zulu", ["zulu", "isizulu"])
  const XhosaVariations := Group("Xhosa", ["xhosa", "isixhosa"])
  const AfrikaansVariations := Group("Afrikaans", ["afrikaans"])
  const SesothoVariations := Group("Sesotho", ["sesotho"])
  const SetswanaVariations := Group("Setswana", ["setswana"])
  const SepediVariations := Group("Sepedi", ["sepedi"])
  const TshivendaVariations := Group("Tshivenda", ["tshivenda", "tshivenḓa"])
  const XitsongaVariations := Group("Xitsonga", ["xitsonga"])
  const SiswatiVariations := Group("Siswati", ["siswati"])
  const IsiNdebeleVariations := Group("IsiNdebele", ["isindebele"])
  const MusicNoLanguageVariations := Group("Music", ["music", "only music", "音乐", "pop music", "rock", "soul"] + ["rnb", "hiphop", "vaporwave", "chill", "hits", "top 40"] + ["soft", "roots", "evergreens", "80s", "sing along", "samba e pagode"])

  const Groups: seq<Group> := [
    ChineseVariations, EnglishVariations, SpanishVariations, ArabicVariations, JapaneseVariations, KoreanVariations,
    FrenchVariations, GermanVariations, RussianVariations, PortugueseVariations, ItalianVariations, DutchVariations,
    HindiVariations, TurkishVariations, UkrainianVariations, PolishVariations, CzechVariations, RomanianVariations,
    GreekVariations, HungarianVariations, BulgarianVariations, CroatianVariations, SerbianVariations, SlovakVariations,
    SlovenianVariations, BelarusianVariations, LithuanianVariations, LatvianVariations, EstonianVariations, FinnishVariations,
    SwedishVariations, NorwegianVariations, DanishVariations, IcelandicVariations, VietnameseVariations, ThaiVariations,
    IndonesianVariations, MalayVariations, TagalogVariations, BengaliVariations, TamilVariations, TeluguVariations,
    KannadaVariations, MalayalamVariations, PunjabiVariations, GujaratiVariations, MarathiVariations, NepaliVariations,
    SinhalaVariations, BurmeseVariations, KhmerVariations, LaoVariations, MongolianVariations, KazakhVariations,
    UzbekVariations, KyrgyzVariations, TajikVariations, TurkmenVariations, PersianVariations, KurdishVariations,
    HebrewVariations, YiddishVariations, AmharicVariations, SwahiliVariations, HausaVariations, YorubaVariations,
    IgboVariations, ZuluVariations, XhosaVariations, AfrikaansVariations, SesothoVariations, SetswanaVariations,
    SepediVariations, TshivendaVariations, XitsongaVariations, SiswatiVariations, IsiNdebeleVariations, MusicNoLanguageVariations
  ]

  /** The variant/canonical pairs of one group, in source order. */
  function Pairs(g: Group): (es: seq<(Key, Canonical)>)
    ensures |es| == |g.variants|
    ensures forall i | 0 <= i < |es| :: es[i] == (g.variants[i], g.canonical)
  {
    seq(|g.variants|, i requires 0 <= i < |g.variants| => (g.variants[i], g.canonical))
  }

  /** The entries of the object literal, in source order. */
  function Flatten(gs: seq<Group>): seq<(Key, Canonical)> {
    if |gs| == 0 then [] else Flatten(gs[..|gs| - 1]) + Pairs(gs[|gs| - 1])
  }

  const Entries: seq<(Key, Canonical)> := Flatten(Groups)

  function Keys(es: seq<(Key, Canonical)>): (ks: seq<Key>)
    ensures |ks| == |es| && forall i | 0 <= i < |es| :: ks[i] == es[i].0
  {
    seq(|es|, i requires 0 <= i < |es| => es[i].0)
  }

  /** An entry for k that no later entry overrides. */
  predicate IsLastFor(es: seq<(Key, Canonical)>, i: int) {
    0 <= i < |es| && forall j | i < j < |es| :: es[j].0 != es[i].0
  }

  /** The value of an object literal with these entries. */
  function MapOf(es: seq<(Key, Canonical)>): map<Key, Canonical> {
    if |es| == 0 then map[] else MapOf(es[..|es| - 1])[es[|es| - 1].0 := es[|es| - 1].1]
  }

  /** A key is present iff some entry names it. */
  lemma {:induction false} MapOfKeys(es: seq<(Key, Canonical)>, k: string)
    ensures k in MapOf(es) <==> k in Keys(es)
    decreases |es|
  {
    if |es| > 0 {
      MapOfKeys(es[..|es| - 1], k);
      assert Keys(es) == Keys(es[..|es| - 1]) + [es[|es| - 1].0];
    }
  }

  /** The value for a key is that of its last entry: a later entry replaces an earlier one. */
  lemma {:induction false} MapOfLast(es: seq<(Key, Canonical)>, i: int)
    requires IsLastFor(es, i)
    ensures es[i].0 in MapOf(es) && MapOf(es)[es[i].0] == es[i].1
    decreases |es|
  {
    if i < |es| - 1 {
      MapOfLast(es[..|es| - 1], i);
    }
  }

  /**
    * languageMap[x]: the canonical name of the last group listing x. Scanning the groups
    * from the end gives the value of the object literal, where a later entry for a key
    * replaces an earlier one (LookupIsObjectValue).
    */
  function Lookup(gs: seq<Group>, x: string): Option<Canonical> {
    if |gs| == 0 then None
    else if x in gs[|gs| - 1].variants then Some(gs[|gs| - 1].canonical)
    else Lookup(gs[..|gs| - 1], x)
  }

  /**
    * Object.entries of the object literal: each key once, at its first position, with
    * the value the object holds for it.
    */
  function ObjectEntries(es: seq<(Key, Canonical)>): seq<(Key, Canonical)> {
    var ks := Distinct(Keys(es));
    seq(|ks|, i requires 0 <= i < |ks| => (ks[i], if ks[i] in MapOf(es) then MapOf(es)[ks[i]] else "A"))
  }

  /** Object.entries lists every key of the object once, each with its value. */
  lemma ObjectEntriesShape(es: seq<(Key, Canonical)>)
    ensures NoDuplicates(Keys(ObjectEntries(es)))
    ensures forall k :: k in Keys(ObjectEntries(es)) <==> k in MapOf(es)
    ensures forall i | 0 <= i < |ObjectEntries(es)| ::
      ObjectEntries(es)[i].0 in MapOf(es) && MapOf(es)[ObjectEntries(es)[i].0] == ObjectEntries(es)[i].1
  {
    var r := ObjectEntries(es);
    assert Keys(r) == Distinct(Keys(es));
    forall k
      ensures k in Keys(r) <==> k in MapOf(es)
    {
      MapOfKeys(es, k);
    }
  }

  lemma {:induction false} MapOfAppend(es: seq<(Key, Canonical)>, more: seq<(Key, Canonical)>)
    ensures MapOf(es + more) == MapOf(es) + MapOf(more)
    decreases |more|
  {
    if |more| == 0 {
      assert es + more == es;
    } else {
      var init, e := more[..|more| - 1], more[|more| - 1];
      assert (es + more)[..|es + more| - 1] == es + init;
      MapOfAppend(es, init);
      assert (MapOf(es) + MapOf(init))[e.0 := e.1] == MapOf(es) + MapOf(init)[e.0 := e.1];
    }
  }

  lemma PairsMap(g: Group, x: string)
    ensures x in MapOf(Pairs(g)) <==> x in g.variants
    ensures x in g.variants ==> MapOf(Pairs(g))[x] == g.canonical
  {
    MapOfKeys(Pairs(g), x);
    assert Keys(Pairs(g)) == g.variants;
    if x in g.variants {
      var i :| 0 <= i < |g.variants| && g.variants[i] == x;
      var j := LastIndexOf(Pairs(g), i);
      MapOfLast(Pairs(g), j);
    }
  }

  /** The position of the last entry with the key of entry i. */
  lemma {:induction false} LastIndexOf(es: seq<(Key, Canonical)>, i: int) returns (j: int)
    requires 0 <= i < |es|
    ensures IsLastFor(es, j) && es[j].0 == es[i].0
    decreases |es| - i
  {
    if exists k | i < k < |es| :: es[k].0 == es[i].0 {
      var k :| i < k < |es| && es[k].0 == es[i].0;
      j := LastIndexOf(es, k);
    } else {
      j := i;
    }
  }

  /** Only a non-empty string can be found: every key is non-empty. */
  lemma {:induction false} LookupFindsKey(gs: seq<Group>, x: string)
    requires Lookup(gs, x).Some?
    ensures x != ""
    decreases |gs|
  {
    if x !in gs[|gs| - 1].variants {
      LookupFindsKey(gs[..|gs| - 1], x);
    } else {
      var i :| 0 <= i < |gs[|gs| - 1].variants| && gs[|gs| - 1].variants[i] == x;
    }
  }

  /** Lookup reads the value the object literal holds for x. */
  lemma {:induction false} LookupIsObjectValue(gs: seq<Group>, x: string)
    ensures Lookup(gs, x).Some? <==> x in MapOf(Flatten(gs))
    ensures Lookup(gs, x).Some? ==> MapOf(Flatten(gs))[x] == Lookup(gs, x).value
    decreases |gs|
  {
    if |gs| > 0 {
      var init, g := gs[..|gs| - 1], gs[|gs| - 1];
      LookupIsObjectValue(init, x);
      MapOfAppend(Flatten(init), Pairs(g));
      PairsMap(g, x);
    }
  }
}
