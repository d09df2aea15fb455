/**
  * standardizeLanguage, the same function in fetch-stations.js and process-languages.js:
  * lower-case and trim the label and look it up; on a miss return the label as given
  * with its first character upper-cased. StandardizeIn takes the table's groups as a
  * parameter so that its properties hold for any table; Standardize fixes them to the
  * source's Groups.
  */
module Canonicalizer {
  import opened Wrappers
  import opened Text
  import opened LanguageTable

  /** Every table value is a non-empty string, so "the entry is truthy" is "the key is present". */
  function StandardizeIn(t: seq<Group>, language: string): (r: string)
    ensures language == [] ==> r == []
    ensures language != [] ==> r != []
    ensures ',' !in language ==> ',' !in r
  {
    if Lookup(t, Trim(Lower(language))).Some? then
      LookupFindsKey(t, Trim(Lower(language)));
      assert Trim(Lower(language)) != [];
      Lookup(t, Trim(Lower(language))).value
    else if |language| == 0 then language else [UpperChar(language[0])] + language[1..]
  }


  function Standardize(language: string): (r: string)
    ensures language == [] ==> r == []
    ensures language != [] ==> r != []
    ensures ',' !in language ==> ',' !in r
  {
    StandardizeIn(Groups, language)
  }

  /** The lookup key of p + x + q is that of x when p and q are whitespace. */
  lemma NormalizedOfPadded(x: string, p: string, q: string)
    requires AllWhitespace(p) && AllWhitespace(q)
    ensures Trim(Lower(p + x + q)) == Lower(Trim(x))
  {
    LowerOfAppend(p + x, q);
    LowerOfAppend(p, x);
    AllWhitespaceLower(p);
    AllWhitespaceLower(q);
    TrimOfPadded(Lower(p), Lower(x), Lower(q));
    TrimOfLower(x);
  }

  /**
    * A hit: when the lower-cased, trimmed label is a key, the result is that key's
    * value, whatever whitespace surrounds the label.
    */
  lemma LookupHit(t: seq<Group>, x: string, p: string, q: string)
    requires AllWhitespace(p) && AllWhitespace(q)
    requires Lookup(t, Lower(Trim(x))).Some?
    ensures StandardizeIn(t, p + x + q) == Lookup(t, Lower(Trim(x))).value
  {
    NormalizedOfPadded(x, p, q);
  }

  /**
    * A miss: the label keeps its length and every character after the first, its
    * first character is upper-cased without changing its lower-case form, and nothing
    * is trimmed.
    */
  lemma FallbackShape(t: seq<Group>, x: string)
    requires Lookup(t, Trim(Lower(x))).None?
    ensures |StandardizeIn(t, x)| == |x|
    ensures x != [] ==> StandardizeIn(t, x)[1..] == x[1..]
    ensures x != [] ==> LowerChar(StandardizeIn(t, x)[0]) == LowerChar(x[0])
    ensures x != [] ==> UpperChar(StandardizeIn(t, x)[0]) == StandardizeIn(t, x)[0]
    ensures x != [] ==> (StandardizeIn(t, x)[0] != x[0] <==> HasCapital(x[0]))
    ensures x != [] && IsWhitespace(x[0]) ==> StandardizeIn(t, x) == x
  {
    if x != [] {
      var r := StandardizeIn(t, x);
      assert r == [UpperChar(x[0])] + x[1..];
      UpperCharIdempotent(x[0]);
      if IsWhitespace(x[0]) {
        UpperCharOfWhitespace(x[0]);
        assert x == [x[0]] + x[1..];
      }
    }
  }

  /** On a miss, standardizing the result again changes nothing. */
  lemma FallbackIsStable(t: seq<Group>, x: string)
    requires Lookup(t, Trim(Lower(x))).None?
    ensures StandardizeIn(t, StandardizeIn(t, x)) == StandardizeIn(t, x)
  {
    if x != [] {
      var r := StandardizeIn(t, x);
      assert r == [UpperChar(x[0])] + x[1..];
      LowerOfUpperFirst(x);
      assert Lookup(t, Trim(Lower(r))).None?;
      UpperCharIdempotent(x[0]);
      assert r == [UpperChar(r[0])] + r[1..];
    }
  }

  /**
    * A canonical name comes back unchanged when its lower-case form maps to it, or when
    * no key matches and its first character is already upper-case.
    */
  lemma FixedPoint(t: seq<Group>, v: string)
    requires IsTrimmed(v)
    requires (Lookup(t, Lower(v)).Some? && Lookup(t, Lower(v)).value == v) || (Lookup(t, Lower(v)).None? && v != [] && UpperChar(v[0]) == v[0])
    ensures StandardizeIn(t, v) == v
  {
    TrimOfTrimmed(v);
    TrimOfLower(v);
    if Lookup(t, Lower(v)).None? {
      assert v == [v[0]] + v[1..];
    }
  }
}
