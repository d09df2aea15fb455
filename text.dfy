/**
  * The JavaScript string operations the pipeline relies on: trim, toLowerCase,
  * toUpperCase, split with a one-character separator, and join (its inverse).
  */
module Text {

  /** The code points String.prototype.trim removes: ECMAScript WhiteSpace and LineTerminator. */
  predicate IsWhitespace(c: char) {
    c == '\t' || c == '\n' || c == '\U{000B}' || c == '\U{000C}' || c == '\r' || c == ' '
    || c == '\U{00A0}' || c == '\U{1680}' || ('\U{2000}' <= c <= '\U{200A}')
    || c == '\U{2028}' || c == '\U{2029}' || c == '\U{202F}' || c == '\U{205F}'
    || c == '\U{3000}' || c == '\U{FEFF}'
  }

  predicate AllWhitespace(s: string) {
    forall i | 0 <= i < |s| :: IsWhitespace(s[i])
  }

  /** No whitespace at either end (the shape of every result of Trim). */
  predicate IsTrimmed(s: string) {
    s == [] || (!IsWhitespace(s[0]) && !IsWhitespace(s[|s| - 1]))
  }

  /** t occurs in s as a contiguous run starting at index i. */
  predicate OccursAt(t: string, s: string, i: int) {
    0 <= i && i + |t| <= |s| && s[i..i + |t|] == t
  }

  predicate IsSubstring(t: string, s: string) {
    exists i | 0 <= i <= |s| :: OccursAt(t, s, i)
  }

  /**
    * The one-to-one part of the Unicode case mapping for ASCII, Latin-1 (with the
    * pair y-diaeresis, whose capital lies outside the block) and the basic Cyrillic
    * block; every other character is its own lower-case form.
    */
  function LowerChar(c: char): (r: char)
    ensures IsWhitespace(r) == IsWhitespace(c)
    ensures r == ',' <==> c == ','
  {
    if 'A' <= c <= 'Z' || ('\U{00C0}' <= c <= '\U{00DE}' && c != '\U{00D7}') || '\U{0410}' <= c <= '\U{042F}' then
      (c as int + 32) as char
    else if '\U{0400}' <= c <= '\U{040F}' then
      (c as int + 80) as char
    else if c == '\U{0178}' then
      '\U{00FF}'
    else
      c
  }

  /** The characters that have a capital of their own: the lower-case letters of the three blocks, and y-diaeresis. */
  predicate HasCapital(c: char) {
    'a' <= c <= 'z' || ('\U{00E0}' <= c <= '\U{00FF}' && c != '\U{00F7}') || '\U{0430}' <= c <= '\U{045F}'
  }

  /**
    * The inverse of LowerChar on the same three blocks: a character with a capital
    * becomes that capital, and every other character is left alone.
    */
  function UpperChar(c: char): (r: char)
    ensures LowerChar(r) == LowerChar(c)
    ensures !HasCapital(r)
    ensures r != c <==> HasCapital(c)
  {
    if 'a' <= c <= 'z' || ('\U{00E0}' <= c <= '\U{00FE}' && c != '\U{00F7}') || '\U{0430}' <= c <= '\U{044F}' then
      (c as int - 32) as char
    else if '\U{0450}' <= c <= '\U{045F}' then
      (c as int - 80) as char
    else if c == '\U{00FF}' then
      '\U{0178}'
    else
      c
  }

  /** The result of UpperChar is already upper-case. */
  lemma UpperCharIdempotent(c: char)
    ensures UpperChar(UpperChar(c)) == UpperChar(c)
  {
  }

  lemma UpperCharOfWhitespace(c: char)
    requires IsWhitespace(c)
    ensures UpperChar(c) == c
  {
  }

  /** String.prototype.toLowerCase, character by character. */
  function Lower(s: string): string {
    seq(|s|, i requires 0 <= i < |s| => LowerChar(s[i]))
  }

  /** Upper-casing the first character does not change the lower-case form. */
  lemma LowerOfUpperFirst(s: string)
    requires s != []
    ensures Lower([UpperChar(s[0])] + s[1..]) == Lower(s)
  {
    var u := [UpperChar(s[0])] + s[1..];
    assert forall i | 0 <= i < |s| :: Lower(u)[i] == Lower(s)[i] by {
      forall i | 0 <= i < |s| ensures Lower(u)[i] == Lower(s)[i] {
        if i > 0 { assert u[i] == s[i]; }
      }
    }
  }

  /** String.prototype.trimStart. */
  function TrimStart(s: string): string {
    if |s| > 0 && IsWhitespace(s[0]) then TrimStart(s[1..]) else s
  }

  /** String.prototype.trimEnd. */
  function TrimEnd(s: string): string {
    if |s| > 0 && IsWhitespace(s[|s| - 1]) then TrimEnd(s[..|s| - 1]) else s
  }

  /** trimStart removes the longest all-whitespace prefix. */
  lemma {:induction false} TrimStartShape(s: string)
    ensures |TrimStart(s)| <= |s| && TrimStart(s) == s[|s| - |TrimStart(s)|..]
    ensures AllWhitespace(s[..|s| - |TrimStart(s)|])
    ensures TrimStart(s) == [] || !IsWhitespace(TrimStart(s)[0])
    decreases |s|
  {
    if |s| > 0 && IsWhitespace(s[0]) {
      var rest := s[1..];
      TrimStartShape(rest);
      var k := |s| - |TrimStart(rest)|;
      assert rest[k - 1..] == s[k..];
      assert TrimStart(s) == TrimStart(rest);
      forall i | 0 <= i < k
        ensures IsWhitespace(s[..k][i])
      {
        if i > 0 {
          assert s[..k][i] == rest[..k - 1][i - 1];
        }
      }
    }
  }

  /** trimEnd removes the longest all-whitespace suffix. */
  lemma {:induction false} TrimEndShape(s: string)
    ensures |TrimEnd(s)| <= |s| && TrimEnd(s) == s[..|TrimEnd(s)|]
    ensures AllWhitespace(s[|TrimEnd(s)|..])
    ensures TrimEnd(s) == [] || !IsWhitespace(TrimEnd(s)[|TrimEnd(s)| - 1])
    decreases |s|
  {
    if |s| > 0 && IsWhitespace(s[|s| - 1]) {
      var init := s[..|s| - 1];
      TrimEndShape(init);
      var k := |TrimEnd(init)|;
      assert init[..k] == s[..k];
      assert TrimEnd(s) == TrimEnd(init);
      forall i | 0 <= i < |s| - k
        ensures IsWhitespace(s[k..][i])
      {
        if i < |init| - k {
          assert s[k..][i] == init[k..][i];
        }
      }
    }
  }

  /** String.prototype.trim. */
  function Trim(s: string): string {
    TrimEnd(TrimStart(s))
  }

  /** The trimmed value is the longest run of s with no whitespace at either end. */
  lemma TrimShape(s: string)
    ensures IsTrimmed(Trim(s))
    ensures OccursAt(Trim(s), s, |s| - |TrimStart(s)|)
    ensures AllWhitespace(s[..|s| - |TrimStart(s)|])
    ensures AllWhitespace(s[|s| - |TrimStart(s)| + |Trim(s)|..])
  {
    TrimStartShape(s);
    TrimIsTrimmed(s);
    TrimSurroundings(s);
  }

  lemma TrimIsTrimmed(s: string)
    ensures IsTrimmed(Trim(s))
  {
    var t := TrimStart(s);
    var r := TrimEnd(t);
    TrimStartShape(s);
    TrimEndShape(t);
    if r != [] {
      assert r[0] == t[0];
    }
  }

  lemma TrimSurroundings(s: string)
    ensures OccursAt(Trim(s), s, |s| - |TrimStart(s)|)
    ensures AllWhitespace(s[|s| - |TrimStart(s)| + |Trim(s)|..])
  {
    TrimOccurs(s);
    TrimTrailing(s);
  }

  lemma TrimOccurs(s: string)
    ensures OccursAt(Trim(s), s, |s| - |TrimStart(s)|)
  {
    var t := TrimStart(s);
    TrimStartShape(s);
    TrimEndShape(t);
    SliceOfSuffix(s, |s| - |t|, |TrimEnd(t)|);
  }

  lemma TrimTrailing(s: string)
    ensures |Trim(s)| <= |TrimStart(s)| <= |s|
    ensures AllWhitespace(s[|s| - |TrimStart(s)| + |Trim(s)|..])
  {
    var t := TrimStart(s);
    TrimStartShape(s);
    TrimEndShape(t);
    SliceOfSuffix(s, |s| - |t|, |TrimEnd(t)|);
  }

  lemma SliceOfSuffix<T>(s: seq<T>, a: nat, n: nat)
    requires a + n <= |s|
    ensures s[a..][..n] == s[a..a + n]
    ensures s[a..][n..] == s[a + n..]
  {
  }

  /** parts.map(s => s.trim()). */
  function TrimAll(parts: seq<string>): (r: seq<string>)
    ensures |r| == |parts|
  {
    seq(|parts|, i requires 0 <= i < |parts| => Trim(parts[i]))
  }

  /** String.prototype.split(sep) for a one-character separator. */
  function Split(s: string, sep: char): (parts: seq<string>)
    ensures |parts| > 0
    ensures forall i | 0 <= i < |parts| :: sep !in parts[i]
    decreases |s|
  {
    if |s| == 0 then
      [""]
    else
      var rest := Split(s[1..], sep);
      if s[0] == sep then
        [""] + rest
      else
        [[s[0]] + rest[0]] + rest[1..]
  }

  /** Joining the parts of a split with the same separator gives back the string. */
  lemma {:induction false} JoinOfSplit(s: string, sep: char)
    ensures Join(Split(s, sep), sep) == s
    decreases |s|
  {
    if |s| > 0 {
      var rest := Split(s[1..], sep);
      JoinOfSplit(s[1..], sep);
      if s[0] == sep {
        JoinCons("", rest, sep);
      } else {
        JoinExtendFirst(s[0], rest, sep);
      }
    }
  }

  lemma JoinCons(p: string, rest: seq<string>, sep: char)
    requires |rest| > 0
    ensures Join([p] + rest, sep) == p + [sep] + Join(rest, sep)
  {
    assert ([p] + rest)[1..] == rest;
  }

  lemma JoinExtendFirst(c: char, rest: seq<string>, sep: char)
    requires |rest| > 0
    ensures Join([[c] + rest[0]] + rest[1..], sep) == [c] + Join(rest, sep)
  {
    if |rest| > 1 {
      JoinCons([c] + rest[0], rest[1..], sep);
      JoinCons(rest[0], rest[1..], sep);
      assert [rest[0]] + rest[1..] == rest;
    }
  }

  /** Array.prototype.join(sep): the parts with one separator between neighbours. */
  function Join(parts: seq<string>, sep: char): string {
    if |parts| == 0 then ""
    else if |parts| == 1 then parts[0]
    else parts[0] + [sep] + Join(parts[1..], sep)
  }

  /** A non-empty run of decimal digits with no leading zero. */
  predicate IsDecimal(s: string) {
    |s| > 0 && (forall i | 0 <= i < |s| :: '0' <= s[i] <= '9') && (s[0] == '0' ==> |s| == 1)
  }

  /** Number.prototype.toString for a non-negative integer: its decimal digits. */
  function NatToString(n: nat): (r: string)
    ensures IsDecimal(r)
    ensures r[0] == '0' ==> n == 0
  {
    if n < 10 then [DigitChar(n)] else NatToString(n / 10) + [DigitChar(n % 10)]
  }

  function DigitChar(d: nat): (c: char)
    requires d < 10
    ensures '0' <= c <= '9'
  {
    ('0' as int + d) as char
  }

  /** The value of a string of decimal digits, read most significant first. */
  function DecimalValue(s: string): nat
    requires forall i | 0 <= i < |s| :: '0' <= s[i] <= '9'
  {
    if |s| == 0 then 0 else DecimalValue(s[..|s| - 1]) * 10 + (s[|s| - 1] as int - '0' as int)
  }

  // ---------------------------------------------------------------------------
  // Facts about these operations

  /** Reading back the digits NatToString writes gives the number. */
  lemma {:induction false} DecimalValueOfNatToString(n: nat)
    ensures DecimalValue(NatToString(n)) == n
  {
    if n >= 10 {
      DecimalValueOfNatToString(n / 10);
      var r := NatToString(n);
      assert r[..|r| - 1] == NatToString(n / 10);
    }
  }

  lemma {:induction false} TrimStartOfPadded(p: string, x: string)
    requires AllWhitespace(p)
    ensures TrimStart(p + x) == TrimStart(x)
    decreases |p|
  {
    if |p| > 0 {
      assert (p + x)[0] == p[0];
      assert (p + x)[1..] == p[1..] + x;
      assert TrimStart(p + x) == TrimStart(p[1..] + x);
      TrimStartOfPadded(p[1..], x);
    } else {
      assert p + x == x;
    }
  }

  lemma {:induction false} TrimEndOfPadded(x: string, q: string)
    requires AllWhitespace(q)
    ensures TrimEnd(x + q) == TrimEnd(x)
    decreases |q|
  {
    if |q| > 0 {
      assert (x + q)[|x + q| - 1] == q[|q| - 1];
      assert (x + q)[..|x + q| - 1] == x + q[..|q| - 1];
      assert TrimEnd(x + q) == TrimEnd(x + q[..|q| - 1]);
      TrimEndOfPadded(x, q[..|q| - 1]);
    } else {
      assert x + q == x;
    }
  }

  lemma {:induction false} TrimStartOfAppend(x: string, q: string)
    requires TrimStart(x) != []
    ensures TrimStart(x + q) == TrimStart(x) + q
    decreases |x|
  {
    if IsWhitespace(x[0]) {
      assert (x + q)[1..] == x[1..] + q;
      TrimStartOfAppend(x[1..], q);
    }
  }

  lemma {:induction false} AllWhitespaceTrimStart(s: string)
    requires AllWhitespace(s)
    ensures TrimStart(s) == []
    decreases |s|
  {
    if |s| > 0 {
      AllWhitespaceTrimStart(s[1..]);
    }
  }

  /** Whitespace padding on either side never reaches the result of trim. */
  lemma TrimOfPadded(p: string, x: string, q: string)
    requires AllWhitespace(p) && AllWhitespace(q)
    ensures Trim(p + x + q) == Trim(x)
  {
    assert p + x + q == p + (x + q);
    TrimStartOfPadded(p, x + q);
    if TrimStart(x) == [] {
      assert AllWhitespace(x) by {
        TrimStartShape(x);
        assert x[..|x| - |TrimStart(x)|] == x;
      }
      assert AllWhitespace(x + q);
      AllWhitespaceTrimStart(x + q);
    } else {
      TrimStartOfAppend(x, q);
      TrimEndOfPadded(TrimStart(x), q);
    }
  }

  lemma TrimOfTrimmed(s: string)
    requires IsTrimmed(s)
    ensures Trim(s) == s
  {
  }

  lemma LowerOfAppend(a: string, b: string)
    ensures Lower(a + b) == Lower(a) + Lower(b)
  {
  }

  lemma {:induction false} TrimStartOfLower(s: string)
    ensures TrimStart(Lower(s)) == Lower(TrimStart(s))
    decreases |s|
  {
    if |s| > 0 {
      assert Lower(s)[1..] == Lower(s[1..]);
      TrimStartOfLower(s[1..]);
    }
  }

  lemma {:induction false} TrimEndOfLower(s: string)
    ensures TrimEnd(Lower(s)) == Lower(TrimEnd(s))
    decreases |s|
  {
    if |s| > 0 {
      assert Lower(s)[..|s| - 1] == Lower(s[..|s| - 1]);
      TrimEndOfLower(s[..|s| - 1]);
    }
  }

  /** Lower-casing never changes which characters trim removes. */
  lemma TrimOfLower(s: string)
    ensures Trim(Lower(s)) == Lower(Trim(s))
  {
    TrimStartOfLower(s);
    TrimEndOfLower(TrimStart(s));
  }

  lemma AllWhitespaceLower(s: string)
    requires AllWhitespace(s)
    ensures AllWhitespace(Lower(s))
  {
  }

  /** Occurrence is transitive: a run inside a run of s is a run of s. */
  lemma OccursWithin(t: string, u: string, s: string, i: int, j: int)
    requires OccursAt(t, u, i) && OccursAt(u, s, j)
    ensures OccursAt(t, s, i + j)
  {
    forall k | 0 <= k < |t|
      ensures s[i + j..i + j + |t|][k] == t[k]
    {
      assert s[i + j + k] == s[j..j + |u|][i + k];
    }
  }

  /** A character missing from s is missing from every run of s. */
  lemma NotInOccurrence(t: string, s: string, i: int, c: char)
    requires OccursAt(t, s, i) && c !in s
    ensures c !in t
  {
  }

  /** Every part produced by Split occurs in the joined string. */
  lemma {:induction false} PartOccursInJoin(parts: seq<string>, sep: char, k: int)
    requires 0 <= k < |parts|
    ensures IsSubstring(parts[k], Join(parts, sep))
    decreases |parts|
  {
    if |parts| == 1 {
      assert OccursAt(parts[0], Join(parts, sep), 0);
    } else if k == 0 {
      assert OccursAt(parts[0], Join(parts, sep), 0);
    } else {
      PartOccursInJoin(parts[1..], sep, k - 1);
      var i :| OccursAt(parts[k], Join(parts[1..], sep), i);
      var rest := Join(parts[1..], sep);
      var whole := parts[0] + [sep] + rest;
      assert OccursAt(rest, whole, |parts[0]| + 1) by {
        assert whole[|parts[0]| + 1..] == rest;
      }
      OccursWithin(parts[k], rest, whole, i, |parts[0]| + 1);
    }
  }

  /** Split is the inverse of Join on parts that do not contain the separator. */
  lemma {:induction false} SplitOfJoin(parts: seq<string>, sep: char)
    requires |parts| > 0
    requires forall i | 0 <= i < |parts| :: sep !in parts[i]
    ensures Split(Join(parts, sep), sep) == parts
    decreases |parts|, |parts[0]|
  {
    if |parts[0]| > 0 {
      var c := parts[0][0];
      var tail := [parts[0][1..]] + parts[1..];
      assert Join(parts, sep) == [c] + Join(tail, sep) by {
        if |parts| > 1 {
          assert tail[1..] == parts[1..];
        }
      }
      SplitOfJoin(tail, sep);
      assert ([c] + Join(tail, sep))[1..] == Join(tail, sep);
      assert [c] + tail[0] == parts[0];
      assert tail[1..] == parts[1..];
      assert parts == [[c] + tail[0]] + tail[1..];
    } else if |parts| > 1 {
      assert Join(parts, sep) == [sep] + Join(parts[1..], sep);
      SplitOfJoin(parts[1..], sep);
      assert ([sep] + Join(parts[1..], sep))[1..] == Join(parts[1..], sep);
      assert parts == [""] + parts[1..];
    }
  }
}
