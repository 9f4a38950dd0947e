/** The order in which slice images are packaged: by the length of the lower-cased
    file name first, then alphabetically. */
module SliceImage {

  function Lower(c: char): char {
    if 'A' <= c <= 'Z' then c - 'A' + 'a' else c
  }

  function ToLower(s: string): (r: string)
    ensures |r| == |s|
  {
    seq(|s|, i requires 0 <= i < |s| => Lower(s[i]))
  }

  /** The library's comparison of strings, character by character. */
  predicate Alphabetical(a: string, b: string) {
    if a == [] || b == [] then a == [] && b != []
    else if a[0] != b[0] then a[0] < b[0]
    else Alphabetical(a[1..], b[1..])
  }

  /** Does the image with file name a come before the one with file name b? */
  predicate Before(a: string, b: string) {
    var aName, bName := ToLower(a), ToLower(b);
    if |aName| == |bName| then Alphabetical(aName, bName) else |aName| < |bName|
  }

  /** The strings agree before k, where a has the smaller character. */
  predicate SmallerAt(a: string, b: string, k: int) {
    0 <= k < |a| && k < |b| && a[k] < b[k] && forall i | 0 <= i < k :: a[i] == b[i]
  }

  /** The comparison is that of a dictionary: a string that the other one continues comes first, else the one with the
      smaller character where they first differ. */
  lemma {:induction false} AlphabeticalIff(a: string, b: string)
    ensures Alphabetical(a, b) <==> a < b || exists k :: SmallerAt(a, b, k)
  {
    if a != [] && b != [] {
      if a[0] != b[0] {
        assert a[0] < b[0] ==> SmallerAt(a, b, 0);
      } else {
        var r, s := a[1..], b[1..];
        AlphabeticalIff(r, s);
        assert a == [a[0]] + r && b == [a[0]] + s;
        if k :| SmallerAt(r, s, k) {
          assert SmallerAt(a, b, k + 1);
        }
        if k :| SmallerAt(a, b, k) {
          assert SmallerAt(r, s, k - 1);
        }
      }
    }
  }

  /** Lower-casing maps two characters to one exactly if they are the same or the two cases of a letter, and leaves no
      capital. */
  lemma LowerIs(c: char, d: char)
    ensures !('A' <= Lower(c) <= 'Z')
    ensures Lower(c) == Lower(d) <==> || c == d
                                      || ('A' <= c <= 'Z' && d as int == c as int + 32)
                                      || ('A' <= d <= 'Z' && c as int == d as int + 32)
  {}

  // ----- a strict weak order -----

  lemma {:induction false} AlphabeticalIsTotal(a: string, b: string)
    ensures a == b <==> !Alphabetical(a, b) && !Alphabetical(b, a)
    ensures !(Alphabetical(a, b) && Alphabetical(b, a))
  {
    if a != [] && b != [] && a[0] == b[0] {
      AlphabeticalIsTotal(a[1..], b[1..]);
      assert a == [a[0]] + a[1..] && b == [b[0]] + b[1..];
    }
  }

  lemma {:induction false} AlphabeticalIsTransitive(a: string, b: string, c: string)
    requires Alphabetical(a, b) && Alphabetical(b, c)
    ensures Alphabetical(a, c)
  {
    if a != [] && a[0] == b[0] == c[0] {
      AlphabeticalIsTransitive(a[1..], b[1..], c[1..]);
    }
  }

  /** The length decides before the letters do. */
  lemma LengthFirst(a: string, b: string)
    ensures |a| < |b| ==> Before(a, b) && !Before(b, a)
    ensures |a| == |b| ==> (Before(a, b) <==> Alphabetical(ToLower(a), ToLower(b)))
  {}

  /** Neither comes before the other. */
  predicate Tied(a: string, b: string) {
    !Before(a, b) && !Before(b, a)
  }

  /** The comparison is a strict weak order, and names tie exactly when they differ in case at most. */
  lemma BeforeIsStrictWeakOrder(a: string, b: string, c: string)
    ensures !Before(a, a)
    ensures !(Before(a, b) && Before(b, a))
    ensures Before(a, b) && Before(b, c) ==> Before(a, c)
    ensures Tied(a, b) && Tied(b, c) ==> Tied(a, c)
    ensures Tied(a, b) <==> ToLower(a) == ToLower(b)
  {
    hide ToLower, Alphabetical;
    AlphabeticalIsTotal(ToLower(a), ToLower(a));
    AlphabeticalIsTotal(ToLower(a), ToLower(b));
    AlphabeticalIsTotal(ToLower(b), ToLower(c));
    AlphabeticalIsTotal(ToLower(a), ToLower(c));
    if Alphabetical(ToLower(a), ToLower(b)) && Alphabetical(ToLower(b), ToLower(c)) {
      AlphabeticalIsTransitive(ToLower(a), ToLower(b), ToLower(c));
    }
  }

  // ----- numbered file names -----

  predicate IsDigit(c: char) {
    '0' <= c <= '9'
  }

  predicate IsNumeral(d: string) {
    d != [] && forall i | 0 <= i < |d| :: IsDigit(d[i])
  }

  function Digit(c: char): int {
    c as int - '0' as int
  }

  function Power(n: nat): (p: int)
    ensures p >= 1
  {
    if n == 0 then 1 else 10 * Power(n - 1)
  }

  /** The number a numeral stands for, from its first digit on. */
  function Value(d: string): int {
    if d == [] then 0 else Digit(d[0]) * Power(|d| - 1) + Value(d[1..])
  }

  predicate NoLeadingZero(d: string) {
    |d| > 1 ==> d[0] != '0'
  }

  lemma {:induction false} ValueBounds(d: string)
    requires forall i | 0 <= i < |d| :: IsDigit(d[i])
    ensures 0 <= Value(d) < Power(|d|)
  {
    if d != [] {
      ValueBounds(d[1..]);
      TimesBounds(Digit(d[0]), Power(|d| - 1));
    }
  }

  lemma TimesBounds(k: int, p: int)
    requires 0 <= k <= 9 && p >= 1
    ensures 0 <= k * p && k * p + p <= 10 * p
    ensures 1 <= k ==> p <= k * p
  {}

  lemma TimesGap(k: int, m: int, p: int)
    requires k < m && p >= 1
    ensures k * p + p <= m * p
  {
    assert (m - k - 1) * p >= 0;
  }

  lemma {:induction false} SameLengthByValue(d: string, e: string)
    requires |d| == |e| && forall i | 0 <= i < |d| :: IsDigit(d[i]) && IsDigit(e[i])
    ensures Alphabetical(d, e) <==> Value(d) < Value(e)
  {
    if d != [] {
      ValueBounds(d[1..]);
      ValueBounds(e[1..]);
      if d[0] == e[0] {
        SameLengthByValue(d[1..], e[1..]);
      } else if d[0] < e[0] {
        TimesGap(Digit(d[0]), Digit(e[0]), Power(|d| - 1));
      } else {
        TimesGap(Digit(e[0]), Digit(d[0]), Power(|d| - 1));
      }
    }
  }

  lemma ShorterIsSmaller(d: string, e: string)
    requires IsNumeral(d) && IsNumeral(e) && |d| < |e| && NoLeadingZero(e)
    ensures Value(d) < Value(e)
  {
    ValueBounds(d);
    ValueBounds(e[1..]);
    TimesBounds(Digit(e[0]), Power(|e| - 1));
    PowerGrows(|d|, |e| - 1);
  }

  lemma {:induction false} PowerGrows(m: nat, n: nat)
    requires m <= n
    ensures Power(m) <= Power(n)
  {
    if m < n {
      PowerGrows(m, n - 1);
    }
  }

  lemma LowerOfNumbered(p: string, d: string, s: string)
    requires IsNumeral(d)
    ensures ToLower(p + d + s) == ToLower(p) + d + ToLower(s)
  {}

  lemma {:induction false} CommonPrefix(p: string, a: string, b: string)
    ensures Alphabetical(p + a, p + b) == Alphabetical(a, b)
  {
    if p == [] {
      assert p + a == a && p + b == b;
    } else {
      assert (p + a)[1..] == p[1..] + a && (p + b)[1..] == p[1..] + b;
      CommonPrefix(p[1..], a, b);
    }
  }

  lemma {:induction false} CommonSuffix(a: string, b: string, s: string)
    requires |a| == |b|
    ensures Alphabetical(a + s, b + s) == Alphabetical(a, b)
  {
    if a == [] {
      assert a + s == s && b + s == s;
      AlphabeticalIsTotal(s, s);
    } else {
      assert (a + s)[1..] == a[1..] + s && (b + s)[1..] == b[1..] + s;
      CommonSuffix(a[1..], b[1..], s);
    }
  }

  /** Numbered names that share prefix and suffix up to case are ordered by their numbers, if the numerals
      are equally long or have no leading zeros. */
  lemma NumberedNamesByValue(p: string, d: string, s: string, p': string, d': string, s': string)
    requires ToLower(p) == ToLower(p') && ToLower(s) == ToLower(s') && IsNumeral(d) && IsNumeral(d')
    requires |d| == |d'| || (NoLeadingZero(d) && NoLeadingZero(d'))
    ensures Before(p + d + s, p' + d' + s') <==> Value(d) < Value(d')
  {
    hide ToLower, Alphabetical, Value;
    LowerOfNumbered(p, d, s);
    LowerOfNumbered(p', d', s');
    var q, t := ToLower(p), ToLower(s);
    if |d| == |d'| {
      SameLengthByValue(d, d');
      CommonSuffix(d, d', t);
      CommonPrefix(q, d + t, d' + t);
      assert q + d + t == q + (d + t) && q + d' + t == q + (d' + t);
    } else if |d| < |d'| {
      ShorterIsSmaller(d, d');
    } else {
      ShorterIsSmaller(d', d);
    }
  }

  /** A numeral is ordered by value against all shorter ones exactly when it has no leading zero. */
  lemma LeadingZeroIff(p: string, e: string, s: string)
    requires IsNumeral(e)
    ensures (forall d | IsNumeral(d) && |d| < |e| :: Before(p + d + s, p + e + s) <==> Value(d) < Value(e))
            <==> NoLeadingZero(e)
  {
    hide Alphabetical, Value, ToLower;
    forall d | IsNumeral(d) && |d| < |e| ensures Before(p + d + s, p + e + s) {
      LowerOfNumbered(p, d, s);
      LowerOfNumbered(p, e, s);
    }
    if NoLeadingZero(e) {
      forall d | IsNumeral(d) && |d| < |e| ensures Value(d) < Value(e) {
        ShorterIsSmaller(d, e);
      }
    } else {
      DropZero(e);
      assert IsNumeral(e[1..]);
    }
  }

  lemma DropZero(e: string)
    requires e != [] && e[0] == '0'
    ensures Value(e[1..]) == Value(e)
  {}
}
