/** The JavaScript string operations the screens rely on: `trim`,
    `toLowerCase`, `includes`, and the decimal `toString` of a clock reading.
    Trimming uses a fixed set of white-space code points and lower-casing
    covers ASCII letters only. */
module TextOps {

  // ---------------------------------------------------------------------
  // trim
  // ---------------------------------------------------------------------

  /** White space stripped by `String.prototype.trim`: TAB, LF, VT, FF, CR,
      SPACE, NO-BREAK SPACE, LINE SEPARATOR, PARAGRAPH SEPARATOR and the
      BYTE ORDER MARK. */
  predicate IsSpace(c: char) {
    var n := c as int;
    (9 <= n <= 13) || n == 32 || n == 0xA0 || n == 0x2028 || n == 0x2029 || n == 0xFEFF
  }

  predicate AllSpace(s: string) {
    forall i :: 0 <= i < |s| ==> IsSpace(s[i])
  }

  /** A concatenation is all space exactly when both parts are. */
  lemma AllSpaceAppend(a: string, b: string)
    ensures AllSpace(a + b) <==> AllSpace(a) && AllSpace(b)
  {
    if AllSpace(a) && AllSpace(b) {
      forall i | 0 <= i < |a + b| ensures IsSpace((a + b)[i]) {
        if i < |a| {
          assert (a + b)[i] == a[i];
        } else {
          assert (a + b)[i] == b[i - |a|];
        }
      }
    }
    if AllSpace(a + b) {
      forall i | 0 <= i < |a| ensures IsSpace(a[i]) {
        assert (a + b)[i] == a[i];
      }
      forall i | 0 <= i < |b| ensures IsSpace(b[i]) {
        assert (a + b)[|a| + i] == b[i];
      }
    }
  }

  /** Drops the longest all-space prefix: the result is a suffix of `s`
      that does not start with a space, and everything dropped is space. */
  function TrimStart(s: string): (r: string)
    ensures |r| <= |s| && r == s[|s| - |r|..]
    ensures r != [] ==> !IsSpace(r[0])
    ensures AllSpace(s[..|s| - |r|])
  {
    if |s| > 0 && IsSpace(s[0]) then
      var rest := TrimStart(s[1..]);
      assert s[..|s| - |rest|] == [s[0]] + s[1..][..|s| - 1 - |rest|];
      AllSpaceAppend([s[0]], s[1..][..|s| - 1 - |rest|]);
      rest
    else s
  }

  /** Drops the longest all-space suffix: the result is a prefix of `s`
      that does not end with a space, and everything dropped is space. */
  function TrimEnd(s: string): (r: string)
    ensures |r| <= |s| && r == s[..|r|]
    ensures r != [] ==> !IsSpace(r[|r| - 1])
    ensures AllSpace(s[|r|..])
  {
    if |s| > 0 && IsSpace(s[|s| - 1]) then
      var rest := TrimEnd(s[..|s| - 1]);
      assert s[|rest|..] == s[..|s| - 1][|rest|..] + [s[|s| - 1]];
      AllSpaceAppend(s[..|s| - 1][|rest|..], [s[|s| - 1]]);
      rest
    else s
  }

  function Trim(s: string): string {
    TrimEnd(TrimStart(s))
  }

  /** `s.trim()` is a contiguous slice of `s`, and only space was cut away
      on either side. */
  lemma TrimIsSlice(s: string)
    ensures exists i, j :: 0 <= i <= j <= |s| && Trim(s) == s[i..j]
                           && AllSpace(s[..i]) && AllSpace(s[j..])
  {
    var a := TrimStart(s);
    var t := TrimEnd(a);
    var i := |s| - |a|;
    var j := i + |t|;
    assert a[|t|..] == s[j..];
    assert t == s[i..j];
  }

  /** Non-empty trimmed text has space at neither end. */
  lemma TrimEdges(s: string)
    ensures Trim(s) != [] ==> !IsSpace(Trim(s)[0]) && !IsSpace(Trim(s)[|Trim(s)| - 1])
  {
    var a := TrimStart(s);
    var t := TrimEnd(a);
    if t != [] {
      assert t[0] == a[0];
    }
  }

  /** `!s.trim()` holds exactly when every character of `s` is space. */
  lemma {:induction false} TrimEmptyIff(s: string)
    ensures Trim(s) == [] <==> AllSpace(s)
  {
    var a := TrimStart(s);
    if a == [] {
      assert s[..|s|] == s;
    } else {
      assert !IsSpace(s[|s| - |a|]);
    }
  }

  /** Trimming an already trimmed string changes nothing. */
  lemma TrimIdempotent(s: string)
    ensures Trim(Trim(s)) == Trim(s)
  {
    var t := Trim(s);
    if t != [] {
      TrimEdges(s);
      assert TrimStart(t) == t;
      assert TrimEnd(t) == t;
    }
  }

  // ---------------------------------------------------------------------
  // toLowerCase
  // ---------------------------------------------------------------------

  predicate IsUpper(c: char) {
    'A' <= c <= 'Z'
  }

  /** ASCII lower-casing of one character; every other character is kept. */
  function LowerChar(c: char): (r: char)
    ensures IsUpper(c) ==> r as int == c as int + 32
    ensures !IsUpper(c) ==> r == c
    ensures !IsUpper(r)
  {
    if IsUpper(c) then (c as int + 32) as char else c
  }

  function ToLower(s: string): (r: string)
  {
    seq(|s|, i requires 0 <= i < |s| => LowerChar(s[i]))
  }

  /** `toLowerCase` over ASCII: the length is kept, each upper-case letter
      moves to its lower-case partner and every other character is kept, in
      place, so no upper-case letter is left. */
  lemma ToLowerMapsEachChar(s: string)
    ensures |ToLower(s)| == |s|
    ensures forall i :: 0 <= i < |s| ==>
      (IsUpper(s[i]) ==> ToLower(s)[i] as int == s[i] as int + 32) && (!IsUpper(s[i]) ==> ToLower(s)[i] == s[i])
    ensures forall i :: 0 <= i < |s| ==> !IsUpper(ToLower(s)[i])
  {
  }

  /** Lower-casing twice is lower-casing once. */
  lemma ToLowerIdempotent(s: string)
    ensures ToLower(ToLower(s)) == ToLower(s)
  {
  }

  // ---------------------------------------------------------------------
  // includes
  // ---------------------------------------------------------------------

  /** `k` occurs in `s` starting at index `i`. */
  predicate OccursAt(s: string, k: string, i: nat) {
    i + |k| <= |s| && s[i..i + |k|] == k
  }

  /** `s.includes(k)`: scans the start positions of `s` from left to right. */
  function Includes(s: string, k: string): bool
    decreases |s|
  {
    if |s| < |k| then false
    else s[..|k|] == k || Includes(s[1..], k)
  }

  /** `Includes` answers true exactly when `k` occurs somewhere in `s`. */
  lemma {:induction false} IncludesIffOccurs(s: string, k: string)
    ensures Includes(s, k) <==> exists i: nat :: OccursAt(s, k, i)
    decreases |s|
  {
    if |s| < |k| {
      forall i: nat ensures !OccursAt(s, k, i) {}
    } else if s[..|k|] == k {
      assert OccursAt(s, k, 0);
    } else {
      IncludesIffOccurs(s[1..], k);
      forall i: nat | OccursAt(s, k, i) ensures i >= 1 && OccursAt(s[1..], k, i - 1) {
        assert s[1..][i - 1..i - 1 + |k|] == s[i..i + |k|];
      }
      forall j: nat | OccursAt(s[1..], k, j) ensures OccursAt(s, k, j + 1) {
        assert s[1..][j..j + |k|] == s[j + 1..j + 1 + |k|];
      }
    }
  }

  /** A string that holds `x + k + y` holds `k`; in particular a test for a
      longer keyword is subsumed by a test for its prefix. */
  lemma IncludesPart(s: string, x: string, k: string, y: string)
    ensures Includes(s, x + k + y) ==> Includes(s, k)
  {
    if Includes(s, x + k + y) {
      var w := x + k + y;
      IncludesIffOccurs(s, w);
      var i: nat :| OccursAt(s, w, i);
      forall t | 0 <= t < |k| ensures s[i + |x| + t] == k[t] {
        assert s[i..i + |w|][|x| + t] == w[|x| + t] == k[t];
      }
      assert s[i + |x|..i + |x| + |k|] == k;
      assert OccursAt(s, k, i + |x|);
      IncludesIffOccurs(s, k);
    }
  }

  /** `k` occurs in any string built around it. */
  lemma IncludesWithin(a: string, k: string, b: string)
    ensures Includes(a + k + b, k)
  {
    var s := a + k + b;
    assert s[|a|..|a| + |k|] == k;
    assert OccursAt(s, k, |a|);
    IncludesIffOccurs(s, k);
  }

  /** No character of `s` is `c`. */
  predicate Lacks(s: string, c: char) {
    forall i :: 0 <= i < |s| ==> s[i] != c
  }

  /** A keyword holding a character that `s` lacks does not occur in `s`. */
  lemma ExcludesChar(s: string, k: string, c: char)
    requires c in k && Lacks(s, c)
    ensures !Includes(s, k)
  {
    IncludesIffOccurs(s, k);
    var j :| 0 <= j < |k| && k[j] == c;
    forall i: nat ensures !OccursAt(s, k, i) {
      if i + |k| <= |s| {
        assert s[i..i + |k|][j] == s[i + j];
      }
    }
  }

  /** A two-character keyword that never appears as adjacent characters of
      `s` does not occur in `s`. */
  lemma ExcludesPair(s: string, a: char, b: char)
    requires forall i :: 0 <= i < |s| - 1 ==> !(s[i] == a && s[i + 1] == b)
    ensures !Includes(s, [a, b])
  {
    IncludesIffOccurs(s, [a, b]);
    forall i: nat ensures !OccursAt(s, [a, b], i) {
      if i + 2 <= |s| {
        assert s[i..i + 2][0] == s[i] && s[i..i + 2][1] == s[i + 1];
      }
    }
  }

  /** A three-character keyword that never appears as consecutive
      characters of `s` does not occur in `s`. */
  lemma ExcludesTriple(s: string, a: char, b: char, c: char)
    requires forall i :: 0 <= i < |s| - 2 ==> !(s[i] == a && s[i + 1] == b && s[i + 2] == c)
    ensures !Includes(s, [a, b, c])
  {
    IncludesIffOccurs(s, [a, b, c]);
    forall i: nat ensures !OccursAt(s, [a, b, c], i) {
      if i + 3 <= |s| {
        assert s[i..i + 3][0] == s[i] && s[i..i + 3][1] == s[i + 1] && s[i..i + 3][2] == s[i + 2];
      }
    }
  }

  // ---------------------------------------------------------------------
  // Number.prototype.toString for the clock readings used as ids
  // ---------------------------------------------------------------------

  function DigitChar(d: nat): char
    requires d < 10
  {
    "0123456789"[d]
  }

  /** Decimal rendering of a non-negative integer, without leading zeros. */
  function NatToString(n: nat): (r: string)
    ensures |r| >= 1
    ensures n >= 10 ==> |r| >= 2
    decreases n
  {
    if n < 10 then [DigitChar(n)] else NatToString(n / 10) + [DigitChar(n % 10)]
  }

  /** Different digits are written differently. */
  lemma DigitCharInjective(d: nat, e: nat)
    requires d < 10 && e < 10
    ensures DigitChar(d) == DigitChar(e) ==> d == e
  {
  }

  /** The last character is the units digit, and for two or more digits
      what precedes it is the rendering of the rest. */
  lemma NatToStringLast(n: nat)
    ensures NatToString(n)[|NatToString(n)| - 1] == DigitChar(n % 10)
    ensures n >= 10 ==> NatToString(n)[..|NatToString(n)| - 1] == NatToString(n / 10)
  {
  }

  /** Distinct clock readings give distinct ids. */
  lemma {:induction false} NatToStringInjective(a: nat, b: nat)
    ensures NatToString(a) == NatToString(b) ==> a == b
    decreases a
  {
    var sa, sb := NatToString(a), NatToString(b);
    if sa == sb {
      NatToStringLast(a);
      NatToStringLast(b);
      DigitCharInjective(a % 10, b % 10);
      if a >= 10 && b >= 10 {
        NatToStringInjective(a / 10, b / 10);
      }
    }
  }
}
