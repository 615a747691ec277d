/**
  Shared vocabulary for the booking model: optional values and error results,
  the order-preserving sequence operations the TypeScript code gets from
  `Array.prototype.filter` and `Array.prototype.findIndex`, and the decimal
  rendering JavaScript applies when an integer below 10^21 in magnitude is
  spliced into a string.
 */
module Base {

  /** An optional value, standing for a TypeScript `T | undefined`. */
  datatype Option<+T> = None | Some(value: T)

  /** The outcome of an operation that either succeeds with a value or fails
      with the message of the Error it throws. */
  datatype Result<+T> = Success(value: T) | Failure(error: string)

  /* ----------------------------------------------------------------------
     Filtering and searching sequences
     ---------------------------------------------------------------------- */

  /** The elements of `s` that satisfy `p`, kept in their original order. */
  function Filter<T>(s: seq<T>, p: T -> bool): (r: seq<T>)
    ensures |r| <= |s|
    ensures forall i | 0 <= i < |r| :: r[i] in s && p(r[i])
    ensures forall i | 0 <= i < |s| :: p(s[i]) ==> s[i] in r
  {
    if |s| == 0 then []
    else (if p(s[0]) then [s[0]] else []) + Filter(s[1..], p)
  }

  /** Filtering distributes over concatenation: what is kept from a prefix
      comes, in order, before what is kept from the suffix. */
  lemma {:induction false} FilterAppend<T>(a: seq<T>, b: seq<T>, p: T -> bool)
    ensures Filter(a + b, p) == Filter(a, p) + Filter(b, p)
  {
    if |a| == 0 {
      assert a + b == b;
    } else {
      assert (a + b)[0] == a[0];
      assert (a + b)[1..] == a[1..] + b;
      FilterAppend(a[1..], b, p);
    }
  }

  lemma FilterSingleton<T>(x: T, p: T -> bool)
    ensures Filter([x], p) == if p(x) then [x] else []
  {
    assert [x][1..] == [];
  }

  /** Two predicates that agree on every element keep the same elements. */
  lemma {:induction false} FilterCongruent<T>(s: seq<T>, p: T -> bool, q: T -> bool)
    requires forall i | 0 <= i < |s| :: p(s[i]) == q(s[i])
    ensures Filter(s, p) == Filter(s, q)
  {
    if |s| > 0 {
      FilterCongruent(s[1..], p, q);
    }
  }

  /** The index of the first element of `s` that satisfies `p`, if any. */
  function FirstIndex<T>(s: seq<T>, p: T -> bool): (r: Option<nat>)
    ensures r.None? <==> forall i | 0 <= i < |s| :: !p(s[i])
    ensures r.Some? ==> r.value < |s| && p(s[r.value])
    ensures r.Some? ==> forall j | 0 <= j < r.value :: !p(s[j])
  {
    if |s| == 0 then None
    else if p(s[0]) then Some(0)
    else match FirstIndex(s[1..], p)
      case None => None
      case Some(k) => Some(k + 1)
  }

  /** Searching depends only on which elements satisfy the predicate: two
      sequences with the same pattern of matches have the same first match. */
  lemma {:induction false} FirstIndexStable<T>(s: seq<T>, t: seq<T>, p: T -> bool)
    requires |s| == |t|
    requires forall i | 0 <= i < |s| :: p(s[i]) == p(t[i])
    ensures FirstIndex(s, p) == FirstIndex(t, p)
  {
    if |s| > 0 && !p(s[0]) {
      FirstIndexStable(s[1..], t[1..], p);
    }
  }

  /** The first element of `s` that satisfies `p` (`Array.prototype.find`). */
  function Find<T>(s: seq<T>, p: T -> bool): (r: Option<T>)
    ensures r.None? <==> forall i | 0 <= i < |s| :: !p(s[i])
    ensures r.Some? ==> exists i | 0 <= i < |s| ::
      s[i] == r.value && p(s[i]) && forall j | 0 <= j < i :: !p(s[j])
  {
    match FirstIndex(s, p)
    case None => None
    case Some(i) => Some(s[i])
  }

  /** A prefix in which nothing matches does not change what is found. */
  lemma FindSkipsPrefix<T>(a: seq<T>, b: seq<T>, p: T -> bool)
    requires forall i | 0 <= i < |a| :: !p(a[i])
    ensures Find(a + b, p) == Find(b, p)
  {
    var ab := a + b;
    var r := Find(b, p);
    if r.Some? {
      var j :| 0 <= j < |b| && b[j] == r.value && p(b[j]) && forall k | 0 <= k < j :: !p(b[k]);
      assert p(ab[|a| + j]);
      var found := Find(ab, p);
      var i :| 0 <= i < |ab| && ab[i] == found.value && p(ab[i]) && forall k | 0 <= k < i :: !p(ab[k]);
      assert forall k | 0 <= k < |a| :: ab[k] == a[k];
      assert forall k | |a| <= k < |ab| :: ab[k] == b[k - |a|];
    } else {
      forall i | 0 <= i < |ab|
        ensures !p(ab[i])
      {
        if i >= |a| {
          assert ab[i] == b[i - |a|];
        }
      }
    }
  }

  /** `s` is in non-decreasing order of `key`. */
  predicate SortedBy<T>(s: seq<T>, key: T -> int) {
    forall i, j | 0 <= i <= j < |s| :: key(s[i]) <= key(s[j])
  }

  /** Order between neighbours gives order between any two elements. */
  lemma {:induction false} SortedByFromAdjacent<T>(s: seq<T>, key: T -> int)
    requires forall i | 0 <= i < |s| - 1 :: key(s[i]) <= key(s[i + 1])
    ensures SortedBy(s, key)
  {
    if |s| > 1 {
      var init := s[..|s| - 1];
      SortedByFromAdjacent(init, key);
      forall i, j | 0 <= i <= j < |s|
        ensures key(s[i]) <= key(s[j])
      {
        if j == |s| - 1 && i < j {
          assert key(init[i]) <= key(init[|s| - 2]);
        } else if j < |s| - 1 {
          assert key(init[i]) <= key(init[j]);
        }
      }
    }
  }

  /* ----------------------------------------------------------------------
     Decimal text
     ---------------------------------------------------------------------- */

  predicate IsDigit(c: char) {
    '0' <= c <= '9'
  }

  predicate IsDigits(s: string) {
    forall i | 0 <= i < |s| :: IsDigit(s[i])
  }

  function DigitChar(d: nat): (c: char)
    requires d < 10
    ensures IsDigit(c)
  {
    ('0' as int + d) as char
  }

  function DigitValue(c: char): (d: nat)
    requires IsDigit(c)
    ensures d < 10
    ensures DigitChar(d) == c
  {
    c as int - '0' as int
  }

  /** The shortest decimal spelling of `n`. JavaScript prints a
      non-negative integer this way only below 10^21; from there on it uses
      exponent notation ("1e+21"), which this model does not follow. */
  function NatToString(n: nat): (r: string)
    ensures |r| >= 1 && IsDigits(r)
    ensures |r| > 1 ==> r[0] != '0'
    decreases n
  {
    if n < 10 then [DigitChar(n)]
    else NatToString(n / 10) + [DigitChar(n % 10)]
  }

  /** The value of a string of decimal digits; the empty string reads as 0. */
  function ParseNat(s: string): (n: nat)
    requires IsDigits(s)
  {
    if |s| == 0 then 0
    else ParseNat(s[..|s| - 1]) * 10 + DigitValue(s[|s| - 1])
  }

  /** The value of a numeral of at most four digits, place by place. */
  lemma ParseNatShort(s: string)
    requires IsDigits(s) && 1 <= |s| <= 4
    ensures ParseNat(s) ==
      if |s| == 1 then DigitValue(s[0])
      else if |s| == 2 then DigitValue(s[0]) * 10 + DigitValue(s[1])
      else if |s| == 3 then DigitValue(s[0]) * 100 + DigitValue(s[1]) * 10 + DigitValue(s[2])
      else DigitValue(s[0]) * 1000 + DigitValue(s[1]) * 100 + DigitValue(s[2]) * 10 + DigitValue(s[3])
  {
    var s1 := s[..|s| - 1];
    if |s| >= 2 {
      var s2 := s1[..|s1| - 1];
      if |s| >= 3 {
        var s3 := s2[..|s2| - 1];
        if |s| == 4 {
          assert s3[..|s3| - 1][..0] == [];
        }
      }
    }
  }

  /** Reading back the decimal spelling of a number gives the number. */
  lemma {:induction false} ParseNatToString(n: nat)
    ensures ParseNat(NatToString(n)) == n
    decreases n
  {
    var r := NatToString(n);
    if n >= 10 {
      ParseNatToString(n / 10);
      assert r[..|r| - 1] == NatToString(n / 10);
    }
  }

  /** How JavaScript prints an integer-valued number of magnitude below
      10^21: an optional minus sign followed by the decimal digits. */
  function IntToString(n: int): (r: string)
    ensures |r| >= 1
    ensures r[0] == '-' <==> n < 0
  {
    if n < 0 then "-" + NatToString(-n) else NatToString(n)
  }

  /** Different naturals print differently. */
  lemma NatToStringInjective(a: nat, b: nat)
    requires NatToString(a) == NatToString(b)
    ensures a == b
  {
    ParseNatToString(a);
    ParseNatToString(b);
  }

  /** Different integers print differently. */
  lemma IntToStringInjective(a: int, b: int)
    requires IntToString(a) == IntToString(b)
    ensures a == b
  {
    if a >= 0 && b >= 0 {
      NatToStringInjective(a, b);
    } else if a < 0 && b < 0 {
      assert IntToString(a)[1..] == NatToString(-a);
      assert IntToString(b)[1..] == NatToString(-b);
      NatToStringInjective(-a, -b);
    }
  }
}
