/**
 Text made of one repeated unit: tools/secret_scan.py, is_repeated_filler.
 Lower-casing is a parameter.
 */
module Filler {

  /** `unit * times` */
  function Repeat(unit: string, times: nat): string {
    if times == 0 then "" else Repeat(unit, times - 1) + unit
  }

  /** The whole of `s` is its first `p` characters, repeated at least three times. */
  predicate Accepts(s: string, p: nat) {
    1 <= p <= 8 && 3 * p <= |s| && |s| % p == 0 && Repeat(s[..p], |s| / p) == s
  }

  /** Every character equals the one `p` places before. */
  predicate Periodic(s: string, p: nat) {
    forall i :: p <= i < |s| ==> s[i] == s[i - p]
  }

  predicate Uniform(s: string) {
    s != "" && forall i :: 0 <= i < |s| ==> s[i] == s[0]
  }

  // ----- repetition is a shift that changes nothing -----

  lemma {:induction false} RepeatedAt(unit: string, times: nat, i: nat)
    requires unit != "" && i < times * |unit|
    ensures |Repeat(unit, times)| == times * |unit|
    ensures Repeat(unit, times)[i] == unit[i % |unit|]
  {
    if i < (times - 1) * |unit| {
      RepeatedAt(unit, times - 1, i);
    } else {
      RepeatLength(unit, times - 1);
      var k := i - (times - 1) * |unit|;
      assert i == (times - 1) * |unit| + k;
      Remainder(times - 1, |unit|, k);
    }
  }

  lemma {:induction false} RepeatLength(unit: string, times: nat)
    ensures |Repeat(unit, times)| == times * |unit|
  {
    if times > 0 {
      RepeatLength(unit, times - 1);
    }
  }

  lemma Remainder(q: nat, d: nat, r: nat)
    requires r < d
    ensures (q * d + r) % d == r
  {
    var n := q * d + r;
    assert n == (n / d) * d + n % d;
    var k := n / d - q;
    assert k * d == r - n % d;
    assert k >= 1 ==> k * d >= d;
    assert k <= -1 ==> k * d <= (-1) * d;
  }

  lemma OneShift(i: nat, p: nat)
    requires 1 <= p <= i
    ensures i % p == (i - p) % p
  {
    var j := i - p;
    Remainder(j / p + 1, p, j % p);
    assert i == (j / p + 1) * p + j % p;
  }

  lemma {:induction false} PeriodicAt(s: string, p: nat, i: nat)
    requires 1 <= p && Periodic(s, p) && i < |s|
    ensures i % p < |s| && s[i] == s[i % p]
  {
    if i >= p {
      PeriodicAt(s, p, i - p);
      OneShift(i, p);
    } else {
      Remainder(0, p, i);
    }
  }

  lemma RepeatOfPrefix(s: string, p: nat)
    requires 1 <= p <= |s| && |s| % p == 0
    ensures var r := Repeat(s[..p], |s| / p);
            |r| == |s| && forall i :: 0 <= i < |s| ==> i % p < p && r[i] == s[i % p]
  {
    assert |s| == (|s| / p) * p;
    RepeatLength(s[..p], |s| / p);
    forall i | 0 <= i < |s| ensures i % p < p && Repeat(s[..p], |s| / p)[i] == s[i % p] {
      RepeatedAt(s[..p], |s| / p, i);
    }
  }

  /** A text is its first `p` characters repeated exactly when the shift by `p` leaves it as it is. */
  lemma RepeatsIsPeriodic(s: string, p: nat)
    requires 1 <= p <= |s| && |s| % p == 0
    ensures Repeat(s[..p], |s| / p) == s <==> Periodic(s, p)
  {
    var r := Repeat(s[..p], |s| / p);
    RepeatOfPrefix(s, p);
    if Periodic(s, p) {
      forall i | 0 <= i < |s| ensures r[i] == s[i] {
        PeriodicAt(s, p, i);
      }
    }
    if r == s {
      forall i | p <= i < |s| ensures s[i] == s[i - p] {
        OneShift(i, p);
        assert r[i] == s[i % p] && r[i - p] == s[(i - p) % p];
      }
    }
  }

  // ----- two accepted units -----

  /** The greatest common divisor, by subtraction. */
  function Gcd(p: nat, q: nat): (g: nat)
    requires 1 <= p && 1 <= q
    ensures 1 <= g <= p && g <= q
    decreases p + q
  {
    if p == q then p else if p < q then Gcd(p, q - p) else Gcd(p - q, q)
  }

  lemma MultipleSum(a: nat, b: nat, g: nat)
    requires 1 <= g && a % g == 0 && b % g == 0
    ensures (a + b) % g == 0
  {
    assert a == (a / g) * g && b == (b / g) * g;
    Remainder(a / g + b / g, g, 0);
    assert a + b == (a / g + b / g) * g + 0;
  }

  lemma {:induction false} GcdDivides(p: nat, q: nat)
    requires 1 <= p && 1 <= q
    ensures p % Gcd(p, q) == 0 && q % Gcd(p, q) == 0
    decreases p + q
  {
    if p == q {
      Remainder(1, p, 0);
    } else if p < q {
      GcdDivides(p, q - p);
      MultipleSum(p, q - p, Gcd(p, q));
    } else {
      GcdDivides(p - q, q);
      MultipleSum(p - q, q, Gcd(p, q));
    }
  }

  /** Fine and Wilf: two periods of a text that holds both have their gcd as a period. */
  lemma {:induction false} PeriodsMeet(s: string, p: nat, q: nat)
    requires 1 <= p && 1 <= q && p + q <= |s|
    requires Periodic(s, p) && Periodic(s, q)
    ensures Periodic(s, Gcd(p, q))
    decreases p + q
  {
    if p < q {
      PeriodDifference(s, p, q);
      PeriodsMeet(s, p, q - p);
    } else if q < p {
      PeriodDifference(s, q, p);
      PeriodsMeet(s, p - q, q);
    }
  }

  lemma PeriodDifference(s: string, p: nat, q: nat)
    requires 1 <= p < q && p + q <= |s|
    requires Periodic(s, p) && Periodic(s, q)
    ensures Periodic(s, q - p)
  {
    forall i | q - p <= i < |s| ensures s[i] == s[i - (q - p)] {
      if i + p < |s| {
        assert s[i + p] == s[i] && s[i + p] == s[i + p - q];
      } else {
        assert s[i] == s[i - q] && s[i - q + p] == s[i - q];
      }
    }
  }

  lemma Divides(n: nat, p: nat, g: nat)
    requires 1 <= g && 1 <= p && n % p == 0 && p % g == 0
    ensures n % g == 0
  {
    var a, b := n / p, p / g;
    assert n == a * p && p == b * g;
    assert n == (a * b) * g by {
      assert a * (b * g) == (a * b) * g;
    }
    Remainder(a * b, g, 0);
  }

  /** The first accepted unit length divides every accepted one. */
  lemma FirstUnitDivides(s: string, first: nat, p: nat)
    requires Accepts(s, first) && (forall k :: 1 <= k < first ==> !Accepts(s, k))
    requires Accepts(s, p)
    ensures p % first == 0
  {
    var g := Gcd(first, p);
    RepeatsIsPeriodic(s, first);
    RepeatsIsPeriodic(s, p);
    PeriodsMeet(s, first, p);
    GcdDivides(first, p);
    Divides(|s|, p, g);
    RepeatsIsPeriodic(s, g);
    assert Accepts(s, g);
  }

  /** A unit length is accepted exactly when it is a multiple of the first one that fits. */
  lemma AcceptedLengths(s: string, first: nat, p: nat)
    requires Accepts(s, first) && (forall k :: 1 <= k < first ==> !Accepts(s, k))
    ensures Accepts(s, p) <==> 1 <= p <= 8 && 3 * p <= |s| && |s| % p == 0 && p % first == 0
  {
    if Accepts(s, p) {
      FirstUnitDivides(s, first, p);
    } else if 1 <= p <= 8 && 3 * p <= |s| && |s| % p == 0 && p % first == 0 {
      RepeatsIsPeriodic(s, first);
      MultiplePeriod(s, first, p);
      RepeatsIsPeriodic(s, p);
    }
  }

  lemma {:induction false} MultiplePeriod(s: string, p: nat, q: nat)
    requires 1 <= p && q % p == 0 && Periodic(s, p)
    ensures Periodic(s, q)
  {
    forall i | q <= i < |s| ensures s[i] == s[i - q] {
      PeriodicAt(s, p, i);
      PeriodicAt(s, p, i - q);
      Shifts(i - q, p, q);
    }
  }

  lemma Shifts(j: nat, p: nat, q: nat)
    requires 1 <= p && q % p == 0
    ensures (j + q) % p == j % p
  {
    assert q == (q / p) * p && j == (j / p) * p + j % p;
    Remainder(q / p + j / p, p, j % p);
    assert j + q == (q / p + j / p) * p + j % p;
  }

  // ----- the search -----

  lemma OneCharacter(s: string)
    ensures |(set c | c in s)| == 1 <==> Uniform(s)
  {
    var cs := set c | c in s;
    if |cs| == 1 {
      var c :| c in cs;
      assert cs == {c} by {
        assert |cs - {c}| == 0;
      }
      assert forall i :: 0 <= i < |s| ==> s[i] in cs;
    }
    if Uniform(s) {
      assert cs == {s[0]};
    }
  }

  /**
   The answer is yes exactly for text of four or more characters that is either one
   character throughout, ignoring case, or invariant under a shift by at most eight
   that divides its length three times or more.
   */
  method IsRepeatedFiller(value: string, lower: string -> string) returns (yes: bool)
    ensures yes == (|value| >= 4
                    && (Uniform(lower(value))
                        || exists p :: 1 <= p <= 8 && 3 * p <= |value| && |value| % p == 0 && Periodic(value, p)))
  {
    if |value| < 4 {
      return false;
    }
    OneCharacter(lower(value));
    if |(set c | c in lower(value))| == 1 {
      return true;
    }
    var longest := if 8 < |value| / 3 then 8 else |value| / 3;
    for p := 1 to longest + 1
      invariant forall k :: 1 <= k < p && |value| % k == 0 ==> !Periodic(value, k)
    {
      if |value| % p == 0 {
        var unit := value[..p];
        RepeatsIsPeriodic(value, p);
        if Repeat(unit, |value| / p) == value {
          return true;
        }
      }
    }
    return false;
  }
}
