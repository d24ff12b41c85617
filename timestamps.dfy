/** The time-window gate of main.go:120: timestamps are compared as strings, the way Go's `>=` on strings does. */
module Timestamps {

  /** Go's `a < b` on strings: lexicographic, character by character, a proper prefix first.
      Characters compare by code point, which is the order of their UTF-8 bytes. */
  predicate Before(a: string, b: string)
  {
    if |a| == 0 then |b| > 0
    else if |b| == 0 then false
    else if a[0] != b[0] then a[0] < b[0]
    else Before(a[1..], b[1..])
  }

  /** `Modified.At >= minimumDateInIso` at main.go:120. */
  predicate AtOrAfter(at: string, threshold: string)
  {
    !Before(at, threshold)
  }

  /** A timestamp equal to the threshold is in the window: the lower bound is inclusive. */
  lemma {:induction false} ThresholdIsInclusive(t: string)
    ensures AtOrAfter(t, t)
  {
    if |t| > 0 {
      ThresholdIsInclusive(t[1..]);
    }
  }

  lemma {:induction false} BeforeTransitive(a: string, b: string, c: string)
    requires Before(a, b) && Before(b, c)
    ensures Before(a, c)
  {
    if |a| > 0 && |b| > 0 && |c| > 0 && a[0] == b[0] && b[0] == c[0] {
      BeforeTransitive(a[1..], b[1..], c[1..]);
    }
  }

  /** The string order is a strict total order: exactly one of `a < b`, `a == b`, `b < a`. */
  lemma {:induction false} BeforeTotal(a: string, b: string)
    ensures a == b || Before(a, b) || Before(b, a)
    ensures !(Before(a, b) && Before(b, a))
    ensures a == b ==> !Before(a, b)
  {
    if |a| > 0 && |b| > 0 && a[0] == b[0] {
      BeforeTotal(a[1..], b[1..]);
      assert a == [a[0]] + a[1..];
      assert b == [b[0]] + b[1..];
    }
  }

  /** Moving the threshold later never admits more: what passes a later threshold passes an earlier one. */
  lemma LaterThresholdKeepsFewer(at: string, earlier: string, later: string)
    requires AtOrAfter(later, earlier)
    requires AtOrAfter(at, later)
    ensures AtOrAfter(at, earlier)
  {
    if Before(at, earlier) {
      BeforeTotal(at, later);
      BeforeTotal(later, earlier);
      if at != later {
        BeforeTransitive(later, at, earlier);
      }
    }
  }

  /** Strings that agree up to a point compare as their remainders do. */
  lemma {:induction false} CommonPrefix(p: string, x: string, y: string)
    ensures Before(p + x, p + y) <==> Before(x, y)
  {
    if p == [] {
      assert p + x == x && p + y == y;
    } else {
      assert (p + x)[0] == p[0] && (p + y)[0] == p[0];
      assert (p + x)[1..] == p[1..] + x && (p + y)[1..] == p[1..] + y;
      CommonPrefix(p[1..], x, y);
    }
  }

  // The string order stands in for time order only when both timestamps have the same form
  // (section 5.1 of RFC 3339). The two lemmas below show what happens otherwise.

  /** A timestamp with fractional seconds, 250 ms after a whole-second threshold, falls outside the window. */
  lemma FractionalSecondsMisorder()
    ensures !AtOrAfter("2024-05-01T10:00:00.250Z", "2024-05-01T10:00:00Z")
  {
    var p := "2024-05-01T10:00:00";
    assert "2024-05-01T10:00:00.250Z" == p + ".250Z";
    assert "2024-05-01T10:00:00Z" == p + "Z";
    CommonPrefix(p, ".250Z", "Z");
  }

  /** A timestamp with a +02:00 offset (10:30 UTC) is in the window of an 11:00 UTC threshold. */
  lemma ZoneOffsetMisorder()
    ensures AtOrAfter("2024-05-01T12:30:00+02:00", "2024-05-01T11:00:00Z")
  {
    var p := "2024-05-01T1";
    assert "2024-05-01T12:30:00+02:00" == p + "2:30:00+02:00";
    assert "2024-05-01T11:00:00Z" == p + "1:00:00Z";
    CommonPrefix(p, "2:30:00+02:00", "1:00:00Z");
  }

  predicate IsDigit(c: char)
  {
    '0' <= c <= '9'
  }

  predicate AllDigits(d: string)
  {
    forall i :: 0 <= i < |d| ==> IsDigit(d[i])
  }

  /** The decimal digits of `s`, in order, with every separator dropped. */
  function DigitsOf(s: string): (d: string)
    ensures AllDigits(d)
  {
    if s == [] then [] else (if IsDigit(s[0]) then [s[0]] else []) + DigitsOf(s[1..])
  }

  function Pow10(n: nat): (p: nat)
    ensures p >= 1
  {
    if n == 0 then 1 else 10 * Pow10(n - 1)
  }

  function DigitValue(c: char): nat
    requires IsDigit(c)
  {
    c as int - '0' as int
  }

  /** The number a string of decimal digits denotes, most significant first. */
  function Value(d: string): nat
    requires AllDigits(d)
  {
    if d == [] then 0 else DigitValue(d[0]) * Pow10(|d| - 1) + Value(d[1..])
  }

  /** Two timestamps of one form: the same length, digits at the same places, and the same separators there. */
  predicate SameLayout(a: string, b: string)
  {
    && |a| == |b|
    && forall i :: 0 <= i < |a| ==> (IsDigit(a[i]) <==> IsDigit(b[i])) && (!IsDigit(a[i]) ==> a[i] == b[i])
  }

  lemma {:induction false} SameLayoutTail(a: string, b: string)
    requires SameLayout(a, b) && |a| > 0
    ensures SameLayout(a[1..], b[1..])
    ensures |DigitsOf(a)| == |DigitsOf(b)|
    decreases |a|
  {
    assert forall i :: 0 <= i < |a| - 1 ==> a[1..][i] == a[i + 1] && b[1..][i] == b[i + 1];
    if |a| > 1 {
      SameLayoutTail(a[1..], b[1..]);
    }
  }

  lemma ValueCons(c: char, t: string)
    requires IsDigit(c) && AllDigits(t)
    ensures AllDigits([c] + t)
    ensures Value([c] + t) == DigitValue(c) * Pow10(|t|) + Value(t)
  {
    assert ([c] + t)[0] == c && ([c] + t)[1..] == t;
  }

  /** A larger leading digit outweighs any tail of the same width. */
  lemma {:induction false} LeadOutweighsTail(dx: int, dy: int, p: int, vx: int, vy: int)
    requires 0 <= dx < dy && 0 <= vx < p && 0 <= vy
    ensures dx * p + vx < dy * p + vy
  {
    if dy == dx + 1 {
      assert dy * p == dx * p + p;
    } else {
      LeadOutweighsTail(dx, dy - 1, p, vx, vy);
      assert dy * p == (dy - 1) * p + p;
    }
  }

  /** A string of n digits denotes a number below 10^n. */
  lemma {:induction false} ValueBound(d: string)
    requires AllDigits(d)
    ensures Value(d) < Pow10(|d|)
  {
    if d != [] {
      ValueBound(d[1..]);
      LeadOutweighsTail(DigitValue(d[0]), 10, Pow10(|d| - 1), Value(d[1..]), 0);
    }
  }

  lemma LeadingDigitDecides(x: char, tx: string, y: char, ty: string)
    requires IsDigit(x) && IsDigit(y) && x != y
    requires AllDigits(tx) && AllDigits(ty) && |tx| == |ty|
    ensures AllDigits([x] + tx) && AllDigits([y] + ty)
    ensures x < y <==> Value([x] + tx) < Value([y] + ty)
  {
    ValueCons(x, tx);
    ValueCons(y, ty);
    ValueBound(tx);
    ValueBound(ty);
    var p := Pow10(|tx|);
    var dx, dy := DigitValue(x), DigitValue(y);
    if dx < dy {
      LeadOutweighsTail(dx, dy, p, Value(tx), Value(ty));
    } else {
      LeadOutweighsTail(dy, dx, p, Value(ty), Value(tx));
    }
  }

  /** The soundness condition of the window gate: for two timestamps of the same layout (say both
      `YYYY-MM-DDTHH:MM:SSZ`), the string order is the order of the numbers their digits spell. */
  lemma {:induction false} LayoutOrder(a: string, b: string)
    requires SameLayout(a, b)
    ensures Before(a, b) <==> Value(DigitsOf(a)) < Value(DigitsOf(b))
    decreases |a|
  {
    if |a| > 0 {
      SameLayoutTail(a, b);
      var ta, tb := DigitsOf(a[1..]), DigitsOf(b[1..]);
      if |a| > 1 {
        SameLayoutTail(a[1..], b[1..]);
      }
      assert |ta| == |tb|;
      if a[0] == b[0] {
        LayoutOrder(a[1..], b[1..]);
        if IsDigit(a[0]) {
          assert DigitsOf(a) == [a[0]] + ta && DigitsOf(b) == [b[0]] + tb;
          ValueCons(a[0], ta);
          ValueCons(b[0], tb);
        } else {
          assert [] + ta == ta && [] + tb == tb;
          assert DigitsOf(a) == ta && DigitsOf(b) == tb;
        }
      } else {
        assert IsDigit(a[0]) && IsDigit(b[0]);
        assert DigitsOf(a) == [a[0]] + ta && DigitsOf(b) == [b[0]] + tb;
        LeadingDigitDecides(a[0], ta, b[0], tb);
      }
    }
  }
}
