/** Positional numerals, most significant digit first. */
module Numerals {

  predicate InBase(base: nat, ds: seq<nat>) {
    forall i :: 0 <= i < |ds| ==> ds[i] < base
  }

  function Value(base: nat, ds: seq<nat>): nat {
    if ds == [] then 0 else Value(base, ds[..|ds| - 1]) * base + ds[|ds| - 1]
  }

  function Power10(k: nat): nat {
    if k == 0 then 1 else 10 * Power10(k - 1)
  }

  function Digits(base: nat, n: nat): (ds: seq<nat>)
    requires base >= 2
    ensures InBase(base, ds)
    ensures n == 0 <==> ds == []
    ensures n > 0 ==> ds[0] != 0
  {
    if n == 0 then [] else
      DivisionShrinks(n, base);
      Digits(base, n / base) + [n % base]
  }

  lemma DivisionShrinks(n: nat, base: nat)
    requires base >= 2 && n > 0
    ensures n / base < n
  {
    if n / base >= n {
      assert n == n / base * base + n % base;
      assert n / base * base >= n * 2 by { MulMono(n / base, n, base); }
    }
  }

  lemma MulMono(a: nat, b: nat, base: nat)
    requires a >= b && base >= 2
    ensures a * base >= b * 2
  {
    assert a * base >= a * 2 by { assert a * (base - 2) >= 0; }
  }

  lemma MultipleIsFar(k: int, base: nat)
    ensures k >= 1 ==> k * base >= base
    ensures k <= -1 ==> k * base <= -(base as int)
  {
    assert k >= 1 ==> (k - 1) * base >= 0;
    assert k <= -1 ==> (k + 1) * base <= 0;
  }

  lemma DivMod(q: nat, r: nat, base: nat)
    requires r < base
    ensures (q * base + r) / base == q && (q * base + r) % base == r
  {
    var n := q * base + r;
    assert (q - n / base) * base == n % base - r;
    MultipleIsFar(q - n / base, base);
  }

  lemma QuotientRemainder(n: nat, base: nat)
    requires base >= 2
    ensures n / base * base + n % base == n
  {
  }

  lemma ValueSnoc(base: nat, ds: seq<nat>, d: nat)
    ensures Value(base, ds + [d]) == Value(base, ds) * base + d
  {
    assert (ds + [d])[..|ds|] == ds;
  }

  lemma {:induction false} ValueOfDigits(base: nat, n: nat)
    requires base >= 2
    ensures Value(base, Digits(base, n)) == n
  {
    if n > 0 {
      DivisionShrinks(n, base);
      ValueOfDigits(base, n / base);
      var q, r := n / base, n % base;
      assert Digits(base, n) == Digits(base, q) + [r];
      ValueSnoc(base, Digits(base, q), r);
      QuotientRemainder(n, base);
    }
  }

  lemma {:induction false} DigitsOfValue(base: nat, ds: seq<nat>)
    requires base >= 2 && InBase(base, ds) && (ds != [] ==> ds[0] != 0)
    ensures Digits(base, Value(base, ds)) == ds
  {
    if ds != [] {
      var front := ds[..|ds| - 1];
      DigitsOfValue(base, front);
      DivMod(Value(base, front), ds[|ds| - 1], base);
      assert front == [] ==> ds[|ds| - 1] == ds[0];
      assert front != [] ==> Digits(base, Value(base, front)) != [];
      assert Value(base, front) > 0 ==> Value(base, front) * base > 0;
      assert ds == front + [ds[|ds| - 1]];
    }
  }

  function Zeros(k: nat): (r: seq<nat>)
    ensures |r| == k && forall i :: 0 <= i < k ==> r[i] == 0
  {
    seq(k, _ => 0)
  }

  function LeadingZeros(ds: seq<nat>): (k: nat)
    ensures k <= |ds| && ds[..k] == Zeros(k)
    ensures k < |ds| ==> ds[k] != 0
  {
    if ds == [] || ds[0] != 0 then 0 else
      var k := 1 + LeadingZeros(ds[1..]);
      assert ds[..k] == [0] + ds[1..][..k - 1];
      k
  }

  lemma {:induction false} LeadingZerosOfPadded(k: nat, ds: seq<nat>)
    requires ds != [] ==> ds[0] != 0
    ensures LeadingZeros(Zeros(k) + ds) == k
  {
    if k > 0 {
      LeadingZerosOfPadded(k - 1, ds);
      assert (Zeros(k) + ds)[1..] == Zeros(k - 1) + ds;
    } else {
      assert Zeros(0) + ds == ds;
    }
  }

  lemma {:induction false} ValueOfPadded(base: nat, k: nat, ds: seq<nat>)
    ensures Value(base, Zeros(k) + ds) == Value(base, ds)
  {
    var padded := Zeros(k) + ds;
    if ds != [] {
      ValueOfPadded(base, k, ds[..|ds| - 1]);
      assert padded[..|padded| - 1] == Zeros(k) + ds[..|ds| - 1];
    } else if k > 0 {
      ValueOfPadded(base, k - 1, ds);
      assert padded[..|padded| - 1] == Zeros(k - 1) + ds;
    }
  }

  /** Rewrite a number in another base, keeping one leading zero digit for each leading zero. */
  function Convert(from: nat, to: nat, ds: seq<nat>): seq<nat>
    requires to >= 2
  {
    Zeros(LeadingZeros(ds)) + Digits(to, Value(from, ds))
  }

  /** There and back is the identity in any two bases. */
  lemma ConvertBack(a: nat, b: nat, ds: seq<nat>)
    requires a >= 2 && b >= 2 && InBase(a, ds)
    ensures Convert(b, a, Convert(a, b, ds)) == ds
  {
    var k := LeadingZeros(ds);
    var rest := ds[k..];
    var n := Value(a, rest);
    assert ds == Zeros(k) + rest;
    ValueOfPadded(a, k, rest);
    LeadingZerosOfPadded(k, Digits(b, n));
    ValueOfPadded(b, k, Digits(b, n));
    ValueOfDigits(b, n);
    DigitsOfValue(a, rest);
  }
}
