/** Judging a request by its Content-Length header, before reading it. */
module SendRefusal {
  import opened Tables
  import opened Numerals
  import Trimming

  const MAX_REQUEST_BYTES: nat := 524288
  /** 2**63 - 1 */
  const MAX_REPORTED_LENGTH: nat := 0x7FFF_FFFF_FFFF_FFFF
  /** len(str(MAX_REPORTED_LENGTH)) */
  const REPORTED_DIGITS: nat := 19

  // ─── one value ────────────────────────────────────────────────

  predicate IsBlank(c: char) {
    c == ' ' || c == '\t'
  }

  predicate AllDigits(s: string) {
    forall i :: 0 <= i < |s| ==> '0' <= s[i] <= '9'
  }

  /** value.strip(" \t") */
  function Strip(s: string): string {
    Trimming.Strip(IsBlank, s)
  }

  function StripZeros(s: string): (t: string)
    ensures |t| <= |s| && (t != "" ==> t[0] != '0')
    ensures AllDigits(s) ==> AllDigits(t)
  {
    if s != "" && s[0] == '0' then StripZeros(s[1..]) else s
  }

  function Nums(s: string): (ds: seq<nat>)
    requires AllDigits(s)
    ensures |ds| == |s| && forall i :: 0 <= i < |s| ==> ds[i] == (s[i] - '0') as nat
  {
    seq(|s|, i requires 0 <= i < |s| => (s[i] - '0') as nat)
  }

  /** The number that a string of decimal digits writes; the empty string writes 0. */
  function Number(s: string): nat
    requires AllDigits(s)
  {
    Value(10, Nums(s))
  }

  /** int(), which the code never asks for more digits than a reported length can have; the
      interpreter itself raises past 4,300. */
  function Int(s: string): nat
    requires AllDigits(s) && 0 < |s| <= REPORTED_DIGITS
  {
    Number(s)
  }

  datatype Parsed = Parsed(valid: bool, size: Option<nat>, digits: string)

  /** _one_length; a missing value is None. */
  function OneLength(value: Option<string>): Parsed {
    var raw := Strip(if value.Some? then value.value else "");
    if raw == "" then Parsed(true, Some(0), "0")
    else if !AllDigits(raw) then Parsed(false, None, "")
    else
      var stripped := StripZeros(raw);
      var digits := if stripped == "" then "0" else stripped;
      if |digits| > REPORTED_DIGITS then Parsed(true, None, digits)
      else
        var size := Int(digits);
        Parsed(true, if size <= MAX_REPORTED_LENGTH then Some(size) else None, digits)
  }

  // ─── what a value means ───────────────────────────────────────

  /** Optional whitespace, decimal digits, optional whitespace, writing n. */
  ghost predicate Denotes(v: string, n: nat) {
    exists a, m, b :: Padded(a, m, b, v) && AllDigits(m) && Number(m) == n
  }

  /** v is m with spaces and tabs on both sides. */
  predicate Padded(a: string, m: string, b: string, v: string) {
    && v == a + m + b
    && (forall i :: 0 <= i < |a| ==> a[i] == ' ' || a[i] == '\t')
       && forall i :: 0 <= i < |b| ==> b[i] == ' ' || b[i] == '\t'
  }

  function Text(value: Option<string>): string {
    if value.Some? then value.value else ""
  }

  lemma StripAround(v: string)
    ensures AllDigits(Strip(v)) ==> Denotes(v, Number(Strip(v)))
  {
    var a, b := Trimming.StripAround(IsBlank, v);
    assert Padded(a, Strip(v), b, v);
  }

  /** A value has at most one meaning, and it is read off its stripped text. */
  lemma DenotesExactly(v: string, n: nat)
    ensures Denotes(v, n) <==> AllDigits(Strip(v)) && Number(Strip(v)) == n
  {
    StripAround(v);
    if Denotes(v, n) {
      var a, m, b :| Padded(a, m, b, v) && AllDigits(m) && Number(m) == n;
      Trimming.StripIs(IsBlank, a, m, b, v);
    }
  }

  lemma {:induction false} ZerosDoNotCount(s: string)
    requires AllDigits(s)
    ensures Number(StripZeros(s)) == Number(s)
  {
    if s != "" && s[0] == '0' {
      ZerosDoNotCount(s[1..]);
      assert Nums(s) == Zeros(1) + Nums(s[1..]);
      ValueOfPadded(10, 1, Nums(s[1..]));
    }
  }

  /** Without leading zeros, equal numbers are equal strings. */
  lemma SameNumberSameDigits(s: string, t: string)
    requires AllDigits(s) && AllDigits(t) && (s != "" ==> s[0] != '0') && (t != "" ==> t[0] != '0')
    ensures Number(s) == Number(t) <==> s == t
  {
    DigitsOfValue(10, Nums(s));
    DigitsOfValue(10, Nums(t));
    if Nums(s) == Nums(t) {
      forall i | 0 <= i < |s| ensures s[i] == t[i] {
        assert Nums(s)[i] == Nums(t)[i];
      }
    }
  }

  lemma {:induction false} Size(ds: seq<nat>)
    requires InBase(10, ds) && ds != [] && ds[0] != 0
    ensures Power10(|ds| - 1) <= Value(10, ds) < Power10(|ds|)
  {
    if |ds| > 1 {
      Size(ds[..|ds| - 1]);
    } else {
      assert Value(10, ds[..0]) == 0 && Power10(1) == 10;
    }
  }

  lemma {:induction false} PowerGrows(j: nat, k: nat)
    requires j <= k
    ensures Power10(j) <= Power10(k)
  {
    if j < k { PowerGrows(j, k - 1); }
  }

  lemma PowerIs()
    ensures Power10(18) == 1000000000000000000 && Power10(19) == 10000000000000000000
  {
    assert Power10(6) == 1000000;
    assert Power10(12) == 1000000000000;
    assert Power10(18) == 1000000000000000000;
  }

  /** Nineteen digits is exactly what the largest reported length needs, so a longer string that
      does not start with 0 writes a larger number. */
  lemma LongIsLarge(s: string)
    requires AllDigits(s) && s != "" && s[0] != '0' && |s| > REPORTED_DIGITS
    ensures Number(s) > MAX_REPORTED_LENGTH
  {
    Size(Nums(s));
    PowerGrows(19, |s| - 1);
    PowerIs();
  }

  predicate Reported(p: Parsed, n: nat) {
    p.size == if n <= MAX_REPORTED_LENGTH then Some(n) else None
  }

  lemma ZeroIsZero()
    ensures Number("0") == 0 == Number("")
  {
    assert Nums("0") == Zeros(1) + Nums("");
    ValueOfPadded(10, 1, Nums(""));
  }

  lemma ReadsDigits(value: Option<string>)
    requires AllDigits(Strip(Text(value)))
    ensures var p, n := OneLength(value), Number(Strip(Text(value)));
            p.valid && Reported(p, n) && AllDigits(p.digits) && Number(p.digits) == n
  {
    var raw := Strip(Text(value));
    ZeroIsZero();
    if raw != "" {
      ZerosDoNotCount(raw);
      var t := StripZeros(raw);
      if |t| > REPORTED_DIGITS { LongIsLarge(t); }
    }
  }

  /** One value is valid exactly when it writes a number, its size is that number when it is small
      enough to report, and its digits stand for the number. Only nineteen of them are ever read. */
  lemma OneLengthMeans(value: Option<string>, n: nat)
    ensures Denotes(Text(value), n) ==> OneLength(value).valid && Reported(OneLength(value), n)
    ensures Denotes(Text(value), n) ==> AllDigits(OneLength(value).digits) && Number(OneLength(value).digits) == n
    ensures OneLength(value).valid ==> AllDigits(Strip(Text(value))) && Denotes(Text(value), Number(Strip(Text(value))))
    ensures OneLength(value).size.Some? ==> |OneLength(value).digits| <= REPORTED_DIGITS
  {
    DenotesExactly(Text(value), n);
    StripAround(Text(value));
    if AllDigits(Strip(Text(value))) { ReadsDigits(value); }
  }

  lemma DigitsIdentify(x: Option<string>, y: Option<string>, m: nat, n: nat)
    requires Denotes(Text(x), m) && Denotes(Text(y), n)
    ensures OneLength(x).digits == OneLength(y).digits <==> m == n
  {
    OneLengthMeans(x, m);
    OneLengthMeans(y, n);
    DenotesExactly(Text(x), m);
    DenotesExactly(Text(y), n);
    var s, t := StripZeros(Strip(Text(x))), StripZeros(Strip(Text(y)));
    ZerosDoNotCount(Strip(Text(x)));
    ZerosDoNotCount(Strip(Text(y)));
    SameNumberSameDigits(s, t);
  }

  // ─── the header ───────────────────────────────────────────────

  function ParseAll(values: seq<Option<string>>): (ps: seq<Parsed>)
    ensures |ps| == |values| && forall i :: 0 <= i < |values| ==> ps[i] == OneLength(values[i])
  {
    seq(|values|, i requires 0 <= i < |values| => OneLength(values[i]))
  }

  datatype Length = Invalid | Declared(size: Option<nat>)

  /** The values judged: an empty list counts as one missing value. */
  function Judged(values: seq<Option<string>>): (js: seq<Option<string>>)
    ensures js != []
  {
    if values == [] then [None] else values
  }

  function DigitsOf(ps: seq<Parsed>): set<string> {
    set p | p in ps :: p.digits
  }

  /** declared_length; a single header value is a list of one. */
  function DeclaredLength(values: seq<Option<string>>): Length {
    var parsed := ParseAll(Judged(values));
    if (exists p :: p in parsed && !p.valid) || |DigitsOf(parsed)| > 1 then Invalid else Declared(parsed[0].size)
  }

  /** All values write this number. */
  ghost predicate Agree(values: seq<Option<string>>, n: nat) {
    forall v :: v in Judged(values) ==> Denotes(Text(v), n)
  }

  lemma SmallSet<T>(s: set<T>, x: T)
    requires x in s
    ensures |s| > 1 <==> exists y :: y in s && y != x
  {
    if y :| y in s && y != x {
      assert {x, y} <= s;
      SubsetSize({x, y}, s);
    } else {
      assert s == {x};
    }
  }

  lemma {:induction false} SubsetSize<T>(a: set<T>, b: set<T>)
    requires a <= b
    ensures |a| <= |b|
  {
    if a != {} {
      var x :| x in a;
      SubsetSize(a - {x}, b - {x});
    }
  }

  lemma AgreeingIsDeclared(values: seq<Option<string>>, n: nat)
    requires Agree(values, n)
    ensures DeclaredLength(values) == Declared(if n <= MAX_REPORTED_LENGTH then Some(n) else None)
  {
    var js := Judged(values);
    var parsed := ParseAll(js);
    forall i | 0 <= i < |js| ensures parsed[i].valid && parsed[i].digits == parsed[0].digits && Reported(parsed[i], n) {
      assert js[i] in js && js[0] in js;
      OneLengthMeans(js[i], n);
      DigitsIdentify(js[i], js[0], n, n);
    }
    assert parsed[0] in parsed;
    SmallSet(DigitsOf(parsed), parsed[0].digits);
  }

  lemma DeclaredAgrees(values: seq<Option<string>>) returns (n: nat)
    requires DeclaredLength(values).Declared?
    ensures Agree(values, n)
  {
    var js := Judged(values);
    var parsed := ParseAll(js);
    assert parsed[0] in parsed;
    SmallSet(DigitsOf(parsed), parsed[0].digits);
    forall i | 0 <= i < |js|
      ensures parsed[i].valid && parsed[i].digits == parsed[0].digits && AllDigits(Strip(Text(js[i])))
    {
      assert parsed[i] in parsed && parsed[i].digits in DigitsOf(parsed);
    }
    n := Number(Strip(Text(js[0])));
    OneLengthMeans(js[0], n);
    forall i | 0 <= i < |js| ensures Denotes(Text(js[i]), n) {
      var m := Number(Strip(Text(js[i])));
      OneLengthMeans(js[i], m);
      DigitsIdentify(js[i], js[0], m, n);
    }
  }

  /** The header is valid exactly when its values all write one number, and then its size is that
      number, or nothing when a signed 64-bit integer cannot hold it. */
  lemma DeclaredLengthMeans(values: seq<Option<string>>, n: nat)
    ensures Agree(values, n) ==> DeclaredLength(values) == Declared(if n <= MAX_REPORTED_LENGTH then Some(n) else None)
    ensures DeclaredLength(values).Declared? <==> exists m :: Agree(values, m)
  {
    if DeclaredLength(values).Declared? {
      var m := DeclaredAgrees(values);
      assert Agree(values, m);
    }
    if m :| Agree(values, m) {
      AgreeingIsDeclared(values, m);
    }
    if Agree(values, n) {
      AgreeingIsDeclared(values, n);
    }
  }

  datatype Refusal = LengthInvalid | TooLarge(bytes: Option<nat>)

  /** request_length_refusal: 400 for an invalid header, 413 for one over the limit. */
  function RequestLengthRefusal(values: seq<Option<string>>): Option<Refusal> {
    var declared := DeclaredLength(values);
    if declared.Invalid? then Some(LengthInvalid)
    else if declared.size.None? then Some(TooLarge(None))
    else if declared.size.value > MAX_REQUEST_BYTES then Some(TooLarge(declared.size))
    else None
  }

  /** A request goes on exactly when its values all write one number up to the limit; it is
      invalid exactly when they write no common number; and a refusal names the size it read. */
  lemma RefusedExactly(values: seq<Option<string>>)
    ensures RequestLengthRefusal(values).None? <==> exists n: nat :: n <= 524288 && Agree(values, n)
    ensures RequestLengthRefusal(values) == Some(LengthInvalid) <==> !exists n: nat :: Agree(values, n)
    ensures forall n: nat :: Agree(values, n) && n > 524288 ==>
              RequestLengthRefusal(values) == Some(TooLarge(if n < 0x8000_0000_0000_0000 then Some(n) else None))
  {
    forall n: nat
      ensures Agree(values, n)
              ==> DeclaredLength(values) == Declared(if n <= MAX_REPORTED_LENGTH then Some(n) else None)
      ensures DeclaredLength(values).Declared? <==> exists m: nat :: Agree(values, m)
    {
      DeclaredLengthMeans(values, n);
    }
    DeclaredLengthMeans(values, 0);
    if DeclaredLength(values).Declared? {
      var n: nat :| Agree(values, n);
      assert DeclaredLength(values) == Declared(if n <= MAX_REPORTED_LENGTH then Some(n) else None);
    }
  }
}
