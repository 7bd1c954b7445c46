/** base58 as `nodekey.py` and the Java client write it. */
module Base58 {
  import opened Tables
  import opened Numerals

  type byte = b: nat | b < 256

  const ALPHABET: string := "123456789" + "ABCDEFGH" + "JKLMN" + "PQRSTUVWXYZ" + "abcdefghijk" + "mnopqrstuvwxyz"

  /** int.bit_length */
  function BitLength(n: nat): nat {
    if n == 0 then 0 else 1 + BitLength(n / 2)
  }

  /** int.to_bytes(length, "big"), which raises OverflowError when the number does not fit. */
  function ToBytes(n: nat, length: nat): Option<seq<byte>> {
    if length == 0 then (if n == 0 then Some([]) else None)
    else
      var front := ToBytes(n / 256, length - 1);
      if front.None? then None else Some(front.value + [n % 256])
  }

  /** The bytes the code asks for are always enough and never one too many. */
  lemma {:induction false} MinimalBytes(n: nat)
    ensures ToBytes(n, (BitLength(n) + 7) / 8) == Some(Digits(256, n))
  {
    if 0 < n < 256 {
      ByteLength(n);
      assert ToBytes(n / 256, 0) == Some([]);
    } else if n >= 256 {
      MinimalBytes(n / 256);
      BitLengthShift(n);
    }
  }

  lemma ByteLength(n: nat)
    requires 0 < n < 256
    ensures 1 <= BitLength(n) <= 8
  {
    BitLengthBound(n, 8, 256);
  }

  lemma {:induction false} BitLengthBound(n: nat, bits: nat, bound: nat)
    requires n < bound && (bits == 0 ==> bound <= 1) && (bits > 0 ==> bound % 2 == 0)
    requires bits <= 8 && bound == [1, 2, 4, 8, 16, 32, 64, 128, 256][bits]
    ensures BitLength(n) <= bits
  {
    if n > 0 {
      BitLengthBound(n / 2, bits - 1, bound / 2);
    }
  }

  lemma BitLengthShift(n: nat)
    requires n >= 256
    ensures BitLength(n) == 8 + BitLength(n / 256)
  {
    var a := n / 4;
    var b := a / 4;
    var c := b / 4;
    BitLengthQuarter(n);
    BitLengthQuarter(a);
    BitLengthQuarter(b);
    BitLengthQuarter(c);
    assert c / 4 == n / 256;
  }

  lemma BitLengthQuarter(n: nat)
    requires n >= 4
    ensures BitLength(n) == 2 + BitLength(n / 4)
  {
    assert n / 2 / 2 == n / 4;
  }

  // ─── the alphabet ─────────────────────────────────────────────

  lemma {:induction false} AlphabetAscends(i: nat, j: nat)
    requires i < j < 58
    ensures ALPHABET[i] < ALPHABET[j]
  {
    if i + 1 < j {
      AlphabetAscends(i, j - 1);
    }
    NextCharacter(j - 1);
  }

  lemma NextCharacter(i: nat)
    requires i < 57
    ensures ALPHABET[i] < ALPHABET[i + 1]
  {
  }

  /** These characters are all those from the first to the last. */
  predicate Consecutive(xs: string) {
    xs != "" && forall i :: 0 <= i < |xs| ==> xs[i] as int == xs[0] as int + i
  }

  lemma InConsecutive(xs: string, c: char)
    requires Consecutive(xs)
    ensures c in xs <==> xs[0] <= c <= xs[|xs| - 1]
  {
    if xs[0] <= c <= xs[|xs| - 1] { assert xs[c as int - xs[0] as int] == c; }
  }

  lemma UpperHalf(c: char)
    ensures c in "123456789" + "ABCDEFGH" + "JKLMN" <==> '1' <= c <= '9' || 'A' <= c <= 'H' || 'J' <= c <= 'N'
  {
    InConsecutive("123456789", c);
    InConsecutive("ABCDEFGH", c);
    InConsecutive("JKLMN", c);
  }

  lemma LowerHalf(c: char)
    ensures c in "PQRSTUVWXYZ" + "abcdefghijk" + "mnopqrstuvwxyz"
            <==> 'P' <= c <= 'Z' || 'a' <= c <= 'k' || 'm' <= c <= 'z'
  {
    InConsecutive("PQRSTUVWXYZ", c);
    InConsecutive("abcdefghijk", c);
    InConsecutive("mnopqrstuvwxyz", c);
  }

  /** Digits and letters without the four that are easily misread; with their order and their number
      this is the whole alphabet. */
  lemma AlphabetIs(c: char)
    ensures c in ALPHABET <==>
              ('0' <= c <= '9' || 'A' <= c <= 'Z' || 'a' <= c <= 'z') && c != '0' && c != 'O' && c != 'I' && c != 'l'
    ensures |ALPHABET| == 58
  {
    UpperHalf(c);
    LowerHalf(c);
    var upper, lower := "123456789" + "ABCDEFGH" + "JKLMN", "PQRSTUVWXYZ" + "abcdefghijk" + "mnopqrstuvwxyz";
    assert ALPHABET == upper + lower;
  }

  function Search(xs: string, c: char): (r: Option<nat>)
    ensures r.Some? ==> r.value < |xs| && xs[r.value] == c
    ensures r.None? ==> forall i :: 0 <= i < |xs| ==> xs[i] != c
  {
    if xs == [] then None
    else if xs[|xs| - 1] == c then Some(|xs| - 1)
    else Search(xs[..|xs| - 1], c)
  }

  /** _B58_INDEX.get(c) */
  function IndexOf(c: char): (r: Option<nat>)
    ensures r.Some? ==> r.value < 58 && ALPHABET[r.value] == c
    ensures r.None? ==> forall i :: 0 <= i < 58 ==> ALPHABET[i] != c
  {
    Search(ALPHABET, c)
  }

  lemma IndexOfCharacter(i: nat)
    requires i < 58
    ensures IndexOf(ALPHABET[i]) == Some(i)
  {
    var r := IndexOf(ALPHABET[i]);
    if r.Some? && r.value < i { AlphabetAscends(r.value, i); }
    if r.Some? && r.value > i { AlphabetAscends(i, r.value); }
  }

  predicate OverAlphabet(s: string) {
    forall i :: 0 <= i < |s| ==> IndexOf(s[i]).Some?
  }

  function Spell(ds: seq<nat>): (s: string)
    requires InBase(58, ds)
    ensures |s| == |ds| && forall i :: 0 <= i < |ds| ==> s[i] == ALPHABET[ds[i]]
  {
    seq(|ds|, i requires 0 <= i < |ds| => ALPHABET[ds[i]])
  }

  function Unspell(s: string): (ds: seq<nat>)
    requires OverAlphabet(s)
    ensures |ds| == |s| && InBase(58, ds) && forall i :: 0 <= i < |s| ==> IndexOf(s[i]) == Some(ds[i])
  {
    seq(|s|, i requires 0 <= i < |s| => IndexOf(s[i]).value)
  }

  lemma SpellUnspell(s: string)
    requires OverAlphabet(s)
    ensures Spell(Unspell(s)) == s
  {
  }

  lemma UnspellSpell(ds: seq<nat>)
    requires InBase(58, ds)
    ensures OverAlphabet(Spell(ds)) && Unspell(Spell(ds)) == ds
  {
    forall i | 0 <= i < |ds| ensures IndexOf(Spell(ds)[i]) == Some(ds[i]) {
      IndexOfCharacter(ds[i]);
    }
  }

  // ─── the two codecs ───────────────────────────────────────────

  lemma ConvertInBase(from: nat, to: nat, ds: seq<nat>)
    requires to >= 2
    ensures InBase(to, Convert(from, to, ds))
  {
  }

  function Encode(b: seq<byte>): string {
    ConvertInBase(256, 58, b);
    Spell(Convert(256, 58, b))
  }

  /** None stands for the ValueError on a character outside the alphabet. */
  function Decode(s: string): Option<seq<byte>> {
    if !OverAlphabet(s) then None
    else
      ConvertInBase(58, 256, Unspell(s));
      Some(AsBytes(Convert(58, 256, Unspell(s))))
  }

  function AsBytes(ds: seq<nat>): (b: seq<byte>)
    requires InBase(256, ds)
    ensures b == ds
  {
    seq(|ds|, i requires 0 <= i < |ds| => ds[i] as byte)
  }

  /** Every byte string survives the round trip, leading zero bytes included. */
  lemma DecodeEncode(b: seq<byte>)
    ensures Decode(Encode(b)) == Some(b)
  {
    ConvertInBase(256, 58, b);
    UnspellSpell(Convert(256, 58, b));
    ConvertBack(256, 58, b);
  }

  /** Every string over the alphabet is the encoding of exactly what it decodes to, and no
      other string decodes. */
  lemma EncodeDecode(s: string)
    ensures Decode(s).Some? <==> OverAlphabet(s)
    ensures Decode(s).Some? ==> Encode(Decode(s).value) == s
  {
    if OverAlphabet(s) {
      ConvertInBase(58, 256, Unspell(s));
      ConvertBack(58, 256, Unspell(s));
      SpellUnspell(s);
    }
  }

  // ─── the loops ────────────────────────────────────────────────

  /** bytes.lstrip(b"\x00") counted; also the number of leading '1' characters. */
  method CountLeading<T(==)>(xs: seq<T>, x: T) returns (k: nat)
    ensures k <= |xs| && (forall i :: 0 <= i < k ==> xs[i] == x) && (k < |xs| ==> xs[k] != x)
  {
    k := 0;
    while k < |xs| && xs[k] == x
      invariant k <= |xs| && forall i :: 0 <= i < k ==> xs[i] == x
    {
      k := k + 1;
    }
  }

  lemma {:induction false} LeadingIs(ds: seq<nat>, k: nat)
    requires k <= |ds| && (forall i :: 0 <= i < k ==> ds[i] == 0) && (k < |ds| ==> ds[k] != 0)
    ensures LeadingZeros(ds) == k
  {
    if k > 0 { LeadingIs(ds[1..], k - 1); }
  }

  lemma SpellDigitsStep(n: nat)
    requires n > 0
    ensures Spell(Digits(58, n)) == Spell(Digits(58, n / 58)) + [ALPHABET[n % 58]]
  {
  }

  lemma SpellConvert(b: seq<byte>, ones: string)
    requires |ones| == LeadingZeros(b) && forall c :: c in ones ==> c == '1'
    ensures Encode(b) == ones + Spell(Digits(58, Value(256, b)))
  {
    ConvertInBase(256, 58, b);
    assert ALPHABET[0] == '1';
    var ds := Digits(58, Value(256, b));
    forall i | 0 <= i < |ones| + |ds| ensures Spell(Zeros(|ones|) + ds)[i] == (ones + Spell(ds))[i] {
      if i < |ones| { assert ones[i] in ones; }
    }
  }

  /** b58encode: prepend a digit per round, then one '1' per leading zero byte. */
  method B58Encode(b: seq<byte>) returns (s: string)
    ensures s == Encode(b)
  {
    var n := Value(256, b);
    var out := "";
    while n > 0
      invariant Spell(Digits(58, n)) + out == Spell(Digits(58, Value(256, b)))
    {
      SpellDigitsStep(n);
      out := [ALPHABET[n % 58]] + out;
      n := n / 58;
    }
    var pad := CountLeading(b, 0 as byte);
    LeadingIs(b, pad);
    assert |Digits(58, 0)| == 0 && Spell(Digits(58, n)) + out == out;
    var ones := Ones(pad);
    SpellConvert(b, ones);
    s := ones + out;
  }

  /** "1" * k */
  function Ones(k: nat): (s: string)
    ensures |s| == k && forall c :: c in s ==> c == '1'
  {
    seq(k, _ => '1')
  }

  /** The first loop of b58decode. */
  method Accumulate(s: string) returns (n: Option<nat>)
    ensures n == if OverAlphabet(s) then Some(Value(58, Unspell(s))) else None
  {
    var v := 0;
    var i := 0;
    while i < |s|
      invariant i <= |s| && OverAlphabet(s[..i]) && v == Value(58, Unspell(s[..i]))
    {
      var d := IndexOf(s[i]);
      if d.None? {
        return None;
      }
      assert s[..i + 1] == s[..i] + [s[i]];
      assert Unspell(s[..i + 1]) == Unspell(s[..i]) + [d.value];
      ValueSnoc(58, Unspell(s[..i]), d.value);
      v := v * 58 + d.value;
      i := i + 1;
    }
    assert s[..i] == s;
    return Some(v);
  }

  /** b58decode: accumulate the value, ask for its minimal bytes, prepend the zero bytes. */
  method B58Decode(s: string) returns (r: Option<seq<byte>>)
    ensures r == Decode(s)
  {
    var n := Accumulate(s);
    if n.None? {
      return None;
    }
    MinimalBytes(n.value);
    var body := if n.value > 0 then ToBytes(n.value, (BitLength(n.value) + 7) / 8) else Some([]);
    var pad := CountLeading(s, '1');
    OnesAreZeros(s, pad);
    ConvertInBase(58, 256, Unspell(s));
    r := Some(seq(pad, _ => 0 as byte) + body.value);
    assert r.value == Convert(58, 256, Unspell(s));
  }

  lemma OnesAreZeros(s: string, k: nat)
    requires OverAlphabet(s) && k <= |s| && (forall i :: 0 <= i < k ==> s[i] == '1') && (k < |s| ==> s[k] != '1')
    ensures LeadingZeros(Unspell(s)) == k
  {
    IndexOfCharacter(0);
    assert ALPHABET[0] == '1';
    var ds := Unspell(s);
    assert forall i :: 0 <= i < |s| ==> s[i] == ALPHABET[ds[i]];
    LeadingIs(ds, k);
  }

  function Reversed(s: string): (r: string)
    ensures |r| == |s| && forall i :: 0 <= i < |s| ==> r[i] == s[|s| - 1 - i]
  {
    seq(|s|, i requires 0 <= i < |s| => s[|s| - 1 - i])
  }

  /** TabcClient.base58Encode: append the low digit per round, then the '1's, then reverse. */
  method JavaBase58Encode(b: seq<byte>) returns (s: string)
    ensures s == Encode(b)
  {
    var n := Value(256, b);
    var encoded := "";
    while n > 0
      invariant Spell(Digits(58, n)) + Reversed(encoded) == Spell(Digits(58, Value(256, b)))
    {
      SpellDigitsStep(n);
      assert Reversed(encoded + [ALPHABET[n % 58]]) == [ALPHABET[n % 58]] + Reversed(encoded);
      encoded := encoded + [ALPHABET[n % 58]];
      n := n / 58;
    }
    encoded := AppendOnes(b, encoded);
    s := Reversed(encoded);
  }

  method AppendOnes(b: seq<byte>, digits: string) returns (encoded: string)
    requires Reversed(digits) == Spell(Digits(58, Value(256, b)))
    ensures Reversed(encoded) == Encode(b)
  {
    encoded := digits;
    var i := 0;
    ghost var ones := "";
    while i < |b| && b[i] == 0
      invariant i <= |b| && (forall k :: 0 <= k < i ==> b[k] == 0)
      invariant |ones| == i && (forall c :: c in ones ==> c == '1') && encoded == digits + ones
    {
      encoded := encoded + "1";
      ones := ones + "1";
      i := i + 1;
    }
    LeadingIs(b, i);
    SpellConvert(b, ones);
    forall k | 0 <= k < i + |digits| ensures Reversed(digits + ones)[k] == (ones + Reversed(digits))[k] {
      if k < i { assert (digits + ones)[|digits| + i - 1 - k] in ones && ones[k] in ones; }
    }
  }
}
