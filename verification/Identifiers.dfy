/** The spellings that count as a node id, a tac id and a notification id. */
module Identifiers {

  predicate SafeChar(c: char) {
    'a' <= c <= 'z' || 'A' <= c <= 'Z' || '0' <= c <= '9' || c == '-' || c == '_'
  }

  predicate IsSafeNodeId(s: string) {
    s != "" && forall c :: c in s ==> SafeChar(c)
  }

  /** At least one character, all of them ASCII letters, digits, dashes and underscores. */
  lemma SafeExactly(s: string)
    ensures IsSafeNodeId(s) <==>
              |s| > 0 && forall i :: 0 <= i < |s| ==> 48 <= s[i] as int <= 57 || 65 <= s[i] as int <= 90
                                                      || 97 <= s[i] as int <= 122 || s[i] as int in {45, 95}
  {
    assert forall i :: 0 <= i < |s| ==> s[i] in s;
  }

  predicate LowerHex(c: char) {
    '0' <= c <= '9' || 'a' <= c <= 'f'
  }

  predicate HyphenAt(i: int) {
    i == 8 || i == 13 || i == 18 || i == 23
  }

  /** The one spelling `str(UUID(value)) == value` accepts: lowercase, 8-4-4-4-12. */
  predicate IsCanonicalUuid(s: string) {
    |s| == 36 && forall i :: 0 <= i < 36 ==> if HyphenAt(i) then s[i] == '-' else LowerHex(s[i])
  }

  /** str(UUID): 32 lowercase hexadecimal digits in five groups. */
  function Grouped(hex: string): string
    requires |hex| == 32
  {
    hex[..8] + "-" + hex[8..12] + "-" + hex[12..16] + "-" + hex[16..20] + "-" + hex[20..]
  }

  /** Digits 0 to 9 and letters a to f, by their codes. */
  predicate IsHex(s: string) {
    forall i :: 0 <= i < |s| ==> 48 <= s[i] as int <= 57 || 97 <= s[i] as int <= 102
  }

  /** The digits of a canonical string, without the dashes. */
  function Ungrouped(s: string): (hex: string)
    requires |s| == 36
    ensures |hex| == 32
  {
    s[..8] + s[9..13] + s[14..18] + s[19..23] + s[24..]
  }

  lemma GroupedAt(hex: string, i: nat)
    requires |hex| == 32 && i < 36
    ensures |Grouped(hex)| == 36
    ensures Grouped(hex)[i] ==
              if i == 8 || i == 13 || i == 18 || i == 23 then '-'
              else hex[if i < 8 then i else if i < 13 then i - 1 else if i < 18
                                                                      then i - 2 else if i < 23 then i - 3 else i - 4]
  {
  }

  lemma UngroupedAt(s: string, j: nat)
    requires |s| == 36 && j < 32
    ensures Ungrouped(s)[j] ==
              s[if j < 8 then j else if j < 12 then j + 1 else if j < 16
                                                               then j + 2 else if j < 20 then j + 3 else j + 4]
  {
  }

  lemma CanonicalIsGrouped(s: string)
    requires IsCanonicalUuid(s)
    ensures IsHex(Ungrouped(s)) && s == Grouped(Ungrouped(s))
  {
    var hex := Ungrouped(s);
    forall j: nat | j < 32 ensures 48 <= hex[j] as int <= 57 || 97 <= hex[j] as int <= 102 {
      UngroupedAt(s, j);
    }
    forall i: nat | i < 36 ensures |Grouped(hex)| == 36 && Grouped(hex)[i] == s[i] {
      GroupedAt(hex, i);
      if !HyphenAt(i) {
        UngroupedAt(s, if i < 8 then i else if i < 13 then i - 1 else if i < 18
                                                                      then i - 2 else if i < 23 then i - 3 else i - 4);
      }
    }
  }

  /** So the canonical strings are exactly what 32 such digits are written as. */
  lemma CanonicalExactly(s: string)
    ensures IsCanonicalUuid(s) <==> exists hex: string :: |hex| == 32 && IsHex(hex) && s == Grouped(hex)
  {
    if IsCanonicalUuid(s) { CanonicalIsGrouped(s); }
    if hex: string :| |hex| == 32 && IsHex(hex) && s == Grouped(hex) {
      forall i: nat | i < 36 ensures if HyphenAt(i) then s[i] == '-' else LowerHex(s[i]) {
        GroupedAt(hex, i);
      }
    }
  }

  /** str(n) for a row id. */
  function Decimal(n: nat): (s: string)
    ensures s != ""
    ensures forall c :: c in s ==> '0' <= c <= '9'
  {
    var digit := ['0' + (n % 10) as char];
    if n < 10 then digit else Decimal(n / 10) + digit
  }

  lemma {:induction false} DecimalInjective(m: nat, n: nat)
    requires Decimal(m) == Decimal(n)
    ensures m == n
  {
    var a, b := Decimal(m), Decimal(n);
    assert (|a| == 1 <==> m < 10) && (|b| == 1 <==> n < 10);
    assert a[|a| - 1] == '0' + (m % 10) as char;
    assert b[|b| - 1] == '0' + (n % 10) as char;
    assert m % 10 == n % 10;
    if m >= 10 && n >= 10 {
      assert a[..|a| - 1] == Decimal(m / 10);
      assert b[..|b| - 1] == Decimal(n / 10);
      DecimalInjective(m / 10, n / 10);
    }
  }

  /** The queue adapter's delivery id: f"{recipient}:{high_id}". */
  function NotificationId(recipient: string, high: nat): string {
    recipient + ":" + Decimal(high)
  }

  lemma NoColon(s: string)
    requires forall c :: c in s ==> SafeChar(c)
    ensures ':' !in s
  {
  }

  /** A colon cannot occur in a registered name, so two notifications share an id only if
      they are for the same recipient at the same watermark. */
  lemma NotificationIdInjective(r1: string, h1: nat, r2: string, h2: nat)
    requires IsSafeNodeId(r1) && IsSafeNodeId(r2)
    ensures NotificationId(r1, h1) == NotificationId(r2, h2) ==> r1 == r2 && h1 == h2
  {
    var a, b := NotificationId(r1, h1), NotificationId(r2, h2);
    if a == b {
      NoColon(r1);
      NoColon(r2);
      assert forall i :: 0 <= i < |r1| ==> a[i] == r1[i] != ':';
      assert forall i :: 0 <= i < |r2| ==> b[i] == r2[i] != ':';
      assert a[|r1|] == ':' && b[|r2|] == ':';
      assert |r1| == |r2|;
      assert r1 == a[..|r1|] == b[..|r2|] == r2;
      assert Decimal(h1) == a[|r1| + 1..] == b[|r2| + 1..] == Decimal(h2);
      DecimalInjective(h1, h2);
    }
  }
}
