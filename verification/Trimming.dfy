/** str.strip: dropping characters of one kind from both ends. */
module Trimming {

  predicate All(kind: char -> bool, s: string) {
    forall i :: 0 <= i < |s| ==> kind(s[i])
  }

  function StripLeft(kind: char -> bool, s: string): string {
    if s != "" && kind(s[0]) then StripLeft(kind, s[1..]) else s
  }

  function StripRight(kind: char -> bool, s: string): string {
    if s != "" && kind(s[|s| - 1]) then StripRight(kind, s[..|s| - 1]) else s
  }

  function Strip(kind: char -> bool, s: string): string {
    StripRight(kind, StripLeft(kind, s))
  }

  /** s is m with characters of this kind on both sides. */
  predicate Around(kind: char -> bool, a: string, m: string, b: string, s: string) {
    s == a + m + b && All(kind, a) && All(kind, b)
  }

  lemma {:induction false} StripsLeft(kind: char -> bool, a: string, s: string)
    requires All(kind, a) && (s != "" ==> !kind(s[0]))
    ensures StripLeft(kind, a + s) == s
  {
    if a == "" {
      assert a + s == s;
    } else {
      StripsLeft(kind, a[1..], s);
      assert (a + s)[1..] == a[1..] + s;
    }
  }

  lemma {:induction false} StripsRight(kind: char -> bool, s: string, b: string)
    requires All(kind, b) && (s != "" ==> !kind(s[|s| - 1]))
    ensures StripRight(kind, s + b) == s
  {
    if b == "" {
      assert s + b == s;
    } else {
      StripsRight(kind, s, b[..|b| - 1]);
      assert (s + b)[..|s + b| - 1] == s + b[..|b| - 1];
    }
  }

  /** What is left is the middle, if its own ends are of another kind. */
  lemma StripIs(kind: char -> bool, a: string, m: string, b: string, s: string)
    requires Around(kind, a, m, b, s) && (m != "" ==> !kind(m[0]) && !kind(m[|m| - 1]))
    ensures Strip(kind, s) == m
  {
    if m == "" {
      assert s == (a + b) + "";
      StripsLeft(kind, a + b, "");
    } else {
      assert s == a + (m + b);
      StripsLeft(kind, a, m + b);
      StripsRight(kind, m, b);
    }
  }

  lemma {:induction false} LeftAround(kind: char -> bool, s: string) returns (a: string)
    ensures All(kind, a) && s == a + StripLeft(kind, s)
  {
    if s != "" && kind(s[0]) {
      var rest := LeftAround(kind, s[1..]);
      a := [s[0]] + rest;
    } else {
      a := "";
    }
  }

  lemma {:induction false} RightAround(kind: char -> bool, s: string) returns (b: string)
    ensures All(kind, b) && s == StripRight(kind, s) + b
  {
    if s != "" && kind(s[|s| - 1]) {
      var rest := RightAround(kind, s[..|s| - 1]);
      b := rest + [s[|s| - 1]];
    } else {
      b := "";
    }
  }

  /** Every string is its stripped text with characters of this kind around it. */
  lemma StripAround(kind: char -> bool, s: string) returns (a: string, b: string)
    ensures Around(kind, a, Strip(kind, s), b, s)
  {
    a := LeftAround(kind, s);
    b := RightAround(kind, StripLeft(kind, s));
  }
}
