/** Finding a message in a mailbox from the shortened id a listing showed. */
module PrefixLookup {
  import opened Tables

  // ─── escaping the pattern ─────────────────────────────────────

  /** str.replace for a one-character pattern. */
  function Replace(s: string, c: char, with: string): string {
    if s == "" then "" else (if s[0] == c then with else [s[0]]) + Replace(s[1..], c, with)
  }

  /** The three replaces, in the order the code makes them. */
  function Escape(s: string): string {
    Replace(Replace(Replace(s, '\\', "\\\\"), '%', "\\%"), '_', "\\_")
  }

  predicate Special(c: char) {
    c == '\\' || c == '%' || c == '_'
  }

  function Quote(c: char): string {
    if Special(c) then ['\\', c] else [c]
  }

  function QuoteAll(s: string): string {
    if s == "" then "" else Quote(s[0]) + QuoteAll(s[1..])
  }

  lemma {:induction false} ReplaceConcat(s: string, t: string, c: char, with: string)
    ensures Replace(s + t, c, with) == Replace(s, c, with) + Replace(t, c, with)
  {
    if s == "" {
      assert s + t == t;
    } else {
      ReplaceConcat(s[1..], t, c, with);
      assert (s + t)[1..] == s[1..] + t;
      assert (if s[0] == c then with else [s[0]]) + (Replace(s[1..], c, with) + Replace(t, c, with))
          == ((if s[0] == c then with else [s[0]]) + Replace(s[1..], c, with)) + Replace(t, c, with);
    }
  }

  lemma EscapeOne(c: char)
    ensures Escape([c]) == Quote(c)
  {
    assert Replace([c], '\\', "\\\\") == (if c == '\\' then "\\\\" else [c]);
    Pair('\\', c, '%', "\\%");
    Pair('\\', c, '_', "\\_");
    Pair('\\', '\\', '%', "\\%");
    Pair('\\', '\\', '_', "\\_");
    assert Replace([c], '%', "\\%") == (if c == '%' then "\\%" else [c]);
    assert Replace([c], '_', "\\_") == (if c == '_' then "\\_" else [c]);
  }

  lemma Pair(a: char, b: char, c: char, with: string)
    requires a != c
    ensures Replace([a, b], c, with) == [a] + if b == c then with else [b]
  {
    assert [a, b][1..] == [b] && [b][1..] == "";
    assert Replace([b], c, with) == if b == c then with else [b];
  }

  /** Replacing one special character after the other quotes each character once: no later pass
      touches what an earlier one put in, because the backslash goes first. */
  lemma {:induction false} EscapeQuotesEach(s: string)
    ensures Escape(s) == QuoteAll(s)
  {
    if s != "" {
      var head, tail := [s[0]], s[1..];
      assert s == head + tail;
      ReplaceConcat(head, tail, '\\', "\\\\");
      var h1, t1 := Replace(head, '\\', "\\\\"), Replace(tail, '\\', "\\\\");
      ReplaceConcat(h1, t1, '%', "\\%");
      ReplaceConcat(Replace(h1, '%', "\\%"), Replace(t1, '%', "\\%"), '_', "\\_");
      EscapeOne(s[0]);
      EscapeQuotesEach(tail);
    }
  }

  // ─── the matcher ──────────────────────────────────────────────

  /** LIKE ignores the case of ASCII letters only. */
  function Fold(c: char): char {
    if 'A' <= c <= 'Z' then c - 'A' + 'a' else c
  }

  /** Two characters match when they are the same, or one letter of A to Z in both cases. */
  lemma FoldsTogether(c: char, d: char)
    ensures Fold(c) == Fold(d) <==>
              c == d || ('A' <= c <= 'Z' && d as int == c as int + 32) || ('A' <= d <= 'Z' && c as int == d as int + 32)
  {
  }

  /** x LIKE p ESCAPE '\'. */
  predicate Like(p: string, x: string)
    decreases |p|
  {
    if p == "" then x == ""
    else if p[0] == '%' then exists k :: 0 <= k <= |x| && Like(p[1..], x[k..])
    else if p[0] == '\\' then |p| > 1 && x != "" && Fold(p[1]) == Fold(x[0]) && Like(p[2..], x[1..])
    else x != "" && (p[0] == '_' || Fold(p[0]) == Fold(x[0])) && Like(p[1..], x[1..])
  }

  /** The matcher reads both operands up to the first NUL. */
  function Cut(s: string): (t: string)
    ensures '\0' !in t && t <= s
    ensures '\0' !in s ==> t == s
  {
    if s == "" || s[0] == '\0' then "" else [s[0]] + Cut(s[1..])
  }

  predicate Accepts(typed: string, id: string) {
    Like(Cut(Escape(typed) + "%"), Cut(id))
  }

  /** Equal up to the case of ASCII letters, as far as the typed text goes. */
  predicate Extends(typed: string, id: string) {
    |typed| <= |id| && forall i :: 0 <= i < |typed| ==> Fold(typed[i]) == Fold(id[i])
  }

  lemma {:induction false} QuotedMatches(s: string, rest: string, x: string)
    ensures Like(QuoteAll(s) + rest, x) <==> Extends(s, x) && Like(rest, x[|s|..])
  {
    if s == "" {
      assert QuoteAll(s) + rest == rest && x[0..] == x;
    } else {
      var tail := QuoteAll(s[1..]) + rest;
      assert QuoteAll(s) + rest == Quote(s[0]) + tail;
      QuotedHead(s[0], tail, x);
      if x != "" && Fold(s[0]) == Fold(x[0]) {
        QuotedMatches(s[1..], rest, x[1..]);
        ExtendsTail(s, x);
        assert |s| <= |x| ==> x[1..][|s| - 1..] == x[|s|..];
      } else {
        assert !Extends(s, x);
      }
    }
  }

  /** A quoted character matches itself, letter case aside, and nothing else. */
  lemma QuotedHead(c: char, tail: string, x: string)
    ensures Like(Quote(c) + tail, x) <==> x != "" && Fold(c) == Fold(x[0]) && Like(tail, x[1..])
  {
    var p := Quote(c) + tail;
    assert p[|Quote(c)|..] == tail;
  }

  lemma ExtendsTail(s: string, x: string)
    requires s != "" && x != ""
    ensures Extends(s, x) <==> Fold(s[0]) == Fold(x[0]) && Extends(s[1..], x[1..])
  {
    if Fold(s[0]) == Fold(x[0]) && Extends(s[1..], x[1..]) {
      forall i | 0 <= i < |s| ensures Fold(s[i]) == Fold(x[i]) {
        assert i > 0 ==> s[i] == s[1..][i - 1] && x[i] == x[1..][i - 1];
      }
    }
    if Extends(s, x) {
      forall i | 0 <= i < |s[1..]| ensures Fold(s[1..][i]) == Fold(x[1..][i]) {
        assert s[1..][i] == s[i + 1] && x[1..][i] == x[i + 1];
      }
    }
  }

  lemma PercentTakesAll(x: string)
    ensures Like("%", x)
  {
    assert x[|x|..] == "" && "%"[1..] == "";
  }

  lemma {:induction false} QuotedHasNoNul(s: string)
    requires '\0' !in s
    ensures '\0' !in QuoteAll(s)
  {
    if s != "" { QuotedHasNoNul(s[1..]); }
  }

  /** The wildcards in the typed text are inert: the pattern accepts exactly the ids that extend
      it, letter case aside. */
  lemma AcceptsExtensions(typed: string, id: string)
    requires '\0' !in typed
    ensures Accepts(typed, id) <==> Extends(typed, id)
  {
    EscapeQuotesEach(typed);
    QuotedHasNoNul(typed);
    var x := Cut(id);
    QuotedMatches(typed, "%", x);
    if |typed| <= |x| { PercentTakesAll(x[|typed|..]); }
    CutExtends(typed, id);
  }

  lemma {:induction false} CutQuoted(typed: string)
    requires '\0' in typed
    ensures Cut(QuoteAll(typed) + "%") == QuoteAll(Cut(typed))
  {
    var rest := QuoteAll(typed[1..]) + "%";
    assert QuoteAll(typed) + "%" == Quote(typed[0]) + rest;
    if typed[0] != '\0' {
      CutQuoted(typed[1..]);
      CutHead(typed[0], rest);
      assert Cut(typed)[1..] == Cut(typed[1..]);
    }
  }

  lemma CutHead(c: char, rest: string)
    requires c != '\0'
    ensures Cut(Quote(c) + rest) == Quote(c) + Cut(rest)
  {
    var s := Quote(c) + rest;
    assert s[1..] == Quote(c)[1..] + rest;
    if Special(c) { assert s[1..][0] == c && s[1..][1..] == rest; }
  }

  /** Typed text that holds a NUL loses its wildcard: the pattern then accepts exactly the ids that
      equal it up to the NUL, letter case aside. */
  lemma AcceptsUpToNul(typed: string, id: string)
    requires '\0' in typed
    ensures Accepts(typed, id) <==> |Cut(id)| == |Cut(typed)| && Extends(Cut(typed), Cut(id))
  {
    EscapeQuotesEach(typed);
    CutQuoted(typed);
    QuotedMatches(Cut(typed), "", Cut(id));
    assert QuoteAll(Cut(typed)) + "" == QuoteAll(Cut(typed));
  }

  lemma {:induction false} CutExtends(typed: string, id: string)
    requires '\0' !in typed
    ensures Extends(typed, Cut(id)) <==> Extends(typed, id)
  {
    if typed != "" && id != "" {
      if id[0] != '\0' {
        CutExtends(typed[1..], id[1..]);
        ExtendsTail(typed, Cut(id));
      }
      ExtendsTail(typed, id);
    }
  }

  // ─── the lookup ───────────────────────────────────────────────

  datatype Reply = Blank | NotFound | Ambiguous(count: nat) | Found(id: string)

  predicate InBox(s: Ledger, node: string, id: string) {
    exists d :: d in s.deliveries && d.recipient == node && d.mid == id
  }

  /** SELECT DISTINCT message_id ... LIKE ...; only the wording of a refusal depends on its order. */
  function Matches(ds: seq<Delivery>, node: string, typed: string): (ids: seq<string>)
    ensures forall i, j :: 0 <= i < j < |ids| ==> ids[i] != ids[j]
    ensures forall id :: id in ids <==> Accepts(typed, id) && exists d :: d in ds && d.recipient == node && d.mid == id
  {
    if ds == [] then []
    else
      var d, ids := ds[|ds| - 1], Matches(ds[..|ds| - 1], node, typed);
      assert ds == ds[..|ds| - 1] + [d];
      if d.recipient == node && Accepts(typed, d.mid) && d.mid !in ids then ids + [d.mid] else ids
  }

  /** resolve_recipient_message_id */
  function Resolve(s: Ledger, node: string, typed: string): Reply {
    if node == "" || typed == "" then Blank
    else if InBox(s, node, typed) then Found(typed)
    else
      var ids := Matches(s.deliveries, node, typed);
      if ids == [] then NotFound
      else if |ids| > 1 then Ambiguous(|ids|)
      else Found(ids[0])
  }

  /** An exact id is itself; otherwise the answer is the one id of this mailbox that the pattern
      accepts, and a refusal says whether there was none or more than one. */
  lemma ResolvesExactly(s: Ledger, node: string, typed: string)
    requires node != "" && typed != ""
    ensures forall id :: Resolve(s, node, typed) == Found(id) <==>
              && InBox(s, node, id)
              && (id == typed || (!InBox(s, node, typed) && Accepts(typed, id)
                                  && forall other :: InBox(s, node, other) && Accepts(typed, other) ==> other == id))
    ensures Resolve(s, node, typed).NotFound? <==>
              !InBox(s, node, typed) && forall id :: InBox(s, node, id) ==> !Accepts(typed, id)
    ensures Resolve(s, node, typed).Ambiguous? <==>
              !InBox(s, node, typed) && exists a, b :: a != b && InBox(s, node, a) && InBox(s, node, b)
                                                       && Accepts(typed, a) && Accepts(typed, b)
  {
    var ids := Matches(s.deliveries, node, typed);
    assert forall id :: id in ids <==> InBox(s, node, id) && Accepts(typed, id);
    if |ids| > 1 {
      assert ids[0] in ids && ids[1] in ids && ids[0] != ids[1];
    } else if |ids| == 1 {
      assert ids[0] in ids && forall id :: id in ids ==> id == ids[0];
    }
  }

  /** The ids of this mailbox that the typed text fits. */
  function Fitting(s: Ledger, node: string, typed: string): set<string> {
    set d | d in s.deliveries && d.recipient == node && Accepts(typed, d.mid) :: d.mid
  }

  /** A refusal as ambiguous says how many there are. */
  lemma CountsFitting(s: Ledger, node: string, typed: string)
    ensures match Resolve(s, node, typed)
            case Ambiguous(count) => count == |Fitting(s, node, typed)| > 1
            case _ => true
  {
    DistinctSize(Matches(s.deliveries, node, typed), Fitting(s, node, typed));
  }

  lemma {:induction false} DistinctSize(ids: seq<string>, of: set<string>)
    requires forall i, j :: 0 <= i < j < |ids| ==> ids[i] != ids[j]
    requires forall id :: id in ids <==> id in of
    ensures |ids| == |of|
  {
    if ids == [] {
      assert of == {};
    } else {
      var front, last := ids[..|ids| - 1], ids[|ids| - 1];
      assert ids == front + [last];
      DistinctSize(front, of - {last});
    }
  }

  /** A shortened id resolves back to the message it was cut from, unless the short form is itself
      another message's id or some other id in this mailbox extends it, letter case aside. */
  lemma ShortenedResolvesBack(s: Ledger, node: string, id: string, k: nat)
    requires node != "" && InBox(s, node, id) && 0 < k <= |id| && '\0' !in id[..k]
    ensures Resolve(s, node, id[..k]) == Found(id) <==>
              k == |id| || (!InBox(s, node, id[..k])
                            && forall other :: InBox(s, node, other) && other != id ==> !Extends(id[..k], other))
  {
    var typed := id[..k];
    ResolvesExactly(s, node, typed);
    AcceptsExtensions(typed, id);
    forall other ensures Accepts(typed, other) <==> Extends(typed, other) { AcceptsExtensions(typed, other); }
    assert Extends(typed, id);
    assert k == |id| <==> typed == id;
  }

  function Mail(id: string): Delivery {
    Delivery(id, "n", Accepted, 0, None, None)
  }

  lemma TwoIds(a: string, b: string, id: string)
    ensures InBox(EMPTY.(deliveries := [Mail(a), Mail(b)]), "n", id) <==> id == a || id == b
  {
    var ds := [Mail(a), Mail(b)];
    assert ds[0] in ds && ds[1] in ds;
  }

  /** The other id need not start with what was typed: letter case is enough to block it. */
  lemma CaseBlocksAPrefix()
    ensures var s := EMPTY.(deliveries := [Mail("ab"), Mail("AB")]);
            && InBox(s, "n", "ab") && "a" <= "ab" && !("a" <= "AB")
            && Resolve(s, "n", "a").Ambiguous?
  {
    var s := EMPTY.(deliveries := [Mail("ab"), Mail("AB")]);
    forall id ensures InBox(s, "n", id) <==> id == "ab" || id == "AB" { TwoIds("ab", "AB", id); }
    assert "ab"[0] == 'a' && "AB"[0] == 'A' && |"a"| == 1;
    ResolvesExactly(s, "n", "a");
    AcceptsExtensions("a", "ab");
    AcceptsExtensions("a", "AB");
  }
}
