/** Where the attributes of a line lie, and what replacing those of one quote style does to
    those of the other. */
module HlsSpans {
  import opened HlsText

  /** The characters of one attribute, its name and quotes included. */
  datatype Span = Span(from: nat, to: nat)

  function MatchLength(s: string, q: char): (n: nat)
    requires MatchHere(s, q)
    ensures 6 < n <= |s|
  {
    6 + Find(s[5..], q)
  }

  /** The attributes with quote `q`, in a text that starts at `at`. */
  function Spans(s: string, q: char, at: nat): seq<Span>
    decreases |s|
  {
    if s == "" then []
    else if MatchHere(s, q) then
      var n := MatchLength(s, q);
      [Span(at, at + n)] + Spans(s[n..], q, at + n)
    else Spans(s[1..], q, at + 1)
  }

  predicate Beside(a: Span, b: Span) {
    a.to <= b.from || b.to <= a.from
  }

  predicate Inside(a: Span, b: Span) {
    b.from <= a.from && a.to <= b.to
  }

  /** No attribute shares a character with one of the other quote style. */
  ghost predicate Apart(s: string, q: char, other: char, at: nat) {
    forall m, d | m in Spans(s, other, at) && d in Spans(s, q, at) :: Beside(m, d)
  }

  /** The attributes of the other style lie beside or inside those of `q`: none holds one of
      them, or ends inside one, or starts inside one that it outlasts. */
  ghost predicate Uncrossed(s: string, q: char, other: char, at: nat) {
    forall m, d | m in Spans(s, other, at) && d in Spans(s, q, at) :: Beside(m, d) || Inside(m, d)
  }

  predicate Quotes(q: char, other: char) {
    IsQuote(q) && IsQuote(other) && q != other
  }

  lemma {:induction false} SpansInRange(s: string, q: char, at: nat)
    ensures forall m | m in Spans(s, q, at) :: at <= m.from < m.to <= at + |s|
    decreases |s|
  {
    if s != "" {
      if MatchHere(s, q) {
        var n := MatchLength(s, q);
        SpansInRange(s[n..], q, at + n);
      } else {
        SpansInRange(s[1..], q, at + 1);
      }
    }
  }

  // ---------------------------------------------------------------- cutting a text in two

  /** An opening in the text still waits for its closing quote. */
  predicate Pending(s: string, q: char)
    decreases |s|
  {
    s != "" && if MatchHere(s, q) then Pending(s[MatchLength(s, q)..], q)
               else (Opening(s, q) && q !in s[5..]) || Pending(s[1..], q)
  }

  predicate Opening(s: string, q: char) {
    |s| >= 5 && s[..5] == ATTR + [q]
  }

  /** No opening of the other quote reaches from `a` into `b`. */
  predicate Seam(a: string, b: string, q: char) {
    a == "" || a[|a| - 1] == q || Opening(b, q) || (b != "" && b[0] == q)
  }

  ghost predicate NoneAcross(ms: seq<Span>, at: nat) {
    forall m | m in ms :: m.to <= at || at <= m.from
  }

  lemma OpeningChars(s: string, q: char)
    ensures Opening(s, q) <==> |s| >= 5 && s[0] == 'U' && s[1] == 'R' && s[2] == 'I' && s[3] == '=' && s[4] == q
  {
    if |s| >= 5 {
      var w := s[..5];
      assert w == [s[0], s[1], s[2], s[3], s[4]];
      assert ATTR + [q] == ['U', 'R', 'I', '=', q];
    }
  }

  lemma {:induction false} FindInFront(a: string, b: string, q: char)
    ensures Find(a + b, q) == if Find(a, q) < |a| then Find(a, q) else |a| + Find(b, q)
    decreases |a|
  {
    var s := a + b;
    if a == "" {
      assert s == b;
    } else {
      assert s[0] == a[0] && s[1..] == a[1..] + b;
      if a[0] != q {
        FindInFront(a[1..], b, q);
      }
    }
  }

  lemma FindIffIn(s: string, q: char)
    ensures Find(s, q) < |s| <==> q in s
  {
    if q in s {
      var i :| 0 <= i < |s| && s[i] == q;
    }
  }

  lemma CharOfSum(a: string, b: string, i: nat)
    requires i < |a + b|
    ensures (a + b)[i] == if i < |a| then a[i] else b[i - |a|]
  {
  }

  /** A match in front of `a` is the same one in front of `a + b`. */
  lemma MatchInFront(a: string, b: string, q: char)
    requires MatchHere(a, q)
    ensures MatchHere(a + b, q) && MatchLength(a + b, q) == MatchLength(a, q)
    ensures var n := MatchLength(a, q); (a + b)[n..] == a[n..] + b && (a + b)[5..n - 1] == a[5..n - 1]
  {
    var s := a + b;
    assert s[..5] == a[..5] && s[5..] == a[5..] + b;
    FindInFront(a[5..], b, q);
  }

  /** No match in front of `a`, but one in front of `a + b`: its opening waits in `a`. */
  lemma MatchAcross(a: string, b: string, q: char, other: char)
    requires Quotes(q, other) && Seam(a, b, q) && a != "" && !MatchHere(a, other)
    ensures Opening(a, other) ==> |a| >= 5
    ensures MatchHere(a + b, other) <==> Opening(a, other) && other !in a[5..] && other in b
    ensures MatchHere(a + b, other) ==> MatchLength(a + b, other) > |a|
  {
    var s := a + b;
    OpeningChars(s, other);
    OpeningChars(a, other);
    OpeningChars(b, q);
    if Opening(s, other) {
      assert s[|a| - 1] == a[|a| - 1];
      CharOfSum(a, b, 4);
      assert s[..5] == a[..5] && s[5..] == a[5..] + b;
      FindInFront(a[5..], b, other);
      FindIffIn(a[5..], other);
      FindIffIn(b, other);
    }
  }

  /** Cutting a text at a seam: an attribute reaches across it exactly when one is pending and
      its quote follows; otherwise the two parts are scanned by themselves. */
  lemma {:induction false} SeamCut(a: string, b: string, q: char, other: char, at: nat)
    requires Quotes(q, other) && Seam(a, b, q)
    ensures NoneAcross(Spans(a + b, other, at), at + |a|) <==> (Pending(a, other) ==> other !in b)
    ensures (Pending(a, other) ==> other !in b) ==>
              && Spans(a + b, other, at) == Spans(a, other, at) + Spans(b, other, at + |a|)
              && Matches(a + b, other) == Matches(a, other) + Matches(b, other)
    decreases |a|
  {
    hide *;
    if a == "" {
      SeamAtStart(b, other, at);
    } else if MatchHere(a, other) {
      var n := MatchLength(a, other);
      MatchInFront(a, b, other);
      SeamTail(a, b, q, n);
      SeamCut(a[n..], b, q, other, at + n);
      SeamAfterMatch(a, b, other, at);
      CutBehind([Span(at, at + n)], [a[5..n - 1]], Spans(a[n..], other, at + n), Spans(b, other, at + |a|),
                Matches(a[n..], other), Matches(b, other));
      NoneAcrossCons(Span(at, at + n), Spans(a[n..] + b, other, at + n), at + |a|);
    } else {
      MatchAcross(a, b, q, other);
      if MatchHere(a + b, other) {
        AcrossIsFirst(a + b, other, at, |a|);
        PendingOpening(a, other);
      } else {
        SeamTail(a, b, q, 1);
        SeamCut(a[1..], b, q, other, at + 1);
        SeamAfterSkip(a, b, other, at);
      }
    }
  }

  lemma SeamAtStart(b: string, q: char, at: nat)
    ensures "" + b == b && NoneAcross(Spans(b, q, at), at) && !Pending("", q)
    ensures Spans("" + b, q, at) == Spans("", q, at) + Spans(b, q, at) && Matches("" + b, q) == Matches("", q) + Matches(b, q)
  {
    assert "" + b == b;
    SpansInRange(b, q, at);
  }

  lemma SeamTail(a: string, b: string, q: char, n: nat)
    requires Seam(a, b, q) && n <= |a|
    ensures Seam(a[n..], b, q)
  {
  }

  lemma PendingOpening(a: string, q: char)
    requires !MatchHere(a, q) && Opening(a, q) && q !in a[5..]
    ensures Pending(a, q)
  {
  }

  lemma CutBehind(m: seq<Span>, c: seq<string>, ms: seq<Span>, ns: seq<Span>, cs: seq<string>, ds: seq<string>)
    ensures m + (ms + ns) == (m + ms) + ns && c + (cs + ds) == (c + cs) + ds
  {
  }

  lemma NoneAcrossCons(m: Span, ms: seq<Span>, at: nat)
    requires m.to <= at
    ensures NoneAcross([m] + ms, at) <==> NoneAcross(ms, at)
  {
    assert forall x | x in ms :: x in [m] + ms;
  }

  lemma AcrossIsFirst(s: string, q: char, at: nat, n: nat)
    requires MatchHere(s, q) && 0 < n < MatchLength(s, q)
    ensures !NoneAcross(Spans(s, q, at), at + n)
  {
    assert Spans(s, q, at)[0] == Span(at, at + MatchLength(s, q));
  }

  lemma PendingBehind(a: string, q: char)
    requires MatchHere(a, q)
    ensures Pending(a, q) <==> Pending(a[MatchLength(a, q)..], q)
  {
  }

  lemma SeamAfterSkip(a: string, b: string, q: char, at: nat)
    requires a != "" && !MatchHere(a, q) && !MatchHere(a + b, q)
    ensures (a + b)[1..] == a[1..] + b
    ensures Spans(a + b, q, at) == Spans(a[1..] + b, q, at + 1) && Spans(a, q, at) == Spans(a[1..], q, at + 1)
    ensures Matches(a + b, q) == Matches(a[1..] + b, q) && Matches(a, q) == Matches(a[1..], q)
    ensures Opening(a, q) ==> |a| >= 5
    ensures Pending(a, q) <==> (Opening(a, q) && q !in a[5..]) || Pending(a[1..], q)
  {
    assert (a + b)[1..] == a[1..] + b;
  }

  lemma SeamAfterMatch(a: string, b: string, q: char, at: nat)
    requires MatchHere(a, q) && MatchHere(a + b, q) && MatchLength(a + b, q) == MatchLength(a, q)
    requires var n := MatchLength(a, q); (a + b)[n..] == a[n..] + b && (a + b)[5..n - 1] == a[5..n - 1]
    ensures var n := MatchLength(a, q);
            && Spans(a + b, q, at) == [Span(at, at + n)] + Spans(a[n..] + b, q, at + n)
            && Spans(a, q, at) == [Span(at, at + n)] + Spans(a[n..], q, at + n)
            && Matches(a + b, q) == [a[5..n - 1]] + Matches(a[n..] + b, q)
            && Matches(a, q) == [a[5..n - 1]] + Matches(a[n..], q)
            && (Pending(a, q) <==> Pending(a[n..], q))
  {
    hide *;
    MatchParts(a, q, at);
    MatchParts(a + b, q, at);
    PendingBehind(a, q);
  }

  // ---------------------------------------------------------------- the first attribute

  /** An attribute with value `d`. */
  function Attribute(d: string, q: char): string {
    ATTR + ([q] + (d + [q]))
  }

  /** No attribute starts in `x` when another one follows it. */
  predicate Lead(x: string, q: char)
    decreases |x|
  {
    x == "" || (!MatchHere(x + (ATTR + [q]), q) && Lead(x[1..], q))
  }

  lemma AttributeMatches(d: string, v: string, q: char)
    requires IsQuote(q) && d != "" && q !in d
    ensures var s := Attribute(d, q) + v;
            && MatchHere(s, q) && MatchLength(s, q) == |d| + 6 == |Attribute(d, q)|
            && s[5..|d| + 5] == d && s[|d| + 6..] == v && Opening(s, q)
  {
    var s := Attribute(d, q) + v;
    assert s[..5] == ATTR + [q];
    assert s[5..] == d + ([q] + v);
    FindInGlue(d, q, v);
  }

  /** Whether a match starts in `y` depends on what follows only by its first quote. */
  lemma LeadStays(y: string, d: string, v: string, q: char)
    requires IsQuote(q) && y != ""
    ensures MatchHere(y + (Attribute(d, q) + v), q) <==> MatchHere(y + (ATTR + [q]), q)
  {
    var t, u := Attribute(d, q) + v, ATTR + [q];
    assert t == ATTR + ([q] + (d + [q] + v));
    assert u == ATTR + ([q] + "");
    assert q !in ATTR;
    FrontChars(y, t, u, q);
    if Opening(y + t, q) {
      FindInFront(y[5..], t, q);
      FindInFront(y[5..], u, q);
      FindInGlue(ATTR, q, d + [q] + v);
      FindInGlue(ATTR, q, "");
    }
  }

  lemma FrontChars(y: string, t: string, u: string, q: char)
    requires IsQuote(q) && y != "" && |t| >= 5 && |u| >= 5 && Opening(t, q) && Opening(u, q)
    ensures Opening(y + t, q) <==> Opening(y + u, q)
    ensures Opening(y + t, q) ==> |y| >= 5 && (y + t)[5..] == y[5..] + t && (y + u)[5..] == y[5..] + u
  {
    OpeningChars(y + t, q);
    OpeningChars(y + u, q);
    OpeningChars(t, q);
    OpeningChars(u, q);
    CharOfSum(y, t, 4);
    CharOfSum(y, u, 4);
  }

  lemma LeadTail(x: string, q: char)
    requires x != "" && Lead(x, q)
    ensures !MatchHere(x + (ATTR + [q]), q) && Lead(x[1..], q)
  {
  }

  lemma LeadAtStart(d: string, v: string, q: char, f: string -> string, at: nat)
    requires IsQuote(q) && d != "" && q !in d
    ensures var s, n := "" + (Attribute(d, q) + v), at + |d| + 6;
            && Spans(s, q, at) == [Span(at, n)] + Spans(v, q, n)
            && Matches(s, q) == [d] + Matches(v, q)
            && Replace(s, q, f) == "" + (Attribute(f(d), q) + Replace(v, q, f))
  {
    hide *;
    var t := Attribute(d, q) + v;
    AttributeMatches(d, v, q);
    ReplacedInFront(t, d, v, q, f);
    MatchParts(t, q, at);
    assert "" + t == t;
  }

  lemma {:induction false} LeadScan(x: string, d: string, v: string, q: char, f: string -> string, at: nat)
    requires IsQuote(q) && Lead(x, q) && d != "" && q !in d
    ensures var s, n := x + (Attribute(d, q) + v), at + |x| + |d| + 6;
            && Spans(s, q, at) == [Span(at + |x|, n)] + Spans(v, q, n)
            && Matches(s, q) == [d] + Matches(v, q)
            && Replace(s, q, f) == x + (Attribute(f(d), q) + Replace(v, q, f))
    decreases |x|
  {
    hide *;
    var t := Attribute(d, q) + v;
    if x == "" {
      LeadAtStart(d, v, q, f, at);
    } else {
      LeadTail(x, q);
      LeadStays(x, d, v, q);
      LeadScan(x[1..], d, v, q, f, at + 1);
      ScanSkips(x, t, q, f, at);
      OneMore(x, Attribute(f(d), q) + Replace(v, q, f));
    }
  }

  lemma ReplacedInFront(s: string, d: string, v: string, q: char, f: string -> string)
    requires MatchHere(s, q) && MatchLength(s, q) == |d| + 6 && s[5..|d| + 5] == d && s[|d| + 6..] == v
    ensures Replace(s, q, f) == "" + (Attribute(f(d), q) + Replace(v, q, f))
  {
    assert Replace(s, q, f) == ATTR + ([q] + (f(d) + ([q] + Replace(v, q, f))));
    hide *;
    AttributeThen(f(d), Replace(v, q, f), q);
  }

  lemma AttributeThen(d: string, v: string, q: char)
    ensures Attribute(d, q) + v == ATTR + ([q] + (d + ([q] + v)))
    ensures "" + (Attribute(d, q) + v) == Attribute(d, q) + v
  {
    var a := [q] + (d + ([q] + v));
    assert [q] + (d + [q]) + v == a;
    Regrouped(ATTR, [q] + (d + [q]), v);
  }

  lemma OneMore(x: string, t: string)
    requires x != ""
    ensures [x[0]] + (x[1..] + t) == x + t
  {
  }

  lemma ScanSkips(x: string, t: string, q: char, f: string -> string, at: nat)
    requires x != "" && !MatchHere(x + t, q)
    ensures Spans(x + t, q, at) == Spans(x[1..] + t, q, at + 1)
    ensures Matches(x + t, q) == Matches(x[1..] + t, q)
    ensures Replace(x + t, q, f) == [x[0]] + Replace(x[1..] + t, q, f)
  {
    assert (x + t)[1..] == x[1..] + t;
  }

  /** A text with an attribute, cut at its first one. */
  lemma {:induction false} FirstAttribute(s: string, q: char) returns (x: string, d: string, v: string)
    requires IsQuote(q) && Matches(s, q) != []
    ensures s == x + (Attribute(d, q) + v) && Lead(x, q) && d != "" && q !in d && |v| < |s|
    decreases |s|
  {
    if MatchHere(s, q) {
      var n := MatchLength(s, q);
      x, d, v := "", s[5..n - 1], s[n..];
      assert s[..5] == ATTR + [q] && s[n - 1] == q by { assert s[n - 1] == s[5..][n - 6]; }
      assert q !in d by { assert forall j | 5 <= j < n - 1 :: s[j] == s[5..][j - 5]; }
      FrontAttribute(s, n, q);
    } else {
      x, d, v := FirstAttribute(s[1..], q);
      ghost var y := x;
      x := [s[0]] + x;
      OneMore(x, Attribute(d, q) + v);
      assert x[1..] == y;
      LeadStays(x, d, v, q);
    }
  }

  lemma FrontAttribute(s: string, n: nat, q: char)
    requires 6 < n <= |s| && s[..5] == ATTR + [q] && s[n - 1] == q
    ensures s == "" + (Attribute(s[5..n - 1], q) + s[n..])
  {
    var d := s[5..n - 1];
    AttributeThen(d, s[n..], q);
    assert s == s[..5] + s[5..];
    assert s[5..] == d + ([q] + s[n..]);
    hide *;
    Regrouped(ATTR, [q], d + ([q] + s[n..]));
  }

  // ---------------------------------------------------------------- cutting both scans

  /** The cuts before and after the first attribute of `q`, when the other style respects it. */
  lemma CutAtAttribute(x: string, d: string, v: string, q: char, other: char, at: nat)
    requires Quotes(q, other) && Lead(x, q) && d != "" && q !in d
    requires Uncrossed(x + (Attribute(d, q) + v), q, other, at)
    ensures var a, n, s := Attribute(d, q), at + |x|, x + (Attribute(d, q) + v);
            && (Pending(x, other) ==> other !in a + v) && (Pending(a, other) ==> other !in v)
            && Matches(s, other) == Matches(x, other) + (Matches(a, other) + Matches(v, other))
            && Spans(s, other, at) == Spans(x, other, at) + (Spans(a, other, n) + Spans(v, other, n + |a|))
            && Spans(s, q, at) == [Span(n, n + |a|)] + Spans(v, q, n + |a|)
  {
    hide *;
    CutBeforeAttribute(x, d, v, q, other, at);
    SeamsAround(x, d, v, q);
    SeamCut(Attribute(d, q), v, q, other, at + |x|);
  }

  lemma CutBeforeAttribute(x: string, d: string, v: string, q: char, other: char, at: nat)
    requires Quotes(q, other) && Lead(x, q) && d != "" && q !in d
    requires Uncrossed(x + (Attribute(d, q) + v), q, other, at)
    ensures var a, n, s := Attribute(d, q), at + |x|, x + (Attribute(d, q) + v);
            && (Pending(x, other) ==> other !in a + v)
            && Matches(s, other) == Matches(x, other) + Matches(a + v, other)
            && Spans(s, other, at) == Spans(x, other, at) + Spans(a + v, other, n)
            && Spans(s, q, at) == [Span(n, n + |a|)] + Spans(v, q, n + |a|)
            && NoneAcross(Spans(a + v, other, n), n + |a|)
  {
    hide *;
    var a, n := Attribute(d, q), at + |x|;
    LeadSpans(x, d, v, q, other, at);
    NoneAcrossFirst(x + (a + v), q, other, at, Span(n, n + |a|), Spans(v, q, n + |a|));
    SeamsAround(x, d, v, q);
    SeamCut(x, a + v, q, other, at);
    NoneAcrossTail(Spans(x, other, at), Spans(a + v, other, n), n + |a|);
  }

  lemma LeadSpans(x: string, d: string, v: string, q: char, other: char, at: nat)
    requires Quotes(q, other) && Lead(x, q) && d != "" && q !in d
    ensures var n, a := at + |x|, Attribute(d, q);
            a != "" && Spans(x + (a + v), q, at) == [Span(n, n + |a|)] + Spans(v, q, n + |a|)
  {
    LeadScan(x, d, v, q, (c: string) => c, at);
    assert |Attribute(d, q)| == |d| + 6;
  }

  lemma NoneAcrossFirst(s: string, q: char, other: char, at: nat, first: Span, rest: seq<Span>)
    requires Uncrossed(s, q, other, at) && Spans(s, q, at) == [first] + rest && first.from < first.to
    ensures NoneAcross(Spans(s, other, at), first.from) && NoneAcross(Spans(s, other, at), first.to)
  {
    assert first in Spans(s, q, at);
  }

  lemma SeamsAround(x: string, d: string, v: string, q: char)
    ensures Seam(x, Attribute(d, q) + v, q) && Seam(Attribute(d, q), v, q)
  {
    AttributeThen(d, v, q);
    assert (Attribute(d, q) + v)[..5] == ATTR + [q];
  }

  lemma NoneAcrossTail(ms: seq<Span>, ns: seq<Span>, at: nat)
    requires NoneAcross(ms + ns, at)
    ensures NoneAcross(ns, at)
  {
    assert forall m | m in ns :: m in ms + ns;
  }

  // ---------------------------------------------------------------- one replacement, the other quote

  predicate Unquoted(s: string) {
    '\"' !in s && '\'' !in s
  }

  /** What replaces a group holds no quote, or is the group itself. */
  predicate Plain(f: string -> string, cs: seq<string>) {
    forall c | c in cs :: f(c) == c || (f(c) != "" && Unquoted(f(c)))
  }

  lemma PlainParts(f: string -> string, c: string, cs: seq<string>)
    requires Plain(f, [c] + cs)
    ensures Plain(f, cs) && (f(c) == c || (f(c) != "" && Unquoted(f(c))))
  {
    assert c in [c] + cs && forall x | x in cs :: x in [c] + cs;
  }

  lemma {:induction false} FreeHasNone(s: string, q: char)
    requires q !in s
    ensures Matches(s, q) == [] && !Pending(s, q)
    decreases |s|
  {
    if s != "" {
      OpeningChars(s, q);
      assert !Opening(s, q);
      FreeHasNone(s[1..], q);
    }
  }

  /** The attribute that replaces one keeps the two cuts of the other scan, and holds the
      attributes of the other style that the old one holds, or none. */
  lemma CutAtReplaced(x: string, d: string, v: string, d': string, v': string, q: char, other: char, at: nat)
    requires Quotes(q, other) && Lead(x, q)
    requires d' == d || other !in d'
    requires other !in v ==> other !in v'
    requires Pending(x, other) ==> other !in Attribute(d, q) + v
    requires Pending(Attribute(d, q), other) ==> other !in v
    ensures Matches(x + (Attribute(d', q) + v'), other)
            == Matches(x, other) + ((if d' == d then Matches(Attribute(d, q), other) else []) + Matches(v', other))
    ensures var n, a := at + |x|, Attribute(d', q);
            && Spans(x + (a + v'), other, at) == Spans(x, other, at) + (Spans(a, other, n) + Spans(v', other, n + |a|))
            && (d' != d ==> Spans(a, other, n) == [])
  {
    hide *;
    var a' := Attribute(d', q);
    NothingPending(d, v, d', v', q, other, at + |x|);
    SeamsAround(x, d', v', q);
    InAttribute(d, q, other);
    InAttribute(d', q, other);
    SeamCut(x, a' + v', q, other, at);
    SeamCut(a', v', q, other, at + |x|);
  }

  lemma NothingPending(d: string, v: string, d': string, v': string, q: char, other: char, at: nat)
    requires Quotes(q, other) && (d' == d || other !in d') && (other !in v ==> other !in v')
    requires Pending(Attribute(d, q), other) ==> other !in v
    ensures Pending(Attribute(d', q), other) ==> other !in v'
    ensures d' != d ==> Matches(Attribute(d', q), other) == [] && Spans(Attribute(d', q), other, at) == []
  {
    if d' != d {
      InAttribute(d', q, other);
      FreeHasNone(Attribute(d', q), other);
      AsManySpans(Attribute(d', q), other, at);
    }
  }

  lemma {:induction false} AsManySpans(s: string, q: char, at: nat)
    ensures |Spans(s, q, at)| == |Matches(s, q)|
    decreases |s|
  {
    if s != "" {
      if MatchHere(s, q) {
        MatchParts(s, q, at);
        hide Spans, Matches, MatchHere, Find;
        AsManySpans(s[MatchLength(s, q)..], q, at + MatchLength(s, q));
      } else {
        AsManySpans(s[1..], q, at + 1);
      }
    }
  }

  lemma InAttribute(d: string, q: char, other: char)
    requires Quotes(q, other)
    ensures other in Attribute(d, q) <==> other in d
  {
    var a := Attribute(d, q);
    assert a == ATTR + [q] + d + [q];
    assert other !in ATTR;
  }

  /** Behind the first attribute the rest respects the attributes as the whole does. */
  lemma RestRespects(s: string, x: string, d: string, v: string, q: char, other: char, at: nat)
    requires var n, a := at + |x|, Attribute(d, q);
             && Spans(s, other, at) == Spans(x, other, at) + (Spans(a, other, n) + Spans(v, other, n + |a|))
             && Spans(s, q, at) == [Span(n, n + |a|)] + Spans(v, q, n + |a|)
    ensures var n := at + |x| + |Attribute(d, q)|;
            && (Uncrossed(s, q, other, at) ==> Uncrossed(v, q, other, n))
            && (Apart(s, q, other, at) ==> Apart(v, q, other, n) && Matches(Attribute(d, q), other) == [])
  {
    var n, a := at + |x|, Attribute(d, q);
    assert forall m | m in Spans(v, other, n + |a|) :: m in Spans(s, other, at);
    assert forall m | m in Spans(v, q, n + |a|) :: m in Spans(s, q, at);
    if Apart(s, q, other, at) && Spans(a, other, n) != [] {
      var m := Spans(a, other, n)[0];
      assert m in Spans(s, other, at) && Span(n, n + |a|) in Spans(s, q, at);
      SpansInRange(a, other, n);
      assert false;
    }
    AsManySpans(a, other, n);
  }

  /** Both scans of a text around its first attribute, before and after a replacement. */
  lemma SplitAtFirst(s: string, q: char, f: string -> string, other: char, at: nat)
    returns (x: string, d: string, v: string)
    requires Quotes(q, other) && Uncrossed(s, q, other, at) && Plain(f, Matches(s, q)) && Matches(s, q) != []
    ensures s == x + (Attribute(d, q) + v) && |v| < |s| && Lead(x, q)
    ensures Replace(s, q, f) == x + (Attribute(f(d), q) + Replace(v, q, f))
    ensures f(d) != "" && q !in f(d) && (f(d) == d || other !in f(d)) && Plain(f, Matches(v, q))
    ensures Matches(s, other) == Matches(x, other) + (Matches(Attribute(d, q), other) + Matches(v, other))
    ensures Pending(x, other) ==> other !in Attribute(d, q) + v
    ensures Pending(Attribute(d, q), other) ==> other !in v
    ensures Uncrossed(v, q, other, at + |x| + |Attribute(d, q)|)
    ensures Apart(s, q, other, at) ==>
              Apart(v, q, other, at + |x| + |Attribute(d, q)|) && Matches(Attribute(d, q), other) == []
  {
    assert IsQuote(q) && IsQuote(other);
    hide *;
    x, d, v := FirstAttribute(s, q);
    LeadScan(x, d, v, q, f, at);
    PlainParts(f, d, Matches(v, q));
    PlainIsFree(d, f(d), other);
    PlainFits(d, f(d), q);
    CutAtAttribute(x, d, v, q, other, at);
    RestRespects(s, x, d, v, q, other, at);
  }

  /** Replacing the groups of one quote style, in a text where no attribute crosses another:
      the other style is left with groups it had before, and with all of them when no
      attribute lies inside another. */
  lemma {:induction false} OtherQuoteKeepsItsGroups(s: string, q: char, f: string -> string, other: char, at: nat)
    requires Quotes(q, other) && Uncrossed(s, q, other, at) && Plain(f, Matches(s, q))
    ensures var r := Replace(s, q, f);
            && (forall c | c in Matches(r, other) :: c in Matches(s, other))
            && (Apart(s, q, other, at) ==> Matches(r, other) == Matches(s, other))
            && (other !in s ==> other !in r)
    decreases |s|
  {
    hide *;
    if Matches(s, q) == [] {
      NoneReplaced(s, q, f, other, at);
    } else {
      var x, d, v := SplitAtFirst(s, q, f, other, at);
      var a, a', v' := Attribute(d, q), Attribute(f(d), q), Replace(v, q, f);
      OtherQuoteKeepsItsGroups(v, q, f, other, at + |x| + |a|);
      CutAtReplaced(x, d, v, f(d), v', q, other, at);
      FreeAfter(x, d, v, f(d), v', q, other);
      KeptGroups(Matches(x, other), Matches(a, other), Matches(v, other), if f(d) == d then Matches(a, other) else [], Matches(v', other));
    }
  }

  lemma FreeAfter(x: string, d: string, v: string, d': string, v': string, q: char, other: char)
    requires Quotes(q, other) && (d' == d || other !in d') && (other !in v ==> other !in v')
    ensures other !in x + (Attribute(d, q) + v) ==> other !in x + (Attribute(d', q) + v')
  {
    InAttribute(d, q, other);
    InAttribute(d', q, other);
    FreeInParts(x, Attribute(d, q), v, other);
    FreeInParts(x, Attribute(d', q), v', other);
  }

  lemma KeptGroups(x: seq<string>, a: seq<string>, v: seq<string>, a': seq<string>, v': seq<string>)
    requires (a' == a || a' == []) && forall c | c in v' :: c in v
    ensures forall c | c in x + (a' + v') :: c in x + (a + v)
    ensures a == [] && v' == v ==> x + (a' + v') == x + (a + v)
  {
  }

  lemma FreeInParts(x: string, a: string, v: string, c: char)
    ensures c !in x + (a + v) <==> c !in x && c !in a && c !in v
  {
  }

  lemma PlainIsFree(d: string, d': string, other: char)
    requires IsQuote(other) && (d' == d || (d' != "" && Unquoted(d')))
    ensures d' == d || other !in d'
  {
  }

  /** Attributes that keep apart do so after a replacement, wherever the text starts. */
  lemma {:induction false} ApartAfterReplace(s: string, q: char, f: string -> string, other: char, at: nat, to: nat)
    requires Quotes(q, other) && Apart(s, q, other, at) && Plain(f, Matches(s, q))
    ensures Apart(Replace(s, q, f), q, other, to)
    decreases |s|
  {
    hide *;
    if Matches(s, q) == [] {
      NoneReplaced(s, q, f, other, to);
    } else {
      ApartIsUncrossed(s, q, other, at);
      var x, d, v := SplitAtFirst(s, q, f, other, at);
      var n := at + |x| + |Attribute(d, q)|;
      OtherQuoteKeepsItsGroups(v, q, f, other, n);
      ApartAfterReplace(v, q, f, other, n, to + |x| + |Attribute(f(d), q)|);
      ApartStep(x, d, v, f(d), Replace(v, q, f), q, other, to);
    }
  }

  lemma NoneReplaced(s: string, q: char, f: string -> string, other: char, at: nat)
    requires Quotes(q, other) && Matches(s, q) == []
    ensures Replace(s, q, f) == s && Apart(s, q, other, at)
  {
    NothingReplaced(s, q, f);
    AsManySpans(s, q, at);
  }

  lemma ApartStep(x: string, d: string, v: string, d': string, v': string, q: char, other: char, at: nat)
    requires Quotes(q, other) && Lead(x, q) && d' != "" && q !in d' && (d' == d || other !in d')
    requires other !in v ==> other !in v'
    requires Pending(x, other) ==> other !in Attribute(d, q) + v
    requires Pending(Attribute(d, q), other) ==> other !in v
    requires Matches(Attribute(d, q), other) == []
    requires Apart(v', q, other, at + |x| + |Attribute(d', q)|)
    ensures Apart(x + (Attribute(d', q) + v'), q, other, at)
  {
    hide *;
    var a := Attribute(d', q);
    CutAtReplaced(x, d, v, d', v', q, other, at);
    AsManySpans(a, other, at + |x|);
    LeadSpans(x, d', v', q, other, at);
    ApartJoins(x, a, v', q, other, at);
  }

  lemma PlainFits(d: string, d': string, q: char)
    requires IsQuote(q) && d != "" && q !in d && (d' == d || (d' != "" && Unquoted(d')))
    ensures d' != "" && q !in d'
  {
  }

  lemma ApartIsUncrossed(s: string, q: char, other: char, at: nat)
    ensures Apart(s, q, other, at) ==> Uncrossed(s, q, other, at)
    ensures Apart(s, q, other, at) <==> Apart(s, other, q, at)
  {
    assert forall a, b :: Beside(a, b) <==> Beside(b, a);
  }

  lemma ApartJoins(x: string, a: string, v: string, q: char, other: char, at: nat)
    requires var n, s := at + |x|, x + (a + v);
             && a != "" && Apart(v, q, other, n + |a|)
             && Spans(s, other, at) == Spans(x, other, at) + ([] + Spans(v, other, n + |a|))
             && Spans(s, q, at) == [Span(n, n + |a|)] + Spans(v, q, n + |a|)
    ensures Apart(x + (a + v), q, other, at)
  {
    var n, s := at + |x|, x + (a + v);
    SpansInRange(x, other, at);
    SpansInRange(v, other, n + |a|);
    SpansInRange(v, q, n + |a|);
    forall m, d | m in Spans(s, other, at) && d in Spans(s, q, at)
      ensures Beside(m, d)
    {
      assert m in Spans(x, other, at) || m in Spans(v, other, n + |a|);
      assert d == Span(n, n + |a|) || d in Spans(v, q, n + |a|);
    }
  }

  lemma {:induction false} GroupsHaveNoQuote(s: string, q: char)
    ensures forall c | c in Matches(s, q) :: c != "" && q !in c
    decreases |s|
  {
    if s != "" {
      if MatchHere(s, q) {
        var k := 5 + Find(s[5..], q);
        assert forall j | 5 <= j < k :: s[j] == s[5..][j - 5];
        GroupsHaveNoQuote(s[k + 1..], q);
      } else {
        GroupsHaveNoQuote(s[1..], q);
      }
    }
  }

  lemma PlainFitsAll(f: string -> string, s: string, q: char)
    requires IsQuote(q) && Plain(f, Matches(s, q))
    ensures Fits(f, q, Matches(s, q))
  {
    GroupsHaveNoQuote(s, q);
  }

  /** Both passes over a text whose attributes keep apart: each replaces the groups of its own
      quote style, in their places, and nothing of the other. */
  lemma TwoPasses(s: string, f: string -> string)
    requires Apart(s, '\"', '\'', 0) && Plain(f, Matches(s, '\"')) && Plain(f, Matches(s, '\''))
    ensures var out := Replace(Replace(s, '\"', f), '\'', f);
            && Matches(out, '\"') == Map(f, Matches(s, '\"'))
            && Matches(out, '\'') == Map(f, Matches(s, '\''))
            && Apart(out, '\"', '\'', 0)
  {
    var r := Replace(s, '\"', f);
    ApartIsUncrossed(s, '\"', '\'', 0);
    OtherQuoteKeepsItsGroups(s, '\"', f, '\'', 0);
    ApartAfterReplace(s, '\"', f, '\'', 0, 0);
    PlainFitsAll(f, s, '\"');
    MatchesOfReplace(s, '\"', f);
    ApartIsUncrossed(r, '\"', '\'', 0);
    ApartIsUncrossed(r, '\'', '\"', 0);
    OtherQuoteKeepsItsGroups(r, '\'', f, '\"', 0);
    ApartAfterReplace(r, '\'', f, '\"', 0, 0);
    PlainFitsAll(f, r, '\'');
    MatchesOfReplace(r, '\'', f);
    ApartIsUncrossed(Replace(r, '\'', f), '\'', '\"', 0);
  }

  // ---------------------------------------------------------------- attributes that hold others

  /** A replacement works on both sides of a seam by itself when nothing pending is closed. */
  lemma {:induction false} SeamReplace(a: string, b: string, q: char, other: char, f: string -> string)
    requires Quotes(q, other) && Seam(a, b, q) && (Pending(a, other) ==> other !in b)
    ensures Replace(a + b, other, f) == Replace(a, other, f) + Replace(b, other, f)
    decreases |a|
  {
    if a == "" {
      assert a + b == b;
    } else if MatchHere(a, other) {
      var n := MatchLength(a, other);
      MatchInFront(a, b, other);
      SeamReplace(a[n..], b, q, other, f);
      ReplaceAfterMatch(a, b, other, f);
    } else {
      MatchAcross(a, b, q, other);
      SeamReplace(a[1..], b, q, other, f);
      ReplaceAfterSkip(a, b, other, f);
    }
  }

  lemma ReplaceAfterMatch(a: string, b: string, q: char, f: string -> string)
    requires MatchHere(a, q) && MatchHere(a + b, q) && MatchLength(a + b, q) == MatchLength(a, q)
    requires var n := MatchLength(a, q);
             && (a + b)[n..] == a[n..] + b && (a + b)[5..n - 1] == a[5..n - 1]
             && Replace(a[n..] + b, q, f) == Replace(a[n..], q, f) + Replace(b, q, f)
    ensures Replace(a + b, q, f) == Replace(a, q, f) + Replace(b, q, f)
  {
    var n := MatchLength(a, q);
    var d, r := a[5..n - 1], Replace(a[n..], q, f);
    assert Replace(a, q, f) == ATTR + ([q] + (f(d) + ([q] + r)));
    assert Replace(a + b, q, f) == ATTR + ([q] + (f(d) + ([q] + (r + Replace(b, q, f)))));
    hide *;
    AttributeThen(f(d), r, q);
    AttributeThen(f(d), r + Replace(b, q, f), q);
    Regrouped(Attribute(f(d), q), r, Replace(b, q, f));
  }

  lemma SkipsFirst(a: string, b: string)
    requires a != ""
    ensures (a + b)[1..] == a[1..] + b && (a + b)[0] == a[0]
  {
  }

  lemma ReplaceAfterSkip(a: string, b: string, q: char, f: string -> string)
    requires a != "" && !MatchHere(a, q) && !MatchHere(a + b, q)
    requires Replace(a[1..] + b, q, f) == Replace(a[1..], q, f) + Replace(b, q, f)
    ensures Replace(a + b, q, f) == Replace(a, q, f) + Replace(b, q, f)
  {
    SkipsFirst(a, b);
    assert Replace(a + b, q, f) == [a[0]] + Replace(a[1..] + b, q, f);
    assert Replace(a, q, f) == [a[0]] + Replace(a[1..], q, f);
    hide *;
    Regrouped([a[0]], Replace(a[1..], q, f), Replace(b, q, f));
  }

  lemma CharsOfSlice(s: string, from: nat, to: nat)
    requires from <= to <= |s|
    ensures forall i | from <= i < to :: s[i] in s[from..to]
  {
    assert forall i | from <= i < to :: s[i] == s[from..to][i - from];
  }

  /** No attribute whose value is free of `c` reaches across a quote `c`. */
  lemma {:induction false} NoneAcrossFree(s: string, q: char, c: char, i: nat, at: nat)
    requires Quotes(q, c) && i < |s| && s[i] == c && forall d | d in Matches(s, q) :: c !in d
    ensures NoneAcross(Spans(s, q, at), at + i + 1)
    decreases |s|
  {
    if MatchHere(s, q) {
      var n := MatchLength(s, q);
      MatchIsFree(s, q, c, i, at);
      hide *;
      NoneAcrossFree(s[n..], q, c, i - n, at + n);
      NoneAcrossCons(Span(at, at + n), Spans(s[n..], q, at + n), at + i + 1);
    } else if i > 0 {
      NoneAcrossFree(s[1..], q, c, i - 1, at + 1);
    } else {
      SpansInRange(s[1..], q, at + 1);
    }
  }

  lemma FreeParts(s: string, q: char, c: char, d: string, ds: seq<string>)
    requires Matches(s, q) == [d] + ds && forall d | d in Matches(s, q) :: c !in d
    ensures c !in d && forall d | d in ds :: c !in d
  {
    assert d in Matches(s, q) && forall x | x in ds :: x in Matches(s, q);
  }

  lemma MatchIsFree(s: string, q: char, c: char, i: nat, at: nat)
    requires Quotes(q, c) && MatchHere(s, q) && i < |s| && s[i] == c && forall d | d in Matches(s, q) :: c !in d
    ensures var n := MatchLength(s, q);
            && n <= i && (forall d | d in Matches(s[n..], q) :: c !in d)
            && Spans(s, q, at) == [Span(at, at + n)] + Spans(s[n..], q, at + n)
  {
    var n := MatchLength(s, q);
    MatchParts(s, q, at);
    hide *;
    FreeParts(s, q, c, s[5..n - 1], Matches(s[n..], q));
    MatchChars(s, q, c, i);
  }

  lemma MatchParts(s: string, q: char, at: nat)
    requires MatchHere(s, q)
    ensures var n := MatchLength(s, q);
            && Spans(s, q, at) == [Span(at, at + n)] + Spans(s[n..], q, at + n)
            && Matches(s, q) == [s[5..n - 1]] + Matches(s[n..], q)
  {
  }

  lemma MatchChars(s: string, q: char, c: char, i: nat)
    requires Quotes(q, c) && MatchHere(s, q) && i < |s| && s[i] == c && c !in s[5..MatchLength(s, q) - 1]
    ensures MatchLength(s, q) <= i
  {
    var n := MatchLength(s, q);
    OpeningChars(s, q);
    assert s[n - 1] == s[5..][n - 6] == q;
    CharsOfSlice(s, 5, n - 1);
  }

  /** No group of quote `q` contains `c`. */
  predicate FreeOf(s: string, q: char, c: char) {
    forall d | d in Matches(s, q) :: c !in d
  }

  /** What both scans make of an attribute of the other style in front. */
  lemma HolderInFront(c: string, w: string, q: char, other: char, f: string -> string)
    requires Quotes(q, other) && c != "" && other !in c && FreeOf(Attribute(c, other) + w, q, other)
    ensures Replace(Attribute(c, other) + w, q, f) == Attribute(Replace(c, q, f), other) + Replace(w, q, f)
    ensures Matches(Attribute(c, other) + w, q) == Matches(c, q) + Matches(w, q)
  {
    var a := Attribute(c, other);
    var s := a + w;
    assert a[|a| - 1] == other && s[|a| - 1] == other;
    NoneAcrossFree(s, q, other, |a| - 1, 0);
    SeamCut(a, w, other, q, 0);
    SeamReplace(a, w, other, q, f);
    InsideHolder(c, q, other, f);
  }

  lemma InsideHolder(c: string, q: char, other: char, f: string -> string)
    requires Quotes(q, other)
    ensures Replace(Attribute(c, other), q, f) == Attribute(Replace(c, q, f), other)
    ensures Matches(Attribute(c, other), q) == Matches(c, q)
  {
    var front := ATTR + [other];
    assert Attribute(c, other) == front + (c + [other]) by { Regrouped(ATTR, [other], c + [other]); }
    assert q !in front && front[|front| - 1] == other;
    FreeHasNone(front, q);
    NothingReplaced(front, q, f);
    SeamCut(front, c + [other], other, q, 0);
    SeamReplace(front, c + [other], other, q, f);
    assert q !in [other];
    FreeHasNone([other], q);
    NothingReplaced([other], q, f);
    SeamCut(c, [other], other, q, 0);
    SeamReplace(c, [other], other, q, f);
    assert Matches(c, q) + [] == Matches(c, q) && [] + Matches(c, q) == Matches(c, q);
    Regrouped(ATTR, [other], Replace(c, q, f) + [other]);
  }

  /** A replacement of groups free of the other quote neither opens nor closes an attribute of
      the other style in front of a text. */
  lemma FrontIsKept(s: string, q: char, other: char, f: string -> string)
    requires Quotes(q, other) && s != "" && !MatchHere(s, q) && !MatchHere(s, other)
    requires Plain(f, Matches(s, q)) && FreeOf(s, q, other)
    ensures !MatchHere(Replace(s, q, f), other)
  {
    var r := Replace(s, q, f);
    if Opening(s, other) {
      var front, u := ATTR + [other], s[5..];
      assert s == front + u && front[|front| - 1] == other && q !in front;
      FreeHasNone(front, q);
      NothingReplaced(front, q, f);
      SeamCut(front, u, other, q, 0);
      SeamReplace(front, u, other, q, f);
      assert r == front + Replace(u, q, f);
      assert r[5..] == Replace(u, q, f);
      assert Plain(f, Matches(u, q)) && FreeOf(u, q, other);
      FirstQuoteIsKept(u, q, other, f);
    } else {
      OpeningIsKept(s, q, other, f);
    }
  }

  /** Whether the other quote occurs at all, and whether it comes first. */
  lemma FirstQuoteIsKept(u: string, q: char, other: char, f: string -> string)
    requires Quotes(q, other) && Plain(f, Matches(u, q)) && FreeOf(u, q, other)
    ensures Find(u, other) == |u| ==> Find(Replace(u, q, f), other) == |Replace(u, q, f)|
    ensures Find(u, other) == 0 ==> Find(Replace(u, q, f), other) == 0
  {
    FindIffIn(u, other);
    FindIffIn(Replace(u, q, f), other);
    if other !in u {
      ReplaceIsFree(u, q, f, other);
    }
  }

  lemma OpeningIsKept(s: string, q: char, other: char, f: string -> string)
    requires Quotes(q, other) && s != "" && !MatchHere(s, q) && !Opening(s, other)
    ensures !Opening(Replace(s, q, f), other)
  {
    if Matches(s, q) == [] {
      NothingReplaced(s, q, f);
    } else {
      var x, d, v := FirstAttribute(s, q);
      LeadScan(x, d, v, q, f, 0);
      AttributeMatches(d, v, q);
      AttributeThen(d, v, q);
      OpeningChars(s, other);
      OpeningChars(Replace(s, q, f), other);
      assert Replace(s, q, f)[|x|] == 'U';
    }
  }

  /** Replacing the groups of one quote style, none of which holds the other quote: the groups
      of the other style are found again in their places, each with the replacement done
      inside it. */
  lemma {:induction false} HoldersAreReplacedInside(s: string, q: char, f: string -> string, other: char)
    requires Quotes(q, other) && Plain(f, Matches(s, q)) && FreeOf(s, q, other)
    ensures Matches(Replace(s, q, f), other) == Map((c: string) => Replace(c, q, f), Matches(s, other))
    decreases |s|
  {
    var g := (c: string) => Replace(c, q, f);
    if s != "" {
      if MatchHere(s, q) {
        var n := MatchLength(s, q);
        HeldInFront(s, q, f, other);
        HoldersAreReplacedInside(s[n..], q, f, other);
      } else if MatchHere(s, other) {
        var n := MatchLength(s, other);
        HolderAhead(s, q, f, other);
        HoldersAreReplacedInside(s[n..], q, f, other);
        assert Map(g, [s[5..n - 1]] + Matches(s[n..], other)) == [g(s[5..n - 1])] + Map(g, Matches(s[n..], other));
      } else {
        FrontIsKept(s, q, other, f);
        HoldersAreReplacedInside(s[1..], q, f, other);
        assert ([s[0]] + Replace(s[1..], q, f))[1..] == Replace(s[1..], q, f);
      }
    }
  }

  lemma HeldInFront(s: string, q: char, f: string -> string, other: char)
    requires Quotes(q, other) && MatchHere(s, q) && Plain(f, Matches(s, q)) && FreeOf(s, q, other)
    ensures var v := s[MatchLength(s, q)..];
            && Plain(f, Matches(v, q)) && FreeOf(v, q, other) && Matches(s, other) == Matches(v, other)
            && Matches(Replace(s, q, f), other) == Matches(Replace(v, q, f), other)
  {
    var n := MatchLength(s, q);
    var d, v := s[5..n - 1], s[n..];
    assert Matches(s, q) == [d] + Matches(v, q);
    PlainParts(f, d, Matches(v, q));
    assert d in Matches(s, q) && forall x | x in Matches(v, q) :: x in Matches(s, q);
    assert s[n - 1] == s[5..][n - 6] == q;
    FrontAttribute(s, n, q);
    PlainIsFree(d, f(d), other);
    ReplacedInFront(s, d, v, q, f);
    BehindFree(d, v, q, other);
    BehindFree(f(d), Replace(v, q, f), q, other);
  }

  lemma BehindFree(d: string, v: string, q: char, other: char)
    requires Quotes(q, other) && other !in d
    ensures Matches("" + (Attribute(d, q) + v), other) == Matches(v, other)
  {
    var a := Attribute(d, q);
    AttributeThen(d, v, q);
    InAttribute(d, q, other);
    FreeHasNone(a, other);
    SeamsAround("", d, v, q);
    SeamCut(a, v, q, other, 0);
    assert [] + Matches(v, other) == Matches(v, other);
  }

  lemma HolderAhead(s: string, q: char, f: string -> string, other: char)
    requires Quotes(q, other) && MatchHere(s, other) && Plain(f, Matches(s, q)) && FreeOf(s, q, other)
    ensures var n := MatchLength(s, other);
            var c, w := s[5..n - 1], s[n..];
            && Plain(f, Matches(w, q)) && FreeOf(w, q, other) && Matches(s, other) == [c] + Matches(w, other)
            && Matches(Replace(s, q, f), other) == [Replace(c, q, f)] + Matches(Replace(w, q, f), other)
  {
    var n := MatchLength(s, other);
    var c, w := s[5..n - 1], s[n..];
    HolderShape(s, other);
    assert other == '\"' || other == '\'';
    hide *;
    HolderInFront(c, w, q, other, f);
    GroupsOfParts(s, c, w, q, other, f);
    ReplacedHolder(c, q, other, f);
    AttributeFound(Replace(c, q, f), Replace(w, q, f), other);
  }

  lemma HolderShape(s: string, q: char)
    requires MatchHere(s, q)
    ensures var n := MatchLength(s, q);
            var c, w := s[5..n - 1], s[n..];
            c != "" && q !in c && s == Attribute(c, q) + w && Matches(s, q) == [c] + Matches(w, q)
  {
    var n := MatchLength(s, q);
    var c, w := s[5..n - 1], s[n..];
    assert Matches(s, q) == [c] + Matches(w, q);
    FirstGroupIsFree(s, q, c, Matches(w, q));
    assert s[n - 1] == s[5..][n - 6] == q;
    hide *;
    FrontAttribute(s, n, q);
    AttributeThen(c, w, q);
  }

  lemma FirstGroupIsFree(s: string, q: char, c: string, cs: seq<string>)
    requires Matches(s, q) == [c] + cs
    ensures c != "" && q !in c
  {
    GroupsHaveNoQuote(s, q);
    assert c in Matches(s, q);
  }

  lemma GroupsOfParts(s: string, c: string, w: string, q: char, other: char, f: string -> string)
    requires Matches(s, q) == Matches(c, q) + Matches(w, q) && Plain(f, Matches(s, q)) && FreeOf(s, q, other)
    ensures Plain(f, Matches(c, q)) && FreeOf(c, q, other) && Plain(f, Matches(w, q)) && FreeOf(w, q, other)
  {
    assert forall x | x in Matches(w, q) :: x in Matches(s, q);
    assert forall x | x in Matches(c, q) :: x in Matches(s, q);
  }

  lemma ReplacedHolder(c: string, q: char, other: char, f: string -> string)
    requires Quotes(q, other) && c != "" && other !in c && Plain(f, Matches(c, q)) && FreeOf(c, q, other)
    ensures Replace(c, q, f) != "" && other !in Replace(c, q, f)
  {
    ReplaceIsFree(c, q, f, other);
  }

  lemma AttributeFound(d: string, v: string, q: char)
    requires d != "" && q !in d && (q == '\"' || q == '\'')
    ensures Matches(Attribute(d, q) + v, q) == [d] + Matches(v, q)
  {
    AttributeMatches(d, v, q);
  }

  lemma {:induction false} HeldAreGroups(s: string, q: char, other: char)
    requires Quotes(q, other) && FreeOf(s, q, other)
    ensures forall c, d | c in Matches(s, other) && d in Matches(c, q) :: d in Matches(s, q)
    decreases |s|
  {
    var f := (c: string) => c;
    if s != "" {
      if MatchHere(s, q) {
        HeldInFront(s, q, f, other);
        HeldAreGroups(s[MatchLength(s, q)..], q, other);
      } else if MatchHere(s, other) {
        var n := MatchLength(s, other);
        HolderAhead(s, q, f, other);
        HeldAreGroups(s[n..], q, other);
        HolderGroups(s, q, other);
      } else {
        HeldAreGroups(s[1..], q, other);
      }
    }
  }

  lemma HolderGroups(s: string, q: char, other: char)
    requires Quotes(q, other) && MatchHere(s, other) && FreeOf(s, q, other)
    ensures var n := MatchLength(s, other); Matches(s, q) == Matches(s[5..n - 1], q) + Matches(s[n..], q)
  {
    var n := MatchLength(s, other);
    HolderShape(s, other);
    HolderInFront(s[5..n - 1], s[n..], q, other, (x: string) => x);
  }

  /** When no group of `q` holds the other quote, replacing those groups leaves the other style
      as it was exactly when no group of the other style holds one that changes. */
  lemma OtherQuoteUnchangedIff(s: string, q: char, f: string -> string, other: char)
    requires Quotes(q, other) && Plain(f, Matches(s, q)) && FreeOf(s, q, other)
    ensures Matches(Replace(s, q, f), other) == Matches(s, other)
            <==> forall c, d | c in Matches(s, other) && d in Matches(c, q) :: f(d) == d
  {
    hide *;
    HoldersAreReplacedInside(s, q, f, other);
    forall c | c in Matches(s, other)
      ensures Replace(c, q, f) == c <==> forall d | d in Matches(c, q) :: f(d) == d
    {
      HolderInText(s, c, q, f, other);
    }
    MapKeepsIff((c: string) => Replace(c, q, f), Matches(s, other));
  }

  lemma HolderInText(s: string, c: string, q: char, f: string -> string, other: char)
    requires Quotes(q, other) && Plain(f, Matches(s, q)) && FreeOf(s, q, other) && c in Matches(s, other)
    ensures Replace(c, q, f) == c <==> forall d | d in Matches(c, q) :: f(d) == d
  {
    HeldAreGroups(s, q, other);
    HolderUnchangedIff(c, q, f);
  }

  lemma HolderUnchangedIff(c: string, q: char, f: string -> string)
    requires IsQuote(q) && Plain(f, Matches(c, q))
    ensures Replace(c, q, f) == c <==> forall d | d in Matches(c, q) :: f(d) == d
  {
    if Replace(c, q, f) == c {
      PlainFitsAll(f, c, q);
      MatchesOfReplace(c, q, f);
      MapKeepsIff(f, Matches(c, q));
    }
    if forall d | d in Matches(c, q) :: f(d) == d {
      NothingReplaced(c, q, f);
    }
  }

  lemma MapKeepsIff(f: string -> string, cs: seq<string>)
    ensures Map(f, cs) == cs <==> forall c | c in cs :: f(c) == c
  {
    if Map(f, cs) == cs {
      forall c | c in cs
        ensures f(c) == c
      {
        var i :| 0 <= i < |cs| && cs[i] == c;
        assert Map(f, cs)[i] == f(cs[i]);
      }
    }
    if forall c | c in cs :: f(c) == c {
      assert forall i | 0 <= i < |cs| :: cs[i] in cs && Map(f, cs)[i] == cs[i];
    }
  }

  // ---------------------------------------------------------------- texts with one attribute

  /** A match has two quotes. */
  lemma FindAfterOpening(s: string, q: char)
    ensures MatchHere(s, q) ==> Find(s, q) < |s| - 1
  {
    OpeningChars(s, q);
  }

  lemma {:induction false} FreeLeads(x: string, q: char)
    requires IsQuote(q) && q !in x
    ensures Lead(x, q)
    decreases |x|
  {
    if x != "" {
      var s := x + (ATTR + [q]);
      OpeningChars(s, q);
      FindInGlue(x + ATTR, q, "");
      assert s == x + ATTR + ([q] + "");
      FindAfterOpening(s, q);
      FreeLeads(x[1..], q);
    }
  }

  /** One attribute between texts without its quote. */
  lemma OneAttribute(x: string, d: string, y: string, q: char, f: string -> string)
    requires IsQuote(q) && q !in x && Matches(y, q) == [] && q !in d && d != ""
    ensures var s := x + (Attribute(d, q) + y); Matches(s, q) == [d] && Replace(s, q, f) == x + (Attribute(f(d), q) + y)
  {
    FreeLeads(x, q);
    LeadScan(x, d, y, q, f, 0);
    NothingReplaced(y, q, f);
  }

  lemma HoldersDiffer(x: string, b: string, b': string, y: string)
    requires '\"' !in b
    ensures var c, c' := x + (Attribute(b, '\"') + y), x + (Attribute(b', '\"') + y); c' != b && (c' == c <==> b' == b)
  {
    var c' := x + (Attribute(b', '\"') + y);
    assert c'[|x| + 4] == '\"';
    if b' != b {
      if |b'| == |b| {
        var i :| 0 <= i < |b| && b[i] != b'[i];
        assert (x + (Attribute(b, '\"') + y))[|x| + 5 + i] == b[i] && c'[|x| + 5 + i] == b'[i];
      }
    }
  }

  lemma NestedMatches(p: string, x: string, b: string, y: string, f: string -> string)
    requires Unquoted(p) && Unquoted(x) && Unquoted(b) && Unquoted(y)
    requires b != ""
    ensures var c := x + (Attribute(b, '\"') + y);
            var line := p + (Attribute(c, '\'') + "");
            && Matches(line, '\'') == [c] && Matches(line, '\"') == [b]
            && Replace(c, '\"', f) == x + (Attribute(f(b), '\"') + y)
  {
    var c := x + (Attribute(b, '\"') + y);
    InAttribute(b, '\"', '\'');
    var front, back := p + (ATTR + (['\''] + x)), y + ['\''];
    FreeHasNone(y, '\"');
    FreeHasNone(back, '\"');
    InFront(p, x, '\'', '\"');
    InBehind(y, '\'', '\"');
    Renested(p, x, Attribute(b, '\"'), y, '\'');
    FreeInParts(x, Attribute(b, '\"'), y, '\'');
    NotEmpty(x, b, y, '\"');
    hide *;
    OneAttribute(x, b, y, '\"', f);
    OneAttribute(p, c, "", '\'', f);
    OneAttribute(front, b, back, '\"', f);
  }

  lemma NotEmpty(x: string, b: string, y: string, q: char)
    ensures x + (Attribute(b, q) + y) != ""
  {
    assert |Attribute(b, q)| > 0;
  }

  lemma InFront(p: string, x: string, q: char, other: char)
    requires Quotes(q, other) && other !in p && other !in x
    ensures other !in p + (ATTR + ([q] + x))
  {
    assert other !in ATTR;
  }

  lemma InBehind(y: string, q: char, other: char)
    requires Quotes(q, other) && other !in y
    ensures other !in y + [q]
  {
  }

  /** The same text, cut at the outer or at the inner attribute. */
  lemma Renested(p: string, x: string, a: string, y: string, q: char)
    ensures p + (Attribute(x + (a + y), q) + "") == p + (ATTR + ([q] + x)) + (a + (y + [q]))
  {
    var c := x + (a + y);
    assert c + [q] == x + (a + (y + [q]));
    hide *;
    Assemble(ATTR, [q], x, a + (y + [q]));
    assert Attribute(c, q) + "" == ATTR + ([q] + (c + [q])) by { AttributeIs(c, q); }
    Regrouped(p, ATTR + ([q] + x), a + (y + [q]));
  }

  lemma AttributeIs(c: string, q: char)
    ensures Attribute(c, q) + "" == ATTR + ([q] + (c + [q]))
  {
  }

  lemma Assemble(a: string, b: string, c: string, d: string)
    ensures a + (b + (c + d)) == (a + (b + c)) + d
  {
  }

  /** A double-quoted value that opens a single-quoted attribute, closed by the opening of the
      next: the scan of single quotes finds what lies between, and not the next one. */
  lemma CrossingMatches(p: string, x: string, y: string, z: string, b: string, f: string -> string)
    requires Unquoted(p) && Unquoted(x) && Unquoted(y) && Unquoted(z) && Unquoted(b) && b != ""
    ensures var d, g := x + (ATTR + (['\''] + y)), y + (['\"'] + (z + ATTR));
            var rest := z + (Attribute(b, '\'') + "");
            var line := p + (Attribute(d, '\"') + rest);
            && Matches(line, '\"') == [d] && Matches(line, '\'') == [g]
            && Replace(line, '\"', f) == p + (Attribute(f(d), '\"') + rest)
  {
    var d, g := x + (ATTR + (['\''] + y)), y + (['\"'] + (z + ATTR));
    var front, rest := p + (ATTR + (['\"'] + x)), z + (Attribute(b, '\'') + "");
    InFront(x, y, '\'', '\"');
    InFront(p, x, '\"', '\'');
    CrossingParts(y, z, b, x);
    Recrossed(p, x, y, z, b);
    FreeHasNone(rest, '\"');
    LoneQuote(b, '\'');
    hide *;
    OneAttribute(p, d, rest, '\"', f);
    OneAttribute(front, g, b + ['\''], '\'', f);
  }

  lemma CrossingParts(y: string, z: string, b: string, x: string)
    requires Unquoted(y) && Unquoted(z) && Unquoted(b)
    ensures '\'' !in y + (['\"'] + (z + ATTR)) && y + (['\"'] + (z + ATTR)) != ""
    ensures '\"' !in z + (Attribute(b, '\'') + "")
    ensures x + (ATTR + (['\''] + y)) != ""
  {
    InAttribute(b, '\'', '\"');
    assert '\'' !in ATTR;
  }

  lemma LoneQuote(b: string, q: char)
    requires IsQuote(q) && q !in b
    ensures Matches(b + [q], q) == []
  {
    assert b + [q] == b + ([q] + "");
    PiecesCons(b, "", q);
    MatchesByPieces(b + [q], q);
  }

  lemma Recrossed(p: string, x: string, y: string, z: string, b: string)
    ensures var d, g := x + (ATTR + (['\''] + y)), y + (['\"'] + (z + ATTR));
            p + (Attribute(d, '\"') + (z + (Attribute(b, '\'') + "")))
            == p + (ATTR + (['\"'] + x)) + (Attribute(g, '\'') + (b + ['\'']))
  {
    var d, g := x + (ATTR + (['\''] + y)), y + (['\"'] + (z + ATTR));
    var t := ['\''] + (b + ['\'']);
    var u := ['\"'] + (z + (ATTR + t));
    AttributeIs(b, '\'');
    Behind(x, y, u);
    Behind2(y, z, t, b);
    assert Attribute(d, '\"') + (z + (ATTR + t)) == ATTR + (['\"'] + (d + u)) by { AttributeThen(d, z + (ATTR + t), '\"'); }
    assert Attribute(g, '\'') + (b + ['\'']) == ATTR + (['\''] + (g + t)) by { AttributeThen(g, b + ['\''], '\''); }
    hide *;
    Assemble(ATTR, ['\"'], x, ATTR + (['\''] + (y + u)));
    Regrouped(p, ATTR + (['\"'] + x), ATTR + (['\''] + (y + u)));
  }

  lemma Behind(x: string, y: string, u: string)
    ensures x + (ATTR + (['\''] + y)) + u == x + (ATTR + (['\''] + (y + u)))
  {
    Assemble(ATTR, ['\''], y, u);
    Regrouped(x, ATTR + (['\''] + y), u);
  }

  lemma Behind2(y: string, z: string, t: string, b: string)
    ensures y + (['\"'] + (z + ATTR)) + t == y + (['\"'] + (z + (ATTR + t)))
  {
    Assemble(['\"'], z, ATTR, t);
    Regrouped(y, ['\"'] + (z + ATTR), t);
  }

  /** Without an opening in the double-quoted value the single-quoted attribute is found. */
  lemma CrossingAfter(p: string, d: string, z: string, b: string)
    requires Unquoted(p) && Unquoted(d) && Unquoted(z) && Unquoted(b) && b != ""
    ensures Matches(p + (Attribute(d, '\"') + (z + (Attribute(b, '\'') + ""))), '\'') == [b]
  {
    var a, c := Attribute(d, '\"'), Attribute(b, '\'') + "";
    InAttribute(d, '\"', '\'');
    FreeInParts(p, a, z, '\'');
    Regrouped(a, z, c);
    Regrouped(p, a + z, c);
    OneAttribute(p + (a + z), b, "", '\'', (s: string) => s);
  }
}
