/** The text operations under the playlist rewriter: lines, trimming, and the two regular
    expressions `URI="([^"]+)"` and `URI='([^']+)'`. */
module HlsText {
  import opened Js

  // ---------------------------------------------------------------- spaces and lines

  /** What `trim` removes: white space and line terminators. */
  predicate IsSpace(c: char) {
    var n := c as int;
    9 <= n <= 13 || n == 0x20 || n == 0xA0 || n == 0x1680 || 0x2000 <= n <= 0x200A || n == 0x2028 || n == 0x2029
    || n == 0x202F || n == 0x205F || n == 0x3000 || n == 0xFEFF
  }

  function TrimEnd(s: string): (t: string)
    ensures t <= s && (t != "" ==> !IsSpace(t[|t| - 1])) && forall i | |t| <= i < |s| :: IsSpace(s[i])
  {
    if s != "" && IsSpace(s[|s| - 1]) then TrimEnd(s[..|s| - 1]) else s
  }

  /** How many leading characters are space. */
  function Indent(s: string): (n: nat)
    ensures n <= |s| && (n < |s| ==> !IsSpace(s[n])) && forall i | 0 <= i < n :: IsSpace(s[i])
  {
    if s != "" && IsSpace(s[0]) then 1 + Indent(s[1..]) else 0
  }

  function Trim(s: string): string {
    var t := TrimEnd(s);
    t[Indent(t)..]
  }

  /** Index of the first `c`, or the length. */
  function Find(s: string, c: char): (i: nat)
    ensures i <= |s| && (i < |s| ==> s[i] == c) && forall j | 0 <= j < i :: s[j] != c
  {
    if s == "" || s[0] == c then 0 else 1 + Find(s[1..], c)
  }

  /** Where the line before the line feed at `i` ends: `\r\n` is one separator. */
  function LineEnd(s: string, i: nat): (e: nat)
    requires i < |s|
    ensures e <= i
  {
    if i > 0 && s[i - 1] == '\r' then i - 1 else i
  }

  /** `split(/\r?\n/)` */
  function Lines(s: string): (ls: seq<string>)
    ensures |ls| >= 1
    decreases |s|
  {
    var i := Find(s, '\n');
    if i == |s| then [s] else [s[..LineEnd(s, i)]] + Lines(s[i + 1..])
  }

  /** `join("\n")` */
  function Join(ls: seq<string>): string {
    if ls == [] then "" else if |ls| == 1 then ls[0] else ls[0] + (['\n'] + Join(ls[1..]))
  }

  /** The text with every `\r\n` replaced by `\n`. */
  function WithoutCr(s: string): string {
    if |s| < 2 then s
    else if s[0] == '\r' && s[1] == '\n' then WithoutCr(s[1..])
    else [s[0]] + WithoutCr(s[1..])
  }

  lemma {:induction false} WithoutCrPrefix(a: string, b: string)
    requires '\n' !in a && (a != "" ==> a[|a| - 1] != '\r' || b == "" || b[0] != '\n')
    ensures WithoutCr(a + b) == a + WithoutCr(b)
  {
    if a == "" {
      assert a + b == b;
    } else if |a + b| < 2 {
      assert a + b == a;
    } else {
      assert (a + b)[1..] == a[1..] + b;
      WithoutCrPrefix(a[1..], b);
    }
  }

  lemma LfStays(a: string, rest: string)
    requires '\n' !in a && (a != "" ==> a[|a| - 1] != '\r')
    ensures WithoutCr(a + (['\n'] + rest)) == a + (['\n'] + WithoutCr(rest))
  {
    LineFeedStays(rest);
    WithoutCrPrefix(a, ['\n'] + rest);
  }

  lemma CrLfBecomesLf(a: string, rest: string)
    requires '\n' !in a
    ensures WithoutCr(a + (['\r'] + (['\n'] + rest))) == a + (['\n'] + WithoutCr(rest))
  {
    LineFeedStays(rest);
    var t := ['\r'] + (['\n'] + rest);
    WithoutCrPrefix(a, t);
    assert t[1..] == ['\n'] + rest;
  }

  lemma CutAt(s: string, i: nat)
    requires i < |s|
    ensures s == s[..i] + ([s[i]] + s[i + 1..])
  {
  }

  /** The first line is `a`, its separator is one of the two, and `rest` follows. */
  lemma FirstLine(s: string) returns (a: string, rest: string, crlf: bool)
    requires Find(s, '\n') < |s|
    ensures '\n' !in a && |rest| < |s| && Lines(s) == [a] + Lines(rest)
    ensures if crlf then s == a + (['\r'] + (['\n'] + rest)) else s == a + (['\n'] + rest) && (a != "" ==> a[|a| - 1] != '\r')
  {
    var i := Find(s, '\n');
    var e := LineEnd(s, i);
    a, rest, crlf := s[..e], s[i + 1..], e < i;
    assert Lines(s) == [a] + Lines(rest);
    assert s[i] == '\n' && (e < i ==> e + 1 == i && s[e] == '\r') && (e == i > 0 ==> s[e - 1] != '\r');
    FreePrefix(s, e, '\n');
    hide *;
    if crlf {
      CutTwice(s, e);
    } else {
      CutAt(s, e);
    }
  }

  lemma CutTwice(s: string, i: nat)
    requires i + 1 < |s|
    ensures s == s[..i] + ([s[i]] + ([s[i + 1]] + s[i + 2..]))
  {
  }

  lemma FreePrefix(s: string, e: nat, c: char)
    requires e <= |s| && forall j | 0 <= j < e :: s[j] != c
    ensures c !in s[..e]
  {
  }

  /** Splitting and joining only turns `\r\n` into `\n`. */
  lemma {:induction false} JoinedLines(s: string)
    ensures Join(Lines(s)) == WithoutCr(s)
    decreases |s|
  {
    if Find(s, '\n') == |s| {
      assert s + "" == s;
      WithoutCrPrefix(s, "");
    } else {
      var a, rest, crlf := FirstLine(s);
      hide Lines, Find;
      JoinedLines(rest);
      JoinCons(a, Lines(rest));
      hide Join, WithoutCr;
      if crlf {
        CrLfBecomesLf(a, rest);
      } else {
        LfStays(a, rest);
      }
    }
  }

  lemma JoinCons(a: string, ls: seq<string>)
    requires ls != []
    ensures Join([a] + ls) == a + (['\n'] + Join(ls))
  {
    assert ([a] + ls)[1..] == ls;
  }

  lemma LineFeedStays(rest: string)
    ensures WithoutCr(['\n'] + rest) == ['\n'] + WithoutCr(rest)
  {
    var t := ['\n'] + rest;
    if |t| >= 2 {
      assert t[1..] == rest && t[0] == '\n';
    }
  }

  lemma {:induction false} LinesHaveNoLineFeed(s: string)
    ensures forall l | l in Lines(s) :: '\n' !in l
    decreases |s|
  {
    var i := Find(s, '\n');
    if i < |s| {
      LinesHaveNoLineFeed(s[i + 1..]);
    }
  }

  function WithoutLastCr(l: string): string {
    if l != "" && l[|l| - 1] == '\r' then l[..|l| - 1] else l
  }

  /** Lines joined and split again are the same lines, but for a carriage return at the end of
      one that is not the last. */
  lemma {:induction false} LinesOfJoined(ls: seq<string>)
    requires ls != [] && forall l | l in ls :: '\n' !in l
    ensures |Lines(Join(ls))| == |ls|
    ensures forall i | 0 <= i < |ls| ::
              Lines(Join(ls))[i] == if i + 1 < |ls| then WithoutLastCr(ls[i]) else ls[i]
    decreases |ls|
  {
    hide *;
    assert ls[0] in ls && ls == [ls[0]] + ls[1..];
    if |ls| > 1 {
      LinesOfJoined(ls[1..]);
      LinesCons(ls[0], Join(ls[1..]));
      JoinCons(ls[0], ls[1..]);
    } else {
      OneLine(ls[0]);
      assert ls == [ls[0]];
    }
  }

  lemma OneLine(l: string)
    requires '\n' !in l
    ensures Lines(l) == [l] && Join([l]) == l
  {
    assert forall j | 0 <= j < |l| :: l[j] in l;
  }

  lemma LinesCons(l: string, rest: string)
    requires '\n' !in l
    ensures Lines(l + (['\n'] + rest)) == [WithoutLastCr(l)] + Lines(rest)
  {
    var s := l + (['\n'] + rest);
    FindInGlue(l, '\n', rest);
    Around(l, '\n', rest);
    assert |l| > 0 ==> s[|l| - 1] == l[|l| - 1];
    assert s[..LineEnd(s, |l|)] == WithoutLastCr(l);
  }

  // ---------------------------------------------------------------- the expressions

  const ATTR: string := "URI="

  predicate Opens(s: string) {
    |s| >= 4 && s[|s| - 4..] == ATTR
  }

  predicate MatchHere(s: string, q: char) {
    && |s| > 5 && s[..5] == ATTR + [q]
    && 0 < Find(s[5..], q) < |s| - 5
  }

  /** The captured groups of `URI=q([^q]+)q`, scanned from the left without overlap. */
  function Matches(s: string, q: char): seq<string>
    decreases |s|
  {
    if s == "" then []
    else if MatchHere(s, q) then
      var k := 5 + Find(s[5..], q);
      [s[5..k]] + Matches(s[k + 1..], q)
    else Matches(s[1..], q)
  }

  /** `replace` with the expression: each captured group becomes `f(group)`, re-wrapped. */
  function Replace(s: string, q: char, f: string -> string): string
    decreases |s|
  {
    if s == "" then ""
    else if MatchHere(s, q) then
      var k := 5 + Find(s[5..], q);
      ATTR + ([q] + (f(s[5..k]) + ([q] + Replace(s[k + 1..], q, f))))
    else [s[0]] + Replace(s[1..], q, f)
  }

  // The same by pieces: the text between quotes.

  function Pieces(s: string, q: char): (ps: seq<string>)
    ensures |ps| >= 1 && forall i | 0 <= i < |ps| :: q !in ps[i]
    decreases |s|
  {
    var i := Find(s, q);
    if i == |s| then [s] else [s[..i]] + Pieces(s[i + 1..], q)
  }

  function Glue(ps: seq<string>, q: char): string {
    if ps == [] then "" else if |ps| == 1 then ps[0] else ps[0] + ([q] + Glue(ps[1..], q))
  }

  function Found(ps: seq<string>): seq<string>
    decreases |ps|
  {
    if |ps| < 3 then []
    else if Opens(ps[0]) && ps[1] != "" then [ps[1]] + Found(ps[2..])
    else Found(ps[1..])
  }

  function Swapped(ps: seq<string>, f: string -> string): (r: seq<string>)
    ensures |r| == |ps| && (ps != [] ==> r[0] == ps[0])
    decreases |ps|
  {
    if |ps| < 3 then ps
    else if Opens(ps[0]) && ps[1] != "" then [ps[0], f(ps[1])] + Swapped(ps[2..], f)
    else [ps[0]] + Swapped(ps[1..], f)
  }

  lemma {:induction false} GlueOfPieces(s: string, q: char)
    ensures Glue(Pieces(s, q), q) == s
    decreases |s|
  {
    var i := Find(s, q);
    if i < |s| {
      GlueOfPieces(s[i + 1..], q);
      GlueCons(s[..i], Pieces(s[i + 1..], q), q);
      hide Pieces, Glue;
      CutAt(s, i);
    }
  }

  lemma GlueCons(p: string, ps: seq<string>, q: char)
    requires ps != []
    ensures Glue([p] + ps, q) == p + ([q] + Glue(ps, q))
  {
    assert ([p] + ps)[1..] == ps;
  }

  lemma {:induction false} FindInGlue(a: string, q: char, rest: string)
    requires q !in a
    ensures Find(a + ([q] + rest), q) == |a|
  {
    var s := a + ([q] + rest);
    assert s[|a|] == q && forall j | 0 <= j < |a| :: s[j] == a[j] && a[j] in a;
  }

  lemma PiecesCons(a: string, rest: string, q: char)
    requires q !in a
    ensures Pieces(a + ([q] + rest), q) == [a] + Pieces(rest, q)
  {
    FindInGlue(a, q, rest);
    Around(a, q, rest);
  }

  lemma Around(a: string, q: char, rest: string)
    ensures var s := a + ([q] + rest); s[..|a|] == a && s[|a| + 1..] == rest
  {
  }

  lemma Regrouped(a: string, b: string, c: string)
    ensures a + (b + c) == (a + b) + c
  {
  }

  lemma TailOfSum(a: string, b: string)
    requires a != ""
    ensures (a + b)[1..] == a[1..] + b
  {
  }

  /** A text with a quote, cut at its first one. */
  lemma AtFirstQuote(s: string, q: char) returns (a: string, rest: string)
    requires Find(s, q) < |s|
    ensures q !in a && s == a + ([q] + rest) && |rest| < |s| && Pieces(s, q) == [a] + Pieces(rest, q) && |a| == Find(s, q)
  {
    var i := Find(s, q);
    a, rest := s[..i], s[i + 1..];
    CutAt(s, i);
    FreePrefix(s, i, q);
  }

  lemma {:induction false} PiecesOfGlue(ps: seq<string>, q: char)
    requires ps != [] && forall i | 0 <= i < |ps| :: q !in ps[i]
    ensures Pieces(Glue(ps, q), q) == ps
    decreases |ps|
  {
    if |ps| == 1 {
      assert forall j | 0 <= j < |ps[0]| :: ps[0][j] in ps[0];
    } else {
      var rest := Glue(ps[1..], q);
      FindInGlue(ps[0], q, rest);
      PiecesOfGlue(ps[1..], q);
      var s := ps[0] + ([q] + rest);
      assert s[..|ps[0]|] == ps[0] && s[|ps[0]| + 1..] == rest;
    }
  }

  /** Dropping the first character drops it from the first piece, or drops an empty piece. */
  lemma PiecesOfTail(s: string, q: char)
    requires s != ""
    ensures var ps := Pieces(s, q);
            if s[0] == q then ps[0] == "" && Pieces(s[1..], q) == ps[1..] && |ps| >= 2
            else ps[0] != "" && ps[0][0] == s[0] && Pieces(s[1..], q) == [ps[0][1..]] + ps[1..]
  {
    if Find(s, q) < |s| {
      var a, rest := AtFirstQuote(s, q);
      if s[0] == q {
        assert a == "";
        assert s[1..] == rest by { assert "" + ([q] + rest) == [q] + rest; }
      } else {
        hide *;
        TailOfSum(a, [q] + rest);
        PiecesCons(a[1..], rest, q);
      }
    } else {
      assert q !in s[1..];
      NoQuoteOnePiece(s, q);
      NoQuoteOnePiece(s[1..], q);
    }
  }

  lemma NoQuoteOnePiece(s: string, q: char)
    requires q !in s
    ensures Pieces(s, q) == [s]
  {
    assert forall j | 0 <= j < |s| :: s[j] in s;
  }

  /** A match at the front is a first piece `URI=`, a non-empty second piece and a third. */
  lemma FrontMatch(s: string, q: char)
    requires q != 'U' && q != 'R' && q != 'I' && q != '='
    ensures var ps := Pieces(s, q);
            && (MatchHere(s, q) <==> |ps| >= 3 && ps[0] == ATTR && ps[1] != "")
            && (MatchHere(s, q) ==>
                  var k := 5 + Find(s[5..], q);
                  ps[1] == s[5..k] && Pieces(s[k + 1..], q) == ps[2..])
  {
    var ps := Pieces(s, q);
    if |ps| >= 3 && ps[0] == ATTR && ps[1] != "" {
      AttrInFront(s, q);
    }
    hide Pieces, Find;
    if |s| > 5 && s[..5] == ATTR + [q] {
      PiecesOfAttr(s, q);
    }
  }

  lemma BehindTwo(x: string, y: string, ps: seq<string>)
    ensures var all := [x] + ([y] + ps); |all| == |ps| + 2 && all[0] == x && all[1] == y && all[2..] == ps
  {
  }

  lemma PiecesOfAttr(s: string, q: char)
    requires q != 'U' && q != 'R' && q != 'I' && q != '=' && |s| > 5 && s[..5] == ATTR + [q]
    ensures var ps, k := Pieces(s, q), Find(s[5..], q);
            && ps[0] == ATTR
            && (if k < |s| - 5
                then |ps| >= 3 && |ps[1]| == k && ps[1] == s[5..5 + k] && ps[2..] == Pieces(s[5 + k + 1..], q)
                else |ps| == 2)
  {
    var t := s[5..];
    StartsWithAttr(s, q);
    PiecesCons(ATTR, t, q);
    var k := Find(t, q);
    if k < |t| {
      var c, rest := AtFirstQuote(t, q);
      AfterMatch(s, t, k, c, rest, q);
      hide *;
      BehindTwo(ATTR, c, Pieces(rest, q));
    } else {
      NoQuoteOnePiece(t, q) by { assert forall j | 0 <= j < |t| :: t[j] != q; }
    }
  }

  lemma AttrInFront(s: string, q: char)
    requires var ps := Pieces(s, q); |ps| >= 3 && ps[0] == ATTR && ps[1] != ""
    ensures |s| > 5 && s[..5] == ATTR + [q]
  {
    var ps := Pieces(s, q);
    GlueOfPieces(s, q);
    hide Pieces, Glue, Find;
    var rest := ps[1..];
    assert ps == [ps[0]] + rest;
    GlueCons(ps[0], rest, q);
    GlueIsLonger(rest, q);
    FrontOf(Glue(rest, q), q);
  }

  lemma GlueIsLonger(ps: seq<string>, q: char)
    requires |ps| >= 2
    ensures |Glue(ps, q)| >= |ps[0]| + 1
  {
  }

  lemma FrontOf(rest: string, q: char)
    ensures (ATTR + ([q] + rest))[..5] == ATTR + [q]
  {
  }

  lemma StartsWithAttr(s: string, q: char)
    requires |s| > 5 && s[..5] == ATTR + [q] && q != 'U' && q != 'R' && q != 'I' && q != '='
    ensures s == ATTR + ([q] + s[5..]) && q !in ATTR
  {
  }

  lemma AfterMatch(s: string, t: string, k: nat, c: string, rest: string, q: char)
    requires |s| > 5 && t == s[5..] && k < |t| && t == c + ([q] + rest) && |c| == k
    ensures s[5..5 + k] == c && s[5 + k + 1..] == rest
  {
    assert s[5..5 + k] == t[..k] && s[5 + k + 1..] == t[k + 1..];
  }

  /** The scan by characters and the one by pieces find the same groups. */
  lemma {:induction false} MatchesByPieces(s: string, q: char)
    requires q != 'U' && q != 'R' && q != 'I' && q != '='
    ensures Matches(s, q) == Found(Pieces(s, q))
    decreases |s|
  {
    if s != "" {
      FrontMatch(s, q);
      if MatchHere(s, q) {
        MatchesByPieces(s[5 + Find(s[5..], q) + 1..], q);
      } else {
        MatchesByPieces(s[1..], q);
        PiecesOfTail(s, q);
        OpensOfTail(Pieces(s, q)[0]);
        FoundStep(Pieces(s, q));
      }
    }
  }

  lemma FoundStep(ps: seq<string>)
    requires ps != [] && !(|ps| >= 3 && ps[0] == ATTR && ps[1] != "") && (ps[0] == "" ==> |ps| >= 2)
    requires ps[0] != "" && ps[0] != ATTR ==> (Opens(ps[0]) <==> Opens(ps[0][1..]))
    ensures Found(ps) == Found(if ps[0] == "" then ps[1..] else [ps[0][1..]] + ps[1..])
  {
    if ps[0] != "" {
      var tail := [ps[0][1..]] + ps[1..];
      assert tail[1..] == ps[1..] && (|ps| >= 2 ==> tail[2..] == ps[2..]);
    }
  }

  lemma OpensOfTail(a: string)
    ensures a != "" && a != ATTR ==> (Opens(a) <==> Opens(a[1..]))
  {
    if |a| > 4 {
      assert a[1..][|a| - 5..] == a[|a| - 4..];
    } else if |a| == 4 {
      assert a[0..] == a;
    }
  }

  lemma {:induction false} ReplaceByPieces(s: string, q: char, f: string -> string)
    requires q != 'U' && q != 'R' && q != 'I' && q != '='
    ensures Replace(s, q, f) == Glue(Swapped(Pieces(s, q), f), q)
    decreases |s|
  {
    if s != "" {
      var ps := Pieces(s, q);
      FrontMatch(s, q);
      if MatchHere(s, q) {
        var rest := s[5 + Find(s[5..], q) + 1..];
        ReplaceByPieces(rest, q, f);
        assert Replace(s, q, f) == ATTR + ([q] + (f(ps[1]) + ([q] + Replace(rest, q, f))));
        AttrOpens();
        GlueOfMatch(ps, q, f);
      } else {
        assert Replace(s, q, f) == [s[0]] + Replace(s[1..], q, f);
        ReplaceByPieces(s[1..], q, f);
        PiecesOfTail(s, q);
        OpensOfTail(ps[0]);
        ReplaceStep(s[0], ps, q, f);
      }
    }
  }

  lemma AttrOpens()
    ensures Opens(ATTR)
  {
    assert ATTR[0..] == ATTR;
  }

  lemma SwappedMatch(ps: seq<string>, f: string -> string)
    requires |ps| >= 3 && Opens(ps[0]) && ps[1] != ""
    ensures Swapped(ps, f) == [ps[0]] + ([f(ps[1])] + Swapped(ps[2..], f))
  {
    hide Opens;
    var sw := Swapped(ps, f);
    assert sw == [ps[0], f(ps[1])] + Swapped(ps[2..], f);
  }

  lemma GlueOfMatch(ps: seq<string>, q: char, f: string -> string)
    requires |ps| >= 3 && Opens(ps[0]) && ps[1] != ""
    ensures Glue(Swapped(ps, f), q) == ps[0] + ([q] + (f(ps[1]) + ([q] + Glue(Swapped(ps[2..], f), q))))
  {
    hide *;
    var rest := Swapped(ps[2..], f);
    SwappedMatch(ps, f);
    GlueCons(f(ps[1]), rest, q);
    GlueCons(ps[0], [f(ps[1])] + rest, q);
  }

  /** One character further: the first piece loses it, or is an empty piece before a quote. */
  lemma ReplaceStep(c: char, ps: seq<string>, q: char, f: string -> string)
    requires ps != [] && !(|ps| >= 3 && ps[0] == ATTR && ps[1] != "")
    requires ps[0] == "" ==> |ps| >= 2 && c == q
    requires ps[0] != "" ==> ps[0][0] == c
    requires ps[0] != "" && ps[0] != ATTR ==> (Opens(ps[0]) <==> Opens(ps[0][1..]))
    ensures var tail := if ps[0] == "" then ps[1..] else [ps[0][1..]] + ps[1..];
            Glue(Swapped(ps, f), q) == [c] + Glue(Swapped(tail, f), q)
  {
    if ps[0] == "" {
      SwappedSkips(ps, f);
      hide *;
      GlueCons("", Swapped(ps[1..], f), q);
      assert "" + ([q] + Glue(Swapped(ps[1..], f), q)) == [c] + Glue(Swapped(ps[1..], f), q);
    } else {
      SwappedTail(c, ps, f);
      hide *;
      var tail := [ps[0][1..]] + ps[1..];
      var st := Swapped(tail, f);
      assert ps[0] == [c] + ps[0][1..];
      GlueGrows(c, st, q);
    }
  }

  lemma SwappedSkips(ps: seq<string>, f: string -> string)
    requires |ps| >= 2 && !(|ps| >= 3 && Opens(ps[0]) && ps[1] != "")
    ensures Swapped(ps, f) == [ps[0]] + Swapped(ps[1..], f)
  {
    if |ps| == 2 {
      assert Swapped(ps[1..], f) == ps[1..] && ps == [ps[0]] + ps[1..];
    }
  }

  /** A first piece with one more character in front is swapped in the same way. */
  lemma SwappedTail(c: char, ps: seq<string>, f: string -> string)
    requires ps != [] && ps[0] != "" && ps[0][0] == c && !(|ps| >= 3 && ps[0] == ATTR && ps[1] != "")
    requires ps[0] != ATTR ==> (Opens(ps[0]) <==> Opens(ps[0][1..]))
    ensures var st := Swapped([ps[0][1..]] + ps[1..], f);
            Swapped(ps, f) == [[c] + st[0]] + st[1..]
  {
    hide Swapped, Opens;
    var x := ps[0][1..];
    var tail := [x] + ps[1..];
    assert ps[0] == [c] + x && ps == [ps[0]] + ps[1..];
    OtherHead(x, ps);
    if |ps| == 1 {
      SwappedOne(ps[0], f);
      SwappedOne(x, f);
    } else if |ps| >= 3 && Opens(ps[0]) && ps[1] != "" {
      SwappedMatch(ps, f);
      SwappedMatch(tail, f);
    } else {
      ShortDoesNotOpen(x);
      SwappedSkips(ps, f);
      SwappedSkips(tail, f);
    }
  }

  lemma OtherHead(x: string, ps: seq<string>)
    requires ps != []
    ensures var tail := [x] + ps[1..];
            tail[1..] == ps[1..] && (|ps| >= 2 ==> tail[1] == ps[1] && tail[2..] == ps[2..])
  {
  }

  lemma ShortDoesNotOpen(x: string)
    ensures |x| < 4 ==> !Opens(x)
  {
  }

  lemma SwappedOne(x: string, f: string -> string)
    ensures Swapped([x], f) == [x]
  {
  }

  lemma GlueGrows(c: char, ps: seq<string>, q: char)
    requires ps != []
    ensures Glue([[c] + ps[0]] + ps[1..], q) == [c] + Glue(ps, q)
  {
    if |ps| == 1 {
      assert [[c] + ps[0]] + ps[1..] == [[c] + ps[0]];
    } else {
      assert ps == [ps[0]] + ps[1..];
      GlueCons(ps[0], ps[1..], q);
      GlueCons([c] + ps[0], ps[1..], q);
      hide *;
      Regrouped([c], ps[0], [q] + Glue(ps[1..], q));
    }
  }

  // ---------------------------------------------------------------- what a replacement changes

  function Map(f: string -> string, cs: seq<string>): (r: seq<string>)
    ensures |r| == |cs| && forall i | 0 <= i < |r| :: r[i] == f(cs[i])
  {
    if cs == [] then [] else [f(cs[0])] + Map(f, cs[1..])
  }

  predicate IsQuote(q: char) {
    q == '\"' || q == '\''
  }

  /** A replaced group can stand between the quotes of the expression. */
  predicate Fits(f: string -> string, q: char, cs: seq<string>) {
    forall c | c in cs :: f(c) != "" && q !in f(c)
  }

  lemma {:induction false} FoundSwapped(ps: seq<string>, f: string -> string, q: char)
    requires Fits(f, q, Found(ps)) && forall i | 0 <= i < |ps| :: q !in ps[i]
    ensures Found(Swapped(ps, f)) == Map(f, Found(ps))
    ensures forall i | 0 <= i < |ps| :: q !in Swapped(ps, f)[i]
    decreases |ps|
  {
    if |ps| >= 3 {
      if Opens(ps[0]) && ps[1] != "" {
        assert Found(ps) == [ps[1]] + Found(ps[2..]) && Swapped(ps, f) == [ps[0], f(ps[1])] + Swapped(ps[2..], f);
        FitsParts(f, q, ps[1], Found(ps[2..]));
        FoundSwapped(ps[2..], f, q);
        FoundPair(ps[0], f(ps[1]), Swapped(ps[2..], f));
        hide Opens, Found, Swapped, Fits;
        assert Map(f, [ps[1]] + Found(ps[2..])) == [f(ps[1])] + Map(f, Found(ps[2..]));
      } else {
        FoundSwapped(ps[1..], f, q);
        assert Swapped(ps, f)[1..] == Swapped(ps[1..], f);
      }
    }
  }

  lemma FitsParts(f: string -> string, q: char, c: string, cs: seq<string>)
    requires Fits(f, q, [c] + cs)
    ensures Fits(f, q, cs) && f(c) != "" && q !in f(c)
  {
    assert c in [c] + cs && forall x | x in cs :: x in [c] + cs;
  }

  lemma FoundPair(x: string, y: string, rest: seq<string>)
    requires Opens(x) && y != "" && rest != []
    ensures Found([x, y] + rest) == [y] + Found(rest)
  {
    assert ([x, y] + rest)[2..] == rest;
  }

  /** After a replacement the expression finds the replaced groups, in the same places. */
  lemma MatchesOfReplace(s: string, q: char, f: string -> string)
    requires IsQuote(q) && Fits(f, q, Matches(s, q))
    ensures Matches(Replace(s, q, f), q) == Map(f, Matches(s, q))
  {
    MatchesByPieces(s, q);
    ReplaceByPieces(s, q, f);
    MatchesByPieces(Replace(s, q, f), q);
    FoundSwapped(Pieces(s, q), f, q);
    PiecesOfGlue(Swapped(Pieces(s, q), f), q);
  }

  lemma {:induction false} SwappedByItself(ps: seq<string>, f: string -> string)
    requires forall c | c in Found(ps) :: f(c) == c
    ensures Swapped(ps, f) == ps
    decreases |ps|
  {
    if |ps| >= 3 {
      hide Opens;
      assert ps == [ps[0]] + ps[1..];
      if Opens(ps[0]) && ps[1] != "" {
        assert Found(ps) == [ps[1]] + Found(ps[2..]);
        SwappedMatch(ps, f);
        hide Found, Swapped;
        SwappedByItself(ps[2..], f);
        assert ps[1..] == [ps[1]] + ps[2..];
      } else {
        assert Found(ps) == Found(ps[1..]);
        SwappedSkips(ps, f);
        hide Found, Swapped;
        SwappedByItself(ps[1..], f);
      }
    }
  }

  lemma NothingReplaced(s: string, q: char, f: string -> string)
    requires IsQuote(q) && forall c | c in Matches(s, q) :: f(c) == c
    ensures Replace(s, q, f) == s
  {
    MatchesByPieces(s, q);
    ReplaceByPieces(s, q, f);
    SwappedByItself(Pieces(s, q), f);
    GlueOfPieces(s, q);
  }

  lemma {:induction false} GlueIsFree(ps: seq<string>, q: char, c: char)
    requires c != q && forall i | 0 <= i < |ps| :: c !in ps[i]
    ensures c !in Glue(ps, q)
    decreases |ps|
  {
    if |ps| > 1 {
      GlueIsFree(ps[1..], q, c);
    }
  }

  lemma {:induction false} PiecesAreFree(s: string, q: char, c: char)
    requires c !in s
    ensures forall i | 0 <= i < |Pieces(s, q)| :: c !in Pieces(s, q)[i]
    decreases |s|
  {
    var i := Find(s, q);
    if i < |s| {
      PiecesAreFree(s[i + 1..], q, c);
    }
  }

  lemma {:induction false} SwappedIsFree(ps: seq<string>, f: string -> string, c: char)
    requires (forall i | 0 <= i < |ps| :: c !in ps[i]) && forall x | x in Found(ps) :: c !in f(x)
    ensures forall i | 0 <= i < |ps| :: c !in Swapped(ps, f)[i]
    decreases |ps|
  {
    if |ps| >= 3 {
      if Opens(ps[0]) && ps[1] != "" {
        assert Found(ps)[0] == ps[1] && forall x | x in Found(ps[2..]) :: x in Found(ps);
        SwappedIsFree(ps[2..], f, c);
      } else {
        SwappedIsFree(ps[1..], f, c);
      }
    }
  }

  /** A character absent from the text and from the replacements is absent from the result. */
  lemma ReplaceIsFree(s: string, q: char, f: string -> string, c: char)
    requires IsQuote(q) && c != q && c !in s && forall x | x in Matches(s, q) :: c !in f(x)
    ensures c !in Replace(s, q, f)
  {
    MatchesByPieces(s, q);
    ReplaceByPieces(s, q, f);
    PiecesAreFree(s, q, c);
    SwappedIsFree(Pieces(s, q), f, c);
    GlueIsFree(Swapped(Pieces(s, q), f), q, c);
  }

  // ---------------------------------------------------------------- the first visible character

  function FirstInk(s: string): Option<char> {
    if Indent(s) < |s| then Some(s[Indent(s)]) else None
  }

  lemma TrimStartsWithInk(s: string)
    ensures if FirstInk(s).Some? then Trim(s) != "" && Trim(s)[0] == FirstInk(s).value else Trim(s) == ""
  {
    var t, n := TrimEnd(s), Indent(s);
    if n < |s| {
      assert n < |t|;
      SameIndent(t, n);
    } else {
      assert t == "";
    }
  }

  lemma SameIndent(t: string, n: nat)
    requires n < |t| && !IsSpace(t[n]) && forall i | 0 <= i < n :: IsSpace(t[i])
    ensures Indent(t) == n
  {
  }

  lemma InkIsBeforeQuote(a: string, q: char, rest: string, other: string)
    requires IsQuote(q)
    ensures FirstInk(a + ([q] + rest)) == FirstInk(a + ([q] + other))
  {
    var s, t := a + ([q] + rest), a + ([q] + other);
    assert !IsSpace(q) && s[|a|] == q && t[|a|] == q;
    assert Indent(s) <= |a|;
    assert forall i | 0 <= i <= |a| :: s[i] == t[i];
    SameIndent(t, Indent(s));
  }

  lemma ReplaceKeepsInk(s: string, q: char, f: string -> string)
    requires IsQuote(q)
    ensures FirstInk(Replace(s, q, f)) == FirstInk(s)
  {
    var ps := Pieces(s, q);
    ReplaceByPieces(s, q, f);
    GlueOfPieces(s, q);
    if |ps| > 1 {
      var sw := Swapped(ps, f);
      InkIsBeforeQuote(ps[0], q, Glue(ps[1..], q), Glue(sw[1..], q));
    }
  }

  // ---------------------------------------------------------------- lines of a text

  /** The scan of a line does not end inside an attribute: what its quotes open they close. */
  predicate Closed(ps: seq<string>)
    decreases |ps|
  {
    if |ps| < 3 then |ps| == 2 ==> !Opens(ps[0])
    else if Opens(ps[0]) && ps[1] != "" then Closed(ps[2..])
    else Closed(ps[1..])
  }

  /** Pieces of two texts with a separator between them: one piece reaches across. */
  function Bridge(a: seq<string>, sep: string, b: seq<string>): seq<string>
    requires a != [] && b != []
  {
    a[..|a| - 1] + [a[|a| - 1] + sep + b[0]] + b[1..]
  }

  lemma {:induction false} PiecesOfJoined(s: string, sep: string, t: string, q: char)
    requires q !in sep
    ensures Pieces(s + sep + t, q) == Bridge(Pieces(s, q), sep, Pieces(t, q))
    decreases |s|
  {
    if Find(s, q) < |s| {
      var a, rest := AtFirstQuote(s, q);
      hide *;
      PiecesOfJoined(rest, sep, t, q);
      PiecesCons(a, rest + sep + t, q);
      BridgeCons(a, Pieces(rest, q), sep, Pieces(t, q));
      Shifted(a, [q], rest, sep, t);
    } else {
      assert q !in s by { assert forall j | 0 <= j < |s| :: s[j] != q; }
      hide *;
      NoQuoteOnePiece(s, q);
      PrefixJoinsFirst(s + sep, t, q);
      BridgeOne(s, sep, Pieces(t, q));
    }
  }

  lemma Shifted(a: string, b: string, c: string, d: string, e: string)
    ensures (a + (b + c)) + d + e == a + (b + (c + d + e))
  {
    Regrouped(a, b, c);
    Regrouped(a + b, c, d);
    Regrouped(a + b, c + d, e);
    Regrouped(a, b, c + d + e);
  }

  lemma BridgeOne(x: string, sep: string, b: seq<string>)
    requires b != []
    ensures Bridge([x], sep, b) == [x + sep + b[0]] + b[1..]
  {
  }

  lemma BridgeCons(p: string, a: seq<string>, sep: string, b: seq<string>)
    requires a != [] && b != []
    ensures Bridge([p] + a, sep, b) == [p] + Bridge(a, sep, b)
  {
    assert ([p] + a)[..|a|] == [p] + a[..|a| - 1];
  }

  lemma PrefixJoinsFirst(a: string, t: string, q: char)
    requires q !in a
    ensures Pieces(a + t, q) == [a + Pieces(t, q)[0]] + Pieces(t, q)[1..]
  {
    if Find(t, q) < |t| {
      var x, rest := AtFirstQuote(t, q);
      hide *;
      Regrouped(a, x, [q] + rest);
      PiecesCons(a + x, rest, q);
      assert ([x] + Pieces(rest, q))[1..] == Pieces(rest, q);
    } else {
      assert q !in t by { assert forall j | 0 <= j < |t| :: t[j] != q; }
      hide *;
      NoQuoteOnePiece(t, q);
      NoQuoteOnePiece(a + t, q);
    }
  }

  lemma OpensAfterSeparator(x: string, sep: string, y: string)
    requires sep != "" && sep[|sep| - 1] == '\n'
    ensures Opens(x + sep + y) <==> Opens(y)
  {
    var s := x + sep + y;
    if |y| >= 4 {
      assert s[|s| - 4..] == y[|y| - 4..];
    } else if |s| >= 4 {
      assert s[|s| - 4..][3 - |y|] == '\n';
      assert ATTR[3 - |y|] != '\n';
    }
  }

  lemma OpensFirst(x: string, sep: string, b: seq<string>)
    requires b != [] && sep != "" && sep[|sep| - 1] == '\n'
    ensures Found([x + sep + b[0]] + b[1..]) == Found(b) && (Closed([x + sep + b[0]] + b[1..]) <==> Closed(b))
  {
    OpensAfterSeparator(x, sep, b[0]);
    var c := [x + sep + b[0]] + b[1..];
    assert c[1..] == b[1..] && (|b| >= 2 ==> c[2..] == b[2..]);
  }

  /** When no attribute is left open at the end of the first text, the matches of the whole
      are those of the first followed by those of the second. */
  lemma {:induction false} FoundInBridge(a: seq<string>, sep: string, b: seq<string>)
    requires a != [] && b != [] && sep != "" && sep[|sep| - 1] == '\n' && Closed(a)
    ensures Found(Bridge(a, sep, b)) == Found(a) + Found(b)
    decreases |a|
  {
    hide Bridge, Opens;
    if |a| <= 2 {
      OpensFirst(a[|a| - 1], sep, b);
      ShortBridge(a, sep, b);
      assert [] + Found(b) == Found(b);
    } else {
      LongBridge(a, sep, b);
      if Opens(a[0]) && a[1] != "" {
        FoundInBridge(a[2..], sep, b);
        assert [a[1]] + (Found(a[2..]) + Found(b)) == [a[1]] + Found(a[2..]) + Found(b);
      } else {
        FoundInBridge(a[1..], sep, b);
      }
    }
  }

  lemma ShortBridge(a: seq<string>, sep: string, b: seq<string>)
    requires 1 <= |a| <= 2 && b != [] && Closed(a)
    ensures Found(a) == [] && Found(Bridge(a, sep, b)) == Found([a[|a| - 1] + sep + b[0]] + b[1..])
  {
    ShortParts(a);
    hide *;
    OneOrTwo(a);
    if |a| == 1 {
      BridgeOne(a[0], sep, b);
    } else {
      BridgeSkips(a[0], a[1], sep, b);
    }
  }

  lemma OneOrTwo(a: seq<string>)
    ensures |a| == 1 ==> a == [a[0]]
    ensures |a| == 2 ==> a == [a[0], a[1]]
  {
  }

  lemma BridgeSkips(x: string, y: string, sep: string, b: seq<string>)
    requires b != [] && !Opens(x)
    ensures Found(Bridge([x, y], sep, b)) == Found([y + sep + b[0]] + b[1..])
  {
    hide *;
    BridgeOne(y, sep, b);
    assert [x, y] == [x] + [y];
    BridgeCons(x, [y], sep, b);
    FoundSkips(x, Bridge([y], sep, b));
  }

  lemma ShortParts(a: seq<string>)
    requires 1 <= |a| <= 2 && Closed(a)
    ensures Found(a) == [] && (|a| == 2 ==> !Opens(a[0]))
  {
  }

  lemma FoundSkips(x: string, ps: seq<string>)
    requires !Opens(x) && ps != []
    ensures Found([x] + ps) == Found(ps)
  {
    assert ([x] + ps)[1..] == ps;
  }

  lemma LongBridge(a: seq<string>, sep: string, b: seq<string>)
    requires |a| >= 3 && b != []
    ensures var g := Bridge(a, sep, b);
            && |g| >= 3 && g[0] == a[0] && g[1] == a[1] && g[1..] == Bridge(a[1..], sep, b) && g[2..] == Bridge(a[2..], sep, b)
  {
    SecondPiece(a, sep, b);
  }

  lemma SecondPiece(a: seq<string>, sep: string, b: seq<string>)
    requires |a| >= 3 && b != []
    ensures Bridge(a, sep, b)[1] == a[1] && Bridge(a, sep, b)[2..] == Bridge(a[2..], sep, b)
  {
  }

  lemma MatchesOfJoined(s: string, sep: string, t: string, q: char)
    requires IsQuote(q) && q !in sep && sep != "" && sep[|sep| - 1] == '\n' && Closed(Pieces(s, q))
    ensures Matches(s + sep + t, q) == Matches(s, q) + Matches(t, q)
  {
    PiecesOfJoined(s, sep, t, q);
    MatchesByPieces(s, q);
    MatchesByPieces(t, q);
    MatchesByPieces(s + sep + t, q);
    FoundInBridge(Pieces(s, q), sep, Pieces(t, q));
  }

  function MatchesOfLines(ls: seq<string>, q: char): seq<string> {
    if ls == [] then [] else Matches(ls[0], q) + MatchesOfLines(ls[1..], q)
  }

  /** When every line closes what it opens, scanning the whole text finds exactly what
      scanning its lines finds. */
  lemma {:induction false} MatchesLineByLine(s: string, q: char)
    requires IsQuote(q) && forall l | l in Lines(s) :: Closed(Pieces(l, q))
    ensures Matches(s, q) == MatchesOfLines(Lines(s), q)
    decreases |s|
  {
    hide Matches, Pieces, Closed;
    if Find(s, '\n') == |s| {
      assert Matches(s, q) + [] == Matches(s, q);
    } else {
      var a, rest, crlf := FirstLine(s);
      hide Lines, Find;
      assert a in Lines(s) && forall l | l in Lines(rest) :: l in Lines(s);
      MatchesLineByLine(rest, q);
      var sep := if crlf then ['\r', '\n'] else ['\n'];
      Regroup(a, rest);
      assert s == a + sep + rest;
      MatchesOfJoined(a, sep, rest, q);
      assert MatchesOfLines([a] + Lines(rest), q) == Matches(a, q) + MatchesOfLines(Lines(rest), q);
    }
  }

  lemma Regroup(a: string, rest: string)
    ensures a + (['\n'] + rest) == a + ['\n'] + rest
    ensures a + (['\r'] + (['\n'] + rest)) == a + ['\r', '\n'] + rest
  {
  }
}
