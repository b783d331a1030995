/** Rewriting an HLS playlist (RFC 8216): collecting the URLs it references and replacing them,
    line by line, with same-origin proxy paths. */
module HlsRewrite {
  import opened Js
  import opened HlsText
  import opened HlsSpans

  /** `new URL(x, base).href`, if it parses, and the test for `http(s)://`. */
  datatype Urls = Urls(resolve: string -> Option<string>, isHttp: string -> bool)

  /** An http(s) URL, resolved after trimming. */
  function HttpUrl(raw: string, urls: Urls): Option<string> {
    var abs := urls.resolve(Trim(raw));
    if abs.Some? && urls.isHttp(abs.value) then abs else None
  }

  /** The line as a URL line: what is left of it after trimming, unless it is a tag or blank. */
  function UrlOfLine(line: string): Option<string> {
    var t := Trim(line);
    if t == "" || t[0] == '#' then None else Some(t)
  }

  function UrlLines(ls: seq<string>): seq<string> {
    if ls == [] then [] else (if UrlOfLine(ls[0]).Some? then [UrlOfLine(ls[0]).value] else []) + UrlLines(ls[1..])
  }

  /** Everything the collector looks at. */
  function Candidates(body: string): seq<string> {
    Matches(body, '\"') + Matches(body, '\'') + UrlLines(Lines(body))
  }

  function Collected(body: string, urls: Urls): set<string> {
    set c | c in Candidates(body) && HttpUrl(c, urls).Some? :: HttpUrl(c, urls).value
  }

  method AddMatches(body: string, q: char, urls: Urls, already: set<string>) returns (found: set<string>)
    ensures found == already + set c | c in Matches(body, q) && HttpUrl(c, urls).Some? :: HttpUrl(c, urls).value
  {
    hide HttpUrl;
    found := already;
    var rest := body;
    ghost var seen := [];
    while rest != ""
      invariant Matches(body, q) == seen + Matches(rest, q)
      invariant found == already + set c | c in seen && HttpUrl(c, urls).Some? :: HttpUrl(c, urls).value
      decreases |rest|
    {
      if MatchHere(rest, q) {
        var k := 5 + Find(rest[5..], q);
        var raw := rest[5..k];
        if HttpUrl(raw, urls).Some? {
          found := found + {HttpUrl(raw, urls).value};
        }
        assert seen + ([raw] + Matches(rest[k + 1..], q)) == seen + [raw] + Matches(rest[k + 1..], q);
        seen := seen + [raw];
        rest := rest[k + 1..];
      } else {
        rest := rest[1..];
      }
    }
    assert seen + [] == seen;
  }

  method CollectReferencedUrls(body: string, urls: Urls) returns (found: set<string>)
    ensures found == Collected(body, urls)
  {
    hide HttpUrl, Matches, UrlOfLine;
    found := AddMatches(body, '\"', urls, {});
    found := AddMatches(body, '\'', urls, found);
    var ls := Lines(body);
    ghost var before := found;
    ghost var seen := [];
    assert ls[0..] == ls;
    for i := 0 to |ls|
      invariant UrlLines(ls) == seen + UrlLines(ls[i..])
      invariant found == before + set c | c in seen && HttpUrl(c, urls).Some? :: HttpUrl(c, urls).value
    {
      assert ls[i..][1..] == ls[i + 1..] && ls[i..][0] == ls[i];
      var t := UrlOfLine(ls[i]);
      if t.Some? {
        if HttpUrl(t.value, urls).Some? {
          found := found + {HttpUrl(t.value, urls).value};
        }
        seen := seen + [t.value];
      }
    }
    assert seen == UrlLines(ls);
  }

  // ---------------------------------------------------------------- rewriting

  type ProxyMap = map<string, string>

  function Proxied(raw: string, urls: Urls, m: ProxyMap): Option<string> {
    var abs := urls.resolve(raw);
    if abs.Some? && abs.value in m then Some(m[abs.value]) else None
  }

  function Rewritten(raw: string, urls: Urls, m: ProxyMap): string {
    if Proxied(raw, urls, m).Some? then Proxied(raw, urls, m).value else raw
  }

  function Rewriter(urls: Urls, m: ProxyMap): string -> string {
    (c: string) => Rewritten(c, urls, m)
  }

  /** Both attribute passes over one line. */
  function AttributesRewritten(line: string, urls: Urls, m: ProxyMap): string {
    var f := Rewriter(urls, m);
    Replace(Replace(line, '\"', f), '\'', f)
  }

  /** The last step: a URL line becomes the proxy path, after as many of its own first
      characters as it has trailing spaces. */
  function UrlRewritten(line: string, urls: Urls, m: ProxyMap): string {
    var t := TrimEnd(line);
    var url := UrlOfLine(t);
    if url.Some? && Proxied(url.value, urls, m).Some? then line[..|line| - |t|] + Proxied(url.value, urls, m).value else line
  }

  function RewriteLine(line: string, urls: Urls, m: ProxyMap): string {
    UrlRewritten(AttributesRewritten(line, urls, m), urls, m)
  }

  function RewriteLines(ls: seq<string>, urls: Urls, m: ProxyMap): (r: seq<string>)
    ensures |r| == |ls| && forall i | 0 <= i < |r| :: r[i] == RewriteLine(ls[i], urls, m)
  {
    if ls == [] then [] else [RewriteLine(ls[0], urls, m)] + RewriteLines(ls[1..], urls, m)
  }

  function RewriteBody(body: string, urls: Urls, m: ProxyMap): string {
    Join(RewriteLines(Lines(body), urls, m))
  }

  /** The line rewriter as it runs: one variable reassigned by each pass. */
  method RewriteLineWithMap(line: string, urls: Urls, m: ProxyMap) returns (result: string)
    ensures result == RewriteLine(line, urls, m)
  {
    hide Replace, Rewriter, Trim, TrimEnd, Proxied;
    var f := Rewriter(urls, m);
    result := line;
    var specs := ['\"', '\''];
    for i := 0 to 2
      invariant result == if i == 0 then line else if i == 1 then Replace(line, '\"', f) else Replace(Replace(line, '\"', f), '\'', f)
    {
      result := Replace(result, specs[i], f);
    }
    var trimmed := TrimEnd(result);
    var leadingLen := |result| - |trimmed|;
    var leadWs := result[..leadingLen];
    var content := Trim(trimmed);
    if content != "" && content[0] != '#' {
      var proxied := Proxied(content, urls, m);
      if proxied.Some? {
        return leadWs + proxied.value;
      }
    }
  }

  // ---------------------------------------------------------------- what is left alone

  /** No reference of the line is in the map. */
  predicate Unmapped(line: string, urls: Urls, m: ProxyMap) {
    && (forall c | c in Matches(line, '\"') + Matches(line, '\'') :: Proxied(c, urls, m).None?)
    && (UrlOfLine(TrimEnd(line)).Some? ==> Proxied(UrlOfLine(TrimEnd(line)).value, urls, m).None?)
  }

  lemma UnmappedLinesStay(line: string, urls: Urls, m: ProxyMap)
    requires Unmapped(line, urls, m)
    ensures RewriteLine(line, urls, m) == line
  {
    var f := Rewriter(urls, m);
    assert forall c | c in Matches(line, '\"') :: c in Matches(line, '\"') + Matches(line, '\'');
    NothingReplaced(line, '\"', f);
    NothingReplaced(line, '\'', f);
    assert AttributesRewritten(line, urls, m) == line;
  }

  /** An empty map only turns `\r\n` into `\n`, for every body. */
  lemma EmptyMapIsIdentity(body: string, urls: Urls)
    ensures RewriteBody(body, urls, map[]) == WithoutCr(body)
  {
    var ls := Lines(body);
    var rs := RewriteLines(ls, urls, map[]);
    forall i | 0 <= i < |ls|
      ensures rs[i] == ls[i]
    {
      UnmappedLinesStay(ls[i], urls, map[]);
    }
    assert rs == ls;
    JoinedLines(body);
  }

  /** Proxy paths without line feeds keep the number of lines, and every line without a mapped
      reference stays in its place: as it is when it is the last, without a carriage return at
      its end otherwise. */
  lemma LinesAreKept(body: string, urls: Urls, m: ProxyMap)
    requires forall u | u in m :: '\n' !in m[u]
    ensures |Lines(RewriteBody(body, urls, m))| == |Lines(body)|
    ensures forall i | 0 <= i < |Lines(body)| && Unmapped(Lines(body)[i], urls, m) ::
              Lines(RewriteBody(body, urls, m))[i]
              == if i + 1 < |Lines(body)| then WithoutLastCr(Lines(body)[i]) else Lines(body)[i]
  {
    var ls := Lines(body);
    var rs := RewriteLines(ls, urls, m);
    LinesHaveNoLineFeed(body);
    forall i | 0 <= i < |ls|
      ensures '\n' !in rs[i]
    {
      assert ls[i] in ls;
      NoLineFeedAdded(ls[i], urls, m);
    }
    forall l | l in rs
      ensures '\n' !in l
    {
      var i :| 0 <= i < |rs| && rs[i] == l;
    }
    LinesOfJoined(rs);
    forall i | 0 <= i < |ls| && Unmapped(ls[i], urls, m)
      ensures rs[i] == ls[i]
    {
      UnmappedLinesStay(ls[i], urls, m);
    }
  }

  lemma {:induction false} GroupsComeFromTheText(s: string, q: char, c: char)
    requires c !in s
    ensures forall g | g in Matches(s, q) :: c !in g
    decreases |s|
  {
    if s != "" {
      if MatchHere(s, q) {
        GroupsComeFromTheText(s[5 + Find(s[5..], q) + 1..], q, c);
      } else {
        GroupsComeFromTheText(s[1..], q, c);
      }
    }
  }

  lemma NoLineFeedAdded(line: string, urls: Urls, m: ProxyMap)
    requires '\n' !in line && forall u | u in m :: '\n' !in m[u]
    ensures '\n' !in RewriteLine(line, urls, m)
  {
    var f := Rewriter(urls, m);
    GroupsComeFromTheText(line, '\"', '\n');
    ReplaceIsFree(line, '\"', f, '\n');
    var r := Replace(line, '\"', f);
    GroupsComeFromTheText(r, '\'', '\n');
    ReplaceIsFree(r, '\'', f, '\n');
    assert '\n' !in AttributesRewritten(line, urls, m);
  }

  // ---------------------------------------------------------------- coverage

  /** What sections 4.1 and 4.2 of RFC 8216 make of a line: quoted strings end on it, URL lines
      hold no attribute, and no attribute holds one of the other quote style from outside or
      ends inside one. */
  ghost predicate WellFormed(line: string) {
    && Closed(Pieces(line, '\"')) && Closed(Pieces(line, '\''))
    && (UrlOfLine(line).Some? ==> Matches(line, '\"') == [] && Matches(line, '\'') == [])
    && Uncrossed(line, '\"', '\'', 0)
  }

  ghost predicate IgnoresOuterSpace(urls: Urls) {
    forall c :: urls.resolve(Trim(c)) == urls.resolve(c)
  }

  predicate PlainPaths(m: ProxyMap) {
    forall u | u in m :: m[u] != "" && Unquoted(m[u])
  }

  /** Every raw reference the rewriter resolves while it rewrites the line. */
  function LookedUp(line: string, urls: Urls, m: ProxyMap): seq<string> {
    var f := Rewriter(urls, m);
    var r := Replace(line, '\"', f);
    var url := UrlOfLine(TrimEnd(AttributesRewritten(line, urls, m)));
    Matches(line, '\"') + Matches(r, '\'') + (if url.Some? then [url.value] else [])
  }

  lemma TrimTwice(s: string)
    ensures Trim(TrimEnd(s)) == Trim(s) && UrlOfLine(TrimEnd(s)) == UrlOfLine(s)
  {
  }

  lemma RewritesPlainly(line: string, q: char, urls: Urls, m: ProxyMap)
    requires PlainPaths(m)
    ensures Plain(Rewriter(urls, m), Matches(line, q))
  {
  }

  /** In a well-formed line the second pass only sees attributes of the line itself. */
  lemma SecondPassSeesTheLine(line: string, urls: Urls, m: ProxyMap, c: string)
    requires WellFormed(line) && PlainPaths(m)
    requires c in Matches(Replace(line, '\"', Rewriter(urls, m)), '\'')
    ensures c in Matches(line, '\'')
  {
    RewritesPlainly(line, '\"', urls, m);
    OtherQuoteKeepsItsGroups(line, '\"', Rewriter(urls, m), '\'', 0);
  }

  lemma UrlLineIsDecidedByTheLine(line: string, urls: Urls, m: ProxyMap)
    requires WellFormed(line)
    ensures UrlOfLine(TrimEnd(AttributesRewritten(line, urls, m))) == UrlOfLine(line)
    ensures UrlOfLine(line).Some? ==> AttributesRewritten(line, urls, m) == line
  {
    var f := Rewriter(urls, m);
    var r := Replace(line, '\"', f);
    var out := AttributesRewritten(line, urls, m);
    TrimTwice(out);
    if UrlOfLine(line).Some? {
      NothingReplaced(line, '\"', f);
      NothingReplaced(line, '\'', f);
    } else {
      ReplaceKeepsInk(line, '\"', f);
      ReplaceKeepsInk(r, '\'', f);
      TrimStartsWithInk(line);
      TrimStartsWithInk(out);
    }
  }

  lemma {:induction false} LineCandidates(ls: seq<string>, i: nat, c: string)
    requires i < |ls|
    ensures c in Matches(ls[i], '\"') ==> c in MatchesOfLines(ls, '\"')
    ensures c in Matches(ls[i], '\'') ==> c in MatchesOfLines(ls, '\'')
    ensures UrlOfLine(ls[i]) == Some(c) ==> c in UrlLines(ls)
    decreases i
  {
    if i > 0 {
      LineCandidates(ls[1..], i - 1, c);
    }
  }

  /** Every reference the rewriter looks up in a well-formed playlist is one the collector has
      seen, so every http(s) one is in the collected set. */
  lemma RewriterLooksUpWhatIsCollected(body: string, urls: Urls, m: ProxyMap, i: nat, c: string)
    requires forall l | l in Lines(body) :: WellFormed(l)
    requires IgnoresOuterSpace(urls) && PlainPaths(m)
    requires i < |Lines(body)| && c in LookedUp(Lines(body)[i], urls, m)
    ensures c in Candidates(body)
    ensures var abs := urls.resolve(c); abs.Some? && urls.isHttp(abs.value) ==> abs.value in Collected(body, urls)
  {
    var ls := Lines(body);
    assert ls[i] in ls;
    if c in Matches(Replace(ls[i], '\"', Rewriter(urls, m)), '\'') {
      SecondPassSeesTheLine(ls[i], urls, m, c);
    }
    UrlLineIsDecidedByTheLine(ls[i], urls, m);
    LineCandidates(ls, i, c);
    MatchesLineByLine(body, '\"');
    MatchesLineByLine(body, '\'');
    assert urls.resolve(Trim(c)) == urls.resolve(c);
    hide Lines, Matches, MatchesOfLines, UrlLines, UrlOfLine;
    assert c in Candidates(body);
    assert HttpUrl(c, urls) == if urls.resolve(c).Some? && urls.isHttp(urls.resolve(c).value) then urls.resolve(c) else None;
  }

  /** The attribute values of a rewritten tag line are those of the line in both quote styles,
      rewritten one by one, when no attribute lies inside another. */
  lemma AttributesOfRewrittenLine(line: string, urls: Urls, m: ProxyMap)
    requires WellFormed(line) && UrlOfLine(line).None? && Apart(line, '\"', '\'', 0) && PlainPaths(m)
    ensures var f := Rewriter(urls, m);
            var out := RewriteLine(line, urls, m);
            Matches(out, '\"') == Map(f, Matches(line, '\"')) && Matches(out, '\'') == Map(f, Matches(line, '\''))
  {
    RewritesPlainly(line, '\"', urls, m);
    RewritesPlainly(line, '\'', urls, m);
    TagLineIsItsAttributes(line, urls, m);
    hide *;
    TwoPasses(line, Rewriter(urls, m));
  }

  lemma TagLineIsItsAttributes(line: string, urls: Urls, m: ProxyMap)
    requires WellFormed(line) && UrlOfLine(line).None?
    ensures var f := Rewriter(urls, m); RewriteLine(line, urls, m) == Replace(Replace(line, '\"', f), '\'', f)
  {
    UrlLineIsDecidedByTheLine(line, urls, m);
    assert RewriteLine(line, urls, m) == AttributesRewritten(line, urls, m);
  }

  /** A URL line whose URL is mapped becomes the proxy path alone exactly when it has no more
      trailing than leading spaces. The code takes as many characters from its front as there
      are trailing spaces: leading spaces are lost without them, and with more of them the
      first characters of the URL stay in front of the path. */
  lemma UrlLineIsReplacedIff(line: string, urls: Urls, m: ProxyMap)
    requires UrlOfLine(line).Some? && Matches(line, '\"') == [] && Matches(line, '\'') == []
    requires Proxied(UrlOfLine(line).value, urls, m).Some?
    requires var p := Proxied(UrlOfLine(line).value, urls, m).value; p != "" && Trim(p) == p
    ensures var p := Proxied(UrlOfLine(line).value, urls, m).value;
            var trailing := |line| - |TrimEnd(line)|;
            && RewriteLine(line, urls, m) == line[..trailing] + p
            && (Trim(RewriteLine(line, urls, m)) == p <==> trailing <= Indent(line))
  {
    var f := Rewriter(urls, m);
    NothingReplaced(line, '\"', f);
    NothingReplaced(line, '\'', f);
    assert AttributesRewritten(line, urls, m) == line;
    TrimTwice(line);
    hide AttributesRewritten, Matches;
    var p := Proxied(UrlOfLine(line).value, urls, m).value;
    var k := |line| - |TrimEnd(line)|;
    InkOfUrlLine(line);
    assert RewriteLine(line, urls, m) == line[..k] + p;
    hide Proxied, Trim, TrimEnd, Indent, UrlOfLine, RewriteLine;
    TrimOfPrefixed(line, k, p);
  }

  /** A line is a URL line exactly when its first character that is not white space is no `#`; its
      URL runs from there to the last such character. */
  lemma UrlLineIffInk(line: string, i: nat)
    requires i < |line| && !IsSpace(line[i]) && forall j | 0 <= j < i :: IsSpace(line[j])
    ensures UrlOfLine(line).Some? <==> line[i] != '#'
    ensures line[i] != '#' ==>
              var t := UrlOfLine(line).value;
              && i + |t| <= |line| && t == line[i..i + |t|] && t != "" && !IsSpace(t[|t| - 1])
              && forall j | i + |t| <= j < |line| :: IsSpace(line[j])
  {
    var t := TrimEnd(line);
    assert i < |t| && t[i] == line[i];
    SameIndent(t, i);
    assert Trim(line) == t[i..] == line[i..i + |t[i..]|];
  }

  lemma InkOfUrlLine(line: string)
    requires UrlOfLine(line).Some?
    ensures Indent(line) < |line|
  {
    TrimStartsWithInk(line);
  }

  lemma InkOfPath(p: string)
    requires p != "" && Trim(p) == p
    ensures !IsSpace(p[0]) && !IsSpace(p[|p| - 1])
  {
    assert |Trim(p)| == |TrimEnd(p)| - Indent(TrimEnd(p));
    assert TrimEnd(p) == p && Indent(p) == 0;
  }

  lemma ShortPrefix(line: string, k: nat, p: string)
    requires k <= Indent(line) && p != "" && !IsSpace(p[0]) && !IsSpace(p[|p| - 1])
    ensures Trim(line[..k] + p) == p
  {
    var s := line[..k] + p;
    assert s[|s| - 1] == p[|p| - 1] && s[k] == p[0];
    assert TrimEnd(s) == s;
    assert forall i | 0 <= i < k :: IsSpace(s[i]);
    SameIndent(s, k);
    hide *;
    assert s[k..] == p;
  }

  lemma LongPrefix(line: string, k: nat, p: string)
    requires Indent(line) < k <= |line| && p != "" && !IsSpace(p[|p| - 1])
    ensures Trim(line[..k] + p) != p
  {
    var n, s := Indent(line), line[..k] + p;
    assert s[|s| - 1] == p[|p| - 1];
    assert TrimEnd(s) == s;
    assert s[n] == line[n] && forall i | 0 <= i < n :: IsSpace(s[i]);
    SameIndent(s, n);
    assert |Trim(s)| == |s| - n > |p|;
  }

  lemma TrimOfPrefixed(line: string, k: nat, p: string)
    requires k <= |line| && p != "" && Trim(p) == p && Indent(line) < |line|
    ensures Trim(line[..k] + p) == p <==> k <= Indent(line)
  {
    InkOfPath(p);
    if k <= Indent(line) {
      ShortPrefix(line, k, p);
    } else {
      LongPrefix(line, k, p);
    }
  }

  /** In a well-formed playlist a map that covers the collected set leaves no http(s) reference
      unrewritten: every URL line without trailing space, and every attribute value of a tag
      line whose attributes keep apart, that resolves to one becomes its proxy path. */
  lemma NothingIsLeftUnrewritten(body: string, urls: Urls, m: ProxyMap, i: nat)
    requires forall l | l in Lines(body) :: WellFormed(l)
    requires IgnoresOuterSpace(urls) && PlainPaths(m) && Collected(body, urls) <= m.Keys
    requires i < |Lines(body)|
    ensures var line := Lines(body)[i];
            var out := RewriteLine(line, urls, m);
            if UrlOfLine(line).Some? then
              var abs := urls.resolve(UrlOfLine(line).value);
              abs.Some? && urls.isHttp(abs.value) && TrimEnd(line) == line ==> abs.value in m && out == m[abs.value]
            else
              Apart(line, '\"', '\'', 0) ==> AllRewritten(line, out, '\"', urls, m) && AllRewritten(line, out, '\'', urls, m)
  {
    hide *;
    var line := Lines(body)[i];
    assert line in Lines(body);
    if UrlOfLine(line).Some? {
      MappedUrlLine(body, urls, m, i);
    } else if Apart(line, '\"', '\'', 0) {
      var out := RewriteLine(line, urls, m);
      AttributesOfRewrittenLine(line, urls, m);
      AttributesAreCovered(body, urls, m, i, '\"', out);
      AttributesAreCovered(body, urls, m, i, '\'', out);
    }
  }

  lemma MappedUrlLine(body: string, urls: Urls, m: ProxyMap, i: nat)
    requires forall l | l in Lines(body) :: WellFormed(l)
    requires IgnoresOuterSpace(urls) && PlainPaths(m) && Collected(body, urls) <= m.Keys
    requires i < |Lines(body)| && UrlOfLine(Lines(body)[i]).Some?
    ensures var line := Lines(body)[i];
            var abs := urls.resolve(UrlOfLine(line).value);
            abs.Some? && urls.isHttp(abs.value) && TrimEnd(line) == line ==>
              abs.value in m && RewriteLine(line, urls, m) == m[abs.value]
  {
    var line := Lines(body)[i];
    assert line in Lines(body);
    UrlLineIsDecidedByTheLine(line, urls, m);
    RewriterLooksUpWhatIsCollected(body, urls, m, i, UrlOfLine(line).value);
    TrimTwice(line);
  }

  lemma AttributesAreCovered(body: string, urls: Urls, m: ProxyMap, i: nat, q: char, out: string)
    requires forall l | l in Lines(body) :: WellFormed(l)
    requires IgnoresOuterSpace(urls) && Collected(body, urls) <= m.Keys
    requires i < |Lines(body)| && (q == '\"' || q == '\'')
    requires Matches(out, q) == Map(Rewriter(urls, m), Matches(Lines(body)[i], q))
    ensures AllRewritten(Lines(body)[i], out, q, urls, m)
  {
    var cs := Matches(Lines(body)[i], q);
    forall j | 0 <= j < |cs|
      ensures var abs := urls.resolve(cs[j]);
              abs.Some? && urls.isHttp(abs.value) ==> abs.value in m && Matches(out, q)[j] == m[abs.value]
    {
      GroupIsCollected(body, urls, i, q, cs[j]);
    }
  }

  /** Every group of the line that resolves to an http(s) URL stands as its path in `out`. */
  predicate AllRewritten(line: string, out: string, q: char, urls: Urls, m: ProxyMap) {
    && |Matches(out, q)| == |Matches(line, q)|
    && forall j | 0 <= j < |Matches(line, q)| ::
         var abs := urls.resolve(Matches(line, q)[j]);
         abs.Some? && urls.isHttp(abs.value) ==> abs.value in m && Matches(out, q)[j] == m[abs.value]
  }

  lemma GroupIsCollected(body: string, urls: Urls, i: nat, q: char, c: string)
    requires forall l | l in Lines(body) :: WellFormed(l)
    requires IgnoresOuterSpace(urls) && i < |Lines(body)| && (q == '\"' || q == '\'') && c in Matches(Lines(body)[i], q)
    ensures var abs := urls.resolve(c); abs.Some? && urls.isHttp(abs.value) ==> abs.value in Collected(body, urls)
  {
    LineCandidates(Lines(body), i, c);
    MatchesLineByLine(body, q);
    assert urls.resolve(Trim(c)) == urls.resolve(c);
    hide Lines, Matches, MatchesOfLines, UrlLines, UrlOfLine;
    assert c in Candidates(body);
    assert HttpUrl(c, urls) == if urls.resolve(c).Some? && urls.isHttp(urls.resolve(c).value) then urls.resolve(c) else None;
  }

  // ---------------------------------------------------------------- where coverage fails

  /** Exactly when the second pass looks up what the collector saw, for lines none of whose
      double-quoted values holds an apostrophe: when no single-quoted value holds a
      double-quoted attribute that the first pass changes. */
  lemma SecondPassSeesTheLineIff(line: string, urls: Urls, m: ProxyMap)
    requires PlainPaths(m) && FreeOf(line, '\"', '\'')
    ensures var f := Rewriter(urls, m);
            Matches(Replace(line, '\"', f), '\'') == Matches(line, '\'')
            <==> forall c, d | c in Matches(line, '\'') && d in Matches(c, '\"') :: Rewritten(d, urls, m) == d
  {
    RewritesPlainly(line, '\"', urls, m);
    var f := Rewriter(urls, m);
    OtherQuoteUnchangedIff(line, '\"', f, '\'');
    hide Matches, Replace;
    assert forall d :: f(d) == Rewritten(d, urls, m);
  }

  /** A double-quoted attribute inside a single-quoted one: the first pass changes what the
      second looks up, and everything looked up is a candidate only if the inner reference
      stays as it is. */
  lemma NestedAttributeIsLookedUpIff(p: string, x: string, b: string, y: string, urls: Urls, m: ProxyMap)
    requires Unquoted(p) && Unquoted(x) && Unquoted(b) && Unquoted(y) && b != "" && PlainPaths(m)
    ensures var line := p + (Attribute(x + (Attribute(b, '\"') + y), '\'') + "");
            && Matches(line, '\"') == [b] && Matches(line, '\'') == [x + (Attribute(b, '\"') + y)]
            && Matches(Replace(line, '\"', Rewriter(urls, m)), '\'')
               == [x + (Attribute(Rewritten(b, urls, m), '\"') + y)]
            && ((forall c | c in Matches(Replace(line, '\"', Rewriter(urls, m)), '\'') ::
                   c in Matches(line, '\"') + Matches(line, '\''))
                <==> Rewritten(b, urls, m) == b)
  {
    var f := Rewriter(urls, m);
    var c, c' := x + (Attribute(b, '\"') + y), x + (Attribute(Rewritten(b, urls, m), '\"') + y);
    var line := p + (Attribute(c, '\'') + "");
    NestedMatches(p, x, b, y, f);
    assert FreeOf(line, '\"', '\'');
    RewritesPlainly(line, '\"', urls, m);
    HoldersAreReplacedInside(line, '\"', f, '\'');
    assert Matches(Replace(line, '\"', f), '\'') == [c'];
    assert c' in [b] + [c] <==> c' == b || c' == c;
    HoldersDiffer(x, b, Rewritten(b, urls, m), y);
  }

  /** A double-quoted value that opens a single-quoted attribute which closes behind it: no
      attribute holds another, yet once the first pass changes the value the second pass looks
      up `b`, which the collector never saw. */
  lemma CrossingAttributeIsLookedUpIff(p: string, x: string, y: string, z: string, b: string, urls: Urls, m: ProxyMap)
    requires Unquoted(p) && Unquoted(x) && Unquoted(y) && Unquoted(z) && Unquoted(b) && b != "" && PlainPaths(m)
    ensures var d, g := x + (ATTR + (['\''] + y)), y + (['\"'] + (z + ATTR));
            var line := p + (Attribute(d, '\"') + (z + (Attribute(b, '\'') + "")));
            && Matches(line, '\"') == [d] && Matches(line, '\'') == [g]
            && ((forall c | c in Matches(Replace(line, '\"', Rewriter(urls, m)), '\'') ::
                   c in Matches(line, '\"') + Matches(line, '\''))
                <==> Rewritten(d, urls, m) == d)
  {
    var f := Rewriter(urls, m);
    var d, g := x + (ATTR + (['\''] + y)), y + (['\"'] + (z + ATTR));
    var line := p + (Attribute(d, '\"') + (z + (Attribute(b, '\'') + "")));
    CrossingMatches(p, x, y, z, b, f);
    assert f(d) == Rewritten(d, urls, m);
    var r := Replace(line, '\"', f);
    if Rewritten(d, urls, m) == d {
      assert r == line;
    } else {
      CrossingAfter(p, Rewritten(d, urls, m), z, b);
      assert Matches(r, '\'') == [b];
      assert b in Matches(r, '\'') && b !in [d] + [g];
    }
  }
}
