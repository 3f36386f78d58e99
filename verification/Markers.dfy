/**
 Statistics between comment markers in an HTML page (scripts/update_website_stats.py).

 `Sub` is the left-to-right substitution of the marker pattern. It is shown equal to a rewriting of
 the stretches between consecutive `<`, where each property is one about two neighbouring stretches.
 */
module Markers {
  import opened Basics
  import Decimal

  // ---------- Characters ----------

  /** The white space of a Python pattern. */
  predicate IsSpace(c: char) {
    || '\t' <= c <= '\r' || c == ' '
    || 0x1C as char <= c <= 0x1F as char || c == 0x85 as char || c == 0xA0 as char
    || c == 0x1680 as char || 0x2000 as char <= c <= 0x200A as char
    || c == 0x2028 as char || c == 0x2029 as char || c == 0x202F as char || c == 0x205F as char || c == 0x3000 as char
  }

  predicate Without(s: string, c: char) {
    forall i :: 0 <= i < |s| ==> s[i] != c
  }

  /** A name that a pattern finds whole: not empty, no white space, no `<` and no `>`. */
  predicate IsName(s: string) {
    s != "" && forall i :: 0 <= i < |s| ==> !IsSpace(s[i]) && s[i] != '<' && s[i] != '>'
  }

  /** The first place of `c` from `i` on, or the length if there is none. */
  function IndexFrom(s: string, c: char, i: nat): (r: nat)
    requires i <= |s|
    ensures i <= r <= |s|
    ensures forall j :: i <= j < r ==> s[j] != c
    ensures r < |s| ==> s[r] == c
    decreases |s| - i
  {
    if i == |s| || s[i] == c then i else IndexFrom(s, c, i + 1)
  }

  lemma FirstIs(s: string, c: char, i: nat, k: nat)
    requires i <= k < |s| && s[k] == c && forall j :: i <= j < k ==> s[j] != c
    ensures IndexFrom(s, c, i) == k
  {
  }

  // ---------- The pattern ----------

  const CloseName := "/a2a:stats"

  function OpenName(key: string): string {
    "a2a:stats:" + key
  }

  /** `s[i..j]` is a comment without its `<`, and holds `name` from `p` to `q`, with white space on either side. */
  predicate TaggedAt(s: string, i: nat, j: nat, name: string, p: nat, q: nat) {
    && i + 3 <= p && q == p + |name| && q + 3 <= j <= |s|
    && s[i] == '!' && s[i + 1] == '-' && s[i + 2] == '-'
    && s[j - 3] == '-' && s[j - 2] == '-' && s[j - 1] == '>'
    && (forall x :: i + 3 <= x < p ==> IsSpace(s[x]))
    && (forall x :: p <= x < q ==> s[x] == name[x - p])
    && (forall x :: q <= x < j - 3 ==> IsSpace(s[x]))
  }

  predicate IsTag(s: string, i: nat, j: nat, name: string) {
    exists p: nat, q: nat :: p <= |s| && q <= |s| && TaggedAt(s, i, j, name, p, q)
  }

  lemma TagShape(s: string, i: nat, j: nat, name: string)
    requires IsTag(s, i, j, name) && IsName(name)
    ensures i + 6 <= j <= |s| && s[j - 1] == '>'
    ensures forall x :: i <= x < j ==> s[x] != '<'
    ensures forall x :: i <= x < j - 1 ==> s[x] != '>'
  {
    var p: nat, q: nat :| p <= |s| && q <= |s| && TaggedAt(s, i, j, name, p, q);
    forall x | i <= x < j ensures s[x] != '<' && (x < j - 1 ==> s[x] != '>') {
      if p <= x < q {
        assert s[x] == name[x - p];
      } else if i + 3 <= x < j - 3 {
        assert IsSpace(s[x]);
      }
    }
  }

  lemma TagNamesAgree(s: string, i: nat, j: nat, name: string, other: string)
    requires IsTag(s, i, j, name) && IsTag(s, i, j, other) && IsName(name) && IsName(other)
    ensures name == other
  {
    var p: nat, q: nat :| p <= |s| && q <= |s| && TaggedAt(s, i, j, name, p, q);
    var p': nat, q': nat :| p' <= |s| && q' <= |s| && TaggedAt(s, i, j, other, p', q');
    assert s[p] == name[0] && s[p'] == other[0];
    assert p == p';
    assert s[q - 1] == name[q - 1 - p] && s[q' - 1] == other[q' - 1 - p];
    assert q == q';
    assert forall x :: 0 <= x < |name| ==> name[x] == s[p + x] == other[x];
  }

  /** A tag in a piece of a text is one in the text. */
  lemma TagInText(s: string, i: nat, piece: string, n: nat, name: string)
    requires IsTag(piece, 0, n, name) && i + |piece| <= |s| && s[i..i + |piece|] == piece
    ensures IsTag(s, i, i + n, name)
  {
    var p: nat, q: nat :| p <= |piece| && q <= |piece| && TaggedAt(piece, 0, n, name, p, q);
    assert forall x :: i <= x < i + n ==> s[x] == piece[x - i];
    assert TaggedAt(s, i, i + n, name, i + p, i + q);
  }

  lemma TagInPiece(s: string, i: nat, piece: string, n: nat, name: string)
    requires IsTag(s, i, i + n, name) && i + |piece| <= |s| && s[i..i + |piece|] == piece && n <= |piece|
    ensures IsTag(piece, 0, n, name)
  {
    var p: nat, q: nat :| p <= |s| && q <= |s| && TaggedAt(s, i, i + n, name, p, q);
    assert forall x :: 0 <= x < n ==> piece[x] == s[i + x];
    assert TaggedAt(piece, 0, n, name, p - i, q - i);
  }

  /** Of a match that begins at `i`: where its body, its closing tag and the text after it begin. */
  datatype Match = Match(body: nat, close: nat, end: nat)

  predicate Matches(s: string, i: nat, m: Match, key: string) {
    && i < m.body <= m.close < m.end <= |s|
    && s[i] == '<' && IsTag(s, i + 1, m.body, OpenName(key))
    && (forall x :: m.body <= x < m.close ==> s[x] != '<')
    && s[m.close] == '<' && IsTag(s, m.close + 1, m.end, CloseName)
  }

  /** The only places a match at `i` can have. */
  function Scan(s: string, i: nat): (r: Option<Match>)
    requires i < |s|
    ensures r.Some? ==> i < r.value.body <= r.value.close < r.value.end <= |s|
  {
    var body := IndexFrom(s, '>', i) + 1;
    if body > |s| then None else
      var close := IndexFrom(s, '<', body);
      var end := IndexFrom(s, '>', close) + 1;
      if end <= |s| then Some(Match(body, close, end)) else None
  }

  function Find(s: string, i: nat, key: string): Option<Match>
    requires i < |s|
  {
    var m := Scan(s, i);
    if m.Some? && Matches(s, i, m.value, key) then m else None
  }

  lemma NamesAreNames(key: string)
    requires IsName(key)
    ensures IsName(OpenName(key)) && IsName(CloseName)
    ensures OpenName(key) != CloseName
  {
    assert OpenName(key)[0] == 'a' && CloseName[0] == '/';
    assert IsName("a2a:stats:");
  }

  lemma TagEnds(s: string, i: nat, j: nat, name: string)
    requires i < |s| && s[i] == '<' && IsTag(s, i + 1, j, name) && IsName(name)
    ensures i < j <= |s| && IndexFrom(s, '>', i) == j - 1
  {
    TagShape(s, i + 1, j, name);
    FirstIs(s, '>', i, j - 1);
  }

  lemma ScanIs(s: string, i: nat, m: Match)
    requires i < m.body <= m.close < m.end <= |s|
    requires IndexFrom(s, '>', i) == m.body - 1 && IndexFrom(s, '<', m.body) == m.close
    requires IndexFrom(s, '>', m.close) == m.end - 1
    ensures Scan(s, i) == Some(m)
  {
  }

  lemma ScanFinds(s: string, i: nat, m: Match, key: string)
    requires IsName(key) && i < |s| && Matches(s, i, m, key)
    ensures Scan(s, i) == Some(m)
  {
    NamesAreNames(key);
    TagEnds(s, i, m.body, OpenName(key));
    TagEnds(s, m.close, m.end, CloseName);
    FirstIs(s, '<', m.body, m.close);
    ScanIs(s, i, m);
  }

  /** There is at most one match at any place, so it does not matter in which order a matcher tries. */
  lemma {:induction false} MatchIsUnique(s: string, i: nat, m: Match, key: string)
    requires IsName(key) && i < |s| && Matches(s, i, m, key)
    ensures Find(s, i, key) == Some(m)
  {
    ScanFinds(s, i, m, key);
  }

  // ---------- The substitution ----------

  /** From `i` on: every match from left to right gets the new body, all else is copied. */
  function Sub(s: string, i: nat, key: string, value: string): string
    requires i <= |s|
    decreases |s| - i
  {
    if i == |s| then ""
    else
      var m := Find(s, i, key);
      if m.None? then [s[i]] + Sub(s, i + 1, key, value)
      else s[i..m.value.body] + value + s[m.value.close..m.value.end] + Sub(s, m.value.end, key, value)
  }

  function ReplaceMarker(html: string, key: string, value: string): string {
    Sub(html, 0, key, value)
  }

  // ---------- A page cut before every `<` ----------

  datatype Parts = Nil | Cons(part: string, tail: Parts)

  /** What comes before the first `<`, and what follows each. */
  datatype Page = Page(head: string, parts: Parts)

  predicate Clean(parts: Parts) {
    parts.Cons? ==> Without(parts.part, '<') && Clean(parts.tail)
  }

  function Cut(s: string, i: nat): (page: Page)
    requires i <= |s|
    ensures Without(page.head, '<') && Clean(page.parts)
    decreases |s| - i
  {
    var h := IndexFrom(s, '<', i);
    if h == |s| then Page(s[i..h], Nil)
    else
      var rest := Cut(s, h + 1);
      Page(s[i..h], Cons(rest.head, rest.parts))
  }

  function Render(parts: Parts): string {
    if parts.Nil? then "" else ['<'] + (parts.part + Render(parts.tail))
  }

  function Text(page: Page): string {
    page.head + Render(page.parts)
  }

  /** `s` holds `piece` at `i`. */
  predicate Holds(s: string, i: nat, piece: string) {
    i + |piece| <= |s| && s[i..i + |piece|] == piece
  }

  /** From `i` on, `s` consists of these parts. */
  predicate Lies(s: string, i: nat, parts: Parts)
    decreases parts
  {
    if parts.Nil? then i == |s|
    else i < |s| && s[i] == '<' && Holds(s, i + 1, parts.part) && Lies(s, i + 1 + |parts.part|, parts.tail)
  }

  lemma TailOf(s: string, i: nat, part: string, rest: string)
    requires i <= |s| && s[i..] == ['<'] + (part + rest)
    ensures i < |s| && s[i] == '<' && Holds(s, i + 1, part)
    ensures i + 1 + |part| <= |s| && s[i + 1 + |part|..] == rest
  {
    var r := ['<'] + (part + rest);
    assert r[0] == '<' && r[1..1 + |part|] == part && r[1 + |part|..] == rest;
  }

  lemma {:induction false} RenderLies(s: string, i: nat, parts: Parts)
    requires i <= |s| && s[i..] == Render(parts)
    ensures Lies(s, i, parts)
    decreases parts
  {
    if parts.Cons? {
      TailOf(s, i, parts.part, Render(parts.tail));
      RenderLies(s, i + 1 + |parts.part|, parts.tail);
    }
  }

  lemma HeadOf(s: string, i: nat, part: string, rest: string)
    requires i < |s| && s[i] == '<' && Holds(s, i + 1, part) && s[i + 1 + |part|..] == rest
    ensures s[i..] == ['<'] + (part + rest)
  {
  }

  lemma {:induction false} LiesRenders(s: string, i: nat, parts: Parts)
    requires i <= |s| && Lies(s, i, parts)
    ensures s[i..] == Render(parts)
    decreases parts
  {
    if parts.Cons? {
      LiesRenders(s, i + 1 + |parts.part|, parts.tail);
      HeadOf(s, i, parts.part, Render(parts.tail));
    }
  }

  /** From `i` on, `s` consists of this page. */
  predicate Laid(s: string, i: nat, page: Page) {
    Holds(s, i, page.head) && Lies(s, i + |page.head|, page.parts)
  }

  lemma LaidCons(s: string, i: nat, h: nat, rest: Page)
    requires i <= h < |s| && s[h] == '<' && Laid(s, h + 1, rest)
    ensures Laid(s, i, Page(s[i..h], Cons(rest.head, rest.parts)))
  {
    assert |s[i..h]| == h - i;
  }

  lemma {:induction false} CutLies(s: string, i: nat)
    requires i <= |s|
    ensures Laid(s, i, Cut(s, i))
    decreases |s| - i
  {
    var h := IndexFrom(s, '<', i);
    if h < |s| {
      CutLies(s, h + 1);
      LaidCons(s, i, h, Cut(s, h + 1));
    } else {
      assert |s[i..h]| == h - i;
    }
  }

  lemma FirstAfter(s: string, i: nat, piece: string)
    requires Holds(s, i, piece) && Without(piece, '<') && (i + |piece| < |s| ==> s[i + |piece|] == '<')
    ensures IndexFrom(s, '<', i) == i + |piece|
  {
    var n := i + |piece|;
    assert forall x :: i <= x < n ==> s[x] == piece[x - i];
    assert n < |s| || IndexFrom(s, '<', i) == |s|;
  }

  lemma {:induction false} LiesCuts(s: string, i: nat, page: Page)
    requires i <= |s| && Holds(s, i, page.head) && Lies(s, i + |page.head|, page.parts)
    requires Without(page.head, '<') && Clean(page.parts)
    ensures Cut(s, i) == page
    decreases page.parts
  {
    FirstAfter(s, i, page.head);
    if page.parts.Cons? {
      LiesCuts(s, i + |page.head| + 1, Page(page.parts.part, page.parts.tail));
    }
  }

  lemma TextOfCut(s: string)
    ensures Text(Cut(s, 0)) == s
  {
    CutLies(s, 0);
    var page := Cut(s, 0);
    LiesRenders(s, |page.head|, page.parts);
    assert s == s[..|page.head|] + s[|page.head|..];
  }

  lemma CutOfText(page: Page)
    requires Without(page.head, '<') && Clean(page.parts)
    ensures Cut(Text(page), 0) == page
  {
    var s := Text(page);
    assert s[|page.head|..] == Render(page.parts) && s[0..|page.head|] == page.head;
    RenderLies(s, |page.head|, page.parts);
    LiesCuts(s, 0, page);
  }

  // ---------- Rewriting the parts ----------

  function TagLength(part: string): nat {
    IndexFrom(part, '>', 0) + 1
  }

  /** The part begins with the tag of this name. */
  predicate Opens(part: string, name: string) {
    TagLength(part) <= |part| && IsTag(part, 0, TagLength(part), name)
  }

  /** The first part is an opening tag with its body, and the next one begins with a closing tag. */
  predicate Hit(parts: Parts, key: string) {
    parts.Cons? && parts.tail.Cons? && Opens(parts.part, OpenName(key)) && Opens(parts.tail.part, CloseName)
  }

  function WithBody(part: string, value: string): string
    requires TagLength(part) <= |part|
  {
    part[..TagLength(part)] + value
  }

  function Rewrite(parts: Parts, key: string, value: string): Parts {
    if parts.Nil? then Nil
    else Cons(if Hit(parts, key) then WithBody(parts.part, value) else parts.part, Rewrite(parts.tail, key, value))
  }

  // ---------- The substitution is the rewriting ----------

  lemma CopyOne(s: string, i: nat, j: nat, rest: string)
    requires i < j <= |s|
    ensures [s[i]] + (s[i + 1..j] + rest) == s[i..j] + rest
  {
  }

  lemma {:induction false} SubCopies(s: string, i: nat, j: nat, key: string, value: string)
    requires i <= j <= |s| && forall x :: i <= x < j ==> s[x] != '<'
    ensures Sub(s, i, key, value) == s[i..j] + Sub(s, j, key, value)
    decreases j - i
  {
    if i < j {
      SubCopies(s, i + 1, j, key, value);
      CopyOne(s, i, j, Sub(s, j, key, value));
    }
  }

  lemma TagWithin(s: string, i: nat, part: string, j: nat, name: string)
    requires Holds(s, i, part) && (i + |part| < |s| ==> s[i + |part|] == '<')
    requires i < j && IsTag(s, i, j, name) && IsName(name)
    ensures j <= i + |part|
  {
    TagShape(s, i, j, name);
  }

  /** A tag after a `<` lies within the part there. */
  lemma TagInPart(s: string, i: nat, parts: Parts, j: nat, name: string)
    requires i < |s| && parts.Cons? && Lies(s, i, parts) && IsName(name)
    requires i < j && IsTag(s, i + 1, j, name)
    ensures Opens(parts.part, name) && j == i + 1 + TagLength(parts.part)
  {
    TagShape(s, i + 1, j, name);
    var n := j - i - 1;
    TagWithin(s, i + 1, parts.part, j, name);
    TagInPiece(s, i + 1, parts.part, n, name);
    TagShape(parts.part, 0, n, name);
    FirstIs(parts.part, '>', 0, n - 1);
  }

  lemma PartHasTag(s: string, i: nat, part: string, name: string)
    requires Holds(s, i + 1, part) && Opens(part, name)
    ensures IsTag(s, i + 1, i + 1 + TagLength(part), name)
  {
    TagInText(s, i + 1, part, TagLength(part), name);
  }

  /** At `i` begins `part`, and `next` after it. */
  predicate Two(s: string, i: nat, part: string, next: string) {
    && i < |s| && s[i] == '<' && Holds(s, i + 1, part)
    && i + 1 + |part| < |s| && s[i + 1 + |part|] == '<' && Holds(s, i + 1 + |part| + 1, next)
  }

  /** The match at a hit. */
  function HitAt(i: nat, part: string, next: string): Match {
    var close := i + 1 + |part|;
    Match(i + 1 + TagLength(part), close, close + 1 + TagLength(next))
  }

  lemma CleanPiece(s: string, i: nat, part: string)
    requires Holds(s, i, part) && Without(part, '<')
    ensures forall x :: i <= x < i + |part| ==> s[x] != '<'
  {
    assert forall x :: i <= x < i + |part| ==> s[x] == part[x - i];
  }

  lemma TagsMatch(s: string, i: nat, m: Match, key: string)
    requires i < m.body <= m.close < m.end <= |s| && s[i] == '<' && s[m.close] == '<'
    requires IsTag(s, i + 1, m.body, OpenName(key)) && IsTag(s, m.close + 1, m.end, CloseName)
    requires forall x :: i + 1 <= x < m.close ==> s[x] != '<'
    ensures Matches(s, i, m, key)
  {
  }

  lemma HitMatches(s: string, i: nat, part: string, next: string, key: string)
    requires Two(s, i, part, next) && Without(part, '<') && Opens(part, OpenName(key)) && Opens(next, CloseName)
    ensures Matches(s, i, HitAt(i, part, next), key)
  {
    CleanPiece(s, i + 1, part);
    PartHasTag(s, i, part, OpenName(key));
    PartHasTag(s, i + 1 + |part|, next, CloseName);
    TagsMatch(s, i, HitAt(i, part, next), key);
  }

  lemma MatchHits(s: string, i: nat, parts: Parts, m: Match, key: string)
    requires i < |s| && Lies(s, i, parts) && Clean(parts) && IsName(key) && Matches(s, i, m, key)
    ensures Hit(parts, key)
  {
    NamesAreNames(key);
    TagInPart(s, i, parts, m.body, OpenName(key));
    var close := i + 1 + |parts.part|;
    assert m.close >= close;
    assert parts.tail.Cons?;
    assert m.close == close;
    TagInPart(s, close, parts.tail, m.end, CloseName);
  }

  lemma OpenIsNotClose(part: string, key: string)
    requires IsName(key) && Opens(part, CloseName)
    ensures !Opens(part, OpenName(key))
  {
    NamesAreNames(key);
    if Opens(part, OpenName(key)) {
      TagNamesAgree(part, 0, TagLength(part), OpenName(key), CloseName);
    }
  }

  lemma PieceHead(s: string, i: nat, part: string, n: nat)
    requires i < |s| && s[i] == '<' && Holds(s, i + 1, part) && n <= |part|
    ensures s[i..i + 1 + n] == ['<'] + part[..n]
  {
    assert part[..n] == s[i + 1..i + 1 + n];
  }

  lemma PieceTail(s: string, i: nat, part: string, n: nat)
    requires Holds(s, i, part) && n <= |part|
    ensures s[i + n..i + |part|] == part[n..]
  {
  }

  /** Replaces the rest of a text by its equal. */
  lemma Swap(whole: string, part: string, rest: string, other: string, result: string)
    requires whole == ['<'] + (part + rest) && rest == other && result == ['<'] + (part + other)
    ensures whole == result
  {
  }

  lemma SwapFront(whole: string, part: string, other: string, rest: string)
    requires whole == part + rest && part == other
    ensures whole == other + rest
  {
  }

  lemma SwapTwo(whole: string, a: string, a': string, value: string, b: string, b': string, rest: string)
    requires whole == a + value + b + rest && a == a' && b == b'
    ensures whole == a' + value + b' + rest
  {
  }

  lemma JoinMiss(whole: string, rest: string, piece: string, part: string, after: string)
    requires whole == ['<'] + rest && rest == piece + after && piece == part
    ensures whole == ['<'] + (part + after)
  {
  }

  lemma JoinHit(whole: string, tag: string, value: string, body: string, next: string, n: nat,
                after: string, rest: string)
    requires n <= |next| && whole == ['<'] + tag + value + (['<'] + next[..n]) + after && after == next[n..] + rest
    requires body == tag + value
    ensures whole == ['<'] + (body + (['<'] + (next + rest)))
  {
    assert next == next[..n] + next[n..];
  }

  lemma SwapDeep(whole: string, body: string, next: string, rest: string, other: string, result: string)
    requires whole == ['<'] + (body + (['<'] + (next + rest))) && rest == other
    requires result == ['<'] + (body + (['<'] + (next + other)))
    ensures whole == result
  {
  }

  lemma FindsMiss(s: string, i: nat, parts: Parts, key: string)
    requires i < |s| && Lies(s, i, parts) && Clean(parts) && IsName(key) && !Hit(parts, key)
    ensures Find(s, i, key) == None
  {
    if Find(s, i, key).Some? {
      MatchHits(s, i, parts, Find(s, i, key).value, key);
    }
  }

  /** A part without a match is copied. */
  lemma MissStep(s: string, i: nat, part: string, close: nat, key: string, value: string)
    requires i < |s| && s[i] == '<' && Holds(s, i + 1, part) && Without(part, '<') && close == i + 1 + |part|
    requires Find(s, i, key) == None
    ensures Sub(s, i, key, value) == ['<'] + (part + Sub(s, close, key, value))
  {
    CleanPiece(s, i + 1, part);
    SubCopies(s, i + 1, close, key, value);
    JoinMiss(Sub(s, i, key, value), Sub(s, i + 1, key, value), s[i + 1..close], part, Sub(s, close, key, value));
  }

  lemma SubFinds(s: string, i: nat, body: nat, close: nat, end: nat, key: string, value: string)
    requires i < body <= close < end <= |s| && Find(s, i, key) == Some(Match(body, close, end))
    ensures Sub(s, i, key, value) == s[i..body] + value + s[close..end] + Sub(s, end, key, value)
  {
  }

  lemma SubAfterTag(s: string, i: nat, part: string, n: nat, from: nat, after: nat, key: string, value: string)
    requires Holds(s, i, part) && Without(part, '<') && n <= |part| && from == i + n && after == i + |part|
    ensures Sub(s, from, key, value) == part[n..] + Sub(s, after, key, value)
  {
    CleanPiece(s, i, part);
    SubCopies(s, from, after, key, value);
    PieceTail(s, i, part, n);
    SwapFront(Sub(s, from, key, value), s[from..after], part[n..], Sub(s, after, key, value));
  }

  lemma FindsHit(s: string, i: nat, part: string, next: string, key: string)
    requires Two(s, i, part, next) && Without(part, '<') && IsName(key)
    requires Opens(part, OpenName(key)) && Opens(next, CloseName)
    ensures Find(s, i, key) == Some(HitAt(i, part, next))
  {
    HitMatches(s, i, part, next, key);
    MatchIsUnique(s, i, HitAt(i, part, next), key);
  }

  lemma JoinPieces(s: string, i: nat, part: string, n: nat, body: nat, value: string, next: string, n': nat,
                   close: nat, end: nat, whole: string, tail: string, rest: string)
    requires Two(s, i, part, next) && n <= |part| && n' <= |next|
    requires body == i + 1 + n && close == i + 1 + |part| && end == close + 1 + n'
    requires whole == s[i..body] + value + s[close..end] + tail && tail == next[n'..] + rest
    ensures whole == ['<'] + (part[..n] + value + (['<'] + (next + rest)))
  {
    PieceHead(s, i, part, n);
    PieceHead(s, close, next, n');
    SwapTwo(whole, s[i..body], ['<'] + part[..n], value, s[close..end], ['<'] + next[..n'], tail);
    JoinHit(whole, part[..n], value, part[..n] + value, next, n', tail, rest);
  }

  /** A part of which the first `n` characters are kept gets the new body, and the next is copied. */
  ghost predicate HitStep(s: string, i: nat, part: string, n: nat, next: string, after: nat, key: string, value: string)
    requires i <= |s| && after <= |s| && n <= |part|
  {
    Sub(s, i, key, value) == ['<'] + (part[..n] + value + (['<'] + (next + Sub(s, after, key, value))))
  }

  lemma FoundStep(s: string, i: nat, part: string, n: nat, body: nat, next: string, n': nat, close: nat, end: nat,
                  after: nat, key: string, value: string)
    requires Two(s, i, part, next) && Without(next, '<') && n <= |part| && n' <= |next|
    requires body == i + 1 + n && close == i + 1 + |part| && end == close + 1 + n' && after == close + 1 + |next|
    requires Find(s, i, key) == Some(Match(body, close, end))
    ensures HitStep(s, i, part, n, next, after, key, value)
  {
    SubAfterTag(s, close + 1, next, n', end, after, key, value);
    SubFinds(s, i, body, close, end, key, value);
    JoinPieces(s, i, part, n, body, value, next, n', close, end,
               Sub(s, i, key, value), Sub(s, end, key, value), Sub(s, after, key, value));
  }

  lemma SubHit(s: string, i: nat, part: string, next: string, after: nat, key: string, value: string)
    requires Two(s, i, part, next) && Without(part, '<') && Without(next, '<') && IsName(key)
    requires Opens(part, OpenName(key)) && Opens(next, CloseName) && after == i + 1 + |part| + 1 + |next|
    ensures HitStep(s, i, part, TagLength(part), next, after, key, value)
  {
    FindsHit(s, i, part, next, key);
    var m := HitAt(i, part, next);
    FoundStep(s, i, part, TagLength(part), m.body, next, TagLength(next), m.close, m.end, after, key, value);
  }

  lemma RewriteMiss(parts: Parts, key: string, value: string)
    requires parts.Cons? && !Hit(parts, key)
    ensures Render(Rewrite(parts, key, value)) == ['<'] + (parts.part + Render(Rewrite(parts.tail, key, value)))
  {
    assert Rewrite(parts, key, value) == Cons(parts.part, Rewrite(parts.tail, key, value));
  }

  /** What the rewriting makes of a hit, of which the first `n` characters are the tag. */
  ghost predicate RewriteStep(parts: Parts, n: nat, key: string, value: string)
    requires parts.Cons? && parts.tail.Cons? && n <= |parts.part|
  {
    Rewrite(parts, key, value)
    == Cons(parts.part[..n] + value, Cons(parts.tail.part, Rewrite(parts.tail.tail, key, value)))
  }

  lemma RewriteHit(parts: Parts, key: string, value: string)
    requires IsName(key) && Hit(parts, key)
    ensures RewriteStep(parts, TagLength(parts.part), key, value)
  {
    OpenIsNotClose(parts.tail.part, key);
  }

  lemma RenderTwo(part: string, next: string, tail: Parts)
    ensures Render(Cons(part, Cons(next, tail))) == ['<'] + (part + (['<'] + (next + Render(tail))))
  {
    assert Render(Cons(next, tail)) == ['<'] + (next + Render(tail));
  }

  ghost predicate Rewrites(s: string, i: nat, parts: Parts, key: string, value: string) {
    i <= |s| && Sub(s, i, key, value) == Render(Rewrite(parts, key, value))
  }

  lemma StepRewrites(s: string, i: nat, parts: Parts, n: nat, after: nat, key: string, value: string)
    requires parts.Cons? && parts.tail.Cons? && n <= |parts.part| && i <= |s| && after <= |s|
    requires HitStep(s, i, parts.part, n, parts.tail.part, after, key, value) && RewriteStep(parts, n, key, value)
    requires Rewrites(s, after, parts.tail.tail, key, value)
    ensures Rewrites(s, i, parts, key, value)
  {
    var next, other := parts.tail.part, Rewrite(parts.tail.tail, key, value);
    RenderTwo(parts.part[..n] + value, next, other);
    SwapDeep(Sub(s, i, key, value), parts.part[..n] + value, next, Sub(s, after, key, value),
             Render(other), Render(Rewrite(parts, key, value)));
  }

  lemma MissRewrites(s: string, i: nat, parts: Parts, close: nat, key: string, value: string)
    requires i < |s| && s[i] == '<' && parts.Cons? && Holds(s, i + 1, parts.part) && Without(parts.part, '<')
    requires close == i + 1 + |parts.part| && Find(s, i, key) == None && !Hit(parts, key)
    requires Rewrites(s, close, parts.tail, key, value)
    ensures Rewrites(s, i, parts, key, value)
  {
    MissStep(s, i, parts.part, close, key, value);
    RewriteMiss(parts, key, value);
    Swap(Sub(s, i, key, value), parts.part, Sub(s, close, key, value),
         Render(Rewrite(parts.tail, key, value)), Render(Rewrite(parts, key, value)));
  }

  lemma LiesTwo(s: string, i: nat, parts: Parts)
    requires Lies(s, i, parts) && parts.Cons? && parts.tail.Cons?
    ensures Two(s, i, parts.part, parts.tail.part)
    ensures Lies(s, i + 1 + |parts.part| + 1 + |parts.tail.part|, parts.tail.tail)
  {
    assert Lies(s, i + 1 + |parts.part|, parts.tail);
  }

  lemma HitRewrites(s: string, i: nat, parts: Parts, after: nat, key: string, value: string)
    requires i <= |s| && Lies(s, i, parts) && Clean(parts) && IsName(key) && Hit(parts, key)
    requires after == i + 1 + |parts.part| + 1 + |parts.tail.part| && Rewrites(s, after, parts.tail.tail, key, value)
    ensures Rewrites(s, i, parts, key, value)
  {
    LiesTwo(s, i, parts);
    SubHit(s, i, parts.part, parts.tail.part, after, key, value);
    RewriteHit(parts, key, value);
    StepRewrites(s, i, parts, TagLength(parts.part), after, key, value);
  }

  lemma {:induction false} SubRewrites(s: string, i: nat, parts: Parts, key: string, value: string)
    requires i <= |s| && Lies(s, i, parts) && Clean(parts) && IsName(key)
    ensures Rewrites(s, i, parts, key, value)
    decreases parts
  {
    if Hit(parts, key) {
      var after := i + 1 + |parts.part| + 1 + |parts.tail.part|;
      LiesTwo(s, i, parts);
      SubRewrites(s, after, parts.tail.tail, key, value);
      HitRewrites(s, i, parts, after, key, value);
    } else if parts.Cons? {
      var close := i + 1 + |parts.part|;
      SubRewrites(s, close, parts.tail, key, value);
      FindsMiss(s, i, parts, key);
      MissRewrites(s, i, parts, close, key, value);
    }
  }

  /** The substitution on any page is the rewriting of its parts, for any value. */
  lemma ReplaceIsRewrite(html: string, key: string, value: string)
    requires IsName(key)
    ensures var page := Cut(html, 0);
            ReplaceMarker(html, key, value) == Text(Page(page.head, Rewrite(page.parts, key, value)))
  {
    var page := Cut(html, 0);
    var n := |page.head|;
    CutLies(html, 0);
    SubCopies(html, 0, n, key, value);
    SubRewrites(html, n, page.parts, key, value);
    assert html[0..n] == page.head;
  }

  // ---------- Rewriting twice ----------

  lemma TagKept(part: string, value: string, name: string)
    requires TagLength(part) <= |part|
    ensures TagLength(WithBody(part, value)) == TagLength(part)
    ensures Opens(WithBody(part, value), name) <==> Opens(part, name)
  {
    var n, other := TagLength(part), WithBody(part, value);
    FirstIs(other, '>', 0, n - 1);
    assert other[0..n] == part[..n];
    if Opens(part, name) {
      TagInPiece(part, 0, part[..n], n, name);
      TagInText(other, 0, part[..n], n, name);
    }
    if Opens(other, name) {
      TagInPiece(other, 0, part[..n], n, name);
      TagInText(part, 0, part[..n], n, name);
    }
  }

  lemma BodyReplaced(part: string, value: string, other: string)
    requires TagLength(part) <= |part|
    ensures TagLength(WithBody(part, value)) <= |WithBody(part, value)|
    ensures WithBody(WithBody(part, value), other) == WithBody(part, other)
  {
    TagKept(part, value, "");
    assert WithBody(part, value)[..TagLength(part)] == part[..TagLength(part)];
  }

  lemma RewriteKeepsTag(parts: Parts, key: string, value: string, name: string)
    requires parts.Cons?
    ensures Opens(Rewrite(parts, key, value).part, name) <==> Opens(parts.part, name)
  {
    if Hit(parts, key) {
      TagKept(parts.part, value, name);
    }
  }

  /** Rewriting under one key neither makes nor removes a hit under any key. */
  lemma RewriteKeepsHits(parts: Parts, key: string, value: string, other: string)
    ensures Hit(Rewrite(parts, key, value), other) <==> Hit(parts, other)
  {
    if parts.Cons? {
      RewriteKeepsTag(parts, key, value, OpenName(other));
      if parts.tail.Cons? {
        RewriteKeepsTag(parts.tail, key, value, CloseName);
      }
    }
  }

  lemma {:induction false} LastRewriteWins(parts: Parts, key: string, first: string, last: string)
    ensures Rewrite(Rewrite(parts, key, first), key, last) == Rewrite(parts, key, last)
  {
    if parts.Cons? {
      LastRewriteWins(parts.tail, key, first, last);
      RewriteKeepsHits(parts, key, first, key);
      if Hit(parts, key) {
        BodyReplaced(parts.part, first, last);
      }
    }
  }

  lemma OpenNamesDiffer(key: string, other: string)
    requires key != other
    ensures OpenName(key) != OpenName(other)
  {
    assert OpenName(key)[10..] == key && OpenName(other)[10..] == other;
  }

  lemma KeysExclude(parts: Parts, key: string, other: string)
    requires IsName(key) && IsName(other) && key != other
    ensures !(Hit(parts, key) && Hit(parts, other))
  {
    if Hit(parts, key) && Hit(parts, other) {
      NamesAreNames(key);
      NamesAreNames(other);
      OpenNamesDiffer(key, other);
      TagNamesAgree(parts.part, 0, TagLength(parts.part), OpenName(key), OpenName(other));
    }
  }

  lemma {:induction false} RewritesCommute(parts: Parts, key: string, value: string, other: string, value': string)
    requires IsName(key) && IsName(other) && key != other
    ensures Rewrite(Rewrite(parts, key, value), other, value') == Rewrite(Rewrite(parts, other, value'), key, value)
  {
    if parts.Cons? {
      RewritesCommute(parts.tail, key, value, other, value');
      RewriteKeepsHits(parts, key, value, other);
      RewriteKeepsHits(parts, other, value', key);
      KeysExclude(parts, key, other);
    }
  }

  lemma {:induction false} RewriteIsClean(parts: Parts, key: string, value: string)
    requires Clean(parts) && Without(value, '<')
    ensures Clean(Rewrite(parts, key, value))
  {
    if parts.Cons? {
      RewriteIsClean(parts.tail, key, value);
    }
  }

  lemma CutOfReplaced(html: string, key: string, value: string)
    requires IsName(key) && Without(value, '<')
    ensures var page := Cut(html, 0);
            Cut(ReplaceMarker(html, key, value), 0) == Page(page.head, Rewrite(page.parts, key, value))
  {
    var page := Cut(html, 0);
    ReplaceIsRewrite(html, key, value);
    RewriteIsClean(page.parts, key, value);
    CutOfText(Page(page.head, Rewrite(page.parts, key, value)));
  }

  /** The last value written under a key wins; with the same value twice, the second changes nothing. */
  lemma LastValueWins(html: string, key: string, first: string, last: string)
    requires IsName(key) && Without(first, '<')
    ensures ReplaceMarker(ReplaceMarker(html, key, first), key, last) == ReplaceMarker(html, key, last)
  {
    CutOfReplaced(html, key, first);
    ReplaceIsRewrite(html, key, last);
    ReplaceIsRewrite(ReplaceMarker(html, key, first), key, last);
    LastRewriteWins(Cut(html, 0).parts, key, first, last);
  }

  /** Values under different keys may be written in either order. */
  lemma KeysCommute(html: string, key: string, value: string, other: string, value': string)
    requires IsName(key) && IsName(other) && key != other && Without(value, '<') && Without(value', '<')
    ensures ReplaceMarker(ReplaceMarker(html, key, value), other, value')
            == ReplaceMarker(ReplaceMarker(html, other, value'), key, value)
  {
    CutOfReplaced(html, key, value);
    CutOfReplaced(html, other, value');
    ReplaceIsRewrite(ReplaceMarker(html, key, value), other, value');
    ReplaceIsRewrite(ReplaceMarker(html, other, value'), key, value);
    RewritesCommute(Cut(html, 0).parts, key, value, other, value');
  }

  // ---------- What lies outside the bodies ----------

  /** A stretch of a page outside the bodies; `open` when a body follows it. */
  datatype Piece = Piece(text: string, open: bool)

  /** What is left of each part when the bodies under a key are taken out. */
  function Outside(parts: Parts, key: string): seq<Piece> {
    if parts.Nil? then []
    else
      [if Hit(parts, key) then Piece(parts.part[..TagLength(parts.part)], true) else Piece(parts.part, false)]
      + Outside(parts.tail, key)
  }

  /** A page without the bodies under a key, as the stretches between them in their order. */
  function Frame(html: string, key: string): seq<Piece> {
    [Piece(Cut(html, 0).head, false)] + Outside(Cut(html, 0).parts, key)
  }

  lemma {:induction false} RewriteKeepsOutside(parts: Parts, key: string, value: string)
    ensures Outside(Rewrite(parts, key, value), key) == Outside(parts, key)
  {
    if parts.Cons? {
      RewriteKeepsOutside(parts.tail, key, value);
      RewriteKeepsHits(parts, key, value, key);
      if Hit(parts, key) {
        TagKept(parts.part, value, "");
        assert WithBody(parts.part, value)[..TagLength(parts.part)] == parts.part[..TagLength(parts.part)];
      }
    }
  }

  /** All text outside the bodies, and where bodies stand in it, is the same before and after. */
  lemma OutsideUnchanged(html: string, key: string, value: string)
    requires IsName(key) && Without(value, '<')
    ensures Frame(ReplaceMarker(html, key, value), key) == Frame(html, key)
  {
    CutOfReplaced(html, key, value);
    RewriteKeepsOutside(Cut(html, 0).parts, key, value);
  }

  /** The text of a frame with the same body in every place that is open. */
  function Filled(pieces: seq<Piece>, value: string): string {
    if pieces == [] then ""
    else ['<'] + ((if pieces[0].open then pieces[0].text + value else pieces[0].text) + Filled(pieces[1..], value))
  }

  lemma {:induction false} RenderFills(parts: Parts, key: string, value: string)
    ensures Render(Rewrite(parts, key, value)) == Filled(Outside(parts, key), value)
  {
    if parts.Cons? {
      RenderFills(parts.tail, key, value);
      assert Outside(parts, key)[1..] == Outside(parts.tail, key);
      assert Rewrite(parts, key, value).tail == Rewrite(parts.tail, key, value);
    }
  }

  /** The page after a write is its frame, filled with the value: nothing else of the old page matters. */
  lemma WriteFillsFrame(html: string, key: string, value: string)
    requires IsName(key)
    ensures ReplaceMarker(html, key, value) == Frame(html, key)[0].text + Filled(Frame(html, key)[1..], value)
  {
    ReplaceIsRewrite(html, key, value);
    RenderFills(Cut(html, 0).parts, key, value);
    assert Frame(html, key)[1..] == Outside(Cut(html, 0).parts, key);
  }

  // ---------- Every marker holds the value ----------

  predicate Bodies(parts: Parts, key: string, value: string) {
    parts.Cons? ==>
      && (Hit(parts, key) ==> parts.part[TagLength(parts.part)..] == value)
      && Bodies(parts.tail, key, value)
  }

  lemma {:induction false} RewriteSetsBodies(parts: Parts, key: string, value: string)
    ensures Bodies(Rewrite(parts, key, value), key, value)
  {
    if parts.Cons? {
      RewriteSetsBodies(parts.tail, key, value);
      RewriteKeepsHits(parts, key, value, key);
      if Hit(parts, key) {
        TagKept(parts.part, value, "");
      }
    }
  }

  lemma BodyAt(s: string, i: nat, part: string, next: string, m: Match, key: string)
    requires Two(s, i, part, next) && Without(part, '<') && IsName(key)
    requires Opens(part, OpenName(key)) && Opens(next, CloseName) && Find(s, i, key) == Some(m)
    ensures m.body == i + 1 + TagLength(part) && m.close == i + 1 + |part|
  {
    FindsHit(s, i, part, next, key);
  }

  predicate BodyIs(s: string, m: Match, value: string) {
    m.body <= m.close <= |s| && s[m.body..m.close] == value
  }

  lemma BodyPiece(s: string, i: nat, part: string, n: nat, m: Match, value: string)
    requires Holds(s, i + 1, part) && n <= |part| && part[n..] == value
    requires m.body == i + 1 + n && m.close == i + 1 + |part|
    ensures BodyIs(s, m, value)
  {
    PieceTail(s, i + 1, part, n);
  }

  /** The body of a match is what follows the tag in the part there. */
  lemma BodyOfMatch(s: string, i: nat, parts: Parts, m: Match, key: string, value: string)
    requires i < |s| && Lies(s, i, parts) && Clean(parts) && IsName(key) && Find(s, i, key) == Some(m)
    requires Bodies(parts, key, value)
    ensures BodyIs(s, m, value)
  {
    MatchHits(s, i, parts, m, key);
    LiesTwo(s, i, parts);
    BodyAt(s, i, parts.part, parts.tail.part, m, key);
    BodyPiece(s, i, parts.part, TagLength(parts.part), m, value);
  }

  lemma NotInside(s: string, i: nat, part: string, j: nat)
    requires Holds(s, i + 1, part) && Without(part, '<') && i < j < |s| && s[j] == '<'
    ensures i + 1 + |part| <= j
  {
    CleanPiece(s, i + 1, part);
  }

  lemma FindsLess(s: string, j: nat, key: string)
    requires j < |s| && Find(s, j, key).Some?
    ensures s[j] == '<'
  {
  }

  lemma BodiesOfTail(parts: Parts, key: string, value: string)
    requires parts.Cons? && Clean(parts) && Bodies(parts, key, value)
    ensures Clean(parts.tail) && Bodies(parts.tail, key, value) && Without(parts.part, '<')
  {
  }

  lemma {:induction false} BodiesOfMatches(
      s: string, i: nat, parts: Parts, j: nat, m: Match, key: string, value: string)
    requires i <= j < |s| && s[j] == '<' && Lies(s, i, parts) && Clean(parts) && IsName(key)
    requires Bodies(parts, key, value) && Find(s, j, key) == Some(m)
    ensures BodyIs(s, m, value)
    decreases parts
  {
    if i == j {
      BodyOfMatch(s, i, parts, m, key, value);
    } else {
      BodiesOfTail(parts, key, value);
      NotInside(s, i, parts.part, j);
      BodiesOfMatches(s, i + 1 + |parts.part|, parts.tail, j, m, key, value);
    }
  }

  /** After a write, the body of every match in the page is the value. */
  lemma {:induction false} EveryMarkerHolds(html: string, key: string, value: string, j: nat, m: Match)
    requires IsName(key) && Without(value, '<')
    requires j < |ReplaceMarker(html, key, value)| && Find(ReplaceMarker(html, key, value), j, key) == Some(m)
    ensures BodyIs(ReplaceMarker(html, key, value), m, value)
  {
    var s := ReplaceMarker(html, key, value);
    var page := Cut(s, 0);
    CutOfReplaced(html, key, value);
    RewriteSetsBodies(Cut(html, 0).parts, key, value);
    CutLies(s, 0);
    CleanPiece(s, 0, page.head);
    FindsLess(s, j, key);
    BodiesOfMatches(s, |page.head|, page.parts, j, m, key, value);
  }

  // ---------- Exactly which values may be overwritten ----------

  function Count(s: string): nat {
    if s == "" then 0 else (if s[0] == '<' then 1 else 0) + Count(s[1..])
  }

  lemma {:induction false} CountJoins(a: string, b: string)
    ensures Count(a + b) == Count(a) + Count(b)
  {
    if a == "" {
      assert a + b == b;
    } else {
      CountJoins(a[1..], b);
      assert (a + b)[1..] == a[1..] + b;
    }
  }

  lemma {:induction false} CountOf(s: string)
    ensures Count(s) == 0 <==> Without(s, '<')
  {
    if s != "" {
      CountOf(s[1..]);
      assert Without(s, '<') <==> s[0] != '<' && Without(s[1..], '<') by {
        assert forall i :: 0 < i < |s| ==> s[i] == s[1..][i - 1];
      }
    }
  }

  function Length(parts: Parts): nat {
    if parts.Nil? then 0 else 1 + Length(parts.tail)
  }

  predicate Hits(parts: Parts, key: string) {
    parts.Cons? && (Hit(parts, key) || Hits(parts.tail, key))
  }

  /** The page has a marker of this key. */
  predicate HasMarker(html: string, key: string) {
    Hits(Cut(html, 0).parts, key)
  }

  lemma CountOfCons(part: string, tail: Parts)
    ensures Count(Render(Cons(part, tail))) == 1 + Count(part) + Count(Render(tail))
  {
    CountJoins(['<'], part + Render(tail));
    CountJoins(part, Render(tail));
    assert ['<'][1..] == "";
  }

  lemma CountOfBody(part: string, value: string)
    requires Without(part, '<') && TagLength(part) <= |part|
    ensures Count(WithBody(part, value)) == Count(value)
  {
    CountJoins(part[..TagLength(part)], value);
    CountOf(part[..TagLength(part)]);
  }

  lemma CountOfFirst(parts: Parts, key: string, value: string)
    requires parts.Cons? && Clean(parts)
    ensures Count(Rewrite(parts, key, value).part) == if Hit(parts, key) then Count(value) else 0
  {
    if Hit(parts, key) {
      CountOfBody(parts.part, value);
    } else {
      CountOf(parts.part);
    }
  }

  lemma {:induction false} CountGrows(parts: Parts, key: string, value: string)
    requires Clean(parts)
    ensures Count(Render(Rewrite(parts, key, value))) >= Length(parts)
    ensures Hits(parts, key) && Count(value) > 0 ==> Count(Render(Rewrite(parts, key, value))) > Length(parts)
    ensures Count(value) == 0 ==> Count(Render(Rewrite(parts, key, value))) == Length(parts)
  {
    if parts.Cons? {
      CountGrows(parts.tail, key, value);
      CountOfCons(Rewrite(parts, key, value).part, Rewrite(parts.tail, key, value));
      CountOfFirst(parts, key, value);
    }
  }

  lemma {:induction false} CountOfClean(parts: Parts)
    requires Clean(parts)
    ensures Count(Render(parts)) == Length(parts)
  {
    if parts.Cons? {
      CountOfClean(parts.tail);
      CountOfCons(parts.part, parts.tail);
      CountOf(parts.part);
    }
  }

  lemma CountOfText(html: string)
    ensures Count(html) == Length(Cut(html, 0).parts)
  {
    var page := Cut(html, 0);
    TextOfCut(html);
    CountJoins(page.head, Render(page.parts));
    CountOf(page.head);
    CountOfClean(page.parts);
  }

  lemma CountOfReplaced(html: string, key: string, value: string)
    requires IsName(key)
    ensures HasMarker(html, key) && !Without(value, '<') ==> Count(ReplaceMarker(html, key, value)) > Count(html)
    ensures Without(value, '<') ==> Count(ReplaceMarker(html, key, value)) == Count(html)
  {
    var page := Cut(html, 0);
    CountOfText(html);
    ReplaceIsRewrite(html, key, value);
    CountJoins(page.head, Render(Rewrite(page.parts, key, value)));
    CountOf(page.head);
    CountOf(value);
    CountGrows(page.parts, key, value);
  }

  lemma {:induction false} RewriteNothing(parts: Parts, key: string, value: string)
    requires !Hits(parts, key)
    ensures Rewrite(parts, key, value) == parts
  {
    if parts.Cons? {
      RewriteNothing(parts.tail, key, value);
    }
  }

  lemma NoMarkerNoChange(html: string, key: string, value: string)
    requires IsName(key) && !HasMarker(html, key)
    ensures ReplaceMarker(html, key, value) == html
  {
    ReplaceIsRewrite(html, key, value);
    RewriteNothing(Cut(html, 0).parts, key, value);
    TextOfCut(html);
  }

  /** A value with a `<` leaves the page with more of them than any later clean value can account for. */
  lemma LeftoversStay(html: string, key: string, first: string, last: string)
    requires IsName(key) && Without(last, '<') && !Without(first, '<') && HasMarker(html, key)
    ensures Count(ReplaceMarker(ReplaceMarker(html, key, first), key, last)) > Count(ReplaceMarker(html, key, last))
  {
    CountOfReplaced(html, key, first);
    CountOfReplaced(html, key, last);
    CountOfReplaced(ReplaceMarker(html, key, first), key, last);
  }

  /**
   On a page with the marker, a later value without `<` wins over an earlier one exactly when the
   earlier one has no `<` either.
   */
  lemma WhenTheLastValueWins(html: string, key: string, first: string, last: string)
    requires IsName(key) && Without(last, '<')
    ensures ReplaceMarker(ReplaceMarker(html, key, first), key, last) == ReplaceMarker(html, key, last)
            <==> Without(first, '<') || !HasMarker(html, key)
  {
    if Without(first, '<') {
      LastValueWins(html, key, first, last);
    } else if !HasMarker(html, key) {
      NoMarkerNoChange(html, key, first);
    } else {
      LeftoversStay(html, key, first, last);
    }
  }

  // ---------- What the pattern is ----------

  predicate AllSpace(s: string) {
    forall i :: 0 <= i < |s| ==> IsSpace(s[i])
  }

  /** A comment without its `<`. */
  function Tag(left: string, name: string, right: string): string {
    "!--" + left + name + right + "-->"
  }

  /** The white space in the two tags of a marker. */
  datatype Spaces = Spaces(a: string, b: string, c: string, d: string)

  predicate AreSpaces(w: Spaces) {
    AllSpace(w.a) && AllSpace(w.b) && AllSpace(w.c) && AllSpace(w.d)
  }

  /** A marker as it stands in a page. */
  function Marker(w: Spaces, key: string, body: string): string {
    "<!--" + w.a + "a2a:stats:" + key + w.b + "-->" + body + "<!--" + w.c + "/a2a:stats" + w.d + "-->"
  }

  lemma TagWritten(whole: string, left: string, name: string, right: string)
    requires whole == "<!--" + left + name + right + "-->"
    ensures whole == ['<'] + Tag(left, name, right)
  {
    assert "<!--" == ['<'] + "!--";
  }

  lemma Assoc(x: string, a: string, b: string, c: string, d: string, e: string)
    ensures x + a + b + c + d + e == x + (a + b + c + d + e)
  {
  }

  lemma MarkerIs(w: Spaces, key: string, body: string)
    ensures Marker(w, key, body)
            == (['<'] + Tag(w.a, OpenName(key), w.b)) + body + (['<'] + Tag(w.c, CloseName, w.d))
  {
    var first, last := "<!--" + w.a + "a2a:stats:" + key + w.b + "-->", "<!--" + w.c + "/a2a:stats" + w.d + "-->";
    assert first == "<!--" + w.a + OpenName(key) + w.b + "-->";
    TagWritten(first, w.a, OpenName(key), w.b);
    TagWritten(last, w.c, CloseName, w.d);
    Assoc(first + body, "<!--", w.c, "/a2a:stats", w.d, "-->");
  }

  lemma TagReads(t: string, left: string, name: string, right: string, p: nat, q: nat)
    requires t == Tag(left, name, right) && AllSpace(left) && AllSpace(right)
    requires p == 3 + |left| && q == p + |name|
    ensures TaggedAt(t, 0, |t|, name, p, q)
  {
    assert t[3..p] == left && t[p..q] == name && t[q..q + |right|] == right && t[q + |right|..] == "-->";
    assert forall x :: 3 <= x < p ==> t[x] == left[x - 3];
    assert forall x :: p <= x < q ==> t[x] == name[x - p];
    assert forall x :: q <= x < |t| - 3 ==> t[x] == right[x - q];
  }

  /** A part that begins with a tag opens with its name, and the rest is its body. */
  lemma TagOpens(left: string, name: string, right: string, rest: string)
    requires AllSpace(left) && AllSpace(right) && IsName(name)
    ensures Opens(Tag(left, name, right) + rest, name)
    ensures TagLength(Tag(left, name, right) + rest) == |Tag(left, name, right)|
  {
    var t := Tag(left, name, right);
    TagReads(t, left, name, right, 3 + |left|, 3 + |left| + |name|);
    assert (t + rest)[0..|t|] == t;
    TagInText(t + rest, 0, t, |t|, name);
    TagShape(t + rest, 0, |t|, name);
    FirstIs(t + rest, '>', 0, |t| - 1);
  }

  lemma TagIsClean(left: string, name: string, right: string)
    requires AllSpace(left) && AllSpace(right) && IsName(name)
    ensures Without(Tag(left, name, right), '<')
  {
    var t := Tag(left, name, right);
    TagReads(t, left, name, right, 3 + |left|, 3 + |left| + |name|);
    TagShape(t, 0, |t|, name);
  }

  function Append(front: Parts, back: Parts): Parts {
    if front.Nil? then back else Cons(front.part, Append(front.tail, back))
  }

  lemma {:induction false} RenderAppends(front: Parts, back: Parts)
    ensures Render(Append(front, back)) == Render(front) + Render(back)
  {
    if front.Cons? {
      RenderAppends(front.tail, back);
    }
  }

  lemma {:induction false} AppendIsClean(front: Parts, back: Parts)
    requires Clean(front) && Clean(back)
    ensures Clean(Append(front, back))
  {
    if front.Cons? {
      AppendIsClean(front.tail, back);
    }
  }

  /** Parts before one that is no closing tag are rewritten as if they stood alone. */
  lemma {:induction false} RewriteAppends(front: Parts, back: Parts, key: string, value: string)
    requires back.Cons? && !Opens(back.part, CloseName)
    ensures Rewrite(Append(front, back), key, value) == Append(Rewrite(front, key, value), Rewrite(back, key, value))
  {
    if front.Cons? {
      RewriteAppends(front.tail, back, key, value);
    }
  }

  /** The parts of a marker with this body, followed by those of a page. */
  function MarkerParts(w: Spaces, key: string, body: string, after: Page): Parts {
    Cons(Tag(w.a, OpenName(key), w.b) + body, Cons(Tag(w.c, CloseName, w.d) + after.head, after.parts))
  }

  lemma JoinMarker(marker: string, open: string, body: string, close: string, head: string, rest: string)
    requires marker == (['<'] + open) + body + (['<'] + close)
    ensures ['<'] + ((open + body) + (['<'] + ((close + head) + rest))) == marker + (head + rest)
  {
    var left := ['<'] + ((open + body) + (['<'] + ((close + head) + rest)));
    assert left == (['<'] + open) + body + ((['<'] + close) + (head + rest));
  }

  lemma MarkerRenders(w: Spaces, key: string, body: string, after: Page)
    ensures Render(MarkerParts(w, key, body, after)) == Marker(w, key, body) + Text(after)
  {
    var open, close := Tag(w.a, OpenName(key), w.b), Tag(w.c, CloseName, w.d);
    MarkerIs(w, key, body);
    RenderTwo(open + body, close + after.head, after.parts);
    JoinMarker(Marker(w, key, body), open, body, close, after.head, Render(after.parts));
  }

  lemma MarkerIsHit(w: Spaces, key: string, body: string, after: Page)
    requires IsName(key) && AreSpaces(w)
    ensures var parts := MarkerParts(w, key, body, after);
            && Hit(parts, key) && !Opens(parts.part, CloseName)
            && TagLength(parts.part) == |Tag(w.a, OpenName(key), w.b)|
  {
    NamesAreNames(key);
    TagOpens(w.a, OpenName(key), w.b, body);
    TagOpens(w.c, CloseName, w.d, after.head);
    var parts := MarkerParts(w, key, body, after);
    if Opens(parts.part, CloseName) {
      OpenIsNotClose(parts.part, key);
    }
  }

  lemma MarkerRewrites(w: Spaces, key: string, body: string, after: Page, value: string)
    requires IsName(key) && AreSpaces(w)
    ensures Rewrite(MarkerParts(w, key, body, after), key, value)
            == MarkerParts(w, key, value, Page(after.head, Rewrite(after.parts, key, value)))
  {
    var parts := MarkerParts(w, key, body, after);
    MarkerIsHit(w, key, body, after);
    RewriteHit(parts, key, value);
    assert parts.part[..TagLength(parts.part)] == Tag(w.a, OpenName(key), w.b);
  }

  lemma MarkerIsClean(w: Spaces, key: string, body: string, after: Page)
    requires IsName(key) && AreSpaces(w) && Without(body, '<') && Without(after.head, '<') && Clean(after.parts)
    ensures Clean(MarkerParts(w, key, body, after))
  {
    NamesAreNames(key);
    TagIsClean(w.a, OpenName(key), w.b);
    TagIsClean(w.c, CloseName, w.d);
  }

  lemma Joined(head: string, front: string, marker: string, after: string)
    ensures head + (front + (marker + after)) == (head + front) + marker + after
  {
  }

  /** A page with these parts, a marker, and another page. */
  lemma PageText(before: Page, w: Spaces, key: string, body: string, after: Page)
    ensures Text(Page(before.head, Append(before.parts, MarkerParts(w, key, body, after))))
            == Text(before) + Marker(w, key, body) + Text(after)
  {
    RenderAppends(before.parts, MarkerParts(w, key, body, after));
    MarkerRenders(w, key, body, after);
    Joined(before.head, Render(before.parts), Marker(w, key, body), Text(after));
  }

  lemma PageCut(before: Page, w: Spaces, key: string, body: string, after: Page)
    requires IsName(key) && AreSpaces(w) && Without(body, '<')
    requires Without(before.head, '<') && Clean(before.parts) && Without(after.head, '<') && Clean(after.parts)
    ensures Cut(Text(before) + Marker(w, key, body) + Text(after), 0)
            == Page(before.head, Append(before.parts, MarkerParts(w, key, body, after)))
  {
    MarkerIsClean(w, key, body, after);
    AppendIsClean(before.parts, MarkerParts(w, key, body, after));
    PageText(before, w, key, body, after);
    CutOfText(Page(before.head, Append(before.parts, MarkerParts(w, key, body, after))));
  }

  lemma PageRewrites(before: Page, w: Spaces, key: string, body: string, after: Page, value: string)
    requires IsName(key) && AreSpaces(w)
    ensures Rewrite(Append(before.parts, MarkerParts(w, key, body, after)), key, value)
            == Append(Rewrite(before.parts, key, value),
                      MarkerParts(w, key, value, Page(after.head, Rewrite(after.parts, key, value))))
  {
    MarkerIsHit(w, key, body, after);
    RewriteAppends(before.parts, MarkerParts(w, key, body, after), key, value);
    MarkerRewrites(w, key, body, after, value);
  }

  /**
   The effect of a write on one marker and around it: its body becomes the value, and what comes before and
   after is replaced as if it stood alone.
   */
  lemma MarkerIsReplaced(before: string, w: Spaces, key: string, body: string, after: string, value: string)
    requires IsName(key) && AreSpaces(w) && Without(body, '<')
    ensures ReplaceMarker(before + Marker(w, key, body) + after, key, value)
            == ReplaceMarker(before, key, value) + Marker(w, key, value) + ReplaceMarker(after, key, value)
  {
    var left, right := Cut(before, 0), Cut(after, 0);
    TextOfCut(before);
    TextOfCut(after);
    PageCut(left, w, key, body, right);
    ReplaceIsRewrite(before + Marker(w, key, body) + after, key, value);
    PageRewrites(left, w, key, body, right, value);
    ReplaceIsRewrite(before, key, value);
    ReplaceIsRewrite(after, key, value);
    PageText(Page(left.head, Rewrite(left.parts, key, value)), w, key, value,
             Page(right.head, Rewrite(right.parts, key, value)));
  }

  lemma NameIn(s: string, i: nat, j: nat, name: string, p: nat, q: nat)
    requires TaggedAt(s, i, j, name, p, q)
    ensures s[p..q] == name && AllSpace(s[i + 3..p]) && AllSpace(s[q..j - 3])
  {
  }

  lemma FiveSlices(s: string, i: nat, p: nat, q: nat, j: nat)
    requires i + 3 <= p <= q <= j - 3 && j <= |s|
    ensures s[i..j] == s[i..i + 3] + s[i + 3..p] + s[p..q] + s[q..j - 3] + s[j - 3..j]
  {
  }

  lemma SplitTag(s: string, i: nat, j: nat, name: string, p: nat, q: nat)
    requires TaggedAt(s, i, j, name, p, q)
    ensures s[i..j] == Tag(s[i + 3..p], name, s[q..j - 3])
    ensures AllSpace(s[i + 3..p]) && AllSpace(s[q..j - 3])
  {
    assert s[i..i + 3] == "!--" && s[j - 3..j] == "-->";
    NameIn(s, i, j, name, p, q);
    FiveSlices(s, i, p, q, j);
  }

  lemma TagIsWritten(s: string, i: nat, j: nat, name: string) returns (left: string, right: string)
    requires i < j && i < |s| && s[i] == '<' && IsTag(s, i + 1, j, name)
    ensures j <= |s| && AllSpace(left) && AllSpace(right) && s[i..j] == ['<'] + Tag(left, name, right)
  {
    var p: nat, q: nat :| p <= |s| && q <= |s| && TaggedAt(s, i + 1, j, name, p, q);
    left, right := s[i + 4..p], s[q..j - 3];
    SplitTag(s, i + 1, j, name, p, q);
    assert s[i..j] == [s[i]] + s[i + 1..j];
  }

  lemma ThreeSlices(s: string, i: nat, j: nat, k: nat, l: nat)
    requires i <= j <= k <= l <= |s|
    ensures s[i..l] == s[i..j] + s[j..k] + s[k..l]
  {
  }

  /** Whatever the pattern matches is a marker of this key. */
  lemma MatchIsMarker(s: string, i: nat, m: Match, key: string) returns (w: Spaces)
    requires i < |s| && Matches(s, i, m, key)
    ensures AreSpaces(w) && s[i..m.end] == Marker(w, key, s[m.body..m.close])
  {
    var a, b := TagIsWritten(s, i, m.body, OpenName(key));
    var c, d := TagIsWritten(s, m.close, m.end, CloseName);
    w := Spaces(a, b, c, d);
    MarkerIs(w, key, s[m.body..m.close]);
    ThreeSlices(s, i, m.body, m.close, m.end);
  }

  lemma {:induction false} ChangeIsFound(s: string, i: nat, key: string, value: string) returns (x: nat)
    requires i <= |s| && Sub(s, i, key, value) != s[i..]
    ensures x < |s| && Find(s, x, key).Some?
    decreases |s| - i
  {
    x := i;
    if Find(s, i, key).None? {
      x := ChangeIsFound(s, i + 1, key, value);
    }
  }

  ghost predicate IsMarker(s: string, key: string) {
    exists w, body :: AreSpaces(w) && s == Marker(w, key, body)
  }

  lemma FoundIsMarker(s: string, x: nat, m: Match, key: string)
    requires x < |s| && Find(s, x, key) == Some(m)
    ensures IsMarker(s[x..m.end], key)
  {
    var w := MatchIsMarker(s, x, m, key);
    MarkerFound(s[x..m.end], w, key, s[m.body..m.close]);
  }

  lemma MarkerFound(s: string, w: Spaces, key: string, body: string)
    requires AreSpaces(w) && s == Marker(w, key, body)
    ensures IsMarker(s, key)
  {
  }

  /** Markers are all that a write changes: a page without one of the key, however spaced, stays as it is. */
  lemma OnlyMarkersChange(html: string, key: string, value: string)
    requires ReplaceMarker(html, key, value) != html
    ensures exists i: nat, j: nat :: i <= j <= |html| && IsMarker(html[i..j], key)
  {
    assert html[0..] == html;
    var x := ChangeIsFound(html, 0, key, value);
    FoundIsMarker(html, x, Find(html, x, key).value, key);
  }

  // ---------- When a page is in sync ----------

  /** Every marker of the key holds the value. */
  ghost predicate AllHold(s: string, key: string, value: string) {
    forall i: nat, m :: i < |s| && Find(s, i, key) == Some(m) ==> BodyIs(s, m, value)
  }

  lemma HeldAt(s: string, i: nat, m: Match, key: string, value: string)
    requires i < |s| && AllHold(s, key, value) && Find(s, i, key) == Some(m)
    ensures BodyIs(s, m, value)
  {
  }

  lemma BodyOfPart(s: string, i: nat, part: string, n: nat, m: Match, value: string)
    requires Holds(s, i + 1, part) && n <= |part| && m.body == i + 1 + n && m.close == i + 1 + |part|
    requires BodyIs(s, m, value)
    ensures part[n..] == value
  {
    PieceTail(s, i + 1, part, n);
  }

  lemma HitBody(s: string, i: nat, part: string, next: string, key: string, value: string)
    requires Two(s, i, part, next) && Without(part, '<') && IsName(key)
    requires Opens(part, OpenName(key)) && Opens(next, CloseName) && AllHold(s, key, value)
    ensures part[TagLength(part)..] == value
  {
    var m := HitAt(i, part, next);
    FindsHit(s, i, part, next, key);
    HeldAt(s, i, m, key, value);
    BodyOfPart(s, i, part, TagLength(part), m, value);
  }

  lemma {:induction false} HoldingBodies(s: string, i: nat, parts: Parts, key: string, value: string)
    requires Lies(s, i, parts) && Clean(parts) && IsName(key) && AllHold(s, key, value)
    ensures Bodies(parts, key, value)
    decreases parts
  {
    if parts.Cons? {
      HoldingBodies(s, i + 1 + |parts.part|, parts.tail, key, value);
      if Hit(parts, key) {
        LiesTwo(s, i, parts);
        HitBody(s, i, parts.part, parts.tail.part, key, value);
      }
    }
  }

  lemma {:induction false} RewriteSame(parts: Parts, key: string, value: string)
    requires Bodies(parts, key, value)
    ensures Rewrite(parts, key, value) == parts
  {
    if parts.Cons? {
      RewriteSame(parts.tail, key, value);
    }
  }

  lemma {:induction false} BodiesOfNone(parts: Parts, key: string, value: string)
    requires !Hits(parts, key)
    ensures Bodies(parts, key, value)
  {
    if parts.Cons? {
      BodiesOfNone(parts.tail, key, value);
    }
  }

  lemma BodiesHold(html: string, key: string, value: string)
    requires IsName(key) && Bodies(Cut(html, 0).parts, key, value)
    ensures AllHold(html, key, value)
  {
    var page := Cut(html, 0);
    CutLies(html, 0);
    CleanPiece(html, 0, page.head);
    forall j: nat, m | j < |html| && Find(html, j, key) == Some(m) ensures BodyIs(html, m, value) {
      FindsLess(html, j, key);
      BodiesOfMatches(html, |page.head|, page.parts, j, m, key, value);
    }
  }

  /** A write leaves a page as it is if and only if every marker of the key holds the value already. */
  lemma UnchangedExactly(html: string, key: string, value: string)
    requires IsName(key)
    ensures ReplaceMarker(html, key, value) == html <==> AllHold(html, key, value)
  {
    var page := Cut(html, 0);
    if AllHold(html, key, value) {
      CutLies(html, 0);
      HoldingBodies(html, |page.head|, page.parts, key, value);
      ReplaceIsRewrite(html, key, value);
      RewriteSame(page.parts, key, value);
      TextOfCut(html);
    }
    if ReplaceMarker(html, key, value) == html {
      if Without(value, '<') {
        CutOfReplaced(html, key, value);
        RewriteSetsBodies(page.parts, key, value);
      } else {
        CountOfReplaced(html, key, value);
        BodiesOfNone(page.parts, key, value);
      }
      BodiesHold(html, key, value);
    }
  }

  // ---------- A page file ----------

  datatype Stats = Stats(totalTools: nat, numServices: nat, version: string)

  const ToolsKey := "total-tools"
  const ServicesKey := "num-services"
  const VersionKey := "version"

  function Updated(html: string, stats: Stats): string {
    var tools := ReplaceMarker(html, ToolsKey, Decimal.PrintNat(stats.totalTools));
    var services := ReplaceMarker(tools, ServicesKey, Decimal.PrintNat(stats.numServices));
    if stats.version != "" then ReplaceMarker(services, VersionKey, stats.version) else services
  }

  lemma KeysAreNames()
    ensures IsName(ToolsKey) && IsName(ServicesKey) && IsName(VersionKey)
    ensures ToolsKey != ServicesKey && ServicesKey != VersionKey && ToolsKey != VersionKey
  {
    assert ToolsKey[0] == 't' && ServicesKey[0] == 'n' && VersionKey[0] == 'v';
  }

  /** Writing two keys a second time changes nothing. */
  lemma TwoKeysTwice(html: string, key: string, value: string, other: string, value': string)
    requires IsName(key) && IsName(other) && key != other && Without(value, '<') && Without(value', '<')
    ensures var once := ReplaceMarker(ReplaceMarker(html, key, value), other, value');
            ReplaceMarker(once, key, value) == once && ReplaceMarker(once, other, value') == once
  {
    var first := ReplaceMarker(html, key, value);
    KeysCommute(first, key, value, other, value');
    LastValueWins(html, key, value, value);
    LastValueWins(first, other, value', value');
  }

  /** After an update, writing any of the values once more changes nothing. */
  lemma UpdatedHolds(html: string, stats: Stats)
    requires Without(stats.version, '<')
    ensures var u := Updated(html, stats);
            && ReplaceMarker(u, ToolsKey, Decimal.PrintNat(stats.totalTools)) == u
            && ReplaceMarker(u, ServicesKey, Decimal.PrintNat(stats.numServices)) == u
            && (stats.version != "" ==> ReplaceMarker(u, VersionKey, stats.version) == u)
  {
    KeysAreNames();
    var t, n, v := Decimal.PrintNat(stats.totalTools), Decimal.PrintNat(stats.numServices), stats.version;
    assert Without(t, '<') && Without(n, '<');
    var two := ReplaceMarker(ReplaceMarker(html, ToolsKey, t), ServicesKey, n);
    TwoKeysTwice(html, ToolsKey, t, ServicesKey, n);
    if v != "" {
      KeysCommute(two, ToolsKey, t, VersionKey, v);
      KeysCommute(two, ServicesKey, n, VersionKey, v);
      LastValueWins(two, VersionKey, v, v);
    }
  }

  /** An updated page is in sync. */
  lemma {:induction false} UpdatedTwice(html: string, stats: Stats)
    requires Without(stats.version, '<')
    ensures Updated(Updated(html, stats), stats) == Updated(html, stats)
  {
    UpdatedHolds(html, stats);
  }

  /** Every marker in the page holds the statistic that belongs under its key. */
  ghost predicate InSync(html: string, stats: Stats) {
    && AllHold(html, "total-tools", Decimal.PrintNat(stats.totalTools))
    && AllHold(html, "num-services", Decimal.PrintNat(stats.numServices))
    && (stats.version != "" ==> AllHold(html, "version", stats.version))
  }

  lemma SyncIs(html: string, stats: Stats)
    ensures InSync(html, stats)
            <==> && ReplaceMarker(html, ToolsKey, Decimal.PrintNat(stats.totalTools)) == html
                 && ReplaceMarker(html, ServicesKey, Decimal.PrintNat(stats.numServices)) == html
                 && (stats.version != "" ==> ReplaceMarker(html, VersionKey, stats.version) == html)
  {
    KeysAreNames();
    UnchangedExactly(html, ToolsKey, Decimal.PrintNat(stats.totalTools));
    UnchangedExactly(html, ServicesKey, Decimal.PrintNat(stats.numServices));
    UnchangedExactly(html, VersionKey, stats.version);
  }

  /** After an update every marker holds its statistic. */
  lemma UpdatedIsInSync(html: string, stats: Stats)
    requires Without(stats.version, '<')
    ensures InSync(Updated(html, stats), stats)
  {
    UpdatedHolds(html, stats);
    SyncIs(Updated(html, stats), stats);
  }

  /** A version with a `<` can only leave a page unchanged that has no marker for it. */
  lemma OddVersionUnchanged(html: string, stats: Stats)
    requires !Without(stats.version, '<') && Updated(html, stats) == html
    ensures Updated(html, stats.(version := "")) == html && ReplaceMarker(html, VersionKey, stats.version) == html
  {
    KeysAreNames();
    var t, n, v := Decimal.PrintNat(stats.totalTools), Decimal.PrintNat(stats.numServices), stats.version;
    assert Without(t, '<') && Without(n, '<');
    var one := ReplaceMarker(html, ToolsKey, t);
    var two := ReplaceMarker(one, ServicesKey, n);
    CountOfReplaced(html, ToolsKey, t);
    CountOfReplaced(one, ServicesKey, n);
    CountOfReplaced(two, VersionKey, v);
    NoMarkerNoChange(two, VersionKey, v);
  }

  /** An update leaves a page as it is if and only if every marker in it holds its statistic already. */
  lemma InSyncExactly(html: string, stats: Stats)
    ensures Updated(html, stats) == html <==> InSync(html, stats)
  {
    SyncIs(html, stats);
    if Updated(html, stats) == html {
      if Without(stats.version, '<') {
        UpdatedHolds(html, stats);
      } else {
        OddVersionUnchanged(html, stats);
        UpdatedHolds(html, stats.(version := ""));
      }
    }
  }

  class HtmlFile {
    var text: string

    constructor (contents: string)
      ensures text == contents
    {
      text := contents;
    }

    /** True when some marker holds another value; the file is only changed in write mode, and is in sync then. */
    method Update(stats: Stats, write: bool) returns (changed: bool)
      modifies this
      ensures changed <==> !InSync(old(text), stats)
      ensures text == if write then Updated(old(text), stats) else old(text)
      ensures write && Without(stats.version, '<') ==> InSync(text, stats)
    {
      var updated := text;
      updated := ReplaceMarker(updated, ToolsKey, Decimal.PrintNat(stats.totalTools));
      updated := ReplaceMarker(updated, ServicesKey, Decimal.PrintNat(stats.numServices));
      if stats.version != "" {
        updated := ReplaceMarker(updated, VersionKey, stats.version);
      }
      InSyncExactly(text, stats);
      if write && Without(stats.version, '<') {
        UpdatedIsInSync(text, stats);
      }
      if updated == text {
        return false;
      }
      if write {
        text := updated;
      }
      return true;
    }
  }
}
