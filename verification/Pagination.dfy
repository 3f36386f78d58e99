/**
 Pages over a list (gateway/src/tools/_pagination.py): cursors, one page, and the walk that follows
 `next_cursor`; and the service search, which slices in storage (gateway/src/tools/marketplace.py).
 */
module Pagination {
  import opened Basics
  import opened Base64
  import Decimal

  // ---------- Cursors ----------

  predicate IsAscii(s: string) {
    forall i :: 0 <= i < |s| ==> s[i] < 128 as char
  }

  function Bytes(s: string): (b: seq<Byte>)
    requires IsAscii(s)
    ensures |b| == |s| && forall i :: 0 <= i < |s| ==> b[i] == s[i] as nat
  {
    if s == "" then [] else [s[0] as nat] + Bytes(s[1..])
  }

  /** The text of bytes that are all ASCII. */
  function Text(b: seq<Byte>): (s: Option<string>)
    ensures s.Some? <==> forall i :: 0 <= i < |b| ==> b[i] < 128
    ensures s.Some? ==> |s.value| == |b| && forall i :: 0 <= i < |b| ==> s.value[i] == b[i] as char
  {
    if b == [] then Some("")
    else
      var rest := Text(b[1..]);
      if b[0] >= 128 || rest.None? then None else Some([b[0] as char] + rest.value)
  }

  const Prefix := "off:"

  lemma OffsetIsAscii(n: int)
    ensures IsAscii(Prefix + Decimal.Print(n))
  {
  }

  function EncodeCursor(offset: int): string {
    OffsetIsAscii(offset);
    Encode(Bytes(Prefix + Decimal.Print(offset)))
  }

  /** Whatever is not a cursor stands for the first page. */
  function DecodeCursor(cursor: string): nat {
    var decoded := Decode(cursor);
    if decoded.None? then 0 else
      var text := Text(decoded.value);
      if text.None? || !(Prefix <= text.value) then 0 else
        var offset := Decimal.Parse(text.value[4..]);
        if offset.None? then 0 else Max(0, offset.value)
  }

  lemma TextOfBytes(s: string)
    requires IsAscii(s)
    ensures Text(Bytes(s)) == Some(s)
  {
    assert Text(Bytes(s)).value == s;
  }

  /** Decoding a cursor gives back the offset it was made from; a negative one reads as 0. */
  lemma {:induction false} CursorRoundTrip(offset: int)
    ensures DecodeCursor(EncodeCursor(offset)) == Max(0, offset)
    ensures EncodeCursor(offset) != ""
  {
    var s := Prefix + Decimal.Print(offset);
    OffsetIsAscii(offset);
    DecodeEncode(Bytes(s));
    TextOfBytes(s);
    assert s[4..] == Decimal.Print(offset);
    Decimal.ParsePrint(offset);
  }

  // ---------- One page ----------

  datatype Params = Params(cursor: Option<string>, offset: Option<int>, limit: Option<int>)

  datatype Page<T> = Page(items: seq<T>, total: int, offset: nat, limit: nat, hasMore: bool, nextCursor: Option<string>)

  function GetOr(value: Option<int>, default: int): int {
    if value.None? then default else value.value
  }

  function OffsetOf(p: Params): nat {
    if p.cursor.Some? && p.cursor.value != "" then DecodeCursor(p.cursor.value) else Max(0, GetOr(p.offset, 0))
  }

  function LimitOf(p: Params): nat {
    Max(0, GetOr(p.limit, 50))
  }

  function Clip(i: nat, n: nat): nat {
    if i <= n then i else n
  }

  /** `items[from : to]`, with both ends clipped to the list. */
  function Slice<T>(items: seq<T>, from: nat, to: nat): seq<T> {
    if from <= to then items[Clip(from, |items|)..Clip(to, |items|)] else []
  }

  function Paginate<T>(items: seq<T>, p: Params, totalOverride: Option<int>): Page<T> {
    var offset, limit := OffsetOf(p), LimitOf(p);
    var total := if totalOverride.Some? then totalOverride.value else |items|;
    var page :=
      if totalOverride.Some? then items
      else if limit > 0 then Slice(items, offset, offset + limit) else [];
    var hasMore := offset + limit < total;
    Page(page, total, offset, limit, hasMore, if hasMore then Some(EncodeCursor(offset + limit)) else None)
  }

  lemma BytesAre(s: string, b: seq<Byte>)
    requires IsAscii(s) && |b| == |s| && forall i :: 0 <= i < |s| ==> b[i] == s[i] as nat
    ensures Bytes(s) == b
  {
  }

  lemma FirstGroup()
    ensures Group(111, 102, 102) == "b2Zm"
  {
  }

  lemma SecondGroup()
    ensures Group(58, 53, 48) == "OjUw"
  {
  }

  lemma TextOfFifty()
    ensures Prefix + Decimal.Print(50) == "off:50"
  {
    assert Decimal.PrintNat(5) == "5";
    assert Decimal.PrintNat(50) == "5" + "0";
  }

  lemma BytesOfFifty()
    ensures IsAscii("off:50") && Bytes("off:50") == [111, 102, 102] + [58, 53, 48]
  {
    BytesAre("off:50", [111, 102, 102] + [58, 53, 48]);
  }

  /** The cursor of offset 50, written out. */
  lemma CursorOfFifty()
    ensures EncodeCursor(50) == "b2ZmOjUw"
  {
    TextOfFifty();
    BytesOfFifty();
    EncodeSix(111, 102, 102, 58, 53, 48);
    FirstGroup();
    SecondGroup();
  }

  /** Without parameters, the first fifty items, and a cursor to the rest if there is any. */
  lemma DefaultPage<T>(items: seq<T>)
    ensures Paginate(items, Params(None, None, None), None)
            == if |items| <= 50 then Page(items, |items|, 0, 50, false, None)
               else Page(items[..50], |items|, 0, 50, true, Some("b2ZmOjUw"))
  {
    CursorOfFifty();
  }

  // ---------- Following the cursor ----------

  /** The request for the page after `page`. */
  function Follow<T>(p: Params, page: Page<T>): Params {
    p.(cursor := page.nextCursor)
  }

  /** The next request begins where the page ended, so it moves on exactly when the limit is not zero. */
  lemma FollowMovesOn<T>(items: seq<T>, p: Params, totalOverride: Option<int>)
    ensures var page := Paginate(items, p, totalOverride);
            page.hasMore ==>
              && OffsetOf(Follow(p, page)) == OffsetOf(p) + LimitOf(p)
              && (Paginate(items, Follow(p, page), totalOverride) == page <==> LimitOf(p) == 0)
  {
    CursorRoundTrip(OffsetOf(p) + LimitOf(p));
  }

  /** The pages of a client that follows the cursor to its end. */
  function Pages<T>(items: seq<T>, p: Params): seq<seq<T>>
    requires LimitOf(p) >= 1
    decreases Max(0, |items| - OffsetOf(p))
  {
    var page := Paginate(items, p, None);
    FollowMovesOn(items, p, None);
    [page.items] + if page.hasMore then Pages(items, Follow(p, page)) else []
  }

  function Concat<T>(pages: seq<seq<T>>): seq<T> {
    if pages == [] then [] else pages[0] + Concat(pages[1..])
  }

  lemma ConcatCons<T>(page: seq<T>, rest: seq<seq<T>>)
    ensures Concat([page] + rest) == page + Concat(rest)
  {
    assert ([page] + rest)[1..] == rest;
  }

  lemma SliceJoins<T>(items: seq<T>, from: nat, to: nat)
    requires from <= to < |items|
    ensures Slice(items, from, from + |items|) == Slice(items, from, to) + Slice(items, to, to + |items|)
  {
  }

  lemma FirstPage<T>(items: seq<T>, p: Params) returns (next: Params)
    requires LimitOf(p) >= 1
    ensures LimitOf(next) == LimitOf(p)
    ensures var offset, limit := OffsetOf(p), LimitOf(p);
            var more := offset + limit < |items|;
            && (more ==> OffsetOf(next) == offset + limit)
            && Pages(items, p) == [Slice(items, offset, offset + limit)] + if more then Pages(items, next) else []
  {
    FollowMovesOn(items, p, None);
    next := Follow(p, Paginate(items, p, None));
  }

  /** All the items from the first offset on are what the pages concatenate to. */
  ghost predicate Yields<T>(items: seq<T>, p: Params)
    requires LimitOf(p) >= 1
  {
    Concat(Pages(items, p)) == Slice(items, OffsetOf(p), OffsetOf(p) + |items|)
  }

  lemma ConcatPage<T>(pages: seq<seq<T>>, page: seq<T>, rest: seq<seq<T>>, tail: seq<T>, whole: seq<T>)
    requires pages == [page] + rest && Concat(rest) == tail && whole == page + tail
    ensures Concat(pages) == whole
  {
    ConcatCons(page, rest);
  }

  lemma LastPageYields<T>(items: seq<T>, p: Params)
    requires LimitOf(p) >= 1 && OffsetOf(p) + LimitOf(p) >= |items|
    requires Pages(items, p) == [Slice(items, OffsetOf(p), OffsetOf(p) + LimitOf(p))] + []
    ensures Yields(items, p)
  {
    var page := Slice(items, OffsetOf(p), OffsetOf(p) + LimitOf(p));
    assert page + [] == page;
    ConcatPage(Pages(items, p), page, [], [], Slice(items, OffsetOf(p), OffsetOf(p) + |items|));
  }

  lemma MorePagesYield<T>(items: seq<T>, p: Params, next: Params, from: nat, to: nat)
    requires LimitOf(p) >= 1 && LimitOf(next) >= 1
    requires from == OffsetOf(p) && to == OffsetOf(next) && to == from + LimitOf(p) && to < |items|
    requires Pages(items, p) == [Slice(items, from, to)] + Pages(items, next)
    requires Yields(items, next)
    ensures Yields(items, p)
  {
    SliceJoins(items, from, to);
    ConcatPage(Pages(items, p), Slice(items, from, to), Pages(items, next),
               Slice(items, to, to + |items|), Slice(items, from, from + |items|));
  }

  lemma {:induction false} EveryWalkYields<T>(items: seq<T>, p: Params)
    requires LimitOf(p) >= 1
    ensures Yields(items, p)
    decreases Max(0, |items| - OffsetOf(p))
  {
    var next := FirstPage(items, p);
    if OffsetOf(p) + LimitOf(p) < |items| {
      EveryWalkYields(items, next);
      MorePagesYield(items, p, next, OffsetOf(p), OffsetOf(next));
    } else {
      LastPageYields(items, p);
    }
  }

  /** The walk ends, and its pages are all the items from the first offset on, each once and in order. */
  lemma {:induction false} WalkYieldsAll<T>(items: seq<T>, p: Params)
    requires LimitOf(p) >= 1
    ensures Concat(Pages(items, p)) == Slice(items, OffsetOf(p), OffsetOf(p) + |items|)
  {
    EveryWalkYields(items, p);
  }

  lemma {:induction false} WalkFromTheStart<T>(items: seq<T>, limit: int)
    requires limit >= 1
    ensures Concat(Pages(items, Params(None, Some(0), Some(limit)))) == items
  {
    WalkYieldsAll(items, Params(None, Some(0), Some(limit)));
  }

  lemma SliceLength<T>(items: seq<T>, from: nat, n: nat)
    ensures |Slice(items, from, from + n)| <= n
    ensures from + n < |items| ==> |Slice(items, from, from + n)| == n
  {
  }

  /** Page `k` is there, is no larger than the limit, and is smaller only if it is the last. */
  predicate FullAt<T>(pages: seq<seq<T>>, k: nat, limit: nat) {
    k < |pages| && |pages[k]| <= limit && (k < |pages| - 1 ==> |pages[k]| == limit)
  }

  lemma FullStep<T>(pages: seq<seq<T>>, page: seq<T>, rest: seq<seq<T>>, k: nat, limit: nat)
    requires pages == [page] + rest && |page| <= limit && (rest != [] ==> |page| == limit)
    requires k > 0 ==> FullAt(rest, k - 1, limit)
    ensures FullAt(pages, k, limit)
  {
  }

  ghost predicate WalkFullAt<T>(items: seq<T>, p: Params, k: nat)
    requires LimitOf(p) >= 1
  {
    k < |Pages(items, p)| ==> FullAt(Pages(items, p), k, LimitOf(p))
  }

  lemma LastPageFull<T>(items: seq<T>, p: Params, offset: nat, limit: nat, k: nat)
    requires limit == LimitOf(p) >= 1 && Pages(items, p) == [Slice(items, offset, offset + limit)] + []
    ensures WalkFullAt(items, p, k)
  {
    SliceLength(items, offset, limit);
  }

  lemma MorePagesFull<T>(items: seq<T>, p: Params, next: Params, offset: nat, limit: nat, k: nat)
    requires limit == LimitOf(p) == LimitOf(next) >= 1 && offset + limit < |items|
    requires Pages(items, p) == [Slice(items, offset, offset + limit)] + Pages(items, next)
    requires k > 0 ==> WalkFullAt(items, next, k - 1)
    ensures WalkFullAt(items, p, k)
  {
    SliceLength(items, offset, limit);
    if k < |Pages(items, p)| {
      FullStep(Pages(items, p), Slice(items, offset, offset + limit), Pages(items, next), k, limit);
    }
  }

  lemma {:induction false} AllPagesFull<T>(items: seq<T>, p: Params, k: nat)
    requires LimitOf(p) >= 1
    ensures WalkFullAt(items, p, k)
    decreases k
  {
    var next := FirstPage(items, p);
    var offset, limit := OffsetOf(p), LimitOf(p);
    if offset + limit < |items| {
      if k > 0 {
        AllPagesFull(items, next, k - 1);
      }
      MorePagesFull(items, p, next, offset, limit, k);
    } else {
      LastPageFull(items, p, offset, limit, k);
    }
  }

  /** No page of a walk is larger than the limit, and only the last may be smaller. */
  lemma {:induction false} PagesAreFull<T>(items: seq<T>, p: Params, k: nat)
    requires LimitOf(p) >= 1 && k < |Pages(items, p)|
    ensures |Pages(items, p)[k]| <= LimitOf(p)
    ensures k < |Pages(items, p)| - 1 ==> |Pages(items, p)[k]| == LimitOf(p)
  {
    AllPagesFull(items, p, k);
  }

  // ---------- The service search ----------

  const SearchLimit := 20

  /** The storage looks at `offset` and `limit` only; a negative limit is none. */
  function Stored<T>(all: seq<T>, p: Params): seq<T> {
    var offset, limit := Max(0, GetOr(p.offset, 0)), GetOr(p.limit, SearchLimit);
    if limit < 0 then Slice(all, offset, offset + |all|) else Slice(all, offset, offset + limit)
  }

  function SearchServices<T>(all: seq<T>, p: Params): Page<T> {
    Paginate(Stored(all, p), p, Some(|all|))
  }

  /**
   Following the cursor of a search never gets past its first page: the offset shown moves on, the
   items do not.
   */
  lemma SearchRepeatsItsPage<T>(all: seq<T>, p: Params)
    requires SearchServices(all, p).hasMore
    ensures var page := SearchServices(all, p);
            var next := SearchServices(all, Follow(p, page));
            next.items == page.items && next.offset == page.offset + page.limit
  {
    FollowMovesOn(Stored(all, p), p, Some(|all|));
  }

  predicate Distinct<T(==)>(items: seq<T>) {
    forall i, j :: 0 <= i < j < |items| ==> items[i] != items[j]
  }

  lemma SlicesEqual<T>(items: seq<T>, a: nat, b: nat, c: nat, d: nat)
    requires Distinct(items) && a <= b <= |items| && c <= d <= |items|
    ensures items[a..b] == items[c..d] <==> (a == b && c == d) || (a == c && b == d)
  {
    if items[a..b] == items[c..d] && a < b {
      assert items[a] == items[a..b][0] == items[c..d][0] == items[c];
      assert |items[a..b]| == |items[c..d]|;
    }
  }

  /** The ranges from `a` to `b` and from `c` to `d` of a list of `n` are both empty, or the same. */
  predicate SameRange(n: nat, a: nat, b: nat, c: nat, d: nat) {
    || (Clip(a, n) == Clip(b, n) && Clip(c, n) == Clip(d, n))
    || (Clip(a, n) == Clip(c, n) && Clip(b, n) == Clip(d, n))
  }

  lemma RangesEqual<T>(items: seq<T>, a: nat, b: nat, c: nat, d: nat)
    requires Distinct(items) && a <= b && c <= d
    ensures Slice(items, a, b) == Slice(items, c, d) <==> SameRange(|items|, a, b, c, d)
  {
    var n := |items|;
    SlicesEqual(items, Clip(a, n), Clip(b, n), Clip(c, n), Clip(d, n));
  }

  lemma PageItems<T>(items: seq<T>, p: Params, shown: nat)
    requires shown == OffsetOf(p)
    ensures Paginate(items, p, None).items == Slice(items, shown, shown + LimitOf(p))
  {
  }

  /** How many results the storage takes at most: all of them when the limit is negative. */
  function StoredLimit(p: Params, total: nat): nat {
    var limit := GetOr(p.limit, SearchLimit);
    if limit < 0 then total else limit
  }

  lemma SearchItems<T>(all: seq<T>, p: Params, stored: nat, limit: nat)
    requires stored == Max(0, GetOr(p.offset, 0)) && limit == StoredLimit(p, |all|)
    ensures SearchServices(all, p).items == Slice(all, stored, stored + limit)
  {
  }

  lemma SlicesCompare<T>(items: seq<T>, x: seq<T>, y: seq<T>, a: nat, b: nat, c: nat, d: nat)
    requires Distinct(items) && a <= b && c <= d && x == Slice(items, a, b) && y == Slice(items, c, d)
    ensures x == y <==> SameRange(|items|, a, b, c, d)
  {
    RangesEqual(items, a, b, c, d);
  }

  /** Any two descriptions of a page of a search by where it begins and what it may hold. */
  lemma PagesCompare<T>(all: seq<T>, p: Params, stored: nat, limit: nat, shown: nat, size: nat)
    requires Distinct(all) && stored == Max(0, GetOr(p.offset, 0)) && limit == StoredLimit(p, |all|)
    requires shown == OffsetOf(p) && size == LimitOf(p)
    ensures SearchServices(all, p).items == Paginate(all, p, None).items
            <==> SameRange(|all|, stored, stored + limit, shown, shown + size)
  {
    PageItems(all, p, shown);
    SearchItems(all, p, stored, limit);
    SlicesCompare(all, SearchServices(all, p).items, Paginate(all, p, None).items,
                  stored, stored + limit, shown, shown + size);
  }

  /**
   A search shows the page that its offset and limit promise exactly when both pages are empty, or
   begin and end at the same place in the results: so not when a cursor leads elsewhere than the
   offset, when the limit is left out and more than 20 results remain, or when it is negative and any
   results remain.
   */
  lemma SearchIsFaithful<T>(all: seq<T>, p: Params)
    requires Distinct(all)
    ensures var stored, limit := Max(0, GetOr(p.offset, 0)), StoredLimit(p, |all|);
            SearchServices(all, p).items == Paginate(all, p, None).items
            <==> SameRange(|all|, stored, stored + limit, OffsetOf(p), OffsetOf(p) + LimitOf(p))
  {
    PagesCompare(all, p, Max(0, GetOr(p.offset, 0)), StoredLimit(p, |all|), OffsetOf(p), LimitOf(p));
  }
}
