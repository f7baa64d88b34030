/** Cursor paging of resource lists, with and without a label selector.

    A store is a list of items in the order it hands them out. Its fetch gives the first items whose key
    comes after the cursor, at most as many as asked. */
module Pagination {
  import opened Strings

  datatype Item = Item(namespace: string, name: string, labels: map<string, string>)

  type Selector = map<string, string>

  /** The cursor token of an item. */
  function Key(x: Item): (k: string)
    ensures k != ""
  {
    x.namespace + "/" + x.name
  }

  predicate Selected(x: Item, sel: Selector) {
    forall k :: k in sel ==> k in x.labels && x.labels[k] == sel[k]
  }

  /** The labels contain the selector, values included. */
  lemma SelectedIff(x: Item, sel: Selector)
    ensures Selected(x, sel) <==> sel.Items <= x.labels.Items
  {
    if Selected(x, sel) {
      forall p | p in sel.Items ensures p in x.labels.Items {
        assert sel[p.0] == p.1;
      }
    }
    if sel.Items <= x.labels.Items {
      forall k | k in sel ensures k in x.labels && x.labels[k] == sel[k] {
        assert (k, sel[k]) in sel.Items;
      }
    }
  }

  /** Selecting keeps exactly the items whose labels contain the selector. */
  lemma {:induction false} SelectExactly(items: seq<Item>, sel: Selector, x: Item)
    ensures x in Select(items, sel) <==> x in items && sel.Items <= x.labels.Items
  {
    hide Selected;
    if items != [] {
      var init, last := items[..|items| - 1], items[|items| - 1];
      SelectExactly(init, sel, x);
      SelectedIff(last, sel);
      assert items == init + [last];
    }
  }

  function Select(items: seq<Item>, sel: Selector): seq<Item> {
    if items == [] then []
    else
      var init, last := items[..|items| - 1], items[|items| - 1];
      if Selected(last, sel) then Select(init, sel) + [last] else Select(init, sel)
  }

  predicate Passes(x: Item, after: string) {
    after == "" || Less(after, Key(x))
  }

  function After(items: seq<Item>, after: string): seq<Item> {
    if items == [] then []
    else
      var init, last := items[..|items| - 1], items[|items| - 1];
      if Passes(last, after) then After(init, after) + [last] else After(init, after)
  }

  const DEFAULT_LIST_LIMIT: nat := 1000
  const MAX_PAGINATION_LIMIT: nat := 1000

  function Fetch(items: seq<Item>, limit: int, after: string): (r: seq<Item>)
    ensures limit > 0 ==> |r| <= limit
  {
    var n := if limit <= 0 then DEFAULT_LIST_LIMIT else limit;
    var rest := After(items, after);
    if |rest| <= n then rest else rest[..n]
  }

  function BoundedSelectorPageLimit(limit: int): (r: nat)
    ensures 1 <= r <= MAX_PAGINATION_LIMIT
  {
    if limit <= 0 then 100 else if limit > MAX_PAGINATION_LIMIT then MAX_PAGINATION_LIMIT else limit
  }

  function ScopedListContinue(limit: int, lastScannedKey: string, hasMore: bool): string {
    if limit > 0 && hasMore && lastScannedKey != "" then lastScannedKey else ""
  }

  // ---------------------------------------------------------------- stores in key order

  ghost predicate Sorted(items: seq<Item>) {
    forall i, j :: 0 <= i < j < |items| ==> Less(Key(items[i]), Key(items[j]))
  }

  /** The items after the cursor are those from position `s` on. */
  ghost predicate StartsAt(items: seq<Item>, after: string, s: nat) {
    && s <= |items|
    && (forall i :: 0 <= i < s ==> !Passes(items[i], after))
    && (forall i :: s <= i < |items| ==> Passes(items[i], after))
  }

  lemma {:induction false} AfterIsSuffix(items: seq<Item>, after: string, s: nat)
    requires StartsAt(items, after, s)
    ensures After(items, after) == items[s..]
  {
    hide Passes;
    if items != [] {
      var init := items[..|items| - 1];
      if s == |items| {
        AfterIsSuffix(init, after, s - 1);
      } else {
        AfterIsSuffix(init, after, s);
        assert items[s..] == init[s..] + [items[|items| - 1]];
      }
    }
  }

  /** A cursor taken from an item resumes right after that item. */
  lemma KeyStartsAt(items: seq<Item>, i: nat)
    requires Sorted(items) && i < |items|
    ensures StartsAt(items, Key(items[i]), i + 1)
  {
    hide Less, Key;
    forall x | 0 <= x <= i ensures !Less(Key(items[i]), Key(items[x])) {
      LessTotal(Key(items[x]), Key(items[i]));
    }
  }

  lemma {:induction false} FindStart(items: seq<Item>, after: string) returns (s: nat)
    requires Sorted(items)
    ensures StartsAt(items, after, s)
  {
    hide Less, Key;
    if items == [] {
      s := 0;
    } else {
      var init, last := items[..|items| - 1], items[|items| - 1];
      s := FindStart(init, after);
      if !Passes(last, after) {
        forall i | 0 <= i < |init| ensures !Passes(items[i], after) {
          if Less(after, Key(items[i])) {
            LessTransitive(after, Key(items[i]), Key(last));
          }
        }
        s := |items|;
      }
    }
  }

  lemma {:induction false} SelectConcat(a: seq<Item>, b: seq<Item>, sel: Selector)
    ensures Select(a + b, sel) == Select(a, sel) + Select(b, sel)
  {
    hide Selected;
    if b == [] {
      assert a + b == a;
    } else {
      SelectConcat(a, b[..|b| - 1], sel);
      assert (a + b)[..|a + b| - 1] == a + b[..|b| - 1];
    }
  }

  lemma {:induction false} SelectAll(items: seq<Item>)
    ensures Select(items, map[]) == items
  {
    if items != [] {
      SelectAll(items[..|items| - 1]);
    }
  }

  /** What one page promises: it is the selected items of a stretch that starts after the cursor; without a
      token nothing selected is left behind the stretch, with one the page is exactly full and the token
      resumes right behind it. */
  ghost predicate IsPage(items: seq<Item>, after: string, sel: Selector, size: nat, page: seq<Item>, token: string, s: nat, e: nat) {
    && StartsAt(items, after, s) && s <= e <= |items|
    && page == Select(items[s..e], sel)
    && (token == "" ==> Select(items[e..], sel) == [])
    && (token != "" ==> s < e && token == Key(items[e - 1]) && |page| == size)
  }

  /** The page size the source promises for a request. */
  function PageSize(limit: int, sel: Selector): nat
    requires limit > 0 || sel != map[]
  {
    if sel == map[] then limit else BoundedSelectorPageLimit(limit)
  }

  /** One page of a list. A request without limit and selector gets no token, so it is complete only up to
      the store's own limit. */
  method FetchListPageWithSelector(items: seq<Item>, limit: int, after: string, sel: Selector)
    returns (page: seq<Item>, token: string, ghost s: nat, ghost e: nat)
    requires Sorted(items)
    ensures limit > 0 || sel != map[] ==> IsPage(items, after, sel, PageSize(limit, sel), page, token, s, e)
    ensures token != "" ==> |page| == if sel != map[] && limit <= 0 then 100 else if sel != map[] && limit > 1000 then 1000 else limit
    ensures forall x :: x in page ==> sel.Items <= x.labels.Items
    ensures limit <= 0 && sel == map[] ==>
              token == "" && page <= After(items, after) && (page == After(items, after) <==> |After(items, after)| <= 1000)
  {
    s := FindStart(items, after);
    if sel == map[] {
      page, token, e := PlainPage(items, limit, after, s);
    } else {
      page, token, e := SelectorPage(items, limit, after, sel, s);
    }
    forall x | x in page ensures sel.Items <= x.labels.Items {
      if sel != map[] {
        SelectExactly(items[s..e], sel, x);
      }
    }
  }

  method PlainPage(items: seq<Item>, limit: int, after: string, ghost s: nat)
    returns (page: seq<Item>, token: string, ghost e: nat)
    requires Sorted(items) && StartsAt(items, after, s)
    ensures limit > 0 ==> IsPage(items, after, map[], limit, page, token, s, e)
    ensures limit <= 0 ==> token == "" && page == Fetch(items, limit, after)
  {
    hide Key, After, StartsAt, Sorted;
    page := Fetch(items, limit, after);
    token := "";
    assert s <= |items| by { StartBound(items, after, s); }
    AfterIsSuffix(items, after, s);
    e := s + |page|;
    assert page == items[s..e];
    SelectAll(items[s..e]);
    SelectAll(items[e..]);
    if |page| > 0 {
      var lastKey := Key(page[|page| - 1]);
      token := ScopedListContinue(limit, lastKey, |page| >= limit);
    }
  }

  lemma StartBound(items: seq<Item>, after: string, s: nat)
    requires StartsAt(items, after, s)
    ensures s <= |items|
  {
  }

  /** The scan of one batch: it stops early when the page is full. */
  method ScanBatch(batch: seq<Item>, sel: Selector, start: seq<Item>, pageLimit: nat)
    returns (result: seq<Item>, scanned: nat)
    requires |start| < pageLimit && batch != []
    ensures 0 < scanned <= |batch| && result == start + Select(batch[..scanned], sel)
    ensures |result| <= pageLimit && (|result| < pageLimit ==> scanned == |batch|)
  {
    hide Selected;
    result, scanned := start, 0;
    while scanned < |batch|
      invariant scanned <= |batch| && result == start + Select(batch[..scanned], sel) && |result| < pageLimit
    {
      var item := batch[scanned];
      assert batch[..scanned + 1][..scanned] == batch[..scanned];
      scanned := scanned + 1;
      if Selected(item, sel) {
        result := result + [item];
        if |result| >= pageLimit {
          return;
        }
      }
    }
    assert batch[..|batch|] == batch;
  }

  /** What a fetch from position `e` gives. */
  lemma FetchIs(items: seq<Item>, cursor: string, e: nat, limit: nat)
    requires StartsAt(items, cursor, e) && limit > 0
    ensures var batch := Fetch(items, limit, cursor);
            e + |batch| <= |items| && batch == items[e..e + |batch|] && |batch| <= limit && (|batch| < limit ==> e + |batch| == |items|)
  {
    hide After;
    AfterIsSuffix(items, cursor, e);
  }

  method SelectorPage(items: seq<Item>, limit: int, after: string, sel: Selector, ghost s: nat)
    returns (page: seq<Item>, token: string, ghost e: nat)
    requires Sorted(items) && StartsAt(items, after, s)
    ensures IsPage(items, after, sel, BoundedSelectorPageLimit(limit), page, token, s, e)
  {
    hide Key, After, StartsAt, Sorted, Select, Fetch;
    StartBound(items, after, s);
    NothingSelected(items[s..s], sel);
    var pageLimit := BoundedSelectorPageLimit(limit);
    var cursor, lastScanned, hasMore := after, "", false;
    page, e := [], s;
    while |page| < pageLimit
      invariant s <= e <= |items| && StartsAt(items, cursor, e)
      invariant page == Select(items[s..e], sel) && |page| < pageLimit
      decreases |items| - e
    {
      var batchSize := 2 * pageLimit;
      var batch := Fetch(items, batchSize, cursor);
      FetchIs(items, cursor, e, batchSize);
      if batch == [] {
        NothingSelected(items[e..], sel);
        hasMore := false;
        break;
      }
      var scanned;
      ghost var from := e;
      page, scanned := ScanBatch(batch, sel, page, pageLimit);
      e := e + scanned;
      lastScanned := Key(batch[scanned - 1]);
      PageGrows(items, s, from, e, sel);
      assert batch[..scanned] == items[from..e];
      if |page| >= pageLimit {
        hasMore := true;
        break;
      }
      cursor := Key(batch[|batch| - 1]);
      KeyStartsAt(items, e - 1);
      hasMore := |batch| >= batchSize;
      if |batch| < batchSize {
        NothingSelected(items[e..], sel);
        hasMore := false;
        break;
      }
    }
    if |page| == 0 || !hasMore {
      token := "";
    } else {
      token := ScopedListContinue(pageLimit, lastScanned, true);
    }
  }

  lemma PageGrows(items: seq<Item>, s: nat, from: nat, e: nat, sel: Selector)
    requires s <= from <= e <= |items|
    ensures Select(items[s..e], sel) == Select(items[s..from], sel) + Select(items[from..e], sel)
  {
    SelectConcat(items[s..from], items[from..e], sel);
    assert items[s..from] + items[from..e] == items[s..e];
  }

  lemma NothingSelected(items: seq<Item>, sel: Selector)
    ensures items == [] ==> Select(items, sel) == []
  {
  }

  // ---------------------------------------------------------------- following the tokens

  /** Pages fetched one after the other, each from the previous page's token, until there is none. */
  ghost predicate Chain(items: seq<Item>, after: string, sel: Selector, size: nat, pages: seq<seq<Item>>, tokens: seq<string>)
    decreases |pages|
  {
    && |pages| == |tokens| > 0
    && (exists s: nat, e: nat :: IsPage(items, after, sel, size, pages[0], tokens[0], s, e))
    && (if |pages| == 1 then tokens[0] == "" else tokens[0] != "" && Chain(items, tokens[0], sel, size, pages[1..], tokens[1..]))
  }

  function Concat(pages: seq<seq<Item>>): seq<Item> {
    if pages == [] then [] else pages[0] + Concat(pages[1..])
  }

  lemma StartsOnce(items: seq<Item>, after: string, s: nat, t: nat)
    requires StartsAt(items, after, s) && StartsAt(items, after, t)
    ensures s == t
  {
    hide StartsAt, After;
    StartBound(items, after, s);
    StartBound(items, after, t);
    AfterIsSuffix(items, after, s);
    AfterIsSuffix(items, after, t);
    assert |items[s..]| == |items[t..]|;
  }

  /** Following the tokens to the end gives exactly the selected items after the first cursor, in order,
      none lost and none twice; every page but the last is full, and the tokens strictly increase. */
  lemma {:induction false} ChainComplete(items: seq<Item>, after: string, sel: Selector, size: nat, pages: seq<seq<Item>>, tokens: seq<string>)
    requires Sorted(items) && Chain(items, after, sel, size, pages, tokens)
    ensures Concat(pages) == Select(After(items, after), sel)
    ensures forall i :: 0 <= i < |pages| - 1 ==> |pages[i]| == size
    ensures forall i :: 0 <= i < |pages| - 1 ==> tokens[i] != "" && Less(if i == 0 then after else tokens[i - 1], tokens[i])
    decreases |pages|
  {
    hide Select, After, Less, Key;
    var s: nat, e: nat :| IsPage(items, after, sel, size, pages[0], tokens[0], s, e);
    AfterIsSuffix(items, after, s);
    PageGrows(items, s, e, |items|, sel);
    assert items[s..|items|] == items[s..] && items[e..|items|] == items[e..];
    if |pages| == 1 {
      assert Concat(pages) == pages[0] + Concat(pages[1..]) == pages[0] + [] == pages[0];
    } else {
      KeyStartsAt(items, e - 1);
      AfterIsSuffix(items, tokens[0], e);
      ChainComplete(items, tokens[0], sel, size, pages[1..], tokens[1..]);
      assert Passes(items[e - 1], after);
      EmptyLess(tokens[0]);
      assert Less(after, tokens[0]);
      forall i | 0 < i < |pages| - 1 ensures |pages[i]| == size && tokens[i] != "" && Less(tokens[i - 1], tokens[i]) {
        assert pages[1..][i - 1] == pages[i] && tokens[1..][i - 1] == tokens[i];
      }
    }
  }

  lemma EmptyLess(k: string)
    requires k != ""
    ensures Less("", k)
  {
  }

  /** A client that follows the tokens; it always comes to an end. */
  method CollectAll(items: seq<Item>, limit: int, start: string, sel: Selector) returns (all: seq<Item>)
    requires Sorted(items) && (limit > 0 || sel != map[])
    ensures all == Select(After(items, start), sel)
  {
    hide Select, After, Less, Key, Sorted;
    all := [];
    var cursor, more := start, true;
    ghost var begin := FindStart(items, start);
    ghost var at := begin;
    StartBound(items, start, begin);
    AfterIsSuffix(items, start, begin);
    NothingSelected(items[begin..begin], sel);
    while more
      invariant begin <= at <= |items| && all == Select(items[begin..at], sel)
      invariant if more then StartsAt(items, cursor, at) else Select(items[at..], sel) == []
      decreases more, |items| - at
    {
      var page, token;
      ghost var s, e;
      page, token, s, e := FetchListPageWithSelector(items, limit, cursor, sel);
      StartsOnce(items, cursor, s, at);
      PageGrows(items, begin, at, e, sel);
      all, at := all + page, e;
      if token == "" {
        more := false;
      } else {
        KeyStartsAt(items, e - 1);
        cursor := token;
      }
    }
    PageGrows(items, begin, at, |items|, sel);
    assert items[begin..|items|] == items[begin..] && items[at..|items|] == items[at..];
  }

  // ---------------------------------------------------------------- stores in another order

  lemma {:induction false} AfterShrinks(items: seq<Item>, after: string, later: Item)
    requires later in After(items, after)
    ensures |After(items, Key(later))| < |After(items, after)|
  {
    hide Key, Less;
    AfterIn(items, after, later);
    if items != [] {
      var init, last := items[..|items| - 1], items[|items| - 1];
      if Passes(last, Key(later)) {
        AfterMonotone(last, after, later);
      }
      if later in After(init, after) {
        AfterShrinks(init, after, later);
      } else {
        AfterFewer(init, after, later);
        LessTotal(Key(later), Key(later));
      }
    }
  }

  lemma {:induction false} AfterIn(items: seq<Item>, after: string, x: Item)
    requires x in After(items, after)
    ensures x in items && Passes(x, after)
  {
    if items != [] {
      var init := items[..|items| - 1];
      if x in After(init, after) {
        AfterIn(init, after, x);
      }
    }
  }

  lemma AfterMonotone(x: Item, after: string, later: Item)
    requires Passes(x, Key(later)) && Passes(later, after)
    ensures Passes(x, after)
  {
    if after != "" {
      LessTransitive(after, Key(later), Key(x));
    }
  }

  lemma {:induction false} AfterFewer(items: seq<Item>, after: string, later: Item)
    requires Passes(later, after)
    ensures |After(items, Key(later))| <= |After(items, after)|
  {
    if items != [] {
      AfterFewer(items[..|items| - 1], after, later);
      var last := items[|items| - 1];
      if Passes(last, Key(later)) {
        AfterMonotone(last, after, later);
      }
    }
  }

  /** Paging without a selector, all pages together, over a store in whatever order. */
  ghost function CollectPlain(items: seq<Item>, limit: nat, after: string): seq<Item>
    requires limit > 0
    decreases |After(items, after)|
  {
    var page := Fetch(items, limit, after);
    if |page| < limit then page
    else
      var last := page[|page| - 1];
      assert last in After(items, after);
      AfterShrinks(items, after, last);
      page + CollectPlain(items, limit, Key(last))
  }

  lemma {:induction false} CollectSorted(items: seq<Item>, limit: nat, after: string, s: nat)
    requires Sorted(items) && limit > 0 && StartsAt(items, after, s)
    ensures CollectPlain(items, limit, after) == items[s..]
    decreases |items| - s
  {
    hide Key, Less, After, Sorted, StartsAt;
    StartBound(items, after, s);
    AfterIsSuffix(items, after, s);
    if |items| - s >= limit {
      var e := s + limit;
      KeyStartsAt(items, e - 1);
      CollectSorted(items, limit, Key(items[e - 1]), e);
      assert items[s..] == items[s..e] + items[e..];
      assert Fetch(items, limit, after) == items[s..e];
    }
  }

  /** Pages of one item each come out in strictly increasing key order. */
  lemma {:induction false} OneByOneIncreases(items: seq<Item>, after: string)
    ensures Sorted(CollectPlain(items, 1, after))
    ensures forall x :: x in CollectPlain(items, 1, after) ==> Passes(x, after)
    decreases |After(items, after)|
  {
    hide Key, Less, After;
    var page := Fetch(items, 1, after);
    if page != [] {
      var x := page[0];
      assert x in After(items, after);
      AfterIn(items, after, x);
      AfterShrinks(items, after, x);
      var rest := CollectPlain(items, 1, Key(x));
      OneByOneIncreases(items, Key(x));
      assert CollectPlain(items, 1, after) == [x] + rest;
      forall y | y in rest ensures Passes(y, after) && Less(Key(x), Key(y)) {
        AfterMonotone(y, after, x);
      }
    }
  }

  /** Paging is lossless for every page size exactly when the store hands out its items in key order. */
  lemma LosslessIffSorted(items: seq<Item>)
    ensures (forall limit: nat :: limit > 0 ==> CollectPlain(items, limit, "") == items) <==> Sorted(items)
  {
    if Sorted(items) {
      forall limit: nat | limit > 0 ensures CollectPlain(items, limit, "") == items {
        CollectSorted(items, limit, "", 0);
      }
    } else {
      OneByOneIncreases(items, "");
    }
  }

  predicate NameOrder(items: seq<Item>) {
    forall i, j :: 0 <= i < j < |items| ==> Less(items[i].name, items[j].name)
  }

  /** The in-memory stores order by name alone. Within one namespace that is key order. */
  lemma NameOrderInNamespace(items: seq<Item>)
    requires NameOrder(items) && forall i, j :: 0 <= i < |items| && 0 <= j < |items| ==> items[i].namespace == items[j].namespace
    ensures Sorted(items)
  {
    forall i, j | 0 <= i < j < |items| ensures Less(Key(items[i]), Key(items[j])) {
      LessPrefixed(items[i].namespace + "/", items[i].name, items[j].name);
    }
  }

  lemma {:induction false} LessPrefixed(p: string, a: string, b: string)
    ensures Less(p + a, p + b) <==> Less(a, b)
  {
    if p == "" {
      assert p + a == a && p + b == b;
    } else {
      LessPrefixed(p[1..], a, b);
      assert (p + a)[1..] == p[1..] + a && (p + b)[1..] == p[1..] + b;
    }
  }

  /** Across namespaces it is not, and then paging loses items. */
  lemma NameOrderLoses()
    ensures var items := [Item("b", "x", map[]), Item("a", "y", map[])];
            NameOrder(items) && CollectPlain(items, 1, "") == items[..1]
  {
    var x, y := Item("b", "x", map[]), Item("a", "y", map[]);
    var items := [x, y];
    assert NameOrder(items) && !Less(Key(x), Key(y));
    hide Less, Key, After;
    LessTotal(Key(x), Key(x));
    StartsNowhere(items, Key(x));
    AfterIsSuffix(items, "", 0);
    assert Fetch(items, 1, "") == [x];
    assert CollectPlain(items, 1, Key(x)) == [];
  }

  lemma StartsNowhere(items: seq<Item>, after: string)
    requires forall i :: 0 <= i < |items| ==> !Passes(items[i], after)
    ensures After(items, after) == []
  {
  }
}
