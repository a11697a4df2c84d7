/**
 * The list of titles the slider shows before truncation: the results of
 * every fetched page, in page order (index.tsx:53-56), with the items the
 * visibility preferences hide removed (index.tsx:58-71).
 */
module Aggregate {
  import opened Wrappers
  import opened Media

  // ---------------------------------------------------------------- flattening

  /** Reference reading: each page's results, then those of the pages after it. */
  function Concat(pages: seq<Page>): seq<Item> {
    if pages == [] then [] else pages[0].results + Concat(pages[1..])
  }

  /** Number of results over all pages. */
  function ResultCount(pages: seq<Page>): nat {
    if pages == [] then 0 else |pages[0].results| + ResultCount(pages[1..])
  }

  /** Where page k's results start in the flattened list. */
  function Offset(pages: seq<Page>, k: nat): nat
    requires k <= |pages|
  {
    ResultCount(pages[..k])
  }

  /**
   * The reduction over the pages: a left fold that appends each page's
   * results to the accumulator. The accumulator stays a prefix, and the fold
   * adds exactly as many items as the pages hold.
   */
  function FoldResults(acc: seq<Item>, pages: seq<Page>): (r: seq<Item>)
    ensures |r| == |acc| + ResultCount(pages)
    ensures r[..|acc|] == acc
    decreases |pages|
  {
    if pages == [] then acc else FoldResults(acc + pages[0].results, pages[1..])
  }

  lemma {:induction false} FoldResultsIsConcat(acc: seq<Item>, pages: seq<Page>)
    ensures FoldResults(acc, pages) == acc + Concat(pages)
    decreases |pages|
  {
    if pages != [] {
      FoldResultsIsConcat(acc + pages[0].results, pages[1..]);
      assert acc + pages[0].results + Concat(pages[1..]) == acc + (pages[0].results + Concat(pages[1..]));
    }
  }

  lemma {:induction false} ConcatLength(pages: seq<Page>)
    ensures |Concat(pages)| == ResultCount(pages)
  {
    if pages != [] {
      ConcatLength(pages[1..]);
    }
  }

  /** The flattened list: the fold started from the empty list. */
  function FlattenPages(pages: seq<Page>): (titles: seq<Item>)
    ensures titles == Concat(pages)
    ensures |titles| == ResultCount(pages)
  {
    FoldResultsIsConcat([], pages);
    ConcatLength(pages);
    FoldResults([], pages)
  }

  /** Every page keeps its own results, in their own order, at its offset in the flattened list. */
  lemma {:induction false} PageInPlace(pages: seq<Page>, k: nat)
    requires k < |pages|
    ensures Offset(pages, k) + |pages[k].results| <= |FlattenPages(pages)|
    ensures FlattenPages(pages)[Offset(pages, k) .. Offset(pages, k) + |pages[k].results|] == pages[k].results
    decreases k
  {
    ConcatLength(pages);
    ConcatLength(pages[1..]);
    if k == 0 {
      assert pages[..0] == [];
    } else {
      PageInPlace(pages[1..], k - 1);
      assert pages[..k][1..] == pages[1..][..k - 1];
      assert Offset(pages, k) == |pages[0].results| + Offset(pages[1..], k - 1);
      var rest := Concat(pages[1..]);
      var lo := Offset(pages[1..], k - 1);
      var hi := lo + |pages[k].results|;
      assert Concat(pages) == pages[0].results + rest;
      assert (pages[0].results + rest)[|pages[0].results| + lo .. |pages[0].results| + hi] == rest[lo..hi];
    }
  }

  // ---------------------------------------------------------------- visibility

  /** Statuses that count as available: AVAILABLE or PARTIALLY_AVAILABLE. */
  predicate IsAvailable(s: Option<MediaStatus>) {
    s == Some(Available) || s == Some(PartiallyAvailable)
  }

  /** Statuses that count as requested: PENDING or PROCESSING. */
  predicate IsRequested(s: Option<MediaStatus>) {
    s == Some(Pending) || s == Some(Processing)
  }

  /**
   * The filter's callback (index.tsx:63-69): persons and titles without a
   * status are kept; available titles never; requested titles only while
   * hideRequested is off.
   */
  predicate Keep(item: Item, hideRequested: bool)
    ensures item.Person? ==> Keep(item, hideRequested)
    ensures StatusOf(item).None? ==> Keep(item, hideRequested)
    ensures StatusOf(item) == Some(Unknown) ==> Keep(item, hideRequested)
    ensures !item.Person? && IsAvailable(StatusOf(item)) ==> !Keep(item, hideRequested)
    ensures !item.Person? && IsRequested(StatusOf(item)) ==> (Keep(item, hideRequested) <==> !hideRequested)
  {
    item.Person? ||
    (!IsAvailable(StatusOf(item)) && (!hideRequested || !IsRequested(StatusOf(item))))
  }

  /** The items the callback keeps, in their order. */
  function FilterKept(items: seq<Item>, hideRequested: bool): (kept: seq<Item>)
    ensures |kept| <= |items|
  {
    if items == [] then []
    else (if Keep(items[0], hideRequested) then [items[0]] else []) + FilterKept(items[1..], hideRequested)
  }

  /**
   * The filter runs only when one of the two preferences is set
   * (index.tsx:58-61): the visible items are exactly the input items the
   * preferences show, never more of them than the input has.
   */
  function Visible(items: seq<Item>, hideAvailable: bool, hideRequested: bool): (v: seq<Item>)
    ensures |v| <= |items|
    ensures !hideAvailable && !hideRequested ==> v == items
    ensures forall x :: x in v <==> x in items && Shown(x, hideAvailable, hideRequested)
  {
    if hideAvailable || hideRequested then
      FilterKeptMembers(items, hideRequested);
      FilterKept(items, hideRequested)
    else items
  }

  /** Whether an item survives the preferences. */
  predicate Shown(item: Item, hideAvailable: bool, hideRequested: bool) {
    !(hideAvailable || hideRequested) || Keep(item, hideRequested)
  }

  /**
   * The titles the slider works with: flattened, then filtered. Without data
   * there are none; otherwise they are exactly the received results the
   * preferences show.
   */
  function Titles(data: Option<Pages>, hideAvailable: bool, hideRequested: bool): (t: seq<Item>)
    ensures data.None? ==> t == []
    ensures forall x :: x in t <==>
              x in FlattenPages(if data.Some? then data.value else []) && Shown(x, hideAvailable, hideRequested)
    ensures |t| <= ResultCount(if data.Some? then data.value else [])
    ensures IsSubsequence(t, FlattenPages(if data.Some? then data.value else []))
    ensures forall x :: multiset(t)[x] ==
              if Shown(x, hideAvailable, hideRequested)
              then multiset(FlattenPages(if data.Some? then data.value else []))[x] else 0
    ensures |t| == CountShown(FlattenPages(if data.Some? then data.value else []), hideAvailable, hideRequested)
  {
    var flat := FlattenPages(if data.Some? then data.value else []);
    VisibleSubsequence(flat, hideAvailable, hideRequested);
    VisibleMultiset(flat, hideAvailable, hideRequested);
    VisibleLength(flat, hideAvailable, hideRequested);
    Visible(flat, hideAvailable, hideRequested)
  }

  /** Reference count: the number of positions whose item the preferences show. */
  function CountShown(items: seq<Item>, hideAvailable: bool, hideRequested: bool): (n: nat)
    ensures n <= |items|
  {
    if items == [] then 0
    else (if Shown(items[0], hideAvailable, hideRequested) then 1 else 0) +
         CountShown(items[1..], hideAvailable, hideRequested)
  }

  /** The visible list is exactly as long as the number of shown positions. */
  lemma {:induction false} VisibleLength(items: seq<Item>, hideAvailable: bool, hideRequested: bool)
    ensures |Visible(items, hideAvailable, hideRequested)| == CountShown(items, hideAvailable, hideRequested)
  {
    if items != [] {
      VisibleLength(items[1..], hideAvailable, hideRequested);
      if hideAvailable || hideRequested {
        assert FilterKept(items, hideRequested) ==
               (if Keep(items[0], hideRequested) then [items[0]] else []) + FilterKept(items[1..], hideRequested);
      }
    }
  }

  /** `a` is `b` with some elements dropped and the rest kept in order. */
  predicate IsSubsequence(a: seq<Item>, b: seq<Item>)
    decreases |b|
  {
    if a == [] then true
    else if b == [] then false
    else (a[0] == b[0] && IsSubsequence(a[1..], b[1..])) || IsSubsequence(a, b[1..])
  }

  lemma {:induction false} FilterKeptCount(items: seq<Item>, hideRequested: bool, x: Item)
    ensures multiset(FilterKept(items, hideRequested))[x] ==
            if Keep(x, hideRequested) then multiset(items)[x] else 0
  {
    if items != [] {
      FilterKeptCount(items[1..], hideRequested, x);
      assert items == [items[0]] + items[1..];
    }
  }

  lemma {:induction false} FilterKeptMembers(items: seq<Item>, hideRequested: bool)
    ensures forall x :: x in FilterKept(items, hideRequested) <==> x in items && Keep(x, hideRequested)
  {
    if items != [] {
      FilterKeptMembers(items[1..], hideRequested);
      assert forall x :: x in items <==> x == items[0] || x in items[1..];
    }
  }

  lemma {:induction false} FilterKeptSubsequence(items: seq<Item>, hideRequested: bool)
    ensures IsSubsequence(FilterKept(items, hideRequested), items)
  {
    if items != [] {
      FilterKeptSubsequence(items[1..], hideRequested);
      var rest := FilterKept(items[1..], hideRequested);
      if Keep(items[0], hideRequested) {
        assert FilterKept(items, hideRequested) == [items[0]] + rest;
        assert ([items[0]] + rest)[1..] == rest;
      } else {
        assert FilterKept(items, hideRequested) == rest;
      }
    }
  }

  lemma {:induction false} FilterKeptAllKept(items: seq<Item>, hideRequested: bool)
    ensures FilterKept(items, hideRequested) == items <==>
            forall i :: 0 <= i < |items| ==> Keep(items[i], hideRequested)
  {
    if items != [] {
      FilterKeptAllKept(items[1..], hideRequested);
      if !Keep(items[0], hideRequested) {
        assert |FilterKept(items, hideRequested)| < |items|;
      } else if FilterKept(items, hideRequested) == items {
        assert FilterKept(items[1..], hideRequested) == items[1..];
        forall i | 0 <= i < |items| ensures Keep(items[i], hideRequested) {
          if i > 0 { assert items[i] == items[1..][i - 1]; }
        }
      } else {
        assert FilterKept(items[1..], hideRequested) != items[1..];
      }
    }
  }

  lemma {:induction false} FilterKeptOnlyKept(items: seq<Item>, hideRequested: bool)
    ensures forall i :: 0 <= i < |FilterKept(items, hideRequested)| ==>
              Keep(FilterKept(items, hideRequested)[i], hideRequested)
  {
    if items != [] {
      FilterKeptOnlyKept(items[1..], hideRequested);
    }
  }

  /**
   * The filter keeps exactly the shown items, each as often as it occurs:
   * an item is in the output iff it is in the input and shown.
   */
  lemma VisibleCount(items: seq<Item>, hideAvailable: bool, hideRequested: bool, x: Item)
    ensures multiset(Visible(items, hideAvailable, hideRequested))[x] ==
            if Shown(x, hideAvailable, hideRequested) then multiset(items)[x] else 0
    ensures x in Visible(items, hideAvailable, hideRequested) <==>
            x in items && Shown(x, hideAvailable, hideRequested)
  {
    if hideAvailable || hideRequested {
      FilterKeptCount(items, hideRequested, x);
    }
    assert x in items <==> x in multiset(items);
    assert x in Visible(items, hideAvailable, hideRequested) <==>
           x in multiset(Visible(items, hideAvailable, hideRequested));
  }

  /** The multiplicity clause of VisibleCount, for every item at once. */
  lemma VisibleMultiset(items: seq<Item>, hideAvailable: bool, hideRequested: bool)
    ensures forall x :: multiset(Visible(items, hideAvailable, hideRequested))[x] ==
              if Shown(x, hideAvailable, hideRequested) then multiset(items)[x] else 0
  {
    forall x
      ensures multiset(Visible(items, hideAvailable, hideRequested))[x] ==
              if Shown(x, hideAvailable, hideRequested) then multiset(items)[x] else 0
    {
      VisibleCount(items, hideAvailable, hideRequested, x);
    }
  }

  /** The output is an order-preserving subsequence of the input. */
  lemma VisibleSubsequence(items: seq<Item>, hideAvailable: bool, hideRequested: bool)
    ensures IsSubsequence(Visible(items, hideAvailable, hideRequested), items)
  {
    if hideAvailable || hideRequested {
      FilterKeptSubsequence(items, hideRequested);
    } else {
      SubsequenceReflexive(items);
    }
  }

  lemma {:induction false} SubsequenceReflexive(items: seq<Item>)
    ensures IsSubsequence(items, items)
  {
    if items != [] {
      SubsequenceReflexive(items[1..]);
    }
  }

  /**
   * The filter changes nothing exactly when every item is shown; with both
   * preferences off it is the identity.
   */
  lemma VisibleUnchanged(items: seq<Item>, hideAvailable: bool, hideRequested: bool)
    ensures Visible(items, hideAvailable, hideRequested) == items <==>
            forall i :: 0 <= i < |items| ==> Shown(items[i], hideAvailable, hideRequested)
    ensures !hideAvailable && !hideRequested ==> Visible(items, hideAvailable, hideRequested) == items
  {
    if hideAvailable || hideRequested {
      FilterKeptAllKept(items, hideRequested);
    }
  }

  /** Filtering twice gives what filtering once gives. */
  lemma VisibleIdempotent(items: seq<Item>, hideAvailable: bool, hideRequested: bool)
    ensures Visible(Visible(items, hideAvailable, hideRequested), hideAvailable, hideRequested) ==
            Visible(items, hideAvailable, hideRequested)
  {
    if hideAvailable || hideRequested {
      FilterKeptOnlyKept(items, hideRequested);
      FilterKeptAllKept(FilterKept(items, hideRequested), hideRequested);
    }
  }

  /**
   * Which items the preferences remove, item by item: persons and titles
   * without media info never; available or partially available titles
   * whenever either preference is set; pending or processing titles exactly
   * when hideRequested is set; titles of unknown status never.
   */
  lemma RemovalRules(items: seq<Item>, hideAvailable: bool, hideRequested: bool, x: Item)
    requires x in items
    ensures x.Person? ==> x in Visible(items, hideAvailable, hideRequested)
    ensures StatusOf(x).None? ==> x in Visible(items, hideAvailable, hideRequested)
    ensures !x.Person? && IsAvailable(StatusOf(x)) ==>
              (x !in Visible(items, hideAvailable, hideRequested) <==> hideAvailable || hideRequested)
    ensures !x.Person? && IsRequested(StatusOf(x)) ==>
              (x !in Visible(items, hideAvailable, hideRequested) <==> hideRequested)
    ensures StatusOf(x) == Some(Unknown) ==> x in Visible(items, hideAvailable, hideRequested)
  {
    VisibleCount(items, hideAvailable, hideRequested, x);
  }
}
