/**
 * Cutting a list into pages of ten, the URL of each page (page 1 unsuffixed,
 * page p >= 2 suffixed `-p`), and the previous / numbered / next navigation
 * printed under each page.
 */
module Pagination {
  import opened Wrappers
  import opened JsValues

  /** `postsPerPage`. */
  const PostsPerPage: nat := 10

  /** `Math.ceil(n / postsPerPage)`: the fewest pages of ten that hold `n` items. */
  function PageCount(n: nat): (r: nat)
    ensures r * PostsPerPage >= n
    ensures r > 0 ==> (r - 1) * PostsPerPage < n
    ensures r == 0 <==> n == 0
  {
    (n + PostsPerPage - 1) / PostsPerPage
  }

  /**
   * `items.slice(start, start + postsPerPage)` with `start = (page - 1) * postsPerPage`;
   * like `Array.prototype.slice`, both ends are clamped to the length.
   */
  function PageSlice<T>(items: seq<T>, page: nat): (r: seq<T>)
    requires page >= 1
    ensures |r| <= PostsPerPage
    ensures forall i :: 0 <= i < |r| ==> (page - 1) * PostsPerPage + i < |items| && r[i] == items[(page - 1) * PostsPerPage + i]
    ensures page <= PageCount(|items|) ==> |r| > 0
    ensures page <= PageCount(|items|) ==> |r| == Min(PostsPerPage, |items| - (page - 1) * PostsPerPage)
    ensures page > PageCount(|items|) ==> r == []
  {
    var start := Min((page - 1) * PostsPerPage, |items|);
    var end := Min(start + PostsPerPage, |items|);
    items[start..end]
  }

  function Min(a: int, b: int): int {
    if a <= b then a else b
  }

  /** The pages laid end to end. */
  function Flatten<T>(pages: seq<seq<T>>): seq<T>
    decreases |pages|
  {
    if |pages| == 0 then [] else Flatten(pages[..|pages| - 1]) + pages[|pages| - 1]
  }

  /** The first `k` pages of a paginated list are the list's first `k * PostsPerPage` items. */
  lemma {:induction false} PageSlicesPrefix<T>(items: seq<T>, pages: seq<seq<T>>, k: nat)
    requires |pages| == PageCount(|items|) && k <= |pages|
    requires forall p :: 0 <= p < |pages| ==> pages[p] == PageSlice(items, p + 1)
    ensures Flatten(pages[..k]) == items[..Min(k * PostsPerPage, |items|)]
  {
    if k > 0 {
      PageSlicesPrefix(items, pages, k - 1);
      assert pages[..k][..k - 1] == pages[..k - 1];
      var start := (k - 1) * PostsPerPage;
      assert pages[k - 1] == items[start..Min(start + PostsPerPage, |items|)];
      assert items[..start] + items[start..Min(start + PostsPerPage, |items|)] == items[..Min(k * PostsPerPage, |items|)];
    }
  }

  /** Paginating loses, repeats and reorders nothing: the pages concatenated are the list. */
  lemma PageSlicesFlatten<T>(items: seq<T>, pages: seq<seq<T>>)
    requires |pages| == PageCount(|items|)
    requires forall p :: 0 <= p < |pages| ==> pages[p] == PageSlice(items, p + 1)
    ensures Flatten(pages) == items
  {
    PageSlicesPrefix(items, pages, |pages|);
    assert pages[..|pages|] == pages;
  }

  /**
   * The listing loop `for (let page = 1; page <= totalPages; page++)`: every
   * page's slice, in order. The pages are non-empty, hold at most ten items
   * each, and laid end to end give back the list; an empty list has no page.
   */
  method Paginate<T>(items: seq<T>) returns (pages: seq<seq<T>>)
    ensures |pages| == PageCount(|items|)
    ensures forall p :: 0 <= p < |pages| ==> pages[p] == PageSlice(items, p + 1)
    ensures forall p :: 0 <= p < |pages| ==> 0 < |pages[p]| <= PostsPerPage
    ensures Flatten(pages) == items
  {
    var totalPages := PageCount(|items|);
    pages := [];
    var page := 1;
    while page <= totalPages
      invariant 1 <= page <= totalPages + 1
      invariant |pages| == page - 1
      invariant forall p :: 0 <= p < |pages| ==> pages[p] == PageSlice(items, p + 1)
      invariant Flatten(pages) == items[..Min((page - 1) * PostsPerPage, |items|)]
      decreases totalPages - page
    {
      var slice := PageSlice(items, page);
      var start := (page - 1) * PostsPerPage;
      assert slice == items[start..Min(start + PostsPerPage, |items|)];
      assert (pages + [slice])[..|pages|] == pages;
      pages := pages + [slice];
      page := page + 1;
    }
  }

  /** The page-number suffix of a file or link: none for page 1, `-p` otherwise. */
  function PageSuffix(page: nat): (r: string)
    ensures page == 1 ==> r == ""
    ensures page != 1 ==> |r| > 1 && r[0] == '-' && r[1..] == NatToString(page)
  {
    if page == 1 then "" else "-" + NatToString(page)
  }

  /** `prefix.html` for page 1, `prefix-p.html` for page p >= 2. */
  function PageHref(prefix: string, page: nat): string {
    prefix + PageSuffix(page) + ".html"
  }

  /** Different pages of one prefix get different URLs. */
  lemma PageHrefInjective(prefix: string, p: nat, q: nat)
    requires p >= 1 && q >= 1
    requires PageHref(prefix, p) == PageHref(prefix, q)
    ensures p == q
  {
    var a := PageSuffix(p);
    var b := PageSuffix(q);
    assert prefix + a + ".html" == prefix + b + ".html";
    assert |a| == |b|;
    assert a == (prefix + a + ".html")[|prefix|..|prefix| + |a|];
    assert b == (prefix + b + ".html")[|prefix|..|prefix| + |b|];
    if p != 1 && q != 1 {
      assert a[1..] == b[1..];
      NatToStringInjective(p, q);
    }
  }

  /** A page URL under a base is the page URL of the longer prefix. */
  lemma PageHrefUnder(base: string, prefix: string, page: nat)
    ensures base + PageHref(prefix, page) == PageHref(base + prefix, page)
  {
    assert base + (prefix + PageSuffix(page) + ".html") == (base + prefix) + PageSuffix(page) + ".html";
  }

  /** Two prefixes give the same page URL only when they are the same prefix. */
  lemma PageHrefPrefixInjective(a: string, b: string, page: nat)
    requires PageHref(a, page) == PageHref(b, page)
    ensures a == b
  {
    var t := PageSuffix(page) + ".html";
    assert PageHref(a, page) == a + t;
    assert PageHref(b, page) == b + t;
    assert a == (a + t)[..|a|];
    assert b == (b + t)[..|b|];
  }

  /** One numbered link of the navigation. */
  datatype NavLink = NavLink(href: string, number: nat, active: bool)

  /** The navigation block of a listing page. */
  datatype Nav = Nav(previous: Option<string>, numbered: seq<NavLink>, next: Option<string>)

  /** The numbered links 1 to `total`; only the first is written without a suffix. */
  function NumberedLinks(prefix: string, current: nat, total: nat, markActive: bool): (r: seq<NavLink>)
    ensures |r| == total
    ensures forall i :: 0 <= i < total ==> r[i] == NavLink(PageHref(prefix, i + 1), i + 1, markActive && i + 1 == current)
    decreases total
  {
    if total == 0 then []
    else
      var i := total - 1;
      var rest := NumberedLinks(prefix, current, i, markActive);
      var link := NavLink(PageHref(prefix, total), total, markActive && total == current);
      assert forall j :: 0 <= j < total ==>
        (rest + [link])[j] == NavLink(PageHref(prefix, j + 1), j + 1, markActive && j + 1 == current) by {
        forall j | 0 <= j < total
          ensures (rest + [link])[j] == NavLink(PageHref(prefix, j + 1), j + 1, markActive && j + 1 == current)
        {
          if j < i {
            assert (rest + [link])[j] == rest[j];
          }
        }
      }
      rest + [link]
  }

  /**
   * The navigation for page `current` of `total` under `prefix`. The previous
   * link drops the suffix when it leads to page 1; the next link is always
   * written with a `-n` suffix; numbered link i is unsuffixed only for i = 1.
   * Only the alias-page navigation marks the current page as active.
   */
  function PaginationNav(prefix: string, current: nat, total: nat, markActive: bool): (r: Nav)
    ensures r.previous.Some? <==> current > 1
    ensures current > 1 ==> r.previous == Some(PageHref(prefix, current - 1))
    ensures r.next.Some? <==> current < total
    ensures 1 <= current < total ==> r.next == Some(PageHref(prefix, current + 1))
    ensures |r.numbered| == total
    ensures forall i :: 0 <= i < total ==> r.numbered[i].href == PageHref(prefix, i + 1) && r.numbered[i].number == i + 1
    ensures forall i :: 0 <= i < total ==> (r.numbered[i].active <==> markActive && i + 1 == current)
  {
    var previous :=
      if current > 1 then Some(prefix + (if current - 1 == 1 then "" else "-" + NatToString(current - 1)) + ".html")
      else None;
    var numbered := NumberedLinks(prefix, current, total, markActive);
    var next := if current < total then Some(prefix + "-" + NatToString(current + 1) + ".html") else None;
    assert current >= 1 ==> prefix + "-" + NatToString(current + 1) == prefix + PageSuffix(current + 1);
    Nav(previous, numbered, next)
  }

  /** On an existing page every link of the navigation leads to an existing page. */
  lemma NavStaysInRange(prefix: string, current: nat, total: nat, markActive: bool, href: string)
    requires 1 <= current <= total
    requires href in NavHrefs(PaginationNav(prefix, current, total, markActive))
    ensures exists q :: 1 <= q <= total && href == PageHref(prefix, q)
  {
    var nav := PaginationNav(prefix, current, total, markActive);
    if nav.previous == Some(href) {
      assert href == PageHref(prefix, current - 1);
    } else if nav.next == Some(href) {
      assert href == PageHref(prefix, current + 1);
    } else {
      var i :| 0 <= i < |nav.numbered| && nav.numbered[i].href == href;
      assert href == PageHref(prefix, i + 1);
    }
  }

  /** Every href the navigation carries. */
  function NavHrefs(nav: Nav): (r: set<string>)
    ensures forall h :: h in r <==> (nav.previous == Some(h) || nav.next == Some(h)
      || exists i :: 0 <= i < |nav.numbered| && nav.numbered[i].href == h)
  {
    (if nav.previous.Some? then {nav.previous.value} else {})
    + (if nav.next.Some? then {nav.next.value} else {})
    + set i | 0 <= i < |nav.numbered| :: nav.numbered[i].href
  }

  /** With active marking on, the current page's link is the only active one. */
  lemma OnlyCurrentActive(prefix: string, current: nat, total: nat)
    requires 1 <= current <= total
    ensures (set i | 0 <= i < total && PaginationNav(prefix, current, total, true).numbered[i].active) == {current - 1}
  {
    var nav := PaginationNav(prefix, current, total, true);
    assert nav.numbered[current - 1].active;
  }
}
