/**
 * The tag and developer pages: for every name of an index, its posts cut into
 * pages of ten at `vn/{type}/{slug}[-n].html`, and one listing of all names
 * per type. Slugs come from a memoised generator shared by both types.
 */
module AliasPages {
  import opened Wrappers
  import opened JsValues
  import opened Posts
  import opened TagIndex
  import opened Pagination
  import opened Links

  /**
   * The slug cache and the state of the slug generator. The generator is
   * outside this model; it may depend on what it has produced before, so it
   * is given the state it last left.
   */
  datatype Memo<S> = Memo(cache: map<string, string>, state: S)

  /** `getSlug(name)`: the cached slug, or a fresh one that is cached from now on. */
  function GetSlug<S>(m: Memo<S>, name: string, gen: (S, string) -> (string, S)): (r: (string, Memo<S>))
    ensures name in m.cache ==> r == (m.cache[name], m)
    ensures name !in m.cache ==> r.0 == gen(m.state, name).0 && r.1.state == gen(m.state, name).1
    ensures name in r.1.cache && r.1.cache[name] == r.0
    ensures r.1.cache.Keys == m.cache.Keys + {name}
    ensures forall k :: k in m.cache ==> r.1.cache[k] == m.cache[k]
  {
    if name in m.cache then (m.cache[name], m)
    else
      var (slug, next) := gen(m.state, name);
      (slug, Memo(m.cache[name := slug], next))
  }

  /** Asking again for a name returns the slug it got the first time and changes nothing. */
  lemma GetSlugStable<S>(m: Memo<S>, name: string, gen: (S, string) -> (string, S))
    ensures GetSlug(GetSlug(m, name, gen).1, name, gen) == GetSlug(m, name, gen)
  {
  }

  /** One of the two kinds of alias page. */
  datatype Category = Category(kind: string, meta: string)

  /** `categories`, in order. */
  const Categories: seq<Category> := [Category("tags", "Visual Novels"), Category("developers", "Company")]

  /** The directory of a category's pages, relative to the output directory. */
  function Dir(cat: Category): string {
    "vn/" + cat.kind + "/"
  }

  /** One page of one name. */
  datatype AliasPage = AliasPage(
    name: string,
    number: nat,
    outputPath: string,
    args: PageArgs,
    count: nat,
    posts: seq<Post>,
    postHrefs: seq<string>,
    nav: Nav)

  /** The URLs of the listed posts' pages; `.replace` throws on a link that is not a string. */
  function PostHrefs(baseurl: string, posts: seq<Post>): (r: Result<seq<string>, Error>)
    ensures r.Ok? <==> LinksAreStrings(posts)
    ensures r.Ok? ==> |r.value| == |posts|
    ensures r.Ok? ==> forall i :: 0 <= i < |posts| ==> r.value[i] == baseurl + PostOutputPath(posts[i]).value
    decreases |posts|
  {
    if |posts| == 0 then Ok([])
    else
      var first :- PostOutputPath(posts[0]);
      var rest :- PostHrefs(baseurl, posts[1..]);
      Ok([baseurl + first] + rest)
  }

  /**
   * Page `page` of a name whose bucket is `bucket`: its file and canonical URL
   * share the path `vn/{type}/{slug}[-n].html`, its title is `name - meta`,
   * and its navigation marks the page as active.
   */
  function NamePage(baseurl: string, cat: Category, name: string, slug: string, bucket: seq<Post>, page: nat): (r: Result<AliasPage, Error>)
    requires page >= 1
    ensures r.Ok? <==> LinksAreStrings(PageSlice(bucket, page))
    ensures r.Ok? ==> r.value.outputPath == PageHref(Dir(cat) + slug, page)
    ensures r.Ok? ==> r.value.args.canonicalUrl == Str(baseurl + r.value.outputPath)
    ensures r.Ok? ==> r.value.args.title == Str(name + " - " + cat.meta)
    ensures r.Ok? ==> r.value.args.description == Str("All visual novels related to " + name)
    ensures r.Ok? ==> r.value.name == name && r.value.number == page && r.value.count == |bucket|
    ensures r.Ok? ==> r.value.posts == PageSlice(bucket, page)
    ensures r.Ok? ==> r.value.nav == PaginationNav(baseurl + Dir(cat) + slug, page, PageCount(|bucket|), true)
  {
    var slice := PageSlice(bucket, page);
    var hrefs :- PostHrefs(baseurl, slice);
    var path := PageHref(Dir(cat) + slug, page);
    Ok(AliasPage(name, page, path,
      PageArgs(Str(baseurl + path), Str(name + " - " + cat.meta), Str("All visual novels related to " + name), Str("")),
      |bucket|, slice, hrefs, PaginationNav(baseurl + Dir(cat) + slug, page, PageCount(|bucket|), true)))
  }

  /**
   * The numbered links under a page lead to the canonical URLs of the name's
   * pages, in order.
   */
  lemma NavLinksAreCanonicals(baseurl: string, cat: Category, name: string, slug: string, bucket: seq<Post>, page: nat, q: nat)
    requires 1 <= page <= PageCount(|bucket|) && 1 <= q <= PageCount(|bucket|)
    requires NamePage(baseurl, cat, name, slug, bucket, page).Ok? && NamePage(baseurl, cat, name, slug, bucket, q).Ok?
    ensures Str(NamePage(baseurl, cat, name, slug, bucket, page).value.nav.numbered[q - 1].href)
      == NamePage(baseurl, cat, name, slug, bucket, q).value.args.canonicalUrl
  {
    assert baseurl + Dir(cat) + slug == baseurl + (Dir(cat) + slug);
    PageHrefUnder(baseurl, Dir(cat) + slug, q);
  }

  /** Pages 1 to `count` of one name, in order; the first page that fails stops the rest. */
  function NamePagesUpTo(baseurl: string, cat: Category, name: string, slug: string, bucket: seq<Post>, count: nat): (r: Result<seq<AliasPage>, Error>)
    ensures r.Ok? ==> |r.value| == count
    decreases count
  {
    if count == 0 then Ok([])
    else
      match NamePagesUpTo(baseurl, cat, name, slug, bucket, count - 1)
      case Err(e) => Err(e)
      case Ok(prefix) =>
        match NamePage(baseurl, cat, name, slug, bucket, count)
        case Err(e) => Err(e)
        case Ok(last) => Ok(prefix + [last])
  }

  /** Entry i of the first `count` pages is the page numbered i + 1. */
  lemma {:induction false} NamePagesUpToAt(baseurl: string, cat: Category, name: string, slug: string, bucket: seq<Post>, count: nat, i: nat)
    requires NamePagesUpTo(baseurl, cat, name, slug, bucket, count).Ok? && i < count
    ensures Ok(NamePagesUpTo(baseurl, cat, name, slug, bucket, count).value[i]) == NamePage(baseurl, cat, name, slug, bucket, i + 1)
    decreases count
  {
    var prefix := NamePagesUpTo(baseurl, cat, name, slug, bucket, count - 1).value;
    var last := NamePage(baseurl, cat, name, slug, bucket, count);
    assert NamePagesUpTo(baseurl, cat, name, slug, bucket, count) == Ok(prefix + [last.value]);
    if i < count - 1 {
      NamePagesUpToAt(baseurl, cat, name, slug, bucket, count - 1, i);
    }
  }

  /** The slices of pages 1 to `count` all have string links. */
  predicate SlicesHaveStringLinks(bucket: seq<Post>, count: nat)
    decreases count
  {
    count == 0 || (SlicesHaveStringLinks(bucket, count - 1) && LinksAreStrings(PageSlice(bucket, count)))
  }

  /** `SlicesHaveStringLinks` checks every page from 1 to `count`. */
  lemma {:induction false} SlicesHaveStringLinksAll(bucket: seq<Post>, count: nat)
    ensures SlicesHaveStringLinks(bucket, count) <==> forall p :: 1 <= p <= count ==> LinksAreStrings(PageSlice(bucket, p))
    decreases count
  {
    if count > 0 {
      SlicesHaveStringLinksAll(bucket, count - 1);
      if SlicesHaveStringLinks(bucket, count) {
        forall p | 1 <= p <= count ensures LinksAreStrings(PageSlice(bucket, p)) {
          if p < count {
            assert 1 <= p <= count - 1;
          }
        }
      }
    }
  }

  /** The first `count` pages all build exactly when the slices of pages 1 to `count` all have string links. */
  lemma {:induction false} NamePagesUpToOk(baseurl: string, cat: Category, name: string, slug: string, bucket: seq<Post>, count: nat)
    ensures NamePagesUpTo(baseurl, cat, name, slug, bucket, count).Ok? <==> SlicesHaveStringLinks(bucket, count)
    decreases count
  {
    if count > 0 {
      NamePagesUpToOk(baseurl, cat, name, slug, bucket, count - 1);
      var prefix := NamePagesUpTo(baseurl, cat, name, slug, bucket, count - 1);
      var last := NamePage(baseurl, cat, name, slug, bucket, count);
      assert NamePagesUpTo(baseurl, cat, name, slug, bucket, count).Ok? <==> prefix.Ok? && last.Ok?;
    }
  }

  /** Every post of the list has a string `link`. */
  predicate LinksAreStrings(posts: seq<Post>) {
    forall i :: 0 <= i < |posts| ==> Field(posts[i], "link").Str?
  }

  /**
   * Every page's slice has string links exactly when the whole list has: post
   * `i` sits on page `i / PostsPerPage + 1` at position `i % PostsPerPage`.
   */
  lemma PageLinksCover(bucket: seq<Post>)
    ensures (forall p :: 1 <= p <= PageCount(|bucket|) ==> LinksAreStrings(PageSlice(bucket, p))) <==> LinksAreStrings(bucket)
  {
    if forall p :: 1 <= p <= PageCount(|bucket|) ==> LinksAreStrings(PageSlice(bucket, p)) {
      forall i | 0 <= i < |bucket| ensures Field(bucket[i], "link").Str? {
        var p := i / PostsPerPage + 1;
        var j := i % PostsPerPage;
        assert (p - 1) * PostsPerPage + j == i;
        assert p <= PageCount(|bucket|);
        assert j < |PageSlice(bucket, p)|;
        assert PageSlice(bucket, p)[j] == bucket[i];
      }
    }
  }

  /** The posts listed on each page, page by page. */
  function PagePosts(pages: seq<AliasPage>): (r: seq<seq<Post>>)
    ensures |r| == |pages| && forall i :: 0 <= i < |pages| ==> r[i] == pages[i].posts
  {
    seq(|pages|, i requires 0 <= i < |pages| => pages[i].posts)
  }

  /** The posts of a name's pages, laid end to end, are its bucket. */
  lemma NamePagesUpToFlatten(baseurl: string, cat: Category, name: string, slug: string, bucket: seq<Post>)
    requires NamePagesUpTo(baseurl, cat, name, slug, bucket, PageCount(|bucket|)).Ok?
    ensures Flatten(PagePosts(NamePagesUpTo(baseurl, cat, name, slug, bucket, PageCount(|bucket|)).value)) == bucket
  {
    var pages := NamePagesUpTo(baseurl, cat, name, slug, bucket, PageCount(|bucket|)).value;
    var posts := PagePosts(pages);
    forall p | 0 <= p < |posts| ensures posts[p] == PageSlice(bucket, p + 1) {
      NamePagesUpToAt(baseurl, cat, name, slug, bucket, PageCount(|bucket|), p);
    }
    PageSlicesFlatten(bucket, posts);
  }

  /**
   * Every page of one name, in order; an empty bucket has none. It fails
   * exactly when some post of the bucket has a link that is not a string, and
   * otherwise the pages' posts laid end to end are the bucket.
   */
  function NamePages(baseurl: string, cat: Category, name: string, slug: string, bucket: seq<Post>): (r: Result<seq<AliasPage>, Error>)
    ensures r.Ok? <==> LinksAreStrings(bucket)
    ensures r.Ok? ==> |r.value| == PageCount(|bucket|)
    ensures r.Ok? ==> forall i :: 0 <= i < |r.value| ==> Ok(r.value[i]) == NamePage(baseurl, cat, name, slug, bucket, i + 1)
    ensures r.Ok? ==> Flatten(PagePosts(r.value)) == bucket
  {
    var r := NamePagesUpTo(baseurl, cat, name, slug, bucket, PageCount(|bucket|));
    assert r.Ok? <==> LinksAreStrings(bucket) by {
      NamePagesUpToOk(baseurl, cat, name, slug, bucket, PageCount(|bucket|));
      SlicesHaveStringLinksAll(bucket, PageCount(|bucket|));
      PageLinksCover(bucket);
    }
    assert r.Ok? ==> Flatten(PagePosts(r.value)) == bucket by {
      if r.Ok? {
        NamePagesUpToFlatten(baseurl, cat, name, slug, bucket);
      }
    }
    assert r.Ok? ==> forall i :: 0 <= i < |r.value| ==> Ok(r.value[i]) == NamePage(baseurl, cat, name, slug, bucket, i + 1) by {
      if r.Ok? {
        forall i | 0 <= i < |r.value|
          ensures Ok(r.value[i]) == NamePage(baseurl, cat, name, slug, bucket, i + 1)
        {
          NamePagesUpToAt(baseurl, cat, name, slug, bucket, PageCount(|bucket|), i);
        }
      }
    }
    r
  }

  /** Every name's pages, names in key order, each name's slug fetched through the memo first. */
  function AllNamePages<S>(baseurl: string, cat: Category, idx: Index, names: seq<string>, m: Memo<S>, gen: (S, string) -> (string, S)): (r: (Result<seq<AliasPage>, Error>, Memo<S>))
    ensures forall k :: k in m.cache ==> k in r.1.cache && r.1.cache[k] == m.cache[k]
    decreases |names|
  {
    if |names| == 0 then (Ok([]), m)
    else
      var got := GetSlug(m, names[0], gen);
      var first := NamePages(baseurl, cat, names[0], got.0, Bucket(idx, names[0]));
      if first.Err? then (Err(first.error), got.1)
      else
        var rest := AllNamePages(baseurl, cat, idx, names[1..], got.1, gen);
        if rest.0.Err? then rest else (Ok(first.value + rest.0.value), rest.1)
  }

  /** Every page of one name is at that name's slug, under its own number. */
  lemma NamePagesPaths(baseurl: string, cat: Category, name: string, slug: string, bucket: seq<Post>, p: AliasPage)
    requires NamePages(baseurl, cat, name, slug, bucket).Ok? && p in NamePages(baseurl, cat, name, slug, bucket).value
    ensures p.name == name && p.outputPath == PageHref(Dir(cat) + slug, p.number)
  {
    var pages := NamePages(baseurl, cat, name, slug, bucket).value;
    var i :| 0 <= i < |pages| && pages[i] == p;
    assert Ok(p) == NamePage(baseurl, cat, name, slug, bucket, i + 1);
  }

  /**
   * The reference definition: each name's pages at its slug in `cache`, names
   * in order, concatenated; the first name whose pages fail is the failure.
   */
  function PagesOfNames(baseurl: string, cat: Category, idx: Index, names: seq<string>, cache: map<string, string>): Result<seq<AliasPage>, Error>
    requires forall n :: n in names ==> n in cache
    decreases |names|
  {
    if |names| == 0 then Ok([])
    else
      var first :- NamePages(baseurl, cat, names[0], cache[names[0]], Bucket(idx, names[0]));
      var rest :- PagesOfNames(baseurl, cat, idx, names[1..], cache);
      Ok(first + rest)
  }

  /** The buckets of all `names` have string links. */
  predicate NamesHaveStringLinks(idx: Index, names: seq<string>)
    decreases |names|
  {
    |names| == 0 || (LinksAreStrings(Bucket(idx, names[0])) && NamesHaveStringLinks(idx, names[1..]))
  }

  /** `NamesHaveStringLinks` checks the bucket of every name. */
  lemma {:induction false} NamesHaveStringLinksAll(idx: Index, names: seq<string>)
    ensures NamesHaveStringLinks(idx, names) <==> forall i :: 0 <= i < |names| ==> LinksAreStrings(Bucket(idx, names[i]))
    decreases |names|
  {
    if |names| > 0 {
      NamesHaveStringLinksAll(idx, names[1..]);
      assert forall i :: 0 <= i < |names[1..]| ==> names[1..][i] == names[i + 1];
      if NamesHaveStringLinks(idx, names) {
        forall i | 0 <= i < |names| ensures LinksAreStrings(Bucket(idx, names[i])) {
          if i > 0 {
            assert names[i] == names[1..][i - 1];
          }
        }
      }
    }
  }

  /** The pages of `names` build exactly when every one of their buckets has string links, whatever the slugs. */
  lemma {:induction false} AllNamePagesOk<S>(baseurl: string, cat: Category, idx: Index, names: seq<string>, m: Memo<S>, gen: (S, string) -> (string, S))
    ensures AllNamePages(baseurl, cat, idx, names, m, gen).0.Ok? <==> NamesHaveStringLinks(idx, names)
    decreases |names|
  {
    if |names| > 0 {
      var got := GetSlug(m, names[0], gen);
      var first := NamePages(baseurl, cat, names[0], got.0, Bucket(idx, names[0]));
      var rest := AllNamePages(baseurl, cat, idx, names[1..], got.1, gen);
      AllNamePagesOk(baseurl, cat, idx, names[1..], got.1, gen);
      assert first.Ok? <==> LinksAreStrings(Bucket(idx, names[0]));
      assert AllNamePages(baseurl, cat, idx, names, m, gen).0.Ok? <==> first.Ok? && rest.0.Ok?;
    }
  }

  /**
   * The pages of `names` are the reference concatenation under the final slug
   * cache: each name's pages at the slug it was given, in key order.
   */
  lemma {:induction false} AllNamePagesConcat<S>(baseurl: string, cat: Category, idx: Index, names: seq<string>, m: Memo<S>, gen: (S, string) -> (string, S))
    requires AllNamePages(baseurl, cat, idx, names, m, gen).0.Ok?
    ensures forall n :: n in names ==> n in AllNamePages(baseurl, cat, idx, names, m, gen).1.cache
    ensures PagesOfNames(baseurl, cat, idx, names, AllNamePages(baseurl, cat, idx, names, m, gen).1.cache)
      == AllNamePages(baseurl, cat, idx, names, m, gen).0
    decreases |names|
  {
    if |names| > 0 {
      var r := AllNamePages(baseurl, cat, idx, names, m, gen);
      var got := GetSlug(m, names[0], gen);
      var first := NamePages(baseurl, cat, names[0], got.0, Bucket(idx, names[0]));
      var rest := AllNamePages(baseurl, cat, idx, names[1..], got.1, gen);
      assert r == (Ok(first.value + rest.0.value), rest.1);
      AllNamePagesConcat(baseurl, cat, idx, names[1..], got.1, gen);
      assert r.1.cache[names[0]] == got.0;
      assert forall n :: n in names ==> n == names[0] || n in names[1..];
    }
  }

  /** Every page of the reference concatenation sits at its name's cached slug. */
  lemma {:induction false} PagesOfNamesPaths(baseurl: string, cat: Category, idx: Index, names: seq<string>, cache: map<string, string>, p: AliasPage)
    requires forall n :: n in names ==> n in cache
    requires PagesOfNames(baseurl, cat, idx, names, cache).Ok? && p in PagesOfNames(baseurl, cat, idx, names, cache).value
    ensures p.name in cache && p.outputPath == PageHref(Dir(cat) + cache[p.name], p.number)
    decreases |names|
  {
    var slug := cache[names[0]];
    var bucket := Bucket(idx, names[0]);
    var first := NamePages(baseurl, cat, names[0], slug, bucket);
    var rest := PagesOfNames(baseurl, cat, idx, names[1..], cache);
    assert first.Ok? && rest.Ok?;
    assert PagesOfNames(baseurl, cat, idx, names, cache).value == first.value + rest.value;
    if p in first.value {
      NamePagesPaths(baseurl, cat, names[0], slug, bucket, p);
    } else {
      PagesOfNamesPaths(baseurl, cat, idx, names[1..], cache, p);
    }
  }

  /**
   * After the pages of `names`, every name has a cached slug, and the first
   * page of every name with posts sits at that slug's unsuffixed path.
   */
  lemma {:induction false} AllNamePagesSlugs<S>(baseurl: string, cat: Category, idx: Index, names: seq<string>, m: Memo<S>, gen: (S, string) -> (string, S))
    requires AllNamePages(baseurl, cat, idx, names, m, gen).0.Ok?
    ensures forall n :: n in names ==> n in AllNamePages(baseurl, cat, idx, names, m, gen).1.cache
    ensures forall i :: 0 <= i < |names| && |Bucket(idx, names[i])| > 0 ==>
      exists p :: (p in AllNamePages(baseurl, cat, idx, names, m, gen).0.value && p.name == names[i] && p.number == 1
        && p.outputPath == PageHref(Dir(cat) + AllNamePages(baseurl, cat, idx, names, m, gen).1.cache[names[i]], 1))
    decreases |names|
  {
    if |names| > 0 {
      var r := AllNamePages(baseurl, cat, idx, names, m, gen);
      var (slug, m1) := GetSlug(m, names[0], gen);
      var first := NamePages(baseurl, cat, names[0], slug, Bucket(idx, names[0]));
      var rest := AllNamePages(baseurl, cat, idx, names[1..], m1, gen);
      assert r == (Ok(first.value + rest.0.value), rest.1);
      AllNamePagesSlugs(baseurl, cat, idx, names[1..], m1, gen);
      assert r.1.cache[names[0]] == slug;
      forall i | 0 <= i < |names| && |Bucket(idx, names[i])| > 0
        ensures exists p :: (p in r.0.value && p.name == names[i] && p.number == 1
          && p.outputPath == PageHref(Dir(cat) + r.1.cache[names[i]], 1))
      {
        if i == 0 {
          var p := first.value[0];
          assert p in r.0.value;
        } else {
          assert names[1..][i - 1] == names[i];
          var p :| p in rest.0.value && p.name == names[i] && p.number == 1
            && p.outputPath == PageHref(Dir(cat) + rest.1.cache[names[i]], 1);
          assert p in r.0.value;
        }
      }
    }
  }

  /** One line of a category's listing page. */
  datatype IndexEntry = IndexEntry(name: string, href: string, count: nat)

  /** The listing's entries, in key order; each name's slug again fetched through the memo. */
  function IndexEntries<S>(baseurl: string, cat: Category, idx: Index, names: seq<string>, m: Memo<S>, gen: (S, string) -> (string, S)): (r: (seq<IndexEntry>, Memo<S>))
    ensures |r.0| == |names|
    ensures (forall n :: n in names ==> n in m.cache) ==> (r.1 == m
      && forall i :: 0 <= i < |names| ==> r.0[i] == IndexEntry(names[i], baseurl + PageHref(Dir(cat) + m.cache[names[i]], 1), |Bucket(idx, names[i])|))
    decreases |names|
  {
    if |names| == 0 then ([], m)
    else
      var got := GetSlug(m, names[0], gen);
      var rest := IndexEntries(baseurl, cat, idx, names[1..], got.1, gen);
      assert (forall n :: n in names ==> n in m.cache) ==> got.1 == m && forall n :: n in names[1..] ==> n in got.1.cache;
      ([IndexEntry(names[0], baseurl + PageHref(Dir(cat) + got.0, 1), |Bucket(idx, names[0])|)] + rest.0, rest.1)
  }

  /** The listing page of one category. */
  datatype AliasIndex = AliasIndex(outputPath: string, args: PageArgs, entries: seq<IndexEntry>)

  /** Everything one category produces: its name pages and its listing. */
  datatype CategoryOutput = CategoryOutput(pages: seq<AliasPage>, index: AliasIndex)

  /** One category: all name pages, then the listing of all names. */
  function GenerateCategory<S>(baseurl: string, cat: Category, idx: Index, m: Memo<S>, gen: (S, string) -> (string, S)): (r: (Result<CategoryOutput, Error>, Memo<S>))
    ensures r.0.Ok? ==> r.0.value.index.outputPath == Dir(cat) + "index.html"
    ensures r.0.Ok? ==> r.0.value.index.args.canonicalUrl == Str(baseurl + Dir(cat))
    ensures r.0.Ok? ==> (|r.0.value.index.entries| == |idx.names|
      && forall i :: 0 <= i < |idx.names| ==> r.0.value.index.entries[i].name == idx.names[i])
    ensures r.0.Ok? <==> forall i :: 0 <= i < |idx.names| ==> LinksAreStrings(Bucket(idx, idx.names[i]))
    ensures forall k :: k in m.cache ==> k in r.1.cache && r.1.cache[k] == m.cache[k]
    ensures r.0.Ok? ==> ((forall n :: n in idx.names ==> n in r.1.cache)
      && PagesOfNames(baseurl, cat, idx, idx.names, r.1.cache) == Ok(r.0.value.pages))
  {
    AllNamePagesOk(baseurl, cat, idx, idx.names, m, gen);
    NamesHaveStringLinksAll(idx, idx.names);
    var pages := AllNamePages(baseurl, cat, idx, idx.names, m, gen);
    if pages.0.Err? then (Err(pages.0.error), pages.1)
    else
      AllNamePagesConcat(baseurl, cat, idx, idx.names, m, gen);
      var entries := IndexEntries(baseurl, cat, idx, idx.names, pages.1, gen);
      var args := PageArgs(Str(baseurl + Dir(cat)), Str("All " + cat.kind + " - " + cat.meta),
        Str("List of all " + cat.kind + " related to visual novels"), Str(""));
      (Ok(CategoryOutput(pages.0.value, AliasIndex(Dir(cat) + "index.html", args, entries.0))), entries.1)
  }

  /**
   * Every entry of a category's listing links to the canonical URL of the
   * first page of that name.
   */
  lemma IndexLinksToFirstPages<S>(baseurl: string, cat: Category, idx: Index, m: Memo<S>, gen: (S, string) -> (string, S), i: nat)
    requires GenerateCategory(baseurl, cat, idx, m, gen).0.Ok?
    requires i < |idx.names| && |Bucket(idx, idx.names[i])| > 0
    ensures exists p :: (p in GenerateCategory(baseurl, cat, idx, m, gen).0.value.pages && p.name == idx.names[i] && p.number == 1
      && p.args.canonicalUrl == Str(GenerateCategory(baseurl, cat, idx, m, gen).0.value.index.entries[i].href))
  {
    var all := AllNamePages(baseurl, cat, idx, idx.names, m, gen);
    AllNamePagesSlugs(baseurl, cat, idx, idx.names, m, gen);
    var out := GenerateCategory(baseurl, cat, idx, m, gen).0.value;
    assert out.pages == all.0.value;
    var entries := IndexEntries(baseurl, cat, idx, idx.names, all.1, gen).0;
    assert out.index.entries == entries;
    var p :| p in all.0.value && p.name == idx.names[i] && p.number == 1
      && p.outputPath == PageHref(Dir(cat) + all.1.cache[idx.names[i]], 1);
    AllNamePagesAreNamePages(baseurl, cat, idx, idx.names, m, gen, p);
    assert entries[i].href == baseurl + p.outputPath;
  }

  /** Every page in the output is a page built by `NamePage`, so its canonical URL is the base URL and its path. */
  lemma {:induction false} AllNamePagesAreNamePages<S>(baseurl: string, cat: Category, idx: Index, names: seq<string>, m: Memo<S>, gen: (S, string) -> (string, S), p: AliasPage)
    requires AllNamePages(baseurl, cat, idx, names, m, gen).0.Ok?
    requires p in AllNamePages(baseurl, cat, idx, names, m, gen).0.value
    ensures p.args.canonicalUrl == Str(baseurl + p.outputPath)
    decreases |names|
  {
    var (slug, m1) := GetSlug(m, names[0], gen);
    var first := NamePages(baseurl, cat, names[0], slug, Bucket(idx, names[0]));
    var rest := AllNamePages(baseurl, cat, idx, names[1..], m1, gen);
    if p in first.value {
      var i :| 0 <= i < |first.value| && first.value[i] == p;
      assert Ok(p) == NamePage(baseurl, cat, names[0], slug, Bucket(idx, names[0]), 1 + i);
    } else {
      AllNamePagesAreNamePages(baseurl, cat, idx, names[1..], m1, gen, p);
    }
  }

  /** Everything the tag and developer pages produce, both categories sharing one slug cache. */
  function GenerateAliasPages<S>(baseurl: string, tags: Index, devs: Index, m: Memo<S>, gen: (S, string) -> (string, S)): (r: Result<(CategoryOutput, CategoryOutput), Error>)
    ensures r.Ok? ==> r.value.0.index.outputPath == "vn/tags/index.html" && r.value.1.index.outputPath == "vn/developers/index.html"
  {
    CategoryIndexPaths();
    var t := GenerateCategory(baseurl, Categories[0], tags, m, gen);
    if t.0.Err? then Err(t.0.error)
    else
      var d := GenerateCategory(baseurl, Categories[1], devs, t.1, gen);
      if d.0.Err? then Err(d.0.error)
      else Ok((t.0.value, d.0.value))
  }

  /** Every page of a category sits at its name's slug in the cache the category leaves behind. */
  lemma CategoryPaths<S>(baseurl: string, cat: Category, idx: Index, m: Memo<S>, gen: (S, string) -> (string, S), p: AliasPage)
    requires GenerateCategory(baseurl, cat, idx, m, gen).0.Ok?
    requires p in GenerateCategory(baseurl, cat, idx, m, gen).0.value.pages
    ensures p.name in GenerateCategory(baseurl, cat, idx, m, gen).1.cache
    ensures p.outputPath == PageHref(Dir(cat) + GenerateCategory(baseurl, cat, idx, m, gen).1.cache[p.name], p.number)
  {
    var r := GenerateCategory(baseurl, cat, idx, m, gen);
    PagesOfNamesPaths(baseurl, cat, idx, idx.names, r.1.cache, p);
  }

  /**
   * Tag pages are generated first and developers reuse the same slug cache, so
   * a name that is both a tag and a developer has its developer pages under
   * the slug of its tag pages.
   */
  lemma SharedSlugs<S>(baseurl: string, tags: Index, devs: Index, m: Memo<S>, gen: (S, string) -> (string, S), tp: AliasPage, dp: AliasPage)
    requires GenerateAliasPages(baseurl, tags, devs, m, gen).Ok?
    requires tp in GenerateAliasPages(baseurl, tags, devs, m, gen).value.0.pages
    requires dp in GenerateAliasPages(baseurl, tags, devs, m, gen).value.1.pages
    requires tp.name == dp.name
    ensures exists slug :: (tp.outputPath == PageHref("vn/tags/" + slug, tp.number)
      && dp.outputPath == PageHref("vn/developers/" + slug, dp.number))
  {
    var t := GenerateCategory(baseurl, Categories[0], tags, m, gen);
    var d := GenerateCategory(baseurl, Categories[1], devs, t.1, gen);
    GenerateAliasPagesSteps(baseurl, tags, devs, m, gen);
    CategoryPaths(baseurl, Categories[0], tags, m, gen, tp);
    CategoryPaths(baseurl, Categories[1], devs, t.1, gen, dp);
    var slug := t.1.cache[tp.name];
    CategoryKeepsSlug(baseurl, Categories[1], devs, t.1, gen, tp.name);
    CategoryDirs();
    assert tp.outputPath == PageHref(Dir(Categories[0]) + slug, tp.number);
    assert dp.outputPath == PageHref(Dir(Categories[1]) + slug, dp.number);
  }

  /** The two categories' directories. */
  lemma CategoryDirs()
    ensures Dir(Categories[0]) == "vn/tags/" && Dir(Categories[1]) == "vn/developers/"
  {
  }

  /** The two categories' listing pages. */
  lemma CategoryIndexPaths()
    ensures Dir(Categories[0]) + "index.html" == "vn/tags/index.html"
    ensures Dir(Categories[1]) + "index.html" == "vn/developers/index.html"
  {
  }

  /** Both categories built, tags first, the developers starting from the memo the tags left. */
  lemma GenerateAliasPagesSteps<S>(baseurl: string, tags: Index, devs: Index, m: Memo<S>, gen: (S, string) -> (string, S))
    requires GenerateAliasPages(baseurl, tags, devs, m, gen).Ok?
    ensures GenerateCategory(baseurl, Categories[0], tags, m, gen).0.Ok?
    ensures GenerateCategory(baseurl, Categories[1], devs, GenerateCategory(baseurl, Categories[0], tags, m, gen).1, gen).0.Ok?
    ensures GenerateAliasPages(baseurl, tags, devs, m, gen).value == (
      GenerateCategory(baseurl, Categories[0], tags, m, gen).0.value,
      GenerateCategory(baseurl, Categories[1], devs, GenerateCategory(baseurl, Categories[0], tags, m, gen).1, gen).0.value)
  {
  }

  /** A slug cached before a category is built is still cached, unchanged, afterwards. */
  lemma CategoryKeepsSlug<S>(baseurl: string, cat: Category, idx: Index, m: Memo<S>, gen: (S, string) -> (string, S), k: string)
    requires k in m.cache
    ensures k in GenerateCategory(baseurl, cat, idx, m, gen).1.cache
    ensures GenerateCategory(baseurl, cat, idx, m, gen).1.cache[k] == m.cache[k]
  {
  }

  /**
   * The per-name pages of the tag/developer page generator as written, where
   * the navigation helper reads a `baseurl` that is not in its scope. Reading
   * it throws as soon as one numbered link is written, that is on every page.
   */
  function NamePageAsWritten(baseurl: string, cat: Category, name: string, slug: string, bucket: seq<Post>, page: nat): (r: Result<AliasPage, Error>)
    requires 1 <= page <= PageCount(|bucket|)
    ensures r.Err?
    ensures LinksAreStrings(PageSlice(bucket, page)) ==> r == Err(ReferenceError("baseurl"))
  {
    var hrefs :- PostHrefs(baseurl, PageSlice(bucket, page));
    Err(ReferenceError("baseurl"))
  }

  /** The as-written generator's pages of one name. */
  function NamePagesAsWritten(baseurl: string, cat: Category, name: string, slug: string, bucket: seq<Post>): (r: Result<seq<AliasPage>, Error>)
    ensures |bucket| == 0 ==> r == Ok([])
    ensures |bucket| > 0 ==> r.Err?
  {
    if PageCount(|bucket|) == 0 then Ok([])
    else
      Err(NamePageAsWritten(baseurl, cat, name, slug, bucket, 1).error)
  }

  /**
   * As written, one tag with one post whose link is a plain string already
   * fails, while the corrected page generation, with the base URL in scope,
   * produces its page at `vn/tags/{slug}.html`.
   */
  lemma AsWrittenFailsOnOnePost(baseurl: string, slug: string, post: Post)
    requires Field(post, "link").Str?
    ensures NamePagesAsWritten(baseurl, Categories[0], "tag", slug, [post]) == Err(ReferenceError("baseurl"))
    ensures NamePages(baseurl, Categories[0], "tag", slug, [post]).Ok?
    ensures NamePages(baseurl, Categories[0], "tag", slug, [post]).value[0].outputPath == "vn/tags/" + slug + ".html"
  {
    assert PageSlice([post], 1) == [post];
    assert PageCount(1) == 1;
    assert NamePage(baseurl, Categories[0], "tag", slug, [post], 1).Ok?;
    assert NamePagesUpTo(baseurl, Categories[0], "tag", slug, [post], 0) == Ok([]);
    var page := NamePages(baseurl, Categories[0], "tag", slug, [post]);
    assert page.value[0].outputPath == PageHref(Dir(Categories[0]) + slug, 1);
  }
}
