/**
 * A subforum's listing pages: its posts cut into pages of ten, page p written
 * to `{key}[-p].html`, with the subforum's title, description and banner, and
 * a navigation whose links are built from the subforum's `link` field.
 */
module SubforumPages {
  import opened JsValues
  import opened Posts
  import opened Pagination
  import opened Links

  /** One listing page of a subforum. */
  datatype ListingPage = ListingPage(number: nat, fileName: string, args: PageArgs, posts: seq<Post>, nav: Nav)

  /**
   * Listing page `page` of subforum `key`: the file is the key with the page
   * suffix, the canonical URL is that file under the base URL, and the
   * navigation links (never marked active) hang off the subforum's `link`.
   */
  function ListingPageAt(baseurl: string, key: string, sf: Subforum, posts: seq<Post>, page: nat): (r: ListingPage)
    requires 1 <= page <= PageCount(|posts|)
    ensures r.number == page
    ensures r.fileName == PageHref(key, page)
    ensures r.args.canonicalUrl == Str(baseurl + r.fileName)
    ensures r.args.title == sf.title && r.args.description == sf.description && r.args.image == sf.banner
    ensures 0 < |r.posts| <= PostsPerPage && r.posts == PageSlice(posts, page)
    ensures r.nav == PaginationNav(ToStr(sf.link), page, PageCount(|posts|), false)
  {
    var fileName := PageHref(key, page);
    ListingPage(page, fileName, PageArgs(Str(baseurl + fileName), sf.title, sf.description, sf.banner),
      PageSlice(posts, page), PaginationNav(ToStr(sf.link), page, PageCount(|posts|), false))
  }

  /** The posts each page lists, in page order. */
  function PagePosts(pages: seq<ListingPage>): (r: seq<seq<Post>>)
    ensures |r| == |pages| && forall i :: 0 <= i < |pages| ==> r[i] == pages[i].posts
  {
    seq(|pages|, i requires 0 <= i < |pages| => pages[i].posts)
  }

  /**
   * All listing pages of a subforum: one per ten posts, the pages together
   * list every post once in order, and no two pages share a file.
   */
  method SubforumListing(baseurl: string, key: string, sf: Subforum, posts: seq<Post>) returns (pages: seq<ListingPage>)
    ensures |pages| == PageCount(|posts|)
    ensures forall i :: 0 <= i < |pages| ==> pages[i] == ListingPageAt(baseurl, key, sf, posts, i + 1)
    ensures Flatten(PagePosts(pages)) == posts
    ensures forall i, j :: 0 <= i < j < |pages| ==> pages[i].fileName != pages[j].fileName
  {
    var slices := Paginate(posts);
    pages := seq(|slices|, i requires 0 <= i < |slices| => ListingPageAt(baseurl, key, sf, posts, i + 1));
    ListingPagesFollowSlices(baseurl, key, sf, posts, slices, pages);
  }

  /** Listing pages built one per slice list those slices, and have pairwise different files. */
  lemma ListingPagesFollowSlices(baseurl: string, key: string, sf: Subforum, posts: seq<Post>, slices: seq<seq<Post>>, pages: seq<ListingPage>)
    requires |slices| == |pages| == PageCount(|posts|)
    requires forall p :: 0 <= p < |slices| ==> slices[p] == PageSlice(posts, p + 1)
    requires forall i :: 0 <= i < |pages| ==> pages[i] == ListingPageAt(baseurl, key, sf, posts, i + 1)
    ensures PagePosts(pages) == slices
    ensures forall i, j :: 0 <= i < j < |pages| ==> pages[i].fileName != pages[j].fileName
  {
    forall i | 0 <= i < |pages|
      ensures PagePosts(pages)[i] == slices[i] && pages[i].fileName == PageHref(key, i + 1)
    {
      var lp := ListingPageAt(baseurl, key, sf, posts, i + 1);
      assert pages[i] == lp;
    }
    FileNamesDistinct(key, pages);
  }

  /** Pages numbered 1, 2, ... under one key have pairwise different files. */
  lemma FileNamesDistinct(key: string, pages: seq<ListingPage>)
    requires forall i :: 0 <= i < |pages| ==> pages[i].fileName == PageHref(key, i + 1)
    ensures forall i, j :: 0 <= i < j < |pages| ==> pages[i].fileName != pages[j].fileName
  {
    forall i, j | 0 <= i < j < |pages|
      ensures pages[i].fileName != pages[j].fileName
    {
      if pages[i].fileName == pages[j].fileName {
        PageHrefInjective(key, i + 1, j + 1);
      }
    }
  }

  /**
   * The numbered links under a listing page lead to the listing pages'
   * canonical URLs exactly when the subforum's `link` is the base URL followed
   * by its key; with a site-relative link such as `/games` they do not.
   */
  lemma NavMatchesCanonicalsIff(baseurl: string, key: string, sf: Subforum, posts: seq<Post>, page: nat, q: nat)
    requires 1 <= page <= PageCount(|posts|) && 1 <= q <= PageCount(|posts|)
    ensures Str(ListingPageAt(baseurl, key, sf, posts, page).nav.numbered[q - 1].href)
        == ListingPageAt(baseurl, key, sf, posts, q).args.canonicalUrl
      <==> ToStr(sf.link) == baseurl + key
  {
    var lp := ListingPageAt(baseurl, key, sf, posts, page);
    var lq := ListingPageAt(baseurl, key, sf, posts, q);
    assert lp.nav.numbered[q - 1].href == PageHref(ToStr(sf.link), q);
    assert lq.args.canonicalUrl == Str(baseurl + PageHref(key, q));
    PageHrefUnder(baseurl, key, q);
    if lp.nav.numbered[q - 1].href == baseurl + PageHref(key, q) {
      PageHrefPrefixInjective(ToStr(sf.link), baseurl + key, q);
    }
  }
}
