/**
 * Where a post or a subforum ends up: output paths and canonical, RSS and
 * feed URLs derived from the `link` fields, the fallbacks a post page passes
 * to the page assembly, and the lookup of a subforum's template by name.
 */
module Links {
  import opened Wrappers
  import opened JsValues
  import opened Text
  import opened Posts

  /** The site's base URL (`baseurl`), with its trailing slash. */
  const Baseurl: string := "https://yuushaexa.github.io/"

  /** The host the older generator prefixes links and keys with (no trailing slash). */
  const Host: string := "https://yuushaexa.github.io"

  /** `link.replace(/^\//, '')`: a link that is not a string makes the call throw. */
  function Stem(link: Value): (r: Result<string, Error>)
    ensures r.Ok? <==> link.Str?
    ensures r.Ok? ==> "/" + r.value == link.s || r.value == link.s
    ensures r.Ok? ==> |r.value| + 1 >= |link.s|
  {
    var s :- AsString(link, "link");
    Ok(StripSlash(s))
  }

  /** A post page's file, relative to the output directory: the stem plus `.html`. */
  function PostOutputPath(post: Post): (r: Result<string, Error>)
    ensures r.Ok? <==> Field(post, "link").Str?
    ensures r.Ok? ==> exists stem :: Stem(Field(post, "link")) == Ok(stem) && r.value == stem + ".html"
  {
    var stem :- Stem(Field(post, "link"));
    Ok(stem + ".html")
  }

  /** A post page's canonical URL: the base URL and the stem, without extension. */
  function PostCanonical(baseurl: string, post: Post): (r: Result<string, Error>)
    ensures r.Ok? <==> Field(post, "link").Str?
    ensures r.Ok? ==> |baseurl| <= |r.value| && r.value[..|baseurl|] == baseurl
  {
    var stem :- Stem(Field(post, "link"));
    Ok(baseurl + stem)
  }

  /** The canonical URL of a post page is its file, under the base URL, without `.html`. */
  lemma CanonicalNamesOutputFile(baseurl: string, post: Post)
    requires Field(post, "link").Str?
    ensures PostCanonical(baseurl, post).value + ".html" == baseurl + PostOutputPath(post).value
  {
    var stem := Stem(Field(post, "link")).value;
    assert PostOutputPath(post).value == stem + ".html";
  }

  /** The `<link>` and `<guid>` of one RSS item. */
  datatype RssItemLinks = RssItemLinks(link: string, guid: string)

  /** An RSS item: both its link and its guid are the URL of the post's page. */
  function RssItem(baseurl: string, post: Post): (r: Result<RssItemLinks, Error>)
    ensures r.Ok? <==> Field(post, "link").Str?
    ensures r.Ok? ==> r.value.link == r.value.guid
    ensures r.Ok? ==> r.value.link == baseurl + PostOutputPath(post).value
  {
    var stem :- Stem(Field(post, "link"));
    Ok(RssItemLinks(baseurl + stem + ".html", baseurl + stem + ".html"))
  }

  /** The channel `<link>` of a feed and the feed's own URL. */
  datatype Channel = Channel(link: string, feedUrl: string)

  /** The subforum's listing page and its `.rss` feed share one stem. */
  function RssChannel(baseurl: string, sfLink: Value): (r: Result<Channel, Error>)
    ensures r.Ok? <==> sfLink.Str?
    ensures r.Ok? ==> exists stem :: (Stem(sfLink) == Ok(stem)
      && r.value.link == baseurl + stem + ".html" && r.value.feedUrl == baseurl + stem + ".rss")
  {
    var stem :- Stem(sfLink);
    Ok(Channel(baseurl + stem + ".html", baseurl + stem + ".rss"))
  }

  /** The arguments a page is assembled with, after the main content. */
  datatype PageArgs = PageArgs(canonicalUrl: Value, title: Value, description: Value, image: Value)

  /**
   * A post page's arguments: the post's canonical URL and title, its `content`
   * or else the subforum's description, its `image` or else the subforum's icon.
   */
  function PostPageArgs(baseurl: string, post: Post, sf: Subforum): (r: Result<PageArgs, Error>)
    ensures r.Ok? <==> Field(post, "link").Str?
    ensures r.Ok? ==> r.value.canonicalUrl == Str(PostCanonical(baseurl, post).value)
    ensures r.Ok? ==> r.value.title == Field(post, "title")
    ensures r.Ok? && Truthy(Field(post, "content")) ==> r.value.description == Field(post, "content")
    ensures r.Ok? && !Truthy(Field(post, "content")) ==> r.value.description == sf.description
    ensures r.Ok? && Truthy(Field(post, "image")) ==> r.value.image == Field(post, "image")
    ensures r.Ok? && !Truthy(Field(post, "image")) ==> r.value.image == sf.icon
  {
    var canonical :- PostCanonical(baseurl, post);
    Ok(PageArgs(Str(canonical), Field(post, "title"), Or(Field(post, "content"), sf.description), Or(Field(post, "image"), sf.icon)))
  }

  /**
   * A loaded post always carries a truthy `image` (a missing one became
   * `{url: ''}`), so its page never falls back to the subforum's icon.
   */
  lemma LoadedPostNeverUsesIcon(baseurl: string, raw: Value, sfLink: Value, build: LinkBuilder, sf: Subforum)
    requires NormalizePost(raw, sfLink, build).Some?
    requires Field(NormalizePost(raw, sfLink, build).value, "link").Str?
    ensures PostPageArgs(baseurl, NormalizePost(raw, sfLink, build).value, sf).value.image
      == NormalizePost(raw, sfLink, build).value["image"]
  {
    assert "image" in DefaultedKeys;
  }

  /** The templates `ssg.js` defines. */
  const SiteTemplates: set<string> := {"gamesTemplate", "programmingTemplate"}

  /** The templates `templates.js` exports. */
  const ModuleTemplates: set<string> := {"gamesTemplate", "programmingTemplate", "testTemplate", "vnTemplate"}

  /**
   * `templates[subforum.template]`, looked up under the name as a property key.
   * An unknown name throws "Template ... not found"; an inherited name finds a
   * function, and calling the missing renderer on it throws a TypeError.
   */
  function ResolveTemplate(registered: set<string>, key: string, template: Value): (r: Result<string, Error>)
    ensures r.Ok? <==> ToStr(template) in registered
    ensures r.Ok? ==> r.value == ToStr(template)
    ensures r.Err? && ToStr(template) !in InheritedKeys ==> r.error == TemplateNotFound(ToStr(template), key)
  {
    var name := ToStr(template);
    if name in registered then Ok(name)
    else if name in InheritedKeys then Err(TypeError("template.generateSubforumPage is not a function"))
    else Err(TemplateNotFound(name, key))
  }

  /**
   * Every subforum's template, in entry order. Each callback checks its
   * template before its first `await`, so one unknown template fails the
   * build; among the template checks, the error is that of the first
   * subforum in entry order whose template is unknown.
   */
  function ResolveAll(registered: set<string>, subforums: seq<(string, Subforum)>): (r: Result<seq<string>, Error>)
    ensures r.Ok? <==> forall i :: 0 <= i < |subforums| ==> ToStr(subforums[i].1.template) in registered
    ensures r.Ok? ==> (|r.value| == |subforums|
      && forall i :: 0 <= i < |subforums| ==> r.value[i] == ToStr(subforums[i].1.template))
    ensures r.Err? ==> exists i :: (0 <= i < |subforums|
      && (forall j :: 0 <= j < i ==> ToStr(subforums[j].1.template) in registered)
      && Err(r.error) == ResolveTemplate(registered, subforums[i].0, subforums[i].1.template))
    decreases |subforums|
  {
    if |subforums| == 0 then Ok([])
    else
      var first :- ResolveTemplate(registered, subforums[0].0, subforums[0].1.template);
      var rest :- ResolveAll(registered, subforums[1..]);
      Ok([first] + rest)
  }

  /** The older generator's canonical URL of a subforum: the host, a slash and the key. */
  function Ssg2SubforumCanonical(key: string): (r: string)
    ensures r == Baseurl + key
  {
    Host + "/" + key
  }

  /** The older generator's post URLs: canonical and output file. */
  datatype PostUrls = PostUrls(canonicalUrl: string, outputPath: string)

  /**
   * The older generator's post URLs: the canonical URL glues the host and the
   * unstripped link; the output file strips a leading slash. The file path's
   * `.replace` throws on a link that is not a string.
   */
  function Ssg2PostUrls(post: Post): (r: Result<PostUrls, Error>)
    ensures r.Ok? <==> Field(post, "link").Str?
    ensures r.Ok? ==> r.value.canonicalUrl == Host + Field(post, "link").s
    ensures r.Ok? ==> r.value.outputPath == PostOutputPath(post).value
  {
    var canonical := Host + ToStr(Field(post, "link"));
    var stem :- Stem(Field(post, "link"));
    Ok(PostUrls(canonical, stem + ".html"))
  }

  /**
   * The two generators agree on a post's canonical URL exactly when its link
   * starts with a slash: otherwise the older one runs host and link together.
   */
  lemma CanonicalsAgreeIffLeadingSlash(post: Post)
    requires Field(post, "link").Str?
    ensures Ssg2PostUrls(post).value.canonicalUrl == PostCanonical(Baseurl, post).value
      <==> |Field(post, "link").s| > 0 && Field(post, "link").s[0] == '/'
  {
    var link := Field(post, "link").s;
    var earlier := Ssg2PostUrls(post).value.canonicalUrl;
    var now := PostCanonical(Baseurl, post).value;
    assert Baseurl == Host + "/";
    if |link| > 0 && link[0] == '/' {
      assert link == "/" + link[1..];
      assert now == Host + "/" + link[1..];
    } else {
      assert now == Host + "/" + link;
      assert |now| == |earlier| + 1;
    }
  }
}
