/**
 * The per-template `generateJSON` projections: which fields of a post (and of
 * its subforum) each template copies into the JSON record, how the record's
 * links are derived, and how the description is defaulted.
 */
module JsonProjection {
  import opened Wrappers
  import opened JsValues
  import opened Links

  /** The four templates that export a `generateJSON`. */
  datatype TemplateKind = Games | Programming | Test | Vn

  /** The template registered under a name, if any. */
  function TemplateNamed(name: string): (r: Option<TemplateKind>)
    ensures r.Some? <==> name in ModuleTemplates
  {
    if name == "gamesTemplate" then Some(Games)
    else if name == "programmingTemplate" then Some(Programming)
    else if name == "testTemplate" then Some(Test)
    else if name == "vnTemplate" then Some(Vn)
    else None
  }

  /** The post field the record's description comes from. */
  function DescriptionSource(kind: TemplateKind): string {
    match kind
    case Games => "content"
    case Programming => "content1"
    case Test => "content"
    case Vn => "description"
  }

  /** The post fields a template copies into its record unchanged. */
  function CopiedKeys(kind: TemplateKind): set<string> {
    match kind
    case Games => {"title", "date", "author", "image"}
    case Programming => {"title", "date", "author", "image", "flair"}
    case Test => {"title", "date", "author", "image"}
    case Vn => {"title", "date", "image", "developers", "aliases", "tags", "screenshots"}
  }

  /** No copied field collides with one the record sets itself. */
  lemma CopiedKeysReserved(kind: TemplateKind)
    ensures "link" !in CopiedKeys(kind) && "description" !in CopiedKeys(kind) && "subforum" !in CopiedKeys(kind)
  {
  }

  /** The JSON link of a `link` value: base URL, stem, `.json`. */
  function JsonLink(baseurl: string, link: Value): (r: Result<string, Error>)
    ensures r.Ok? <==> link.Str?
    ensures r.Ok? ==> r.value == baseurl + Stem(link).value + ".json"
  {
    var stem :- Stem(link);
    Ok(baseurl + stem + ".json")
  }

  /**
   * `generateJSON(post, subforum, baseurl)`. Reading a field of a nullish post
   * or subforum throws, and so does `.replace` on a link that is not a string.
   */
  function GenerateJson(kind: TemplateKind, post: Value, sf: Value, baseurl: string): (r: Result<Value, Error>)
    ensures r.Ok? <==> !Nullish(post) && Get(post, "link").Str? && !Nullish(sf) && Get(sf, "link").Str?
    ensures r.Ok? ==> (r.value.Obj?
      && r.value.fields.Keys == CopiedKeys(kind) + {"link", "description", "subforum"})
    ensures r.Ok? ==> forall k :: k in CopiedKeys(kind) ==> r.value.fields[k] == Get(post, k)
    ensures r.Ok? ==> r.value.fields["link"] == Str(baseurl + Stem(Get(post, "link")).value + ".json")
    ensures r.Ok? && Truthy(Get(post, DescriptionSource(kind))) ==> r.value.fields["description"] == Get(post, DescriptionSource(kind))
    ensures r.Ok? && !Truthy(Get(post, DescriptionSource(kind))) ==> r.value.fields["description"] == Str("")
    ensures r.Ok? ==> r.value.fields["subforum"] == Obj(map[
      "title" := Get(sf, "title"),
      "description" := Get(sf, "description"),
      "link" := Str(baseurl + Stem(Get(sf, "link")).value + ".json")])
  {
    if Nullish(post) then Err(TypeError("Cannot read properties of " + ToStr(post) + " (reading 'title')"))
    else
      var link :- JsonLink(baseurl, Get(post, "link"));
      if Nullish(sf) then Err(TypeError("Cannot read properties of " + ToStr(sf) + " (reading 'title')"))
      else
        var sfLink :- JsonLink(baseurl, Get(sf, "link"));
        var copied := map k | k in CopiedKeys(kind) :: Get(post, k);
        CopiedKeysReserved(kind);
        Ok(Obj(copied
          ["link" := Str(link)]
          ["description" := Or(Get(post, DescriptionSource(kind)), Str(""))]
          ["subforum" := Obj(map[
            "title" := Get(sf, "title"),
            "description" := Get(sf, "description"),
            "link" := Str(sfLink)])]))
  }

  /** The games and test templates project every post identically. */
  lemma GamesAndTestAgree(post: Value, sf: Value, baseurl: string)
    ensures GenerateJson(Games, post, sf, baseurl) == GenerateJson(Test, post, sf, baseurl)
  {
  }

  /**
   * The JSON record of a post and its HTML page share one stem: the record's
   * link is the page's URL with `.json` in place of `.html`.
   */
  lemma JsonLinkMatchesPage(kind: TemplateKind, post: Posts.Post, sf: Value, baseurl: string)
    requires GenerateJson(kind, Obj(post), sf, baseurl).Ok?
    ensures exists stem :: (GenerateJson(kind, Obj(post), sf, baseurl).value.fields["link"] == Str(stem + ".json")
      && RssItem(baseurl, post).value.link == stem + ".html")
  {
    var stem := baseurl + Stem(Field(post, "link")).value;
    assert RssItem(baseurl, post).value.link == stem + ".html";
  }

  /** Only the vn record drops the author; only the programming record carries a flair. */
  lemma TemplateSpecificFields(kind: TemplateKind, post: Value, sf: Value, baseurl: string)
    requires GenerateJson(kind, post, sf, baseurl).Ok?
    ensures "author" in GenerateJson(kind, post, sf, baseurl).value.fields <==> kind != Vn
    ensures "flair" in GenerateJson(kind, post, sf, baseurl).value.fields <==> kind == Programming
    ensures "tags" in GenerateJson(kind, post, sf, baseurl).value.fields <==> kind == Vn
  {
    var keys := GenerateJson(kind, post, sf, baseurl).value.fields.Keys;
    assert keys == CopiedKeys(kind) + {"link", "description", "subforum"};
    CopiedKeysByKind(kind);
    assert "author" !in {"link", "description", "subforum"};
    assert "flair" !in {"link", "description", "subforum"};
    assert "tags" !in {"link", "description", "subforum"};
  }

  /** Which templates copy the author, the flair and the tags. */
  lemma CopiedKeysByKind(kind: TemplateKind)
    ensures "author" in CopiedKeys(kind) <==> kind != Vn
    ensures "flair" in CopiedKeys(kind) <==> kind == Programming
    ensures "tags" in CopiedKeys(kind) <==> kind == Vn
  {
  }
}
