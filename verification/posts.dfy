/**
 * Loading one subforum's posts: every raw JSON record gets its defaults, the
 * data sources are concatenated in declared order, and metadata records are
 * overlaid on the posts they match by key, one metadata source after another.
 */
module Posts {
  import opened Wrappers
  import opened JsValues

  /** A loaded post: a plain object, given by its own fields. */
  type Post = map<string, Value>

  /**
   * Reading a data or metadata location (an `http(s)://` fetch or a file under
   * the subforums directory) followed by `JSON.parse`; `None` when the fetch
   * fails, the response is not ok, the file cannot be read or the text is not JSON.
   */
  type Loader = string -> Option<Value>

  /**
   * The template's `generatePostLink(subforum.link, post)`; `None` when the call
   * throws, which includes a template that has no such function.
   */
  type LinkBuilder = (Value, Value) -> Option<Value>

  /** One entry of a subforum's `metadata` object, in declaration order. */
  datatype MetadataSource = MetadataSource(kind: string, location: Value)

  /**
   * The parts of a subforum definition the generator reads. `metadata` holds the
   * entries of the `metadata` object in declaration order (empty when it is falsy).
   */
  datatype Subforum = Subforum(
    template: Value,
    link: Value,
    title: Value,
    description: Value,
    icon: Value,
    banner: Value,
    data: Value,
    metadata: seq<MetadataSource>)

  /** The fields every loaded post is guaranteed to carry. */
  const DefaultedKeys: set<string> := {"title", "link", "tags", "developers", "image", "screenshots"}

  /** The replacement a falsy field gets; `link` has none, it is built instead. */
  function Default(k: string): Value {
    if k == "title" then Str("Default Title")
    else if k == "image" then Obj(map["url" := Str("")])
    else Arr([])
  }

  /**
   * One raw record turned into a post: its own fields, then each defaulted field
   * set to the record's value when that is truthy and to its default otherwise.
   * Reading a field of `null` or `undefined` throws, and so may the link builder;
   * either makes the record fail (`None`).
   */
  function NormalizePost(raw: Value, sfLink: Value, build: LinkBuilder): (r: Option<Post>)
    ensures r.None? <==> Nullish(raw) || (!Truthy(Get(raw, "link")) && build(sfLink, raw).None?)
    ensures r.Some? ==> r.value.Keys == Spread(raw).Keys + DefaultedKeys
    ensures r.Some? ==> forall k :: k in Spread(raw) && k !in DefaultedKeys ==> r.value[k] == Spread(raw)[k]
    ensures r.Some? ==> forall k :: k in DefaultedKeys && k != "link" ==>
      Truthy(r.value[k]) && (Truthy(Get(raw, k)) ==> r.value[k] == Get(raw, k))
        && (!Truthy(Get(raw, k)) ==> r.value[k] == Default(k))
    ensures r.Some? && Truthy(Get(raw, "link")) ==> r.value["link"] == Get(raw, "link")
    ensures r.Some? && !Truthy(Get(raw, "link")) ==> Some(r.value["link"]) == build(sfLink, raw)
  {
    if Nullish(raw) then None
    else
      var link :- if Truthy(Get(raw, "link")) then Some(Get(raw, "link")) else build(sfLink, raw);
      DefaultedFieldsTruthy(raw, link);
      Some(WithDefaults(raw, link))
  }

  /** Each defaulted field other than `link` is the record's value when truthy and its default otherwise. */
  lemma DefaultedFieldsTruthy(raw: Value, link: Value)
    ensures forall k :: k in DefaultedKeys && k != "link" ==>
      Truthy(WithDefaults(raw, link)[k])
        && (Truthy(Get(raw, k)) ==> WithDefaults(raw, link)[k] == Get(raw, k))
        && (!Truthy(Get(raw, k)) ==> WithDefaults(raw, link)[k] == Default(k))
  {
    forall k | k in DefaultedKeys && k != "link"
      ensures Truthy(WithDefaults(raw, link)[k])
        && (Truthy(Get(raw, k)) ==> WithDefaults(raw, link)[k] == Get(raw, k))
        && (!Truthy(Get(raw, k)) ==> WithDefaults(raw, link)[k] == Default(k))
    {
      assert Truthy(Default(k));
      OrTruthyDefault(Get(raw, k), Default(k));
    }
  }

  /**
   * `{...raw, title: raw.title || ..., link, tags: raw.tags || [], ...}`: the
   * spread record with the defaulted fields written over it.
   */
  function WithDefaults(raw: Value, link: Value): (r: Post)
    ensures r.Keys == Spread(raw).Keys + DefaultedKeys
    ensures forall k :: k in Spread(raw) && k !in DefaultedKeys ==> r[k] == Spread(raw)[k]
    ensures forall k :: k in DefaultedKeys && k != "link" ==> r[k] == Or(Get(raw, k), Default(k))
    ensures r["link"] == link
  {
    Spread(raw)
      ["title" := Or(Get(raw, "title"), Default("title"))]
      ["link" := link]
      ["tags" := Or(Get(raw, "tags"), Default("tags"))]
      ["developers" := Or(Get(raw, "developers"), Default("developers"))]
      ["image" := Or(Get(raw, "image"), Default("image"))]
      ["screenshots" := Or(Get(raw, "screenshots"), Default("screenshots"))]
  }

  /** Every record of a parsed array normalised in order; one failing record fails them all. */
  function NormalizeAll(items: seq<Value>, sfLink: Value, build: LinkBuilder): (r: Option<seq<Post>>)
    ensures r.Some? <==> forall i :: 0 <= i < |items| ==> NormalizePost(items[i], sfLink, build).Some?
    ensures r.Some? ==> |r.value| == |items|
    ensures r.Some? ==> forall i :: 0 <= i < |items| ==> Some(r.value[i]) == NormalizePost(items[i], sfLink, build)
    decreases |items|
  {
    if |items| == 0 then Some([])
    else
      var first :- NormalizePost(items[0], sfLink, build);
      var rest :- NormalizeAll(items[1..], sfLink, build);
      Some([first] + rest)
  }

  /**
   * The posts of one data source. A location that is not a string, a failed
   * read, a parse result that is not an array, or a failing record are all
   * caught, and the source then contributes no posts.
   */
  function LoadSource(file: Value, load: Loader, sfLink: Value, build: LinkBuilder): (r: seq<Post>)
    ensures !file.Str? || load(file.s).None? ==> r == []
    ensures file.Str? && load(file.s).Some? && !load(file.s).value.Arr? ==> r == []
    ensures file.Str? && load(file.s).Some? && load(file.s).value.Arr? ==>
      (forall i :: 0 <= i < |load(file.s).value.items| ==> NormalizePost(load(file.s).value.items[i], sfLink, build).Some?) ==>
        Some(r) == NormalizeAll(load(file.s).value.items, sfLink, build)
    ensures file.Str? && load(file.s).Some? && load(file.s).value.Arr? ==>
      (exists i :: 0 <= i < |load(file.s).value.items| && NormalizePost(load(file.s).value.items[i], sfLink, build).None?) ==>
        r == []
    ensures r != [] ==> (file.Str? && load(file.s).Some? && load(file.s).value.Arr?
      && NormalizeAll(load(file.s).value.items, sfLink, build) == Some(r))
  {
    if !file.Str? then []
    else match load(file.s)
      case None => []
      case Some(parsed) =>
        if !parsed.Arr? then []
        else match NormalizeAll(parsed.items, sfLink, build)
          case None => []
          case Some(posts) => posts
  }

  /** `posts.flat()` over the sources in declared order. */
  function LoadPosts(files: seq<Value>, load: Loader, sfLink: Value, build: LinkBuilder): seq<Post>
    decreases |files|
  {
    if |files| == 0 then [] else LoadSource(files[0], load, sfLink, build) + LoadPosts(files[1..], load, sfLink, build)
  }

  /** Loading two lists of sources one after the other concatenates their posts. */
  lemma {:induction false} LoadPostsAppend(a: seq<Value>, b: seq<Value>, load: Loader, sfLink: Value, build: LinkBuilder)
    ensures LoadPosts(a + b, load, sfLink, build) == LoadPosts(a, load, sfLink, build) + LoadPosts(b, load, sfLink, build)
    decreases |a|
  {
    if |a| > 0 {
      assert (a + b)[1..] == a[1..] + b;
      LoadPostsAppend(a[1..], b, load, sfLink, build);
    } else {
      assert a + b == b;
    }
  }

  /**
   * A source that yields no posts — an unreadable location, a parse result that
   * is not an array, a failing record, or an empty list — contributes nothing,
   * wherever it stands.
   */
  lemma FailedSourceContributesNothing(a: seq<Value>, f: Value, b: seq<Value>, load: Loader, sfLink: Value, build: LinkBuilder)
    requires LoadSource(f, load, sfLink, build) == []
    ensures LoadPosts(a + [f] + b, load, sfLink, build) == LoadPosts(a, load, sfLink, build) + LoadPosts(b, load, sfLink, build)
  {
    LoadPostsAppend(a + [f], b, load, sfLink, build);
    LoadPostsAppend(a, [f], load, sfLink, build);
    assert [f][1..] == [];
    assert LoadPosts([f], load, sfLink, build) == [];
    assert LoadPosts(a + [f], load, sfLink, build) == LoadPosts(a, load, sfLink, build);
  }

  /** Every loaded post carries a truthy title. */
  lemma {:induction false} LoadedTitlesTruthy(files: seq<Value>, load: Loader, sfLink: Value, build: LinkBuilder)
    ensures forall p :: p in LoadPosts(files, load, sfLink, build) ==> Truthy(Field(p, "title"))
    decreases |files|
  {
    if |files| > 0 {
      LoadedTitlesTruthy(files[1..], load, sfLink, build);
      var src := LoadSource(files[0], load, sfLink, build);
      if src != [] {
        var items := load(files[0].s).value.items;
        forall p | p in src ensures Truthy(Field(p, "title")) {
          var i :| 0 <= i < |src| && src[i] == p;
          assert Some(p) == NormalizePost(items[i], sfLink, build);
        }
      }
    }
  }

  /**
   * The value `loadMetadata` yields for one metadata location: the parsed JSON
   * (whatever its shape), or `[]` when the location is not a string or the
   * read fails.
   */
  function LoadMetadata(location: Value, load: Loader): (r: Value)
    ensures !location.Str? || load(location.s).None? ==> r == Arr([])
    ensures location.Str? && load(location.s).Some? ==> r == load(location.s).value
    ensures r != Arr([]) ==> location.Str? && load(location.s) == Some(r)
  {
    if !location.Str? then Arr([])
    else match load(location.s)
      case None => Arr([])
      case Some(v) => v
  }

  /** `item[key] === target`, for an item that is not nullish. */
  predicate Matches(item: Value, key: string, target: Value) {
    StrictEq(Get(item, key), target)
  }

  /** Every item in `items[lo..hi]` can be read and does not match. */
  predicate Clear(items: seq<Value>, key: string, target: Value, lo: nat, hi: nat)
    requires lo <= hi <= |items|
  {
    forall j :: lo <= j < hi ==> !Nullish(items[j]) && !Matches(items[j], key, target)
  }

  /**
   * `items.find(item => item[key] === target)` from position `from`, as an index:
   * the first matching item, or `None`, or the TypeError thrown by the first
   * nullish item reached before any match.
   */
  function FindFrom(items: seq<Value>, key: string, target: Value, from: nat): (r: Result<Option<nat>, Error>)
    requires from <= |items|
    ensures r.Ok? && r.value.Some? ==> (from <= r.value.value < |items|
      && !Nullish(items[r.value.value]) && Matches(items[r.value.value], key, target)
      && Clear(items, key, target, from, r.value.value))
    ensures r == Ok(None) <==> Clear(items, key, target, from, |items|)
    ensures r.Err? <==> exists i :: from <= i < |items| && Nullish(items[i]) && Clear(items, key, target, from, i)
    decreases |items| - from
  {
    if from == |items| then Ok(None)
    else if Nullish(items[from]) then Err(TypeError("Cannot read properties of " + ToStr(items[from])))
    else if Matches(items[from], key, target) then Ok(Some(from))
    else FindFrom(items, key, target, from + 1)
  }

  /** `Array.prototype.find` from the start. */
  function FindFirst(items: seq<Value>, key: string, target: Value): (r: Result<Option<nat>, Error>)
    ensures r.Ok? && r.value.Some? ==> (r.value.value < |items|
      && !Nullish(items[r.value.value]) && Matches(items[r.value.value], key, target)
      && Clear(items, key, target, 0, r.value.value))
    ensures r == Ok(None) <==> Clear(items, key, target, 0, |items|)
    ensures r.Err? <==> exists i :: 0 <= i < |items| && Nullish(items[i]) && Clear(items, key, target, 0, i)
  {
    FindFrom(items, key, target, 0)
  }

  /** One post with the first metadata record that matches it spread over it. */
  function MergePost(post: Post, items: seq<Value>, key: string): (r: Result<Post, Error>)
    ensures r.Ok? <==> FindFirst(items, key, Field(post, key)).Ok?
    ensures FindFirst(items, key, Field(post, key)) == Ok(None) ==> r == Ok(post)
    ensures forall j :: FindFirst(items, key, Field(post, key)) == Ok(Some(j)) ==>
      r == Ok(post + Spread(items[j]))
  {
    var found :- FindFirst(items, key, Field(post, key));
    Ok(if found.Some? then post + Spread(items[found.value]) else post)
  }

  /** `posts.map(...)`: the first post whose search throws ends the map. */
  function MergeEach(posts: seq<Post>, items: seq<Value>, key: string): (r: Result<seq<Post>, Error>)
    ensures r.Ok? <==> forall i :: 0 <= i < |posts| ==> MergePost(posts[i], items, key).Ok?
    ensures r.Ok? ==> |r.value| == |posts|
    ensures r.Ok? ==> forall i :: 0 <= i < |posts| ==> Ok(r.value[i]) == MergePost(posts[i], items, key)
    decreases |posts|
  {
    if |posts| == 0 then Ok([])
    else
      var first :- MergePost(posts[0], items, key);
      var rest :- MergeEach(posts[1..], items, key);
      Ok([first] + rest)
  }

  /**
   * `mergeMetadata(posts, metadata, key)`. With no posts the search never runs;
   * otherwise `metadata.find` throws unless the parsed metadata is an array.
   */
  function MergeMetadata(posts: seq<Post>, metadata: Value, key: string): (r: Result<seq<Post>, Error>)
    ensures |posts| == 0 ==> r == Ok([])
    ensures |posts| > 0 && !metadata.Arr? ==> r.Err?
    ensures r.Ok? ==> |r.value| == |posts|
    ensures metadata.Arr? ==> (r.Ok? <==> forall i :: 0 <= i < |posts| ==> FindFirst(metadata.items, key, Field(posts[i], key)).Ok?)
    ensures r.Ok? && metadata.Arr? ==> forall i :: 0 <= i < |posts| ==>
      (FindFirst(metadata.items, key, Field(posts[i], key)) == Ok(None) ==> r.value[i] == posts[i])
    ensures r.Ok? && metadata.Arr? ==> forall i, j :: 0 <= i < |posts| && FindFirst(metadata.items, key, Field(posts[i], key)) == Ok(Some(j)) ==>
      r.value[i] == posts[i] + Spread(metadata.items[j])
  {
    if |posts| == 0 then Ok([])
    else if !metadata.Arr? then Err(TypeError("metadata.find is not a function"))
    else MergeEach(posts, metadata.items, key)
  }

  /** The value a post holds under the match key survives the merge. */
  lemma MergePostKeepsKey(post: Post, items: seq<Value>, key: string)
    requires MergePost(post, items, key).Ok?
    ensures Field(MergePost(post, items, key).value, key) == Field(post, key)
  {
    var found := FindFirst(items, key, Field(post, key));
    if found.value.Some? {
      var m := items[found.value.value];
      assert StrictEq(Get(m, key), Field(post, key));
    }
  }

  /** Merging never changes the key a post is matched on. */
  lemma MergeKeepsKey(posts: seq<Post>, metadata: Value, key: string)
    requires MergeMetadata(posts, metadata, key).Ok?
    ensures forall i :: 0 <= i < |posts| ==> Field(MergeMetadata(posts, metadata, key).value[i], key) == Field(posts[i], key)
  {
    if |posts| > 0 {
      forall i | 0 <= i < |posts|
        ensures Field(MergeMetadata(posts, metadata, key).value[i], key) == Field(posts[i], key)
      {
        MergePostKeepsKey(posts[i], metadata.items, key);
      }
    }
  }

  /** Overlaying the same record a second time changes nothing. */
  lemma MergePostIdempotent(post: Post, items: seq<Value>, key: string)
    requires MergePost(post, items, key).Ok?
    ensures MergePost(MergePost(post, items, key).value, items, key) == MergePost(post, items, key)
  {
    MergePostKeepsKey(post, items, key);
    var found := FindFirst(items, key, Field(post, key));
    if found.value.Some? {
      var s := Spread(items[found.value.value]);
      assert post + s + s == post + s;
    }
  }

  /** Merging the same metadata list twice gives the result of merging it once. */
  lemma MergeIdempotent(posts: seq<Post>, metadata: Value, key: string)
    requires MergeMetadata(posts, metadata, key).Ok?
    ensures MergeMetadata(MergeMetadata(posts, metadata, key).value, metadata, key) == MergeMetadata(posts, metadata, key)
  {
    var once := MergeMetadata(posts, metadata, key).value;
    if |posts| > 0 {
      forall i | 0 <= i < |once| ensures MergePost(once[i], metadata.items, key) == Ok(once[i]) {
        MergePostIdempotent(posts[i], metadata.items, key);
      }
      var twice := MergeEach(once, metadata.items, key);
      assert twice.Ok?;
      assert twice.value == once;
    }
  }

  /** A metadata source that failed to load (`[]`) leaves the posts as they are. */
  lemma MergeEmptyIsIdentity(posts: seq<Post>, key: string)
    ensures MergeMetadata(posts, Arr([]), key) == Ok(posts)
  {
    if |posts| > 0 {
      var r := MergeMetadata(posts, Arr([]), key);
      assert forall i :: 0 <= i < |posts| ==> FindFirst([], key, Field(posts[i], key)) == Ok(None);
      assert r.value == posts;
    }
  }

  /** The metadata sources applied one after another, in declaration order. */
  function MergeAll(posts: seq<Post>, sources: seq<Value>, key: string): (r: Result<seq<Post>, Error>)
    ensures r.Ok? ==> |r.value| == |posts|
    decreases |sources|
  {
    if |sources| == 0 then Ok(posts)
    else
      var merged :- MergeMetadata(posts, sources[0], key);
      MergeAll(merged, sources[1..], key)
  }

  /** Applying `a + b` is applying `a`, then `b` to its result. */
  lemma {:induction false} MergeAllAppend(posts: seq<Post>, a: seq<Value>, b: seq<Value>, key: string)
    ensures MergeAll(posts, a + b, key) ==
      (if MergeAll(posts, a, key).Ok? then MergeAll(MergeAll(posts, a, key).value, b, key) else MergeAll(posts, a, key))
    decreases |a|
  {
    if |a| == 0 {
      assert a + b == b;
    } else {
      assert (a + b)[0] == a[0];
      assert (a + b)[1..] == a[1..] + b;
      var m := MergeMetadata(posts, a[0], key);
      if m.Ok? {
        MergeAllAppend(m.value, a[1..], b, key);
      }
    }
  }

  /** A failed metadata source can be dropped from the list without changing the outcome. */
  lemma FailedMetadataIsSkipped(posts: seq<Post>, a: seq<Value>, b: seq<Value>, key: string)
    ensures MergeAll(posts, a + [Arr([])] + b, key) == MergeAll(posts, a + b, key)
  {
    MergeAllAppend(posts, a + [Arr([])], b, key);
    MergeAllAppend(posts, a, [Arr([])], key);
    MergeAllAppend(posts, a, b, key);
    var m := MergeAll(posts, a, key);
    if m.Ok? {
      MergeEmptyIsIdentity(m.value, key);
      assert MergeAll(m.value, [Arr([])], key) == MergeAll(m.value, [], key);
    }
  }

  /**
   * Of two metadata sources, the later one wins: a field set by the record the
   * second source matches ends up in the post whatever the first one did.
   */
  lemma LaterMetadataWins(posts: seq<Post>, first: Value, second: Value, key: string, i: nat, j: nat, f: string)
    requires MergeAll(posts, [first, second], key).Ok?
    requires i < |posts| && second.Arr?
    requires FindFirst(second.items, key, Field(posts[i], key)) == Ok(Some(j))
    requires second.items[j].Obj? && f in second.items[j].fields
    ensures f in MergeAll(posts, [first, second], key).value[i]
    ensures MergeAll(posts, [first, second], key).value[i][f] == second.items[j].fields[f]
  {
    MergeTwo(posts, first, second, key);
    var mid := MergeMetadata(posts, first, key).value;
    MergeKeepsKey(posts, first, key);
    assert FindFirst(second.items, key, Field(mid[i], key)) == Ok(Some(j));
  }

  /** Two metadata sources: the second merged into the result of the first. */
  lemma MergeTwo(posts: seq<Post>, first: Value, second: Value, key: string)
    requires MergeAll(posts, [first, second], key).Ok?
    ensures MergeMetadata(posts, first, key).Ok?
    ensures MergeAll(posts, [first, second], key) == MergeMetadata(MergeMetadata(posts, first, key).value, second, key)
  {
    assert [first, second][1..] == [second];
    var mid := MergeMetadata(posts, first, key);
    assert mid.Ok?;
    var last := MergeMetadata(mid.value, second, key);
    assert [second][1..] == [];
    if last.Ok? {
      assert MergeAll(mid.value, [second], key) == MergeAll(last.value, [], key);
    }
  }

  /** The value loaded for each metadata entry, in declaration order. */
  function MetadataValues(sources: seq<MetadataSource>, load: Loader): (r: seq<Value>)
    ensures |r| == |sources|
    ensures forall i :: 0 <= i < |sources| ==> r[i] == LoadMetadata(sources[i].location, load)
  {
    seq(|sources|, i requires 0 <= i < |sources| => LoadMetadata(sources[i].location, load))
  }

  /** The data locations of a subforum: an array as given, anything else as a one-element list. */
  function DataFiles(data: Value): (files: seq<Value>)
    ensures data.Arr? ==> files == data.items
    ensures !data.Arr? ==> files == [data]
  {
    if data.Arr? then data.items else [data]
  }

  /**
   * `loadSubforumData`: no posts when `data` is falsy; otherwise the posts of
   * every data source, merged with every metadata source on `title`.
   */
  function LoadSubforumData(sf: Subforum, load: Loader, build: LinkBuilder): (r: Result<seq<Post>, Error>)
    ensures !Truthy(sf.data) ==> r == Ok([])
    ensures Truthy(sf.data) && |sf.metadata| == 0 ==> r == Ok(LoadPosts(DataFiles(sf.data), load, sf.link, build))
    ensures Truthy(sf.data) ==> (r.Ok? <==> forall j :: 0 <= j < |sf.metadata| ==>
      MergeSucceeds(LoadPosts(DataFiles(sf.data), load, sf.link, build), MetadataValues(sf.metadata, load)[j], "title"))
    ensures r.Ok? && Truthy(sf.data) ==> |r.value| == |LoadPosts(DataFiles(sf.data), load, sf.link, build)|
    ensures r.Ok? && Truthy(sf.data) ==> forall i :: 0 <= i < |r.value| ==>
      Field(r.value[i], "title") == Field(LoadPosts(DataFiles(sf.data), load, sf.link, build)[i], "title")
    ensures r.Ok? && Truthy(sf.data) ==> forall i :: 0 <= i < |r.value| ==>
      r.value[i] == MergedPost(LoadPosts(DataFiles(sf.data), load, sf.link, build)[i], MetadataValues(sf.metadata, load), "title")
  {
    if !Truthy(sf.data) then Ok([])
    else
      var posts := LoadPosts(DataFiles(sf.data), load, sf.link, build);
      var sources := MetadataValues(sf.metadata, load);
      MergeAllOk(posts, sources, "title");
      MergeAllEach(posts, sources, "title");
      var merged := MergeAll(posts, sources, "title");
      if merged.Ok? then MergeAllKeepsKey(posts, sources, "title"); merged else merged
  }

  /** Merging keeps the key of every post, across any number of sources. */
  lemma {:induction false} MergeAllKeepsKey(posts: seq<Post>, sources: seq<Value>, key: string)
    requires MergeAll(posts, sources, key).Ok?
    ensures forall i :: 0 <= i < |posts| ==> Field(MergeAll(posts, sources, key).value[i], key) == Field(posts[i], key)
    decreases |sources|
  {
    if |sources| > 0 {
      var m := MergeMetadata(posts, sources[0], key).value;
      MergeKeepsKey(posts, sources[0], key);
      MergeAllKeepsKey(m, sources[1..], key);
    }
  }

  /**
   * One metadata source merged into posts without a throw: there are no posts
   * to search for, or the source is an array whose search for every post's key
   * reaches a match or the end before any nullish record.
   */
  predicate MergeSucceeds(posts: seq<Post>, source: Value, key: string) {
    |posts| == 0 || (source.Arr? && forall i :: 0 <= i < |posts| ==> FindFirst(source.items, key, Field(posts[i], key)).Ok?)
  }

  /** One post after one source: its first matching record spread over it, if any. */
  function OverlayMatch(post: Post, source: Value, key: string): Post {
    if source.Arr? then
      var found := FindFirst(source.items, key, Field(post, key));
      if found.Ok? && found.value.Some? then post + Spread(source.items[found.value.value]) else post
    else post
  }

  /** One post taken through every source on its own, independently of the other posts. */
  function MergedPost(post: Post, sources: seq<Value>, key: string): Post
    decreases |sources|
  {
    if |sources| == 0 then post else MergedPost(OverlayMatch(post, sources[0], key), sources[1..], key)
  }

  /** Whether a source merges cleanly depends only on the posts' keys. */
  lemma SameKeysMergeAlike(a: seq<Post>, b: seq<Post>, source: Value, key: string)
    requires |a| == |b|
    requires forall i :: 0 <= i < |a| ==> Field(a[i], key) == Field(b[i], key)
    ensures MergeSucceeds(a, source, key) <==> MergeSucceeds(b, source, key)
  {
  }

  /** The whole merge succeeds exactly when each source, taken on the loaded posts, would. */
  lemma {:induction false} MergeAllOk(posts: seq<Post>, sources: seq<Value>, key: string)
    ensures MergeAll(posts, sources, key).Ok? <==> forall j :: 0 <= j < |sources| ==> MergeSucceeds(posts, sources[j], key)
    decreases |sources|
  {
    if |sources| > 0 {
      var m := MergeMetadata(posts, sources[0], key);
      assert m.Ok? <==> MergeSucceeds(posts, sources[0], key);
      if m.Ok? {
        MergeKeepsKey(posts, sources[0], key);
        MergeAllOk(m.value, sources[1..], key);
        forall j | 1 <= j < |sources|
          ensures MergeSucceeds(m.value, sources[j], key) <==> MergeSucceeds(posts, sources[j], key)
        {
          SameKeysMergeAlike(m.value, posts, sources[j], key);
        }
        assert forall j :: 0 <= j < |sources| - 1 ==> sources[1..][j] == sources[j + 1];
      }
    }
  }

  /** A successful merge of the whole list is each post merged on its own. */
  lemma {:induction false} MergeAllEach(posts: seq<Post>, sources: seq<Value>, key: string)
    ensures MergeAll(posts, sources, key).Ok? ==> |MergeAll(posts, sources, key).value| == |posts|
    ensures MergeAll(posts, sources, key).Ok? ==> forall i :: 0 <= i < |posts| ==>
      MergeAll(posts, sources, key).value[i] == MergedPost(posts[i], sources, key)
    decreases |sources|
  {
    if |sources| > 0 && MergeAll(posts, sources, key).Ok? {
      var m := MergeMetadata(posts, sources[0], key).value;
      MergeAllEach(m, sources[1..], key);
      forall i | 0 <= i < |posts| ensures m[i] == OverlayMatch(posts[i], sources[0], key) {
        var found := FindFirst(sources[0].items, key, Field(posts[i], key));
        if found.value.Some? {
          assert found == Ok(Some(found.value.value));
        }
      }
    }
  }

  /** Every post a subforum yields has a truthy title, whatever its metadata says. */
  lemma SubforumTitlesTruthy(sf: Subforum, load: Loader, build: LinkBuilder)
    requires LoadSubforumData(sf, load, build).Ok?
    ensures forall p :: p in LoadSubforumData(sf, load, build).value ==> Truthy(Field(p, "title"))
  {
    if Truthy(sf.data) {
      var loaded := LoadPosts(DataFiles(sf.data), load, sf.link, build);
      LoadedTitlesTruthy(DataFiles(sf.data), load, sf.link, build);
      MergeAllKeepsKey(loaded, MetadataValues(sf.metadata, load), "title");
      var r := LoadSubforumData(sf, load, build).value;
      forall p | p in r ensures Truthy(Field(p, "title")) {
        var i :| 0 <= i < |r| && r[i] == p;
        assert loaded[i] in loaded;
      }
    }
  }

  /** A single non-array data location loads exactly as a one-element array of it. */
  lemma SingleDataFileAsList(sf: Subforum, load: Loader, build: LinkBuilder)
    requires Truthy(sf.data) && !sf.data.Arr?
    ensures LoadSubforumData(sf, load, build) == LoadSubforumData(sf.(data := Arr([sf.data])), load, build)
  {
  }
}
