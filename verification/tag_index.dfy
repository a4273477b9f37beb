/**
 * The inverted indexes `allTags` and `allDevelopers`: plain objects mapping a
 * tag (or a developer's name) to the list of posts that carry it, appended to
 * post by post in list order.
 */
module TagIndex {
  import opened Wrappers
  import opened JsValues
  import opened Posts

  /**
   * A plain object used as a dictionary: its own keys in insertion order and
   * the list stored under each.
   */
  datatype Index = Index(names: seq<string>, buckets: map<string, seq<Post>>)

  /** The keys are distinct and are exactly the keys that hold a list. */
  ghost predicate Valid(idx: Index) {
    (forall i, j :: 0 <= i < j < |idx.names| ==> idx.names[i] != idx.names[j])
    && (forall n :: n in idx.buckets <==> n in idx.names)
  }

  /** The object with no own keys, `{}`. */
  function Empty(): (idx: Index)
    ensures Valid(idx)
  {
    Index([], map[])
  }

  /** The list under `n`; the empty list when `n` is not an own key. */
  function Bucket(idx: Index, n: string): seq<Post> {
    if n in idx.buckets then idx.buckets[n] else []
  }

  /** `post` repeated `c` times. */
  function Copies(post: Post, c: nat): (r: seq<Post>)
    ensures |r| == c
    ensures forall i :: 0 <= i < c ==> r[i] == post
  {
    seq(c, _ => post)
  }

  /**
   * `idx[name] = idx[name] || []; idx[name].push(post)`: an inherited name
   * that is not yet an own key makes `push` throw.
   */
  function Push(idx: Index, name: string, post: Post): (r: Result<Index, Error>)
    ensures r.Err? <==> name !in idx.buckets && name in InheritedKeys
    ensures r.Ok? ==> forall n :: Bucket(r.value, n) == Bucket(idx, n) + (if n == name then [post] else [])
    ensures r.Ok? ==> idx.names <= r.value.names && name in r.value.buckets
    ensures r.Ok? ==> forall n :: n in r.value.buckets <==> n in idx.buckets || n == name
    ensures r.Ok? && Valid(idx) ==> Valid(r.value)
    ensures r.Ok? ==> SameInherited(idx, r.value)
  {
    if name in idx.buckets then Ok(Index(idx.names, idx.buckets[name := idx.buckets[name] + [post]]))
    else if name in InheritedKeys then Err(TypeError("Cannot read properties of undefined (reading 'push')"))
    else Ok(Index(idx.names + [name], idx.buckets[name := [post]]))
  }

  /**
   * `a` and `b` own the same inherited names. A push that succeeds never makes
   * an inherited name an own key, so this holds between an index and any
   * index grown from it.
   */
  predicate SameInherited(a: Index, b: Index) {
    forall n :: n in InheritedKeys ==> (n in a.buckets <==> n in b.buckets)
  }

  /** Indexes that own the same inherited names reject the same name lists. */
  lemma HitsInheritedSame(a: Index, b: Index, keys: seq<string>)
    requires SameInherited(a, b)
    ensures HitsInherited(a, keys) <==> HitsInherited(b, keys)
  {
    if HitsInherited(a, keys) {
      var i :| 0 <= i < |keys| && keys[i] !in a.buckets && keys[i] in InheritedKeys;
      assert keys[i] !in b.buckets;
    }
    if HitsInherited(b, keys) {
      var i :| 0 <= i < |keys| && keys[i] !in b.buckets && keys[i] in InheritedKeys;
      assert keys[i] !in a.buckets;
    }
  }

  /** How often `n` occurs in `keys`. */
  function Count(keys: seq<string>, n: string): nat {
    multiset(keys)[n]
  }

  /** Some name of `keys` is an inherited one that `idx` does not own. */
  predicate HitsInherited(idx: Index, keys: seq<string>) {
    exists i :: 0 <= i < |keys| && keys[i] !in idx.buckets && keys[i] in InheritedKeys
  }

  /** The post pushed under each of `keys` in turn (a `forEach` over them). */
  function PushAll(idx: Index, keys: seq<string>, post: Post): (r: Result<Index, Error>)
    decreases |keys|
  {
    if |keys| == 0 then Ok(idx)
    else
      var next :- Push(idx, keys[0], post);
      PushAll(next, keys[1..], post)
  }

  /**
   * Pushing under a list of names appends the post to each bucket once per
   * occurrence of its name, without deduplication, and touches no other bucket;
   * it fails exactly when some name is an inherited key not yet owned.
   */
  lemma {:induction false} PushAllSpec(idx: Index, keys: seq<string>, post: Post)
    ensures PushAll(idx, keys, post).Err? <==> HitsInherited(idx, keys)
    ensures PushAll(idx, keys, post).Ok? ==>
      forall n :: Bucket(PushAll(idx, keys, post).value, n) == Bucket(idx, n) + Copies(post, Count(keys, n))
    ensures PushAll(idx, keys, post).Ok? ==> idx.names <= PushAll(idx, keys, post).value.names
    ensures PushAll(idx, keys, post).Ok? && Valid(idx) ==> Valid(PushAll(idx, keys, post).value)
    ensures PushAll(idx, keys, post).Ok? ==> SameInherited(idx, PushAll(idx, keys, post).value)
    decreases |keys|
  {
    var r := PushAll(idx, keys, post);
    if |keys| == 0 {
      assert forall n :: Count(keys, n) == 0;
      assert !HitsInherited(idx, keys);
    } else {
      assert keys == [keys[0]] + keys[1..];
      var step := Push(idx, keys[0], post);
      if step.Err? {
        assert keys[0] !in idx.buckets && keys[0] in InheritedKeys;
      } else {
        var next := step.value;
        assert r == PushAll(next, keys[1..], post);
        PushAllSpec(next, keys[1..], post);
        HitsInheritedAfterPush(idx, next, keys, post);
        if r.Ok? {
          PushAllBucketStep(idx, next, r.value, keys, post);
        }
      }
    }
  }

  /** One push followed by the rest gives each bucket its copies for all of `keys`. */
  lemma PushAllBucketStep(idx: Index, next: Index, result: Index, keys: seq<string>, post: Post)
    requires |keys| > 0 && Push(idx, keys[0], post) == Ok(next)
    requires forall n :: Bucket(result, n) == Bucket(next, n) + Copies(post, Count(keys[1..], n))
    ensures forall n :: Bucket(result, n) == Bucket(idx, n) + Copies(post, Count(keys, n))
  {
    forall n ensures Bucket(result, n) == Bucket(idx, n) + Copies(post, Count(keys, n)) {
      PushAllBucketOne(idx, next, result, keys, post, n);
    }
  }

  /** The same for one bucket. */
  lemma PushAllBucketOne(idx: Index, next: Index, result: Index, keys: seq<string>, post: Post, n: string)
    requires |keys| > 0 && Push(idx, keys[0], post) == Ok(next)
    requires Bucket(result, n) == Bucket(next, n) + Copies(post, Count(keys[1..], n))
    ensures Bucket(result, n) == Bucket(idx, n) + Copies(post, Count(keys, n))
  {
    CountCons(keys, n);
    var c := Count(keys[1..], n);
    if n == keys[0] {
      assert Bucket(next, n) == Bucket(idx, n) + [post];
      assert Copies(post, c + 1) == [post] + Copies(post, c);
      assert Bucket(idx, n) + [post] + Copies(post, c) == Bucket(idx, n) + ([post] + Copies(post, c));
    } else {
      assert Bucket(next, n) == Bucket(idx, n) + [];
      assert Bucket(idx, n) + [] == Bucket(idx, n);
    }
  }

  /** The occurrences of `n` in a non-empty list: its head, then its tail. */
  lemma CountCons(keys: seq<string>, n: string)
    requires |keys| > 0
    ensures Count(keys, n) == (if n == keys[0] then 1 else 0) + Count(keys[1..], n)
  {
    assert keys == [keys[0]] + keys[1..];
    assert multiset(keys) == multiset([keys[0]]) + multiset(keys[1..]);
  }

  /** A successful first push adds only a name that is not inherited, so the later failures are the same. */
  lemma HitsInheritedAfterPush(idx: Index, next: Index, keys: seq<string>, post: Post)
    requires |keys| > 0 && Push(idx, keys[0], post) == Ok(next)
    ensures HitsInherited(next, keys[1..]) <==> HitsInherited(idx, keys)
  {
    if HitsInherited(idx, keys) {
      var i :| 0 <= i < |keys| && keys[i] !in idx.buckets && keys[i] in InheritedKeys;
      assert i != 0;
      assert keys[1..][i - 1] == keys[i];
    }
    if HitsInherited(next, keys[1..]) {
      var i :| 0 <= i < |keys[1..]| && keys[1..][i] !in next.buckets && keys[1..][i] in InheritedKeys;
      assert keys[i + 1] == keys[1..][i];
    }
  }

  /** The bucket names of a post's `tags` array: each tag converted to a property key. */
  function TagNames(post: Post): (r: seq<string>)
    ensures Field(post, "tags").Arr? ==> |r| == |Field(post, "tags").items|
    ensures Field(post, "tags").Arr? ==> forall i :: 0 <= i < |r| ==> r[i] == ToStr(Field(post, "tags").items[i])
  {
    var tags := Field(post, "tags");
    if tags.Arr? then seq(|tags.items|, i requires 0 <= i < |tags.items| => ToStr(tags.items[i])) else []
  }

  /** The bucket names of a post's `developers` array: each developer's `name`, as a property key. */
  function DeveloperNames(post: Post): (r: seq<string>)
    ensures Field(post, "developers").Arr? ==> |r| == |Field(post, "developers").items|
    ensures Field(post, "developers").Arr? ==> forall i :: 0 <= i < |r| ==>
      r[i] == ToStr(Get(Field(post, "developers").items[i], "name"))
  {
    var devs := Field(post, "developers");
    if devs.Arr? then seq(|devs.items|, i requires 0 <= i < |devs.items| => ToStr(Get(devs.items[i], "name"))) else []
  }

  /**
   * What entering a post needs: both lists are arrays, no developer is nullish,
   * and no tag or developer name is an inherited key the index does not own.
   */
  predicate Indexable(tags: Index, devs: Index, post: Post) {
    Field(post, "tags").Arr? && !HitsInherited(tags, TagNames(post))
    && Field(post, "developers").Arr?
    && (forall i :: 0 <= i < |Field(post, "developers").items| ==> !Nullish(Field(post, "developers").items[i]))
    && !HitsInherited(devs, DeveloperNames(post))
  }

  /**
   * One post entered into both indexes: its tags first, then its developers.
   * `forEach` on a value that is not an array throws, and so does reading
   * `name` off a nullish developer.
   */
  function AddPost(tags: Index, devs: Index, post: Post): (r: Result<(Index, Index), Error>)
    ensures r.Ok? ==> Field(post, "tags").Arr? && Field(post, "developers").Arr?
    ensures r.Ok? ==> forall i :: 0 <= i < |Field(post, "developers").items| ==> !Nullish(Field(post, "developers").items[i])
    ensures r.Ok? ==> Ok(r.value.0) == PushAll(tags, TagNames(post), post)
    ensures r.Ok? ==> Ok(r.value.1) == PushAll(devs, DeveloperNames(post), post)
    ensures r.Ok? <==> Indexable(tags, devs, post)
    ensures r.Ok? ==> SameInherited(tags, r.value.0) && SameInherited(devs, r.value.1)
  {
    PushAllSpec(tags, TagNames(post), post);
    PushAllSpec(devs, DeveloperNames(post), post);
    var tagList := Field(post, "tags");
    if !tagList.Arr? then Err(TypeError("post.tags.forEach is not a function"))
    else
      var t :- PushAll(tags, TagNames(post), post);
      var devList := Field(post, "developers");
      if !devList.Arr? then Err(TypeError("post.developers.forEach is not a function"))
      else if exists i :: 0 <= i < |devList.items| && Nullish(devList.items[i]) then
        Err(TypeError("Cannot read properties of null (reading 'name')"))
      else
        var d :- PushAll(devs, DeveloperNames(post), post);
        Ok((t, d))
  }

  /** Every post entered in list order. */
  function BuildIndex(tags: Index, devs: Index, posts: seq<Post>): (r: Result<(Index, Index), Error>)
    decreases |posts|
  {
    if |posts| == 0 then Ok((tags, devs))
    else
      var next :- AddPost(tags, devs, posts[0]);
      BuildIndex(next.0, next.1, posts[1..])
  }

  /**
   * Indexing a list succeeds exactly when every post could be entered into the
   * starting indexes: a successful entry never changes which inherited names
   * are owned, so no post's outcome depends on the posts before it.
   */
  lemma {:induction false} BuildIndexSucceeds(tags: Index, devs: Index, posts: seq<Post>)
    ensures BuildIndex(tags, devs, posts).Ok? <==> forall i :: 0 <= i < |posts| ==> Indexable(tags, devs, posts[i])
    decreases |posts|
  {
    if |posts| > 0 {
      var first := AddPost(tags, devs, posts[0]);
      if first.Ok? {
        var next := first.value;
        BuildIndexSucceeds(next.0, next.1, posts[1..]);
        forall i | 0 <= i < |posts[1..]|
          ensures Indexable(next.0, next.1, posts[1..][i]) <==> Indexable(tags, devs, posts[i + 1])
        {
          HitsInheritedSame(tags, next.0, TagNames(posts[i + 1]));
          HitsInheritedSame(devs, next.1, DeveloperNames(posts[i + 1]));
        }
        if forall i :: 0 <= i < |posts| ==> Indexable(tags, devs, posts[i]) {
          assert forall i :: 0 <= i < |posts[1..]| ==> Indexable(next.0, next.1, posts[1..][i]);
        } else {
          var i :| 0 <= i < |posts| && !Indexable(tags, devs, posts[i]);
          assert i > 0 && !Indexable(next.0, next.1, posts[1..][i - 1]);
        }
      } else {
        assert !Indexable(tags, devs, posts[0]);
      }
    }
  }

  /** What a list of posts contributes to bucket `n`: each post once per occurrence of `n` among its names. */
  function Share(posts: seq<Post>, n: string, namesOf: Post -> seq<string>): seq<Post>
    decreases |posts|
  {
    if |posts| == 0 then [] else Copies(posts[0], Count(namesOf(posts[0]), n)) + Share(posts[1..], n, namesOf)
  }

  /**
   * After indexing, every bucket is its old list followed by the posts that
   * carry its name, in list order and with repetitions; the old keys keep their
   * order and the indexes stay well formed.
   */
  lemma {:induction false} BuildIndexBuckets(tags: Index, devs: Index, posts: seq<Post>)
    requires BuildIndex(tags, devs, posts).Ok?
    ensures forall n :: Bucket(BuildIndex(tags, devs, posts).value.0, n) == Bucket(tags, n) + Share(posts, n, TagNames)
    ensures forall n :: Bucket(BuildIndex(tags, devs, posts).value.1, n) == Bucket(devs, n) + Share(posts, n, DeveloperNames)
    ensures tags.names <= BuildIndex(tags, devs, posts).value.0.names
    ensures devs.names <= BuildIndex(tags, devs, posts).value.1.names
    ensures Valid(tags) && Valid(devs) ==> Valid(BuildIndex(tags, devs, posts).value.0) && Valid(BuildIndex(tags, devs, posts).value.1)
    decreases |posts|
  {
    if |posts| > 0 {
      var p := posts[0];
      BuildIndexStep(tags, devs, posts);
      var next := AddPost(tags, devs, p).value;
      AddPostSpec(tags, devs, p);
      BuildIndexBuckets(next.0, next.1, posts[1..]);
      var r := BuildIndex(tags, devs, posts).value;
      forall n ensures Bucket(r.0, n) == Bucket(tags, n) + Share(posts, n, TagNames) {
        ShareStep(Bucket(r.0, n), Bucket(next.0, n), Bucket(tags, n), posts, n, TagNames);
      }
      forall n ensures Bucket(r.1, n) == Bucket(devs, n) + Share(posts, n, DeveloperNames) {
        ShareStep(Bucket(r.1, n), Bucket(next.1, n), Bucket(devs, n), posts, n, DeveloperNames);
      }
    }
  }

  /** A bucket after the first post and then the rest is the old bucket followed by the whole share. */
  lemma ShareStep(after: seq<Post>, mid: seq<Post>, before: seq<Post>, posts: seq<Post>, n: string, namesOf: Post -> seq<string>)
    requires |posts| > 0
    requires mid == before + Copies(posts[0], Count(namesOf(posts[0]), n))
    requires after == mid + Share(posts[1..], n, namesOf)
    ensures after == before + Share(posts, n, namesOf)
  {
  }

  /** Indexing a non-empty list is entering its first post, then the rest. */
  lemma BuildIndexStep(tags: Index, devs: Index, posts: seq<Post>)
    requires |posts| > 0 && BuildIndex(tags, devs, posts).Ok?
    ensures AddPost(tags, devs, posts[0]).Ok?
    ensures BuildIndex(tags, devs, posts) ==
      BuildIndex(AddPost(tags, devs, posts[0]).value.0, AddPost(tags, devs, posts[0]).value.1, posts[1..])
  {
  }

  /** One post: each bucket gains the post once per occurrence of its name among the post's tags (or developers). */
  lemma AddPostSpec(tags: Index, devs: Index, post: Post)
    requires AddPost(tags, devs, post).Ok?
    ensures forall n :: Bucket(AddPost(tags, devs, post).value.0, n) == Bucket(tags, n) + Copies(post, Count(TagNames(post), n))
    ensures forall n :: Bucket(AddPost(tags, devs, post).value.1, n) == Bucket(devs, n) + Copies(post, Count(DeveloperNames(post), n))
    ensures tags.names <= AddPost(tags, devs, post).value.0.names
    ensures devs.names <= AddPost(tags, devs, post).value.1.names
    ensures Valid(tags) ==> Valid(AddPost(tags, devs, post).value.0)
    ensures Valid(devs) ==> Valid(AddPost(tags, devs, post).value.1)
  {
    PushAllSpec(tags, TagNames(post), post);
    PushAllSpec(devs, DeveloperNames(post), post);
  }
}
