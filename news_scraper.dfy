/**
 * One run of the news ingest (scraping_api_berita.py, `scrap_dan_simpan`):
 * empty the collection, then for every endpoint in order fetch its posts and
 * insert one document per article, in post order. Any exception while an
 * endpoint is handled abandons the rest of that endpoint only.
 */
module NewsScraper {
  import opened Wrappers
  import opened PyStrings
  import opened PyJson
  import opened Mongo

  /** The eight category endpoints, in the order the script visits them. */
  const Endpoints: seq<string> := [
    "https://api-berita-indonesia.vercel.app/tribun/bisnis/",
    "https://api-berita-indonesia.vercel.app/tempo/bisnis/",
    "https://api-berita-indonesia.vercel.app/republika/daerah/",
    "https://api-berita-indonesia.vercel.app/okezone/economy/",
    "https://api-berita-indonesia.vercel.app/kumparan/terbaru/",
    "https://api-berita-indonesia.vercel.app/cnn/ekonomi/",
    "https://api-berita-indonesia.vercel.app/antara/ekonomi/",
    "https://api-berita-indonesia.vercel.app/tempo/event/"
  ]

  /**
   * What `requests.get(endpoint)` gives: it raises (no connection), or a
   * response with a status code and a body, None when `res.json()` raises.
   */
  datatype Fetch = Unreachable | Fetched(status: int, json: Option<Value>)

  /** Why an endpoint was abandoned; the script only prints it. */
  datatype Failure = RequestFailed | HttpError(status: int) | BadJson | Raised(error: PyError)

  /** The stored article document. */
  datatype Article = Article(
    judul: Value,
    link: Value,
    thumbnail: Value,
    description: Value,
    pubDate: Value,
    source: string,
    tanggalScrap: int)

  /** `res.raise_for_status()` raises for client and server error codes. */
  predicate IsHttpError(status: int) {
    400 <= status < 600
  }

  /**
   * Iterating over `x` in a `for` loop. A list gives its items and a string
   * its one-character strings. Iterating over a dict gives its keys, which are
   * strings; since `key['title']` raises TypeError before anything is
   * inserted, a non-empty dict is summarised by that error. Anything else is
   * not iterable.
   */
  function Iterate(x: Value): (r: Result<seq<Value>, PyError>)
    ensures x.List? ==> r == Ok(x.items)
    ensures x.Str? ==> r.Ok? && |r.value| == |x.s| && forall i :: 0 <= i < |x.s| ==> r.value[i] == Str([x.s[i]])
    ensures x == Dict(map[]) ==> r == Ok([])
    ensures r.Err? <==> x.Null? || x.Bool? || x.Int? || x.Float? || (x.Dict? && |x.fields| > 0)
    ensures r.Err? ==> r.error == TypeError
  {
    match x
    case List(items) => Ok(items)
    case Str(s) => Ok(seq(|s|, i requires 0 <= i < |s| => Str([s[i]])))
    case Dict(m) => if |m| == 0 then Ok([]) else Err(TypeError)
    case _ => Err(TypeError)
  }

  /** `j['data']['posts']` can be evaluated: `j` is a dict whose `data` is a dict holding `posts`. */
  predicate HasPosts(j: Value) {
    j.Dict? && "data" in j.fields && j.fields["data"].Dict? && "posts" in j.fields["data"].fields
  }

  /** A key on the path `j['data']['posts']` is missing from a dict that is on it. */
  predicate MissingPostsKey(j: Value) {
    j.Dict? && ("data" !in j.fields || (j.fields["data"].Dict? && "posts" !in j.fields["data"].fields))
  }

  /**
   * Everything in the `try` before the article loop: get, status, json,
   * `data['data']['posts']`. The posts are the items of that node; a missing
   * key on the path is a KeyError, and a node of the wrong type on the path,
   * or posts that cannot be iterated, a TypeError.
   */
  function EndpointPosts(f: Fetch): (r: Result<seq<Value>, Failure>)
    ensures f.Unreachable? ==> r == Err(RequestFailed)
    ensures f.Fetched? && IsHttpError(f.status) ==> r == Err(HttpError(f.status))
    ensures f.Fetched? && !IsHttpError(f.status) && f.json.None? ==> r == Err(BadJson)
    ensures f.Fetched? && !IsHttpError(f.status) && f.json.Some? ==>
      (r.Ok? <==> HasPosts(f.json.value) && Iterate(f.json.value.fields["data"].fields["posts"]).Ok?)
    ensures r.Ok? ==> && f.Fetched? && !IsHttpError(f.status) && f.json.Some? && HasPosts(f.json.value)
                      && r.value == Iterate(f.json.value.fields["data"].fields["posts"]).value
    ensures r == Err(Raised(KeyError)) <==>
      f.Fetched? && !IsHttpError(f.status) && f.json.Some? && MissingPostsKey(f.json.value)
    ensures r.Err? && r.error.Raised? ==> r.error.error in {KeyError, TypeError}
  {
    match f
    case Unreachable => Err(RequestFailed)
    case Fetched(status, json) =>
      if IsHttpError(status) then Err(HttpError(status))
      else if json.None? then Err(BadJson)
      else
        match Subscript(json.value, Name("data"))
        case Err(e) => Err(Raised(e))
        case Ok(d) =>
          match Subscript(d, Name("posts"))
          case Err(e) => Err(Raised(e))
          case Ok(posts) =>
            match Iterate(posts)
            case Err(e) => Err(Raised(e))
            case Ok(items) => Ok(items)
  }

  /** `endpoint.split('/')[3]` */
  function Source(endpoint: string): (r: Result<string, PyError>)
    ensures r.Ok? <==> |Split(endpoint, '/')| >= 4
    ensures r.Ok? ==> r.value == Split(endpoint, '/')[3]
    ensures r.Err? ==> r.error == IndexError
  {
    var parts := Split(endpoint, '/');
    if |parts| >= 4 then Ok(parts[3]) else Err(IndexError)
  }

  /**
   * The document built from one article, fields evaluated in the order the
   * dict literal lists them; `now` stands for `datetime.now()`.
   */
  function ArticleDoc(article: Value, endpoint: string, now: int): Result<Article, PyError> {
    match Subscript(article, Name("title"))
    case Err(e) => Err(e)
    case Ok(title) =>
      match Subscript(article, Name("link"))
      case Err(e) => Err(e)
      case Ok(link) =>
        match Source(endpoint)
        case Err(e) => Err(e)
        case Ok(source) =>
          var m := article.fields;
          Ok(Article(title, link, Get(m, "thumbnail", Str("")), Get(m, "description", Str("")),
                     Get(m, "pubDate", Str("")), source, now))
  }

  /**
   * A document is built exactly for a dict with a title and a link, on an
   * endpoint with a fourth segment. `judul` and `link` are copied; a missing
   * `thumbnail`, `description` or `pubDate` becomes `''`.
   */
  lemma ArticleFields(article: Value, endpoint: string, now: int)
    ensures ArticleDoc(article, endpoint, now).Ok? <==>
      article.Dict? && "title" in article.fields && "link" in article.fields && Source(endpoint).Ok?
    ensures ArticleDoc(article, endpoint, now).Ok? ==> ArticleDoc(article, endpoint, now).value == Article(
      article.fields["title"],
      article.fields["link"],
      Get(article.fields, "thumbnail", Str("")),
      Get(article.fields, "description", Str("")),
      Get(article.fields, "pubDate", Str("")),
      Source(endpoint).value,
      now)
  { }

  /**
   * The documents inserted from `posts`: one per article up to, and not
   * including, the first one whose document cannot be built.
   */
  function Inserted(posts: seq<Value>, endpoint: string, now: int): (r: seq<Article>)
    ensures |r| <= |posts|
  {
    if |posts| == 0 then []
    else
      match ArticleDoc(posts[0], endpoint, now)
      case Err(_) => []
      case Ok(d) => [d] + Inserted(posts[1..], endpoint, now)
  }

  /**
   * The inserted documents are those of the articles before the first one
   * that raises, in post order.
   */
  lemma {:induction false} InsertedPrefix(posts: seq<Value>, endpoint: string, now: int)
    ensures var r := Inserted(posts, endpoint, now);
      && (forall k :: 0 <= k < |r| ==> ArticleDoc(posts[k], endpoint, now) == Ok(r[k]))
      && (|r| < |posts| ==> ArticleDoc(posts[|r|], endpoint, now).Err?)
  {
    if |posts| > 0 && ArticleDoc(posts[0], endpoint, now).Ok? {
      InsertedPrefix(posts[1..], endpoint, now);
      assert forall k :: 1 <= k < |posts| ==> posts[1..][k - 1] == posts[k];
    }
  }

  /** The documents one endpoint contributes. */
  function EndpointDocs(endpoint: string, f: Fetch, now: int): seq<Article> {
    match EndpointPosts(f)
    case Err(_) => []
    case Ok(posts) => Inserted(posts, endpoint, now)
  }

  /** The blocks of a list, one after the other. */
  function Flatten<T>(blocks: seq<seq<T>>): seq<T> {
    if |blocks| == 0 then [] else Flatten(blocks[..|blocks| - 1]) + blocks[|blocks| - 1]
  }

  /** Each endpoint's documents, in endpoint order. */
  function Blocks(endpoints: seq<string>, fetches: seq<Fetch>, now: int): (bs: seq<seq<Article>>)
    requires |fetches| == |endpoints|
    ensures |bs| == |endpoints|
    ensures forall i :: 0 <= i < |bs| ==> bs[i] == EndpointDocs(endpoints[i], fetches[i], now)
  {
    seq(|endpoints|, i requires 0 <= i < |endpoints| => EndpointDocs(endpoints[i], fetches[i], now))
  }

  /** The documents of a whole run, endpoint after endpoint. */
  function RunDocs(endpoints: seq<string>, fetches: seq<Fetch>, now: int): seq<Article>
    requires |fetches| == |endpoints|
  {
    Flatten(Blocks(endpoints, fetches, now))
  }

  /**
   * `scrap_dan_simpan()`, with `fetches[i]` what the server answers for
   * `endpoints[i]` (the script passes `Endpoints`). Afterwards the collection
   * holds exactly this run's documents.
   */
  method ScrapAndStore(coll: Collection<Article>, endpoints: seq<string>, fetches: seq<Fetch>, now: int)
    returns (deleted: nat)
    requires |fetches| == |endpoints|
    modifies coll
    ensures deleted == |old(coll.docs)|
    ensures coll.docs == RunDocs(endpoints, fetches, now)
  {
    deleted := coll.DeleteMany();
    ghost var blocks := Blocks(endpoints, fetches, now);
    var i := 0;
    while i < |endpoints|
      invariant 0 <= i <= |endpoints|
      invariant coll.docs == Flatten(blocks[..i])
    {
      var posts := EndpointPosts(fetches[i]);
      if posts.Ok? {
        StoreEndpoint(coll, endpoints[i], posts.value, now);
      }
      assert coll.docs == Flatten(blocks[..i]) + blocks[i];
      FlattenStep(blocks, i);
      i := i + 1;
    }
    assert blocks[..i] == blocks;
  }

  /**
   * The article loop of one endpoint: insert each article's document until
   * the first one that raises, which ends the loop (the `except` clause).
   */
  method StoreEndpoint(coll: Collection<Article>, endpoint: string, posts: seq<Value>, now: int)
    modifies coll
    ensures coll.docs == old(coll.docs) + Inserted(posts, endpoint, now)
  {
    var j := 0;
    var failed := false;
    while j < |posts| && !failed
      invariant 0 <= j <= |posts|
      invariant old(coll.docs) + Inserted(posts, endpoint, now)
             == coll.docs + (if failed then [] else Inserted(posts[j..], endpoint, now))
      decreases |posts| - j, !failed
    {
      var stored := StoreArticle(coll, posts, j, endpoint, now);
      if stored {
        j := j + 1;
      } else {
        failed := true;
      }
    }
    if !failed {
      assert posts[j..] == [];
    }
  }

  /** One pass of the article loop: build the document of `posts[j]` and insert it, unless that raises. */
  method StoreArticle(coll: Collection<Article>, posts: seq<Value>, j: nat, endpoint: string, now: int)
    returns (stored: bool)
    requires j < |posts|
    modifies coll
    ensures stored == ArticleDoc(posts[j], endpoint, now).Ok?
    ensures old(coll.docs) + Inserted(posts[j..], endpoint, now)
         == coll.docs + (if stored then Inserted(posts[j + 1..], endpoint, now) else [])
  {
    var doc := ArticleDoc(posts[j], endpoint, now);
    if doc.Err? {
      InsertedStop(posts, j, endpoint, now);
      return false;
    }
    InsertedTake(posts, j, endpoint, now, doc.value);
    coll.InsertOne(doc.value);
    return true;
  }

  /** An article whose document is built is stored, and the loop goes on. */
  lemma InsertedTake(posts: seq<Value>, j: nat, endpoint: string, now: int, d: Article)
    requires j < |posts| && ArticleDoc(posts[j], endpoint, now) == Ok(d)
    ensures Inserted(posts[j..], endpoint, now) == [d] + Inserted(posts[j + 1..], endpoint, now)
  {
    assert posts[j..][0] == posts[j];
    assert posts[j..][1..] == posts[j + 1..];
  }

  /** An article whose document raises ends the loop. */
  lemma InsertedStop(posts: seq<Value>, j: nat, endpoint: string, now: int)
    requires j < |posts| && ArticleDoc(posts[j], endpoint, now).Err?
    ensures Inserted(posts[j..], endpoint, now) == []
  {
    assert posts[j..][0] == posts[j];
  }

  /** Flattening one more block. */
  lemma FlattenStep<T>(blocks: seq<seq<T>>, i: nat)
    requires i < |blocks|
    ensures Flatten(blocks[..i + 1]) == Flatten(blocks[..i]) + blocks[i]
  {
    assert blocks[..i + 1][..i] == blocks[..i];
  }

  // ---------------------------------------------------------------- properties

  /** Flattening distributes over concatenation. */
  lemma {:induction false} FlattenAppend<T>(a: seq<seq<T>>, b: seq<seq<T>>)
    ensures Flatten(a + b) == Flatten(a) + Flatten(b)
    decreases |b|
  {
    if |b| == 0 {
      assert a + b == a;
    } else {
      var n := |b| - 1;
      assert (a + b)[..|a| + n] == a + b[..n];
      FlattenAppend(a, b[..n]);
    }
  }

  /** Whatever is in a flattened list is in one of its blocks. */
  lemma {:induction false} FlattenMember<T>(blocks: seq<seq<T>>, x: T)
    requires x in Flatten(blocks)
    ensures exists i :: 0 <= i < |blocks| && x in blocks[i]
    decreases |blocks|
  {
    var n := |blocks| - 1;
    if x !in blocks[n] {
      FlattenMember(blocks[..n], x);
      var i :| 0 <= i < n && x in blocks[..n][i];
      assert blocks[..n][i] == blocks[i];
    }
  }

  /** The endpoints of a prefix of the list give a prefix of the blocks. */
  lemma BlocksSlice(endpoints: seq<string>, fetches: seq<Fetch>, now: int, i: nat, j: nat)
    requires |fetches| == |endpoints| && i <= j <= |endpoints|
    ensures Blocks(endpoints[i..j], fetches[i..j], now) == Blocks(endpoints, fetches, now)[i..j]
  {
    var x, y := Blocks(endpoints[i..j], fetches[i..j], now), Blocks(endpoints, fetches, now)[i..j];
    forall k | 0 <= k < j - i ensures x[k] == y[k] {
      assert endpoints[i..j][k] == endpoints[i + k];
      assert fetches[i..j][k] == fetches[i + k];
    }
  }

  /**
   * Endpoint order: the documents of endpoint `i` sit, as one block, between
   * those of the endpoints before it and those after it, whatever happens at
   * any other endpoint.
   */
  lemma EndpointBlock(endpoints: seq<string>, fetches: seq<Fetch>, now: int, i: nat)
    requires |fetches| == |endpoints| && i < |endpoints|
    ensures RunDocs(endpoints, fetches, now)
         == RunDocs(endpoints[..i], fetches[..i], now)
          + (EndpointDocs(endpoints[i], fetches[i], now)
          + RunDocs(endpoints[i + 1..], fetches[i + 1..], now))
  {
    var bs := Blocks(endpoints, fetches, now);
    assert Blocks(endpoints[..i], fetches[..i], now) == bs[..i] by {
      BlocksSlice(endpoints, fetches, now, 0, i);
      assert endpoints[..i] == endpoints[0..i] && fetches[..i] == fetches[0..i];
    }
    assert Blocks(endpoints[i + 1..], fetches[i + 1..], now) == bs[i + 1..] by {
      BlocksSlice(endpoints, fetches, now, i + 1, |endpoints|);
      assert endpoints[i + 1..] == endpoints[i + 1..|endpoints|] && fetches[i + 1..] == fetches[i + 1..|fetches|];
    }
    FlattenSplit(bs, i);
  }

  /** Flattening splits around any one block. */
  lemma FlattenSplit<T>(bs: seq<seq<T>>, i: nat)
    requires i < |bs|
    ensures Flatten(bs) == Flatten(bs[..i]) + (bs[i] + Flatten(bs[i + 1..]))
  {
    var a, b, c := bs[..i], [bs[i]], bs[i + 1..];
    assert bs == a + (b + c) by {
      assert bs[i..] == b + c by {
        assert forall k :: 0 <= k < |bs| - i ==> bs[i..][k] == (b + c)[k];
      }
      assert bs == a + bs[i..];
    }
    assert Flatten(bs) == Flatten(a) + Flatten(b + c) by {
      FlattenAppend(a, b + c);
    }
    FlattenCons(bs[i], c);
  }

  /** A block in front of the list comes first. */
  lemma FlattenCons<T>(x: seq<T>, c: seq<seq<T>>)
    ensures Flatten([x] + c) == x + Flatten(c)
  {
    FlattenAppend([x], c);
    FlattenOne(x);
  }

  lemma FlattenOne<T>(x: seq<T>)
    ensures Flatten([x]) == x
  {
    assert [x][..0] == [];
    assert Flatten([x][..0]) == [];
  }

  /** A body whose `data` has no `posts` raises KeyError, and the endpoint adds nothing. */
  lemma NoPostsKey(endpoint: string, status: int, now: int)
    requires !IsHttpError(status)
    ensures var f := Fetched(status, Some(Dict(map["data" := Dict(map[])])));
      EndpointPosts(f) == Err(Raised(KeyError)) && EndpointDocs(endpoint, f, now) == []
  { }

  /** Posts that are not a list, a string or a dict raise TypeError, and the endpoint adds nothing. */
  lemma PostsNotIterable(endpoint: string, status: int, posts: Value, now: int)
    requires !IsHttpError(status)
    requires posts.Null? || posts.Bool? || posts.Int? || posts.Float?
    ensures var f := Fetched(status, Some(Dict(map["data" := Dict(map["posts" := posts])])));
      EndpointPosts(f) == Err(Raised(TypeError)) && EndpointDocs(endpoint, f, now) == []
  { }

  /** A list of posts at `data.posts` is what the article loop walks. */
  lemma PostsListWalked(endpoint: string, status: int, xs: seq<Value>, now: int)
    requires !IsHttpError(status)
    ensures var f := Fetched(status, Some(Dict(map["data" := Dict(map["posts" := List(xs)])])));
      EndpointPosts(f) == Ok(xs) && EndpointDocs(endpoint, f, now) == Inserted(xs, endpoint, now)
  { }

  /** An endpoint abandoned before its article loop contributes nothing. */
  lemma FailedEndpointAddsNothing(endpoint: string, f: Fetch, now: int)
    requires EndpointPosts(f).Err?
    ensures EndpointDocs(endpoint, f, now) == []
  { }

  /** Every stored document belongs to one endpoint of this run. */
  lemma OnlyThisRun(endpoints: seq<string>, fetches: seq<Fetch>, now: int, d: Article)
    requires |fetches| == |endpoints|
    requires d in RunDocs(endpoints, fetches, now)
    ensures exists i :: 0 <= i < |endpoints| && d in EndpointDocs(endpoints[i], fetches[i], now)
  {
    var bs := Blocks(endpoints, fetches, now);
    FlattenMember(bs, d);
    var i :| 0 <= i < |bs| && d in bs[i];
    assert d in EndpointDocs(endpoints[i], fetches[i], now);
  }

  /**
   * Every article of an endpoint whose posts were read gives one document,
   * in post order, when every article has a title and a link.
   */
  lemma {:induction false} AllArticlesStored(posts: seq<Value>, endpoint: string, now: int)
    requires forall k :: 0 <= k < |posts| ==> ArticleDoc(posts[k], endpoint, now).Ok?
    ensures |Inserted(posts, endpoint, now)| == |posts|
  {
    InsertedPrefix(posts, endpoint, now);
  }

  /** An article without a link ends its endpoint: a KeyError, caught. */
  lemma MissingLinkStops(m: map<string, Value>, endpoint: string, now: int)
    requires "link" !in m
    ensures ArticleDoc(Dict(m), endpoint, now) == Err(KeyError)
  { }

  /** Splitting `a + ("/" + b)`, where `a` has no `/`, gives `a` first. */
  lemma SplitAfter(a: string, b: string)
    requires Lacks(a, '/')
    ensures Split(a + ("/" + b), '/') == [a] + Split(b, '/')
  {
    assert a + ("/" + b) == a + ['/'] + b;
    SplitAt(a, b, '/');
  }

  /**
   * The source of an endpoint of the form `scheme//host/source/rest` is its
   * fourth `/`-separated segment, `source`.
   */
  lemma SourceSegment(endpoint: string, scheme: string, host: string, source: string, rest: string)
    requires Lacks(scheme, '/') && Lacks(host, '/') && Lacks(source, '/')
    requires endpoint == scheme + ("/" + ("" + ("/" + (host + ("/" + (source + ("/" + rest)))))))
    ensures Source(endpoint) == Ok(source)
  {
    var t3 := source + ("/" + rest);
    var t2 := host + ("/" + t3);
    var t1 := "" + ("/" + t2);
    SplitAfter(source, rest);
    SplitAfter(host, t3);
    SplitAfter("", t2);
    SplitAfter(scheme, t1);
  }
}
