/** The persisted reading-list document and the pure effect of each handler on it.

    The document is the JSON object kept in db/articles.json. Either list may be
    missing (or null) in the file: the handlers create a missing list before
    they push onto it. */
module ReadingList {

  /** An article URL: an opaque string, never validated. */
  type Url = string

  datatype Option<T> = None | Some(value: T)

  /** The whole JSON document: the pending list `articles` and the list `finished`. */
  datatype Document = Document(articles: Option<seq<Url>>, finished: Option<seq<Url>>)

  /** A list field as a handler sees it once it has created the field when absent. */
  function OrEmpty(field: Option<seq<Url>>): seq<Url>
  {
    if field.Some? then field.value else []
  }

  /** A query parameter passes the handlers' truthiness test: present and not "". */
  predicate Provided(param: Option<string>)
  {
    param.Some? && param.value != ""
  }

  // ---------------------------------------------------------------------------
  // The filter of the finished handler: drop every entry equal to `u`.
  // ---------------------------------------------------------------------------

  /** `s.filter(x => x !== u)`: every occurrence of `u` goes, every other entry stays. */
  function Without(s: seq<Url>, u: Url): (r: seq<Url>)
    ensures |r| <= |s|
    ensures forall x :: x in r <==> x in s && x != u
  {
    if s == [] then []
    else if s[0] == u then Without(s[1..], u)
    else [s[0]] + Without(s[1..], u)
  }

  /** `r` can be obtained from `s` by deleting entries: same relative order. */
  predicate IsSubsequence(r: seq<Url>, s: seq<Url>)
    decreases |s|
  {
    r == [] ||
    (s != [] &&
     if r[0] == s[0] then IsSubsequence(r[1..], s[1..]) else IsSubsequence(r, s[1..]))
  }

  /** The filter keeps the surviving entries in their original relative order. */
  lemma {:induction false} WithoutIsSubsequence(s: seq<Url>, u: Url)
    ensures IsSubsequence(Without(s, u), s)
  {
    if s != [] {
      WithoutIsSubsequence(s[1..], u);
      var rest := Without(s[1..], u);
      if s[0] != u {
        assert Without(s, u) == [s[0]] + rest;
        assert ([s[0]] + rest)[1..] == rest;
      } else {
        assert Without(s, u) == rest;
        if rest != [] {
          assert rest[0] in rest;
          assert rest[0] != s[0];
        }
      }
    }
  }

  /** The filter removes exactly the occurrences of `u`: as a multiset the
      result is the input with `u` taken out entirely, and it is shorter by the
      number of occurrences of `u`. */
  lemma {:induction false} WithoutCount(s: seq<Url>, u: Url)
    ensures multiset(Without(s, u)) == multiset(s)[u := 0]
    ensures |Without(s, u)| == |s| - multiset(s)[u]
  {
    if s != [] {
      WithoutCount(s[1..], u);
      assert s == [s[0]] + s[1..];
      assert multiset(s) == multiset{s[0]} + multiset(s[1..]);
      if s[0] != u {
        assert multiset(Without(s, u)) == multiset{s[0]} + multiset(Without(s[1..], u));
      }
    }
  }

  /** An entry that is not there is not filtered: the list comes back unchanged. */
  lemma {:induction false} WithoutAbsent(s: seq<Url>, u: Url)
    requires u !in s
    ensures Without(s, u) == s
  {
    if s != [] {
      assert u !in s[1..];
      WithoutAbsent(s[1..], u);
      assert s == [s[0]] + s[1..];
    }
  }

  /** The filter works entry by entry, so it distributes over concatenation. */
  lemma {:induction false} WithoutConcat(s: seq<Url>, t: seq<Url>, u: Url)
    ensures Without(s + t, u) == Without(s, u) + Without(t, u)
  {
    if s == [] {
      assert s + t == t;
    } else {
      assert (s + t)[0] == s[0];
      assert (s + t)[1..] == s[1..] + t;
      WithoutConcat(s[1..], t, u);
    }
  }

  /** Filtering twice by the same URL is filtering once. */
  lemma WithoutIdempotent(s: seq<Url>, u: Url)
    ensures Without(Without(s, u), u) == Without(s, u)
  {
    WithoutAbsent(Without(s, u), u);
  }

  // ---------------------------------------------------------------------------
  // The handlers' effect on the document.
  // ---------------------------------------------------------------------------

  /** GET /articles?new=<u>: create `articles` if missing, then push `u`. */
  function Add(d: Document, u: Url): Document
  {
    d.(articles := Some(OrEmpty(d.articles) + [u]))
  }

  /** Why the finished handler writes nothing. */
  datatype Rejection =
    | NoUrlProvided    // `url` missing or "": the handler answers "No URL provided"
    | ArticlesMissing  // `articles` absent: `articles.filter` throws before the write

  datatype Outcome = Done(doc: Document) | Rejected(reason: Rejection)

  /** GET /articles/finished?url=<u>: remove every `u` from `articles`, create
      `finished` if missing and push `u` onto it, pending or not. */
  function Complete(d: Document, url: Option<Url>): Outcome
  {
    if !Provided(url) then Rejected(NoUrlProvided)
    else if d.articles.None? then Rejected(ArticlesMissing)
    else Done(Document(Some(Without(d.articles.value, url.value)),
                       Some(OrEmpty(d.finished) + [url.value])))
  }

  /** A run of Add calls, in call order. */
  function AddAll(d: Document, urls: seq<Url>): Document
    decreases |urls|
  {
    if urls == [] then d else AddAll(Add(d, urls[0]), urls[1..])
  }

  /** A URL is never both pending and finished. */
  predicate Disjoint(d: Document)
  {
    forall x :: x in OrEmpty(d.articles) ==> x !in OrEmpty(d.finished)
  }

  // ---------------------------------------------------------------------------
  // Properties of the handlers.
  // ---------------------------------------------------------------------------

  /** A run of Adds appends exactly those URLs, in call order, duplicates kept,
      and never touches `finished`; on a document without `articles` a
      non-empty run produces a list holding exactly the run. */
  lemma {:induction false} AddAllInOrder(d: Document, urls: seq<Url>)
    ensures OrEmpty(AddAll(d, urls).articles) == OrEmpty(d.articles) + urls
    ensures urls != [] ==> AddAll(d, urls).articles.Some?
    ensures AddAll(d, urls).finished == d.finished
    decreases |urls|
  {
    if urls != [] {
      AddAllInOrder(Add(d, urls[0]), urls[1..]);
      assert [urls[0]] + urls[1..] == urls;
      assert OrEmpty(d.articles) + [urls[0]] + urls[1..] == OrEmpty(d.articles) + urls;
      if urls[1..] == [] {
        assert AddAll(d, urls) == Add(d, urls[0]);
      }
    }
  }

  /** The finished handler rejects exactly the missing or empty `url`, and
      otherwise writes nothing only when `articles` is absent. */
  lemma CompleteRejects(d: Document, url: Option<Url>)
    ensures Complete(d, url) == Rejected(NoUrlProvided) <==> !Provided(url)
    ensures Complete(d, url) == Rejected(ArticlesMissing) <==> Provided(url) && d.articles.None?
    ensures Complete(d, url).Done? <==> Provided(url) && d.articles.Some?
  {
  }

  /** After Complete(u), `u` is no longer pending, every other entry keeps its
      place in the original order and no other entry is lost, and `finished`
      has grown by exactly one `u` at its end. */
  lemma CompleteEffect(d: Document, u: Url)
    requires u != "" && d.articles.Some?
    ensures Complete(d, Some(u)).Done?
    ensures var r := Complete(d, Some(u)).doc;
      && r.articles.Some? && r.finished.Some?
      && u !in r.articles.value
      && IsSubsequence(r.articles.value, d.articles.value)
      && multiset(r.articles.value) == multiset(d.articles.value)[u := 0]
      && |r.articles.value| == |d.articles.value| - multiset(d.articles.value)[u]
      && r.finished.value == OrEmpty(d.finished) + [u]
  {
    WithoutIsSubsequence(d.articles.value, u);
    WithoutCount(d.articles.value, u);
  }

  /** Completing a URL that is not pending leaves `articles` as it was and
      still records the URL as finished. */
  lemma CompleteNotPending(d: Document, u: Url)
    requires u != "" && d.articles.Some? && u !in d.articles.value
    ensures Complete(d, Some(u)) == Done(Document(d.articles, Some(OrEmpty(d.finished) + [u])))
  {
    WithoutAbsent(d.articles.value, u);
  }

  /** Completing a URL pending exactly once shortens `articles` by one. */
  lemma CompleteSinglePending(d: Document, u: Url)
    requires u != "" && d.articles.Some? && multiset(d.articles.value)[u] == 1
    ensures Complete(d, Some(u)).Done?
    ensures |OrEmpty(Complete(d, Some(u)).doc.articles)| == |d.articles.value| - 1
  {
    WithoutCount(d.articles.value, u);
  }

  /** Completing the same URL twice leaves `articles` as after the first call
      and records the URL twice in `finished`. */
  lemma CompleteTwice(d: Document, u: Url)
    requires u != "" && d.articles.Some?
    ensures var once := Complete(d, Some(u));
      && once.Done?
      && var twice := Complete(once.doc, Some(u));
      && twice.Done?
      && twice.doc.articles == once.doc.articles
      && twice.doc.finished == Some(OrEmpty(d.finished) + [u, u])
  {
    WithoutIdempotent(d.articles.value, u);
    assert OrEmpty(d.finished) + [u] + [u] == OrEmpty(d.finished) + [u, u];
  }

  /** Add then Complete of the same URL: every copy of it, old or new, leaves
      `articles`, which then equals the old pending list with the URL removed,
      and the URL ends `finished`. */
  lemma AddThenComplete(d: Document, u: Url)
    requires u != ""
    ensures Complete(Add(d, u), Some(u)).Done?
    ensures var r := Complete(Add(d, u), Some(u)).doc;
      && r.articles == Some(Without(OrEmpty(d.articles), u))
      && u !in OrEmpty(r.articles)
      && r.finished == Some(OrEmpty(d.finished) + [u])
  {
    var pending := OrEmpty(d.articles);
    WithoutConcat(pending, [u], u);
    assert [u][1..] == [];
    assert Without([u], u) == [];
    assert Without(pending + [u], u) == Without(pending, u) + [];
    assert Without(pending, u) + [] == Without(pending, u);
    WithoutCount(pending, u);
    assert u !in multiset(Without(pending, u));
  }

  /** Complete keeps a document in which no URL is both pending and finished. */
  lemma CompleteKeepsDisjoint(d: Document, url: Option<Url>)
    requires Disjoint(d)
    requires Complete(d, url).Done?
    ensures Disjoint(Complete(d, url).doc)
  {
    var r := Complete(d, url).doc;
    forall x | x in OrEmpty(r.articles)
      ensures x !in OrEmpty(r.finished)
    {
      assert x in d.articles.value && x != url.value;
    }
  }

  /** Add keeps that separation exactly when the URL is not already finished. */
  lemma AddKeepsDisjointIff(d: Document, u: Url)
    requires Disjoint(d)
    ensures Disjoint(Add(d, u)) <==> u !in OrEmpty(d.finished)
  {
    assert u in OrEmpty(Add(d, u).articles);
  }

  /** The worked session: add one URL to the empty document, then finish it. */
  lemma ExampleSession()
    ensures var empty := Document(Some([]), Some([]));
      && Add(empty, "http://a") == Document(Some(["http://a"]), Some([]))
      && Complete(Add(empty, "http://a"), Some("http://a"))
         == Done(Document(Some([]), Some(["http://a"])))
  {
    var empty := Document(Some([]), Some([]));
    var pending: seq<Url> := ["http://a"];
    assert OrEmpty(empty.articles) + pending == pending;
    assert pending[1..] == [];
    assert Without(pending, "http://a") == [];
    assert OrEmpty(empty.finished) + pending == pending;
  }

  /** Duplicates are all removed by one Complete. */
  lemma CompleteDropsDuplicates()
    ensures Complete(Document(Some(["a", "b", "a"]), None), Some("a"))
            == Done(Document(Some(["b"]), Some(["a"])))
  {
    var s: seq<Url> := ["a", "b", "a"];
    assert s[1..] == ["b", "a"] && s[1..][1..] == ["a"] && s[1..][1..][1..] == [];
    assert Without(s[1..][1..], "a") == [];
    assert "b" != "a" by { assert "b"[0] != "a"[0]; }
    assert Without(s[1..], "a") == ["b"];
    assert Without(s, "a") == ["b"];
    assert OrEmpty(None) + ["a"] == ["a"];
  }
}
