/** The scheduled notifier of index.js (`sendEmail` and `getMetaData`): read the
    document, pick one pending article at random, look up its title and
    description, and decide what the email says.

    The random number, the page fetch and the HTML scraping are collaborators
    outside the model: the random value arrives as a real in [0, 1), and the
    fetched page arrives as the four values `getMetaData` reads from it. */
module Notifier {
  import opened ReadingList
  import ArticleStore

  // ---------------------------------------------------------------------------
  // Selection: `articles[Math.floor(Math.random() * articles.length)]`.
  // ---------------------------------------------------------------------------

  /** `Math.floor(r * n)` for a random `r` in [0, 1): always a valid index. */
  function PickIndex(r: real, n: nat): (i: nat)
    requires 0.0 <= r < 1.0 && n > 0
    ensures i < n
  {
    assert 0.0 <= r * n as real < n as real;
    (r * n as real).Floor
  }

  /** Every index is picked by exactly the random values of one interval of
      width 1/n: each pending article is equally likely. */
  lemma PickIndexInterval(r: real, n: nat, k: nat)
    requires 0.0 <= r < 1.0 && n > 0 && k < n
    ensures PickIndex(r, n) == k <==> k as real / n as real <= r < (k + 1) as real / n as real
  {
    var lo, hi := k as real / n as real, (k + 1) as real / n as real;
    assert lo * n as real == k as real;
    assert hi * n as real == (k + 1) as real;
    ScaleMonotone(lo, r, n as real);
    ScaleMonotone(hi, r, n as real);
  }

  /** Multiplying by a positive factor keeps the order of two reals. */
  lemma ScaleMonotone(a: real, b: real, c: real)
    requires c > 0.0
    ensures a <= b <==> a * c <= b * c
  {
    assert b * c - a * c == (b - a) * c;
    if a <= b {
      assert (b - a) * c >= 0.0;
    } else {
      assert (a - b) * c > 0.0;
    }
  }

  /** In particular every pending article can be picked. */
  lemma EveryIndexReachable(n: nat, k: nat)
    requires n > 0 && k < n
    ensures exists r: real {:trigger PickIndex(r, n)} :: 0.0 <= r < 1.0 && PickIndex(r, n) == k
  {
    var r := k as real / n as real;
    assert r < 1.0;
    PickIndexInterval(r, n, k);
  }

  /** The article the notifier suggests: always one of the pending ones. */
  function Selected(pending: seq<Url>, r: real): (u: Url)
    requires pending != [] && 0.0 <= r < 1.0
    ensures u in pending
  {
    pending[PickIndex(r, |pending|)]
  }

  // ---------------------------------------------------------------------------
  // getMetaData: `title ?? ogTitle ?? ""`, `description ?? ogDescription ?? ""`.
  // ---------------------------------------------------------------------------

  /** What `getMetaData` reads from a fetched page. The title is the text of
      the `<title>` element, a string in every case ("" when the page has
      none); the three `content` attributes are `None` where the page lacks
      the meta tag (undefined). */
  datatype PageTags = PageTags(
    title: string,
    description: Option<string>,
    ogTitle: Option<string>,
    ogDescription: Option<string>)

  /** What `getMetaData` returns: both fields always strings. */
  datatype Metadata = Metadata(title: string, description: string)

  /** JavaScript's `a ?? b`: `a` unless it is null or undefined. */
  function Coalesce(a: Option<string>, b: Option<string>): Option<string>
  {
    if a.Some? then a else b
  }

  /** The first present value of a list of candidates, taken in order. */
  function FirstPresent(candidates: seq<Option<string>>): (r: Option<string>)
    ensures r.None? <==> forall i :: 0 <= i < |candidates| ==> candidates[i].None?
    ensures r.Some? ==> exists i :: 0 <= i < |candidates| && candidates[i] == r &&
                                    forall j :: 0 <= j < i ==> candidates[j].None?
  {
    if candidates == [] then None
    else if candidates[0].Some? then candidates[0]
    else
      var rest := FirstPresent(candidates[1..]);
      assert forall i :: 0 <= i < |candidates[1..]| ==> candidates[1..][i] == candidates[i + 1];
      assert rest.Some? ==> exists i :: 1 <= i < |candidates| && candidates[i] == rest &&
                                        forall j :: 0 <= j < i ==> candidates[j].None?;
      rest
  }

  /** A chain `a ?? b ?? c` yields the first present of the three. */
  lemma CoalesceChain(a: Option<string>, b: Option<string>, c: Option<string>)
    ensures Coalesce(Coalesce(a, b), c) == FirstPresent([a, b, c])
  {
    var cs := [a, b, c];
    assert cs[1..] == [b, c] && cs[1..][1..] == [c] && cs[1..][1..][1..] == [];
    assert FirstPresent(cs[1..][1..]) == c;
    assert FirstPresent(cs[1..]) == Coalesce(b, c);
  }

  /** The title is the first present of the page title, og:title and "", and
      the description the first present of the description, og:description
      and "". */
  function GetMetaData(page: PageTags): (m: Metadata)
    ensures Some(m.title) == FirstPresent([Some(page.title), page.ogTitle, Some("")])
    ensures Some(m.description) == FirstPresent([page.description, page.ogDescription, Some("")])
  {
    CoalesceChain(Some(page.title), page.ogTitle, Some(""));
    CoalesceChain(page.description, page.ogDescription, Some(""));
    Metadata(Coalesce(Coalesce(Some(page.title), page.ogTitle), Some("")).value,
             Coalesce(Coalesce(page.description, page.ogDescription), Some("")).value)
  }

  /** The fallback order, case by case. The scraped title is never null, so
      it always wins and og:title is never used; for the description the
      page's own tag wins, og:description is used only when it is absent, and
      "" only when both are absent. */
  lemma GetMetaDataFallback(page: PageTags)
    ensures GetMetaData(page).title == page.title
    ensures page.description.Some? ==> GetMetaData(page).description == page.description.value
    ensures page.description.None? && page.ogDescription.Some? ==>
      GetMetaData(page).description == page.ogDescription.value
    ensures page.description.None? && page.ogDescription.None? ==> GetMetaData(page).description == ""
  {
    var m := GetMetaData(page);
    var ts := [Some(page.title), page.ogTitle, Some("")];
    var ds := [page.description, page.ogDescription, Some("")];
    assert ts[0] == Some(page.title);
    assert ds[0] == page.description && ds[1] == page.ogDescription;
  }

  // ---------------------------------------------------------------------------
  // The link text of the suggestion email: `title ?? randomlySelectedArticle`.
  // ---------------------------------------------------------------------------

  /** The link text as index.js computes it: `title ?? url` over the title
      `getMetaData` returned. */
  function LinkTextAsWritten(m: Metadata, url: Url): string
  {
    Coalesce(Some(m.title), Some(url)).value
  }

  /** As written, the link text is always the page's title, for every page and
      URL: a page whose `<title>` is missing or empty is linked by "", never
      by its URL, whatever its og:title says. */
  lemma LinkTextAsWrittenLosesUrl(page: PageTags, url: Url)
    ensures LinkTextAsWritten(GetMetaData(page), url) == page.title
    ensures page.title == "" && url != "" ==>
      LinkTextAsWritten(GetMetaData(page), url) == "" != url
  {
    GetMetaDataFallback(page);
  }

  /** The link text with the intended fallback: the title when there is one,
      the raw URL when the title is empty. */
  function LinkText(m: Metadata, url: Url): (t: string)
    ensures t == m.title || t == url
    ensures url != "" ==> t != ""
  {
    if m.title != "" then m.title else url
  }

  /** With the fallback, a page without a title is linked by its URL and a
      titled page by its title. */
  lemma LinkTextFallsBackToUrl(page: PageTags, url: Url)
    ensures page.title == "" ==> LinkText(GetMetaData(page), url) == url
    ensures page.title != "" ==> LinkText(GetMetaData(page), url) == page.title
  {
    GetMetaDataFallback(page);
  }

  // ---------------------------------------------------------------------------
  // One firing of the scheduled job.
  // ---------------------------------------------------------------------------

  /** Why the promise of a firing rejects before anything is sent. */
  datatype Abort =
    | NoArticlesField   // `articles.length` of undefined throws a TypeError
    | FetchRejected     // the page fetch rejects; `getMetaData` does not catch it

  /** What one firing sends. */
  datatype Firing =
    | NothingToRead                                              // "Nothing more to read"
    | Suggestion(url: Url, linkText: string, description: string) // "From your reading list"
    | Aborted(why: Abort)                                        // the promise rejects, nothing sent

  /** One firing of `sendEmail` with random value `r`; `fetchPage` gives what
      `getMetaData` reads from a URL's page, or `None` when the fetch rejects.
      The pick is made only when the pending list is non-empty, and is then one
      of its entries; the link text is computed as index.js does, so it is the
      page's title. */
  method SendEmail(store: ArticleStore.Store, r: real, fetchPage: Url -> Option<PageTags>)
    returns (f: Firing)
    requires 0.0 <= r < 1.0
    ensures store.articles.None? <==> f == Aborted(NoArticlesField)
    ensures store.articles == Some([]) <==> f == NothingToRead
    ensures f.Suggestion? || f == Aborted(FetchRejected) ==>
      && store.articles.Some? && store.articles.value != []
      && var u := Selected(store.articles.value, r);
      && (f == Aborted(FetchRejected) <==> fetchPage(u).None?)
      && (f.Suggestion? ==>
            var m := GetMetaData(fetchPage(u).value);
            f == Suggestion(u, LinkTextAsWritten(m, u), m.description))
  {
    var pending := store.articles;
    if pending.None? {
      return Aborted(NoArticlesField);
    }
    if |pending.value| == 0 {
      return NothingToRead;
    }
    var u := Selected(pending.value, r);
    var page := fetchPage(u);
    if page.None? {
      return Aborted(FetchRejected);
    }
    var m := GetMetaData(page.value);
    f := Suggestion(u, LinkTextAsWritten(m, u), m.description);
  }
}
