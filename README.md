# one-article-a-day: the reading-list store and the daily pick

A model, in Dafny, of the only logic in `index.js` that is not glue: the
reading-list document kept in `db/articles.json`, the two HTTP handlers that
read, change and rewrite it, and the scheduled `sendEmail` job that picks one
pending article at random and looks up its title and description.

- `reading_list.dfy`, module `ReadingList`: the document as a value (two
  optional lists, `articles` for the pending URLs and `finished`), the filter
  of the finished handler (`Without`), the effect of each handler as a pure
  function (`Add`, `Complete`), and the lemmas about them.
- `article_store.dfy`, module `ArticleStore`: class `Store`, whose fields are
  the document's two lists. `GetArticles`, `Add`, `List` and `Complete` are
  the handlers: each reads both fields into locals, changes the locals the way
  the handler changes `dataObj`, and writes both back; each is proved against
  the pure function of `ReadingList`, and the reply text is the handler's.
- `notifier.dfy`, module `Notifier`: the index choice `floor(r * n)`, the
  `??` fallback of `getMetaData`, the link text of the email, and
  `SendEmail`, one firing of the job, as a method that reads the store.

Either list may be absent from the JSON document; the model keeps that
(`Option<seq<Url>>`) because the handlers behave differently on it: Add and
Complete create a missing list before pushing onto it, while Complete and
`sendEmail` throw a TypeError when `articles` itself is missing.

### Behaviour of the code worth knowing

The model follows the code, including these points:

- Complete removes every occurrence of the URL from `articles`, not only the
  first (`index.js:118-120`). `CompleteEffect` and `CompleteDropsDuplicates`
  state it.
- Nothing creates the document's lists on a read. When `articles` is absent
  the finished handler and the job throw a TypeError, which rejects their
  promise before anything is written or sent (`ArticlesMissing`,
  `NoArticlesField`).
- The code does not enforce "a URL is in at most one list": Complete preserves
  it (`CompleteKeepsDisjoint`), Add breaks it exactly when the URL is already
  finished (`AddKeepsDisjointIff`).
- The scraped title is the text of `<title>`, which is a string even when the
  page has no title, so `title ?? ogTitle ?? ""` always yields it and og:title
  is never used (`GetMetaDataFallback`).
- The list branch sends the file as read, not a re-serialised object; the
  model returns the document value.

## Model

| member | source | states |
|---|---|---|
| `ReadingList.Without` | index.js:118-120 | the filtered list holds exactly the entries different from the URL, and is no longer than the original |
| `ReadingList.WithoutIsSubsequence` | index.js:118-120 | the entries that survive the filter keep their original relative order |
| `ReadingList.WithoutCount` | index.js:118-120 | the filter removes every occurrence of the URL and nothing else: the multiset loses all copies of the URL, the length drops by their number |
| `ReadingList.WithoutAbsent` | index.js:118-120 | filtering out a URL that is not in the list returns the list unchanged |
| `ReadingList.WithoutConcat` | index.js:118-120 | the filter works entry by entry, so it distributes over concatenation |
| `ReadingList.WithoutIdempotent` | index.js:118-120 | filtering twice by the same URL is the same as filtering once |
| `ReadingList.AddAllInOrder` | index.js:43-54 | a run of adds leaves `articles` equal to the old list followed by exactly those URLs in call order, duplicates kept; a non-empty run creates a missing `articles`; `finished` is untouched |
| `ReadingList.CompleteRejects` | index.js:105-127 | completion is refused with "No URL provided" exactly when the URL is missing or empty, fails exactly when a URL is given and `articles` is absent, and succeeds otherwise |
| `ReadingList.CompleteEffect` | index.js:112-124 | after completing `u`: `u` is no longer pending, the other entries keep their order, all copies of `u` and nothing else are removed, and `finished` is the old list (or `[]`) followed by one `u` |
| `ReadingList.CompleteNotPending` | index.js:118-122 | completing a URL that is not pending leaves `articles` as it was and still appends the URL to `finished` |
| `ReadingList.CompleteSinglePending` | index.js:118-120 | completing a URL pending exactly once shortens `articles` by exactly one |
| `ReadingList.CompleteTwice` | index.js:105-127 | completing the same URL twice leaves `articles` as after the first call and records the URL twice in `finished` |
| `ReadingList.AddThenComplete` | index.js:43-127 | add then complete of a URL removes every copy of it, old and new, leaves the other pending entries as before, and ends with the URL appended to `finished` |
| `ReadingList.CompleteKeepsDisjoint` | index.js:112-124 | completion keeps a document in which no URL is both pending and finished |
| `ReadingList.AddKeepsDisjointIff` | index.js:48-51 | adding keeps that separation if and only if the URL is not already finished |
| `ReadingList.ExampleSession` | index.js:43-127 | from the empty document, adding "http://a" gives `{articles: ["http://a"], finished: []}` and completing it gives `{articles: [], finished: ["http://a"]}` |
| `ReadingList.CompleteDropsDuplicates` | index.js:118-120 | completing "a" on `["a", "b", "a"]` with no `finished` list gives `{articles: ["b"], finished: ["a"]}` |
| `ArticleStore.Store.GetArticles` | index.js:42-59 | a truthy `new` parameter is added and answered "Article added successfully"; otherwise the store is unchanged and the document is sent back |
| `ArticleStore.Store.Add` | index.js:43-54 | the new `articles` is the old one (or `[]` when absent) followed by the URL; `finished` is unchanged |
| `ArticleStore.Store.List` | index.js:55-58 | the reply is the stored document, both lists as they are |
| `ArticleStore.Store.Complete` | index.js:105-127 | a missing or empty URL is answered "No URL provided" with nothing changed; an absent `articles` rejects the handler's promise, so nothing is written and no reply is sent; otherwise the store becomes the completed document and the answer is "Article marked as finished" |
| `Notifier.PickIndex` | index.js:76-77 | `floor(r * n)` for `0 <= r < 1` and `n > 0` is a valid index below `n` |
| `Notifier.PickIndexInterval` | index.js:77 | index `k` is picked exactly by the random values in `[k/n, (k+1)/n)`, an interval of width `1/n` for every `k` |
| `Notifier.EveryIndexReachable` | index.js:77 | every index below `n` is picked by some random value in `[0, 1)` |
| `Notifier.Selected` | index.js:76-77 | the selected URL is an element of the pending list |
| `Notifier.FirstPresent` | index.js:28-31 | the first present candidate: none exactly when all are absent, otherwise a present one preceded only by absent ones |
| `Notifier.CoalesceChain` | index.js:29-30 | the chain `a ?? b ?? c` yields the first present of `a`, `b`, `c` |
| `Notifier.GetMetaData` | index.js:28-31 | the title is the first present of page title, og:title and ""; the description the first present of description, og:description and "" |
| `Notifier.GetMetaDataFallback` | index.js:29-30 | the title is always the scraped page title, so og:title is never used; for the description the page's own tag wins, og:description is used only when it is absent, "" only when both are absent |
| `Notifier.LinkTextAsWrittenLosesUrl` | index.js:82-84 | as written, the link text is always the page title, for every page and URL; a page whose `<title>` is missing or empty gets "" as link text, never the URL |
| `Notifier.LinkText` | index.js:82-84 | the link text is the title or the URL, and never empty when the URL is not |
| `Notifier.LinkTextFallsBackToUrl` | index.js:82-84 | with the fallback, a page with an empty title is linked by its URL and a page with a non-empty title by that title |
| `Notifier.SendEmail` | index.js:61-103 | absent `articles` rejects the job's promise; an empty pending list sends "Nothing more to read" and picks nothing; otherwise the entry at `floor(r * n)` is picked, a rejected page fetch rejects the job's promise, and the suggestion carries that URL, the link text as the code computes it (`title ?? url`) and the description |

## Left out

- Reading and writing `db/articles.json` and JSON parsing and serialisation: the store is an in-memory object; a file that cannot be read or parsed is not modelled.
- JSON values other than a list or nothing in `articles` or `finished`: each field is either absent (undefined or null) or a list of strings.
- Query parameters that Express parses into arrays or objects (`?new=a&new=b`): a parameter is an optional string, and only the JavaScript truthiness test (present and not "") is modelled.
- Express routing, the HTTP server and its start-up.
- What follows a rejected promise: the handlers are `async`, so a TypeError in the finished handler (`Unanswered`) is not caught by Express and no reply is sent; the un-awaited `sendEmail()` of the cron callback turns `NoArticlesField` and `FetchRejected` into unhandled rejections. Whether the process then keeps running or exits depends on the Node and Express versions, which the model does not fix.
- The cron schedule (`0 5 * * *`): `SendEmail` is one firing.
- Email composition and delivery through Resend: sender, recipients, subjects, the HTML template and delivery failures; a firing ends in the value saying what would be sent.
- `fetch` and the cheerio scraping in `getMetaData`: the page arrives as the title text (a string, "" when the page has no `<title>`) and three optional meta attributes, and a rejected fetch as `None`.
- `Notifier.PickIndex`: `Math.random` and floating-point arithmetic are not modelled; the random value is an exact real in `[0, 1)`, so rounding of `r * n` is not captured.
- Console logging.
- The lost update between concurrent handlers: each method runs to completion on its own.

## Findings

| source | as written | input that shows it | evidently intended | confidence | as-written member | corrected member |
|---|---|---|---|---|---|---|
| index.js:83 | the link text is `title ?? randomlySelectedArticle`, but the title from `getMetaData` is never null, so the URL fallback never applies | any page whose `<title>` is missing or empty, with or without og:title: the link text is "" and the email shows an empty link | the raw URL is shown when the page has no title | not executed; high | `Notifier.LinkTextAsWrittenLosesUrl` | `Notifier.LinkText` |
