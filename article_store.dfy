/** The two HTTP handlers of the article store (index.js), as read-modify-write
    steps on the persisted document.

    A `Store` stands for db/articles.json. Each handler reads the whole
    document into local variables (`fs.readFile` + `JSON.parse`), changes the
    local copy, and assigns both fields back in one step (`JSON.stringify` +
    `fs.writeFile`). A handler whose promise rejects before its write leaves
    the store as it was. */
module ArticleStore {
  import opened ReadingList

  /** What a handler sends back with `res.send`, or `Unanswered` when the
      handler's promise rejects: nothing is written and no reply is sent. */
  datatype Reply =
    | Text(body: string)    // a plain-text message
    | Raw(doc: Document)    // the document file, sent as read
    | Unanswered            // a TypeError rejected the handler's promise

  const AddedMessage: string := "Article added successfully"
  const NoUrlMessage: string := "No URL provided"
  const FinishedMessage: string := "Article marked as finished"

  class Store {
    var articles: Option<seq<Url>>
    var finished: Option<seq<Url>>

    /** The document the store holds. */
    function Doc(): Document
      reads this
    {
      Document(articles, finished)
    }

    constructor (d: Document)
      ensures Doc() == d
    {
      articles, finished := d.articles, d.finished;
    }

    /** GET /articles: a truthy `new` query parameter is added to the pending
        list; otherwise the document is sent back unchanged. */
    method GetArticles(newParam: Option<string>) returns (reply: Reply)
      modifies this
      ensures Provided(newParam) ==>
        Doc() == ReadingList.Add(old(Doc()), newParam.value) && reply == Text(AddedMessage)
      ensures !Provided(newParam) ==>
        Doc() == old(Doc()) && reply == Raw(old(Doc()))
    {
      if Provided(newParam) {
        Add(newParam.value);
        reply := Text(AddedMessage);
      } else {
        var d := List();
        reply := Raw(d);
      }
    }

    /** The add branch: create `articles` when it is absent, push the URL, write. */
    method Add(newUrl: Url)
      modifies this
      ensures Doc() == ReadingList.Add(old(Doc()), newUrl)
      ensures articles == Some(OrEmpty(old(articles)) + [newUrl])
      ensures finished == old(finished)
    {
      var pending, done := articles, finished;
      if pending.None? {
        pending := Some([]);
      }
      pending := Some(pending.value + [newUrl]);
      articles, finished := pending, done;
    }

    /** The list branch: the document as it is stored. */
    method List() returns (d: Document)
      ensures d.articles == articles && d.finished == finished
    {
      d := Document(articles, finished);
    }

    /** GET /articles/finished: reject a missing or empty `url`; otherwise
        create `finished` when it is absent, drop every copy of the URL from
        `articles`, push the URL onto `finished`, write. When `articles` is
        absent the filter throws and nothing is written. */
    method Complete(url: Option<string>) returns (reply: Reply)
      modifies this
      ensures ReadingList.Complete(old(Doc()), url).Done? ==>
        Doc() == ReadingList.Complete(old(Doc()), url).doc && reply == Text(FinishedMessage)
      ensures ReadingList.Complete(old(Doc()), url) == Rejected(NoUrlProvided) ==>
        Doc() == old(Doc()) && reply == Text(NoUrlMessage)
      ensures ReadingList.Complete(old(Doc()), url) == Rejected(ArticlesMissing) ==>
        Doc() == old(Doc()) && reply == Unanswered
    {
      if !Provided(url) {
        return Text(NoUrlMessage);
      }
      var u := url.value;
      var pending, done := articles, finished;
      if done.None? {
        done := Some([]);
      }
      if pending.None? {
        // `dataObj.articles.filter` on undefined: the write below is never reached
        return Unanswered;
      }
      pending := Some(Without(pending.value, u));
      done := Some(done.value + [u]);
      articles, finished := pending, done;
      reply := Text(FinishedMessage);
    }
  }
}
