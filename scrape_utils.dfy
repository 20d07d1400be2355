/**
 * `scrape_twitter`: check the arguments, build the search string, write the
 * header to `tweets_<label>.csv`, then append one row per tweet the scraper
 * yields. The scraper is the parameter `search`, the tweets it yields for a
 * search string; the file system is a `CsvStore`.
 */
module ScrapeUtils {
  import opened Wrappers
  import opened SearchQuery
  import opened TweetRows
  import opened CsvFiles

  /** Python's `f"{v}"` for a string or `None`. */
  function Format(v: Option<string>): string {
    match v
    case None => "None"
    case Some(s) => s
  }

  /** The label in the file name: the query when it is truthy, otherwise the user. */
  function Label(query: Option<string>, user: Option<string>): string {
    if Truthy(query) then query.value else Format(user)
  }

  /** `f"tweets_{query if query else user}.csv"`. */
  function FileName(query: Option<string>, user: Option<string>): (name: string)
    ensures |name| == |Label(query, user)| + 11
    ensures name[..7] == "tweets_" && name[|name| - 4..] == ".csv"
    ensures name[7..|name| - 4] == Label(query, user)
  {
    "tweets_" + Label(query, user) + ".csv"
  }

  /** Distinct labels name distinct files, and equal labels the same file. */
  lemma FileNameInjective(q1: Option<string>, u1: Option<string>, q2: Option<string>, u2: Option<string>)
    ensures FileName(q1, u1) == FileName(q2, u2) <==> Label(q1, u1) == Label(q2, u2)
  {
  }

  /**
   * An empty query with no user gets past the argument check and writes to
   * `tweets_None.csv`; an empty user with no query writes to `tweets_.csv`.
   */
  lemma FileNameFalsyArguments()
    ensures FileName(Some(""), None) == "tweets_None.csv"
    ensures FileName(None, Some("")) == "tweets_.csv"
  {
  }

  /** The data rows for a sequence of tweets, one per tweet, in order. */
  function Rows(ts: seq<Tweet>): (rs: seq<Row>)
    ensures |rs| == |ts|
    ensures forall i :: 0 <= i < |ts| ==> rs[i] == TweetRow(ts[i])
  {
    if ts == [] then [] else Rows(ts[..|ts| - 1]) + [TweetRow(ts[|ts| - 1])]
  }

  /** Taking one more tweet adds that tweet's row at the end. */
  lemma RowsStep(ts: seq<Tweet>, k: nat)
    requires k < |ts|
    ensures Rows(ts[..k + 1]) == Rows(ts[..k]) + [TweetRow(ts[k])]
  {
    assert ts[..k + 1][..k] == ts[..k];
  }

  /**
   * Reads a file back: its first row must be the header and every other row
   * must decode to a tweet; the tweets come back in file order.
   */
  function ReadBack(file: seq<Row>): Option<seq<Tweet>> {
    if file == [] || file[0] != Header() then None
    else DecodeRows(file[1..])
  }

  function DecodeRows(rs: seq<Row>): Option<seq<Tweet>> {
    if rs == [] then Some([])
    else match (DecodeRow(rs[0]), DecodeRows(rs[1..]))
      case (Some(t), Some(ts)) => Some([t] + ts)
      case _ => None
  }

  lemma {:induction false} DecodeRowsOfTweets(rs: seq<Row>, ts: seq<Tweet>)
    requires |rs| == |ts|
    requires forall i :: 0 <= i < |ts| ==> rs[i] == TweetRow(ts[i])
    ensures DecodeRows(rs) == Some(ts)
  {
    if ts != [] {
      DecodeTweetRow(ts[0]);
      assert DecodeRow(rs[0]) == Some(ts[0]);
      DecodeRowsOfTweets(rs[1..], ts[1..]);
      assert [ts[0]] + ts[1..] == ts;
    }
  }

  /**
   * The file the harvest leaves behind, the header followed by one row per
   * tweet, reads back as exactly the tweets the scraper yielded, in order.
   */
  lemma ReadBackHarvest(ts: seq<Tweet>)
    ensures ReadBack([Header()] + Rows(ts)) == Some(ts)
    ensures |[Header()] + Rows(ts)| == |ts| + 1
  {
    var file := [Header()] + Rows(ts);
    assert file[1..] == Rows(ts);
    DecodeRowsOfTweets(Rows(ts), ts);
  }

  /**
   * The output half of `scrape_twitter`: truncate `name` to the header row,
   * then append one row per tweet, in order. After k tweets the file is the
   * header followed by the rows of the first k tweets.
   */
  method WriteTweets(store: CsvStore, name: string, tweets: seq<Tweet>)
    modifies store
    ensures store.files == old(store.files)[name := [Header()] + Rows(tweets)]
  {
    // The frame is created empty with the 18 columns and never reassigned.
    var tweetsDf: seq<Row> := [];
    var header := Header();
    store.Write(name, [header] + tweetsDf);

    ghost var before := old(store.files);
    for k := 0 to |tweets|
      invariant store.files == before[name := [header] + Rows(tweets[..k])]
    {
      var tweetElem := TweetElem(tweets[k]);
      TweetElemRow(tweets[k]);
      // Appending to the empty frame gives a frame holding this tweet alone.
      var tweetDf := tweetsDf + [RowOf(tweetElem)];
      store.Append(name, tweetDf);
      RowsStep(tweets, k);
      assert [header] + Rows(tweets[..k + 1]) == [header] + Rows(tweets[..k]) + tweetDf;
    }
    assert tweets[..|tweets|] == tweets;
  }

  /**
   * `scrape_twitter(query, user, since, until)`. Raises when both `query` and
   * `user` are `None`, before any file is touched. Otherwise the output file
   * is truncated to the header and then receives one row per tweet yielded
   * for the search string, in order; no other file changes.
   */
  method ScrapeTwitter(store: CsvStore, query: Option<string>, user: Option<string>,
                       since: Option<string>, until: Option<string>,
                       search: string -> seq<Tweet>)
    returns (r: Result<(), ScrapeError>)
    modifies store
    ensures r.Failure? <==> query.None? && user.None?
    ensures r.Failure? ==> r.error == MustSpecifyQueryOrUser && store.files == old(store.files)
    ensures r.Success? ==>
      var c := Criteria(query, user, since, until);
      BuildSearch(c).Success? &&
      store.files == old(store.files)[FileName(query, user) := [Header()] + Rows(search(BuildSearch(c).value))]
  {
    var built := BuildSearch(Criteria(query, user, since, until));
    if built.Failure? {
      return Failure(built.error);
    }
    var searchStr := built.value;

    var tweets := search(searchStr);
    WriteTweets(store, FileName(query, user), tweets);
    return Success(());
  }

  /**
   * A search for "rust" between two dates that yields three tweets leaves
   * `tweets_rust.csv` with a header and three rows.
   */
  method RustExample(t1: Tweet, t2: Tweet, t3: Tweet)
  {
    var store := new CsvStore(map[]);
    var r := ScrapeTwitter(store, Some("rust"), None, Some("2024-01-01"), Some("2024-01-02"), s => [t1, t2, t3]);
    assert r.Success?;
    assert FileName(Some("rust"), None) == "tweets_rust.csv";
    assert |store.files["tweets_rust.csv"]| == 4;
    ReadBackHarvest([t1, t2, t3]);
    assert ReadBack(store.files["tweets_rust.csv"]) == Some([t1, t2, t3]);
  }
}
