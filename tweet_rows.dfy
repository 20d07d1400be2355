/**
 * The tweets the scraper yields, the 18 CSV columns, and the mapping of one
 * tweet to one row: first a dictionary keyed by column name, then the row
 * that appending the dictionary to a frame with those columns produces.
 */
module TweetRows {
  import opened Wrappers

  /** A `datetime` value, carried through unchanged. */
  datatype Timestamp = Timestamp(iso: string)

  /** An embedded tweet object (a retweeted or quoted tweet), carried through unchanged. */
  datatype PostRef = PostRef(id: int)

  /** The author profile attached to a tweet, as far as the mapping reads it. */
  datatype User = User(
    username: string,
    displayname: string,
    description: string,
    verified: bool,
    location: string,
    created: Timestamp,
    followersCount: int,
    friendsCount: int,
    statusesCount: int)

  /** A tweet, as far as the mapping reads it. */
  datatype Tweet = Tweet(
    id: int,
    date: Timestamp,
    content: string,
    retweetCount: int,
    likeCount: int,
    quoteCount: int,
    replyCount: int,
    retweetedTweet: Option<PostRef>,
    quotedTweet: Option<PostRef>,
    user: User)

  /** One CSV cell, tagged with the kind of value it holds. */
  datatype Cell = Int(i: int) | Text(s: string) | Flag(b: bool) | Time(t: Timestamp) | Ref(r: Option<PostRef>)

  /** One CSV line: the header or a data row. */
  type Row = seq<Cell>

  /** The frame's columns; `Name` is the column name written in the header. */
  datatype Column =
    | TweetId | Date | Body | Retweets | Likes | QuoteTweets | Replies
    | RetweetedTweet | QuotedTweet | UserName | UserDisplayName
    | UserDescription | UserVerified | UserLocation | UserCreated
    | UserFollowers | UserFollowing | UserTweetsCount
  {
    function Name(): string {
      match this
      case TweetId => "tweet_id"
      case Date => "date"
      case Body => "tweet"
      case Retweets => "retweets"
      case Likes => "likes"
      case QuoteTweets => "quote_tweets"
      case Replies => "replies"
      case RetweetedTweet => "retweeted_tweet"
      case QuotedTweet => "quoted_tweet"
      case UserName => "user_name"
      case UserDisplayName => "user_display_name"
      case UserDescription => "user_description"
      case UserVerified => "user_verified"
      case UserLocation => "user_location"
      case UserCreated => "user_created"
      case UserFollowers => "user_followers"
      case UserFollowing => "user_following"
      case UserTweetsCount => "user_tweets_count"
    }
  }

  /** The column a header name stands for. */
  function ColumnNamed(name: string): Option<Column> {
    if name == "tweet_id" then Some(TweetId)
    else if name == "date" then Some(Date)
    else if name == "tweet" then Some(Body)
    else if name == "retweets" then Some(Retweets)
    else if name == "likes" then Some(Likes)
    else if name == "quote_tweets" then Some(QuoteTweets)
    else if name == "replies" then Some(Replies)
    else if name == "retweeted_tweet" then Some(RetweetedTweet)
    else if name == "quoted_tweet" then Some(QuotedTweet)
    else if name == "user_name" then Some(UserName)
    else if name == "user_display_name" then Some(UserDisplayName)
    else if name == "user_description" then Some(UserDescription)
    else if name == "user_verified" then Some(UserVerified)
    else if name == "user_location" then Some(UserLocation)
    else if name == "user_created" then Some(UserCreated)
    else if name == "user_followers" then Some(UserFollowers)
    else if name == "user_following" then Some(UserFollowing)
    else if name == "user_tweets_count" then Some(UserTweetsCount)
    else None
  }

  /** Every column name is read back as its column, so no two columns share a name. */
  lemma ColumnNamedName(c: Column)
    ensures ColumnNamed(c.Name()) == Some(c)
  {
  }

  /** The columns of the frame, in order. */
  const Columns: seq<Column> := [
    TweetId, Date, Body, Retweets, Likes, QuoteTweets, Replies,
    RetweetedTweet, QuotedTweet, UserName, UserDisplayName,
    UserDescription, UserVerified, UserLocation, UserCreated,
    UserFollowers, UserFollowing, UserTweetsCount]

  /** The header line: the column names, in order. */
  function Header(): (h: Row)
    ensures |h| == |Columns| == 18
    ensures forall i :: 0 <= i < |Columns| ==> h[i] == Text(Columns[i].Name())
  {
    seq(|Columns|, i requires 0 <= i < |Columns| => Text(Columns[i].Name()))
  }

  /**
   * The dictionary built for one tweet, keyed by column. The following and
   * tweet counts come from the profile's `friendsCount` and `statusesCount`;
   * `TweetElemKeys` shows it has exactly one entry per column.
   */
  function TweetElem(t: Tweet): (elem: map<Column, Cell>)
    ensures UserFollowing in elem && elem[UserFollowing] == Int(t.user.friendsCount)
    ensures UserTweetsCount in elem && elem[UserTweetsCount] == Int(t.user.statusesCount)
  {
    map[
      TweetId := Int(t.id),
      Date := Time(t.date),
      Body := Text(t.content),
      Retweets := Int(t.retweetCount),
      Likes := Int(t.likeCount),
      QuoteTweets := Int(t.quoteCount),
      Replies := Int(t.replyCount),
      RetweetedTweet := Ref(t.retweetedTweet),
      QuotedTweet := Ref(t.quotedTweet),
      UserName := Text(t.user.username),
      UserDisplayName := Text(t.user.displayname),
      UserDescription := Text(t.user.description),
      UserVerified := Flag(t.user.verified),
      UserLocation := Text(t.user.location),
      UserCreated := Time(t.user.created),
      UserFollowers := Int(t.user.followersCount),
      UserFollowing := Int(t.user.friendsCount),
      UserTweetsCount := Int(t.user.statusesCount)]
  }

  /**
   * The dictionary has exactly one entry per column: appending it to the
   * frame neither adds a column nor leaves one empty.
   */
  lemma TweetElemKeys(t: Tweet)
    ensures TweetElem(t).Keys == set c | c in Columns
  {
  }

  /** The row a dictionary becomes once appended to a frame with `Columns`. */
  function RowOf(elem: map<Column, Cell>): (r: Row)
    requires forall c :: c in Columns ==> c in elem
    ensures |r| == |Columns|
    ensures forall i :: 0 <= i < |Columns| ==> r[i] == elem[Columns[i]]
  {
    seq(|Columns|, i requires 0 <= i < |Columns| => elem[Columns[i]])
  }

  /**
   * The data row written for one tweet: one cell per column.
   * `DecodeTweetRow` shows it carries every field of the tweet, and
   * `TweetRowRenamings` where the two renamed counts land.
   */
  function TweetRow(t: Tweet): (r: Row)
    ensures |r| == |Columns|
  {
    TweetElemKeys(t);
    RowOf(TweetElem(t))
  }

  /** The data row is the tweet's dictionary appended to the frame. */
  lemma TweetElemRow(t: Tweet)
    ensures forall c :: c in Columns ==> c in TweetElem(t)
    ensures RowOf(TweetElem(t)) == TweetRow(t)
  {
    TweetElemKeys(t);
  }

  /**
   * Reads a data row back into a tweet, column by column, or `None` when the
   * row does not have 18 cells of the expected kinds.
   */
  function DecodeRow(r: Row): Option<Tweet> {
    if |r| != 18 then None
    else if !(r[0].Int? && r[1].Time? && r[2].Text? && r[3].Int? && r[4].Int? && r[5].Int?
              && r[6].Int? && r[7].Ref? && r[8].Ref? && r[9].Text? && r[10].Text? && r[11].Text?
              && r[12].Flag? && r[13].Text? && r[14].Time? && r[15].Int? && r[16].Int? && r[17].Int?)
    then None
    else
      var user := User(r[9].s, r[10].s, r[11].s, r[12].b, r[13].s, r[14].t, r[15].i, r[16].i, r[17].i);
      Some(Tweet(r[0].i, r[1].t, r[2].s, r[3].i, r[4].i, r[5].i, r[6].i, r[7].r, r[8].r, user))
  }

  /**
   * The row carries every field of the tweet, each under its own column, so
   * reading it back recovers the tweet: no field is dropped, swapped or altered.
   */
  lemma DecodeTweetRow(t: Tweet)
    ensures DecodeRow(TweetRow(t)) == Some(t)
  {
    TweetRowCells(t);
    DecodeCells(t);
  }

  lemma DecodeCells(t: Tweet)
    ensures DecodeRow([
      Int(t.id), Time(t.date), Text(t.content), Int(t.retweetCount), Int(t.likeCount),
      Int(t.quoteCount), Int(t.replyCount), Ref(t.retweetedTweet), Ref(t.quotedTweet),
      Text(t.user.username), Text(t.user.displayname), Text(t.user.description),
      Flag(t.user.verified), Text(t.user.location), Time(t.user.created),
      Int(t.user.followersCount), Int(t.user.friendsCount), Int(t.user.statusesCount)]) == Some(t)
  {
  }

  /** The data row, cell by cell in column order. */
  lemma TweetRowCells(t: Tweet)
    ensures TweetRow(t) == [
      Int(t.id), Time(t.date), Text(t.content), Int(t.retweetCount), Int(t.likeCount),
      Int(t.quoteCount), Int(t.replyCount), Ref(t.retweetedTweet), Ref(t.quotedTweet),
      Text(t.user.username), Text(t.user.displayname), Text(t.user.description),
      Flag(t.user.verified), Text(t.user.location), Time(t.user.created),
      Int(t.user.followersCount), Int(t.user.friendsCount), Int(t.user.statusesCount)]
  {
  }

  /**
   * The two renamed fields: the following count comes from `friendsCount`
   * and the tweet count from `statusesCount`; the row is as wide as the header.
   */
  lemma TweetRowRenamings(t: Tweet)
    ensures |TweetRow(t)| == |Header()|
    ensures Columns[16].Name() == "user_following" && TweetRow(t)[16] == Int(t.user.friendsCount)
    ensures Columns[17].Name() == "user_tweets_count" && TweetRow(t)[17] == Int(t.user.statusesCount)
  {
  }

  /** Distinct tweets give distinct rows. */
  lemma TweetRowInjective(t: Tweet, u: Tweet)
    requires TweetRow(t) == TweetRow(u)
    ensures t == u
  {
    DecodeTweetRow(t);
    DecodeTweetRow(u);
  }
}
