# scrape_twitter, modelled in Dafny

`scrape_utils.py` defines one function, `scrape_twitter(query, user, since, until)`.
It queries a tweet scraper and stores every tweet it gets in a CSV file. This
project models the deterministic part of that function:

- **Argument check and search string** (`SearchQuery`). The call fails with
  `ValueError` when `query` and `user` are both `None`. Otherwise a search
  string is built from up to four clauses: `"<query> "`, `"from:<user> "`,
  `"since:<since> "` and `"until:<until> "`, always in that order. A clause is
  written only when its value is truthy, so a `None` or `""` leaves no trace.
  The check tests for `None` only. This means `query=""` with `user=None`
  passes the check, even though neither value then adds a clause.
- **Tweet to row** (`TweetRows`). Each tweet becomes a dictionary with one
  entry per column. Fields are copied one for one. Two columns have names
  unrelated to their source fields: `user_following` comes from
  `friendsCount`, and `user_tweets_count` from `statusesCount`. Appending the
  dictionary to a frame with the 18 columns gives a row in column order.
- **Output file and harvest loop** (`CsvFiles`, `ScrapeUtils`). The output is
  `tweets_<query>.csv` when `query` is truthy, otherwise `tweets_<user>.csv`,
  with Python's `f"{None}"` giving `tweets_None.csv`. The file is first
  truncated to the header row. Then, for each tweet the scraper yields, one
  row is appended. The frame `tweets_df` is never reassigned, so
  `tweets_df.append(...)` always holds exactly the current tweet, and each
  append adds one row. `ScrapeTwitter` checks the arguments, builds the search
  string and calls `WriteTweets`, a method with a `for` loop whose invariant
  is: after k tweets the file is the header followed by the rows of the first
  k tweets.

The scraper is modelled as a parameter `search: string -> seq<Tweet>`: the
tweets it yields for a search string. The file system is a `CsvStore` object
whose `files` map is updated in place. `Write` stands for `to_csv` in its
default (truncating) mode, and `Append` for `to_csv(mode="a")`.

Every operation is paired with an independent statement of its meaning:

- The search string is also built as a list of present clauses (`Terms`) and
  rendered (`Render`), and the two are proved equal.
- When no argument contains a space, splitting the string on spaces (`Words`)
  gives back exactly the present clauses.
- The model's row for a tweet decodes back to that tweet (`DecodeRow`).
- The model's rows for a harvested file decode back (`ReadBack`) to exactly
  the scraped tweets, in order. This is a statement about the model's
  type-tagged rows, not about the CSV text, which loses information (see
  "Left out").

Three facts about the code are worth stating plainly:

- The default dates are evaluated once, when the function is defined, not per
  call. The model takes `since` and `until` as plain arguments.
- `query=""` with `user=None` passes the argument check.
- No frame grows across iterations: each append writes exactly one row.

## Model

| member | source | states |
|---|---|---|
| SearchQuery.BuildSearch | scrape_utils.py:17-23 | the call fails, with the "specify query or user" error, exactly when both `query` and `user` are `None` |
| SearchQuery.TermsSpec | scrape_utils.py:20-23 | a clause is present exactly when its value is truthy, it carries that value, and present clauses are in strictly increasing order query, from, since, until (so each appears at most once) |
| SearchQuery.PresentSpec | scrape_utils.py:20-23 | filtering a list of operators keeps exactly the truthy ones with their values, in the list's order |
| SearchQuery.BuildSearchRendersTerms | scrape_utils.py:20-23 | the built string equals the present clauses, in order, each written as prefix plus value and followed by one space |
| SearchQuery.WordsUnwords | scrape_utils.py:20-23 | space-terminated words without spaces are recovered by splitting on spaces |
| SearchQuery.SearchWords | scrape_utils.py:20-23 | for space-free values, splitting the search string on spaces gives exactly the present clauses with their prefixes; no absent clause leaves a keyword |
| SearchQuery.SearchShape | scrape_utils.py:20-23 | the search string is empty exactly when no value is truthy, and otherwise ends in a space |
| SearchQuery.EmptyQueryPassesCheck | scrape_utils.py:17-21 | `query=""` with `user=None` passes the check, yet the string has no text and no `from:` clause: only the date clauses |
| SearchQuery.RustExample | scrape_utils.py:20-23 | query "rust" with two dates and no user gives the text clause, then the since clause, then the until clause: `rust since:2024-01-01 until:2024-01-02 ` |
| TweetRows.Header | scrape_utils.py:26-27 | the header row is the 18 column names, in the frame's order |
| TweetRows.ColumnNamedName | scrape_utils.py:26-27 | each column name reads back as its own column, so no two columns share a name |
| TweetRows.TweetElem | scrape_utils.py:31-49 | the per-tweet dictionary; its contract places `friendsCount` under `user_following` and `statusesCount` under `user_tweets_count`; TweetElemKeys proves its keys are exactly the 18 columns |
| TweetRows.TweetRow | scrape_utils.py:31-51 | the row written for one tweet has one cell per column; TweetRowCells gives it cell by cell, DecodeTweetRow proves it carries every field, TweetRowRenamings locates the two renamed counts |
| TweetRows.TweetElemKeys | scrape_utils.py:31-49 | the per-tweet dictionary has exactly the 18 columns as keys: none added, none missing |
| TweetRows.RowOf | scrape_utils.py:51 | a dictionary appended to the frame becomes one row of 18 cells, cell i holding the entry for column i |
| TweetRows.TweetRowCells | scrape_utils.py:31-49 | the data row of a tweet, cell by cell in column order |
| TweetRows.DecodeTweetRow | scrape_utils.py:31-49 | reading a tweet's row back recovers the tweet: every field is carried, none swapped or altered |
| TweetRows.TweetRowRenamings | scrape_utils.py:47-48 | the row is as wide as the header; `user_following` holds `friendsCount` and `user_tweets_count` holds `statusesCount` |
| TweetRows.TweetRowInjective | scrape_utils.py:31-49 | distinct tweets give distinct rows |
| CsvFiles.CsvStore.Write | scrape_utils.py:28 | writing in the default mode replaces the file's contents with the given rows and changes no other file |
| CsvFiles.CsvStore.Append | scrape_utils.py:53 | appending adds the rows after the file's current contents, creating a missing file, and changes no other file |
| ScrapeUtils.FileName | scrape_utils.py:28 | the name is `tweets_` + label + `.csv`, the label being the query when truthy and otherwise the user as Python formats it |
| ScrapeUtils.FileNameInjective | scrape_utils.py:28 | two calls name the same file exactly when their labels are equal |
| ScrapeUtils.FileNameFalsyArguments | scrape_utils.py:28 | `query=""`, `user=None` writes `tweets_None.csv`; `query=None`, `user=""` writes `tweets_.csv` |
| ScrapeUtils.Rows | scrape_utils.py:30-53 | one data row per tweet, row i being the row of tweet i |
| ScrapeUtils.ReadBackHarvest | scrape_utils.py:26-53 | the model's harvested file has N+1 rows for N tweets, and its rows decode back to exactly those tweets, in order |
| ScrapeUtils.WriteTweets | scrape_utils.py:26-53 | the named file ends as the header followed by one row per tweet, in order, whatever it held before; no other file changes |
| ScrapeUtils.ScrapeTwitter | scrape_utils.py:17-53 | fails exactly when query and user are both `None`, leaving every file unchanged; otherwise the output file becomes the header plus one row per tweet yielded for the built search string, in order, and no other file changes |

## Left out

- The scraper (`sntwitter.TwitterSearchScraper(...).get_items()`, line 30) is an external network library. It is modelled as a parameter that maps the search string to a finite sequence of tweets. Laziness and unbounded result streams are not modelled.
- Errors raised while the loop runs, by the scraper or by a file write, are not modelled. Such an error would leave a partial file of the header plus the rows written so far; the model's harvest always completes.
- `DataFrame.append` (line 51) exists only in pandas 1.x; pandas 2.0 removed it. The model assumes pandas 1.x, where each call returns a one-row frame in column order. Under pandas 2.x the loop raises `AttributeError` at the first tweet, after the header has been written.
- `print(search_str)` (line 24) and the `tqdm` progress bar (line 30) are console output only.
- The `date.today()` defaults (line 6) depend on the clock. `since` and `until` are plain arguments.
- CSV text details (quoting, escaping, encoding, `index=False`) are not modelled. A file is a sequence of abstract rows of tagged cells. The real CSV text loses information these rows keep: cells carry no type, embedded tweets are written as their `str()`, and `None` and `""` both become an empty cell.
- `datetime` values and embedded tweet objects (`date`, `created`, `retweetedTweet`, `quotedTweet`) are opaque values carried through unchanged. Text profile fields that the scraper may leave as `None` are modelled as strings.
- Arguments are strings or `None`. Other Python types that the function would accept are not modelled.
- Only `scrape_twitter` is modelled.
- SearchQuery.SearchWords: proved only for values without spaces, because a space inside a value (a multi-word query) makes splitting on spaces ambiguous. SearchQuery.BuildSearchRendersTerms covers all inputs.
