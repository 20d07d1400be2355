/**
 * The directory of CSV files `scrape_twitter` writes to, as a map from file
 * name to the rows it holds. `Write` is `to_csv` in its default mode, which
 * truncates; `Append` is `to_csv(mode="a")`, which creates a missing file.
 */
module CsvFiles {
  import opened TweetRows

  class CsvStore {
    var files: map<string, seq<Row>>

    constructor (initial: map<string, seq<Row>>)
      ensures files == initial
    {
      files := initial;
    }

    /** The rows in file `name`; a missing file reads as empty. */
    function Contents(name: string): seq<Row>
      reads this
    {
      if name in files then files[name] else []
    }

    /** Creates or truncates `name` so that it holds exactly `rows`. */
    method Write(name: string, rows: seq<Row>)
      modifies this
      ensures files == old(files)[name := rows]
      ensures Contents(name) == rows
    {
      files := files[name := rows];
    }

    /** Adds `rows` at the end of `name`, creating it when missing. */
    method Append(name: string, rows: seq<Row>)
      modifies this
      ensures files == old(files)[name := old(Contents(name)) + rows]
      ensures Contents(name) == old(Contents(name)) + rows
    {
      files := files[name := Contents(name) + rows];
    }
  }
}
