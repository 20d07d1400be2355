/**
 * The argument check and the search expression that `scrape_twitter` hands
 * to the scraper: an optional free-text query, an optional author, and two
 * optional date bounds, rendered as space-terminated clauses in a fixed order.
 */
module SearchQuery {
  import opened Wrappers

  /** The exception raised when neither a query nor a user is given. */
  datatype ScrapeError = MustSpecifyQueryOrUser

  /** The four keyword arguments of `scrape_twitter` that shape the search. */
  datatype Criteria = Criteria(query: Option<string>, user: Option<string>,
                               since: Option<string>, until: Option<string>)

  /** Python truthiness of an optional string: `None` and `""` are falsy. */
  predicate Truthy(v: Option<string>) {
    v.Some? && v.value != ""
  }

  /** `f"{prefix}{v} " if v else ""`: one clause, or nothing when `v` is falsy. */
  function Clause(prefix: string, v: Option<string>): string {
    if Truthy(v) then prefix + v.value + " " else ""
  }

  /**
   * The argument check followed by the search string, appended clause by
   * clause in the order the source writes them.
   */
  function BuildSearch(c: Criteria): (r: Result<string, ScrapeError>)
    ensures r.Failure? <==> c.query.None? && c.user.None?
    ensures r.Failure? ==> r.error == MustSpecifyQueryOrUser
  {
    if c.query.None? && c.user.None? then Failure(MustSpecifyQueryOrUser)
    else
      var s := Clause("", c.query);
      var s := s + Clause("from:", c.user);
      var s := s + Clause("since:", c.since);
      var s := s + Clause("until:", c.until);
      Success(s)
  }

  // ---------------------------------------------------------------------
  // An independent, structured view of the same expression: the list of
  // present clauses, each an operator and its argument.

  /** The search operators, in the order the expression lists them. */
  datatype Operator = Text | From | Since | Until {
    /** The operator keyword written before the argument. */
    function Prefix(): string {
      match this
      case Text => ""
      case From => "from:"
      case Since => "since:"
      case Until => "until:"
    }

    /** Position of the operator in the fixed clause order. */
    function Rank(): nat {
      match this
      case Text => 0
      case From => 1
      case Since => 2
      case Until => 3
    }
  }

  /** A present clause: an operator applied to a non-empty argument. */
  datatype Term = Term(op: Operator, arg: string) {
    /** The clause as one word of the expression, without its trailing space. */
    function Word(): string {
      op.Prefix() + arg
    }
  }

  /** The criteria field an operator reads. */
  function Arg(c: Criteria, op: Operator): Option<string> {
    match op
    case Text => c.query
    case From => c.user
    case Since => c.since
    case Until => c.until
  }

  /** The clause for `op` as a list of zero or one terms. */
  function TermIf(c: Criteria, op: Operator): (ts: seq<Term>)
    ensures |ts| <= 1
    ensures ts != [] <==> Truthy(Arg(c, op))
    ensures ts != [] ==> ts[0] == Term(op, Arg(c, op).value)
  {
    if Truthy(Arg(c, op)) then [Term(op, Arg(c, op).value)] else []
  }

  /** The operators in the order the expression lists them. */
  const Order: seq<Operator> := [Text, From, Since, Until]

  /** The present clauses among `ops`, in the order of `ops`. */
  function Present(c: Criteria, ops: seq<Operator>): seq<Term> {
    if ops == [] then [] else TermIf(c, ops[0]) + Present(c, ops[1..])
  }

  /** The present clauses of the criteria, in operator order. */
  function Terms(c: Criteria): seq<Term> {
    Present(c, Order)
  }

  /** Operators listed with strictly increasing rank. */
  predicate Ascending(ops: seq<Operator>) {
    forall i, j :: 0 <= i < j < |ops| ==> ops[i].Rank() < ops[j].Rank()
  }

  /** Terms listed with strictly increasing operator rank. */
  predicate TermsAscending(ts: seq<Term>) {
    forall i, j :: 0 <= i < j < |ts| ==> ts[i].op.Rank() < ts[j].op.Rank()
  }

  /** Words of a list of terms. */
  function WordsOf(ts: seq<Term>): (ws: seq<string>)
    ensures |ws| == |ts|
    ensures forall i :: 0 <= i < |ts| ==> ws[i] == ts[i].Word()
  {
    seq(|ts|, i requires 0 <= i < |ts| => ts[i].Word())
  }

  /**
   * The present clauses among `ops` are exactly those whose argument is
   * truthy, each carrying that argument, and they keep the order of `ops`.
   */
  lemma {:induction false} PresentSpec(c: Criteria, ops: seq<Operator>)
    ensures forall t :: t in Present(c, ops) ==> t.op in ops && Arg(c, t.op) == Some(t.arg) && t.arg != ""
    ensures forall op :: op in ops && Truthy(Arg(c, op)) ==> Term(op, Arg(c, op).value) in Present(c, ops)
    ensures Ascending(ops) ==> TermsAscending(Present(c, ops))
  {
    if ops != [] {
      var head, tail := TermIf(c, ops[0]), Present(c, ops[1..]);
      PresentSpec(c, ops[1..]);
      assert Present(c, ops) == head + tail;
      forall op | op in ops && Truthy(Arg(c, op))
        ensures Term(op, Arg(c, op).value) in Present(c, ops)
      {
        if op == ops[0] {
          assert Term(op, Arg(c, op).value) in head;
        } else {
          assert op in ops[1..];
        }
      }
      if Ascending(ops) {
        assert Ascending(ops[1..]);
        forall t | t in tail ensures ops[0].Rank() < t.op.Rank() {
          var k :| 0 <= k < |ops[1..]| && ops[1..][k] == t.op;
          assert ops[k + 1] == t.op;
        }
        var ts := head + tail;
        forall i, j | 0 <= i < j < |ts| ensures ts[i].op.Rank() < ts[j].op.Rank() {
          if i < |head| {
            assert ts[i] == head[0] && ts[i].op == ops[0];
            assert ts[j] == tail[j - |head|];
            assert ts[j] in tail;
          } else {
            assert ts[i] == tail[i - |head|] && ts[j] == tail[j - |head|];
          }
        }
      }
    }
  }

  /**
   * The present clauses are exactly those whose argument is truthy, each
   * with that argument, each operator at most once and in the fixed order
   * query, from, since, until.
   */
  lemma TermsSpec(c: Criteria)
    ensures forall op: Operator :: (exists t :: t in Terms(c) && t.op == op) <==> Truthy(Arg(c, op))
    ensures forall t :: t in Terms(c) ==> Arg(c, t.op) == Some(t.arg) && t.arg != ""
    ensures TermsAscending(Terms(c))
  {
    PresentSpec(c, Order);
    forall op: Operator ensures (exists t :: t in Terms(c) && t.op == op) <==> Truthy(Arg(c, op)) {
      assert op == Order[op.Rank()];
      if Truthy(Arg(c, op)) {
        assert Term(op, Arg(c, op).value) in Terms(c);
      }
    }
  }

  // ---------------------------------------------------------------------
  // Space-terminated words: rendering and reading back.

  /** Each word followed by one space, concatenated. */
  function Unwords(ws: seq<string>): (s: string)
    ensures s == [] <==> ws == []
    ensures s != [] ==> s[|s| - 1] == ' '
  {
    if ws == [] then "" else ws[0] + " " + Unwords(ws[1..])
  }

  lemma {:induction false} UnwordsAppend(a: seq<string>, b: seq<string>)
    ensures Unwords(a + b) == Unwords(a) + Unwords(b)
  {
    if a == [] {
      assert a + b == b;
    } else {
      assert (a + b)[1..] == a[1..] + b;
      UnwordsAppend(a[1..], b);
    }
  }

  /** Index of the first space in `s`, or `|s|` when there is none. */
  function FirstSpace(s: string): (i: nat)
    ensures i <= |s|
    ensures forall j :: 0 <= j < i ==> s[j] != ' '
    ensures i < |s| ==> s[i] == ' '
  {
    if s == [] || s[0] == ' ' then 0 else 1 + FirstSpace(s[1..])
  }

  /** Splits `s` into the words that precede each space (and a last, unterminated one). */
  function Words(s: string): seq<string>
    decreases |s|
  {
    if s == [] then []
    else
      var i := FirstSpace(s);
      if i < |s| then [s[..i]] + Words(s[i + 1..]) else [s]
  }

  predicate SpaceFree(w: string) {
    forall k :: 0 <= k < |w| ==> w[k] != ' '
  }

  /** Reading back space-terminated words that contain no space recovers them. */
  lemma {:induction false} WordsUnwords(ws: seq<string>)
    requires forall i :: 0 <= i < |ws| ==> SpaceFree(ws[i])
    ensures Words(Unwords(ws)) == ws
  {
    if ws != [] {
      WordsStep(ws[0], Unwords(ws[1..]));
      WordsUnwords(ws[1..]);
      assert [ws[0]] + ws[1..] == ws;
    }
  }

  /** Splitting a space-free word followed by a space peels off that word. */
  lemma WordsStep(w: string, rest: string)
    requires SpaceFree(w)
    ensures Words(w + " " + rest) == [w] + Words(rest)
  {
    var s := w + " " + rest;
    FirstSpaceOfWord(w, rest);
    assert s[..|w|] == w;
    assert s[|w| + 1..] == rest;
  }

  lemma {:induction false} FirstSpaceOfWord(w: string, rest: string)
    requires SpaceFree(w)
    ensures FirstSpace(w + " " + rest) == |w|
  {
    if w != [] {
      assert (w + " " + rest)[1..] == w[1..] + " " + rest;
      FirstSpaceOfWord(w[1..], rest);
    }
  }

  // ---------------------------------------------------------------------
  // The source's expression agrees with the structured view.

  /** The rendering of a list of terms: each word followed by one space. */
  function Render(ts: seq<Term>): string {
    Unwords(WordsOf(ts))
  }

  lemma RenderAppend(a: seq<Term>, b: seq<Term>)
    ensures Render(a + b) == Render(a) + Render(b)
  {
    assert WordsOf(a + b) == WordsOf(a) + WordsOf(b);
    UnwordsAppend(WordsOf(a), WordsOf(b));
  }

  lemma RenderTermIf(c: Criteria, op: Operator)
    ensures Render(TermIf(c, op)) == Clause(op.Prefix(), Arg(c, op))
  {
  }

  lemma {:induction false} RenderPresentStep(c: Criteria, ops: seq<Operator>)
    requires ops != []
    ensures Render(Present(c, ops)) == Clause(ops[0].Prefix(), Arg(c, ops[0])) + Render(Present(c, ops[1..]))
  {
    RenderAppend(TermIf(c, ops[0]), Present(c, ops[1..]));
    RenderTermIf(c, ops[0]);
  }

  /** The rendering of the present clauses, unfolded one operator at a time. */
  lemma {:induction false} RenderTermsUnfolded(c: Criteria)
    ensures Render(Terms(c)) == Clause("", c.query) + (Clause("from:", c.user) + (Clause("since:", c.since) + Clause("until:", c.until)))
  {
    var o1, o2, o3 := Order[1..], Order[2..], Order[3..];
    assert o1[1..] == o2 && o2[1..] == o3 && o3[1..] == [];
    assert Order[0] == Text && o1[0] == From && o2[0] == Since && o3[0] == Until;
    var q, u, s, t := Clause("", c.query), Clause("from:", c.user), Clause("since:", c.since), Clause("until:", c.until);
    RenderPresentStep(c, o3);
    assert Render(Present(c, o3)) == t;
    RenderPresentStep(c, o2);
    assert Render(Present(c, o2)) == s + t;
    RenderPresentStep(c, o1);
    assert Render(Present(c, o1)) == u + (s + t);
    RenderPresentStep(c, Order);
  }

  /**
   * A successful search string is the present clauses, in order, each
   * written as its prefix and argument and followed by one space.
   */
  lemma BuildSearchRendersTerms(c: Criteria)
    requires BuildSearch(c).Success?
    ensures BuildSearch(c).value == Render(Terms(c))
  {
    BuildSearchUnfolded(c);
    RenderTermsUnfolded(c);
    ConcatAssociates(Clause("", c.query), Clause("from:", c.user), Clause("since:", c.since), Clause("until:", c.until));
  }

  lemma BuildSearchUnfolded(c: Criteria)
    requires BuildSearch(c).Success?
    ensures BuildSearch(c).value == Clause("", c.query) + Clause("from:", c.user) + Clause("since:", c.since) + Clause("until:", c.until)
  {
  }

  lemma ConcatAssociates(q: string, u: string, s: string, t: string)
    ensures q + (u + (s + t)) == q + u + s + t
  {
  }

  /**
   * When no argument holds a space, splitting the search string on spaces
   * yields exactly the present clauses, in order, each with its prefix:
   * no absent clause leaves a stray keyword.
   */
  lemma SearchWords(c: Criteria)
    requires BuildSearch(c).Success?
    requires forall op: Operator :: Arg(c, op).Some? ==> SpaceFree(Arg(c, op).value)
    ensures Words(BuildSearch(c).value) == WordsOf(Terms(c))
  {
    BuildSearchRendersTerms(c);
    TermsSpec(c);
    var ts := Terms(c);
    forall i | 0 <= i < |ts| ensures SpaceFree(WordsOf(ts)[i]) {
      var t := ts[i];
      assert t in ts;
      assert Arg(c, t.op) == Some(t.arg);
      TermWordSpaceFree(t);
    }
    WordsUnwords(WordsOf(ts));
  }

  lemma TermWordSpaceFree(t: Term)
    requires SpaceFree(t.arg)
    ensures SpaceFree(t.Word())
  {
  }

  /** The search string is empty exactly when no clause is present, and otherwise ends in one space. */
  lemma SearchShape(c: Criteria)
    requires BuildSearch(c).Success?
    ensures var s := BuildSearch(c).value;
      && (s == "" <==> !Truthy(c.query) && !Truthy(c.user) && !Truthy(c.since) && !Truthy(c.until))
      && (s != "" ==> s[|s| - 1] == ' ')
  {
  }

  /**
   * The argument check only tests for `None`: an empty query with no user
   * passes it, yet contributes neither a text nor a `from:` clause.
   */
  lemma EmptyQueryPassesCheck(since: Option<string>, until: Option<string>)
    ensures var c := Criteria(Some(""), None, since, until);
      && BuildSearch(c).Success?
      && BuildSearch(c).value == Clause("since:", since) + Clause("until:", until)
      && forall t :: t in Terms(c) ==> t.op != Text && t.op != From
  {
  }

  /** A query with two date bounds and no author. */
  lemma RustExample()
    ensures BuildSearch(Criteria(Some("rust"), None, Some("2024-01-01"), Some("2024-01-02")))
         == Success("rust " + "since:2024-01-01 " + "until:2024-01-02 ")
  {
    var c := Criteria(Some("rust"), None, Some("2024-01-01"), Some("2024-01-02"));
    BuildSearchUnfolded(c);
    ClauseOfValue("", "rust");
    ClauseOfValue("since:", "2024-01-01");
    ClauseOfValue("until:", "2024-01-02");
    assert Clause("from:", None) == "";
    assert "" + "rust" + " " == "rust ";
    assert "since:" + "2024-01-01" + " " == "since:2024-01-01 ";
    assert "until:" + "2024-01-02" + " " == "until:2024-01-02 ";
    assert "rust " + "" == "rust ";
  }

  lemma ClauseOfValue(prefix: string, v: string)
    requires v != ""
    ensures Clause(prefix, Some(v)) == prefix + v + " "
  {
  }
}
