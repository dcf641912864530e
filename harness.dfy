/**
 * The benchmark harness shared, with small differences, by the three testers
 * (performance_tester.py, sqlite_performance_tester.py,
 * docker_performance_tester.py): time each query of a fixed suite, create the
 * indexes, time the suites again and report the relative change of each
 * duration. The engine is not modelled: what a query execution does is an
 * input (`Outcome`), and so are the two clock readings around it.
 */
module Harness {
  import opened Text
  import opened Seqs
  import opened LabelMap
  import CliOutput

  /** A suite entry `(query, description)`. */
  datatype Query = Query(sql: string, description: string)

  /** What `cursor.execute(query)` and `fetchall()` did: returned rows, or raised the driver's error. */
  datatype Outcome = Returned(rowCount: nat) | Raised(message: string)

  /** One execution with the `time.time()` readings taken before it and after it. */
  datatype Observation = Observation(outcome: Outcome, start: real, end: real)

  /**
   * `time_query`: the elapsed time between the two readings, or the sentinel
   * `-1` when the execution raised.
   */
  function TimeQuery(obs: Observation): (d: real)
  {
    if obs.outcome.Raised? then -1.0 else obs.end - obs.start
  }

  /** A positive duration always comes from a query that returned, and is its elapsed time. */
  lemma PositiveMeansReturned(obs: Observation)
    requires TimeQuery(obs) > 0.0
    ensures obs.outcome.Returned? && TimeQuery(obs) == obs.end - obs.start
  {
  }

  /** A raised error gives exactly -1, and a query that returned gives end minus start. */
  lemma TimeQuerySentinel(obs: Observation)
    ensures obs.outcome.Raised? ==> TimeQuery(obs) == -1.0
    ensures obs.outcome.Returned? ==> TimeQuery(obs) == obs.end - obs.start
  {
  }

  /**
   * The sentinel is not unambiguous: `time.time()` is not monotonic, so a query
   * that returned can also be timed at -1.
   */
  lemma SentinelAmbiguous()
    ensures TimeQuery(Observation(Returned(0), 1.0, 0.0)) == -1.0
  {
  }

  // ----- suites

  /** `scalar_queries`, the same six in every tester. */
  const ScalarQueries: seq<Query> := [
    Query("SELECT * FROM order_items WHERE price > 100", "Price filter > 100"),
    Query("SELECT * FROM order_items WHERE price BETWEEN 50 AND 200", "Price range 50-200"),
    Query("SELECT order_id, SUM(price) as total FROM order_items GROUP BY order_id HAVING total > 500", "Order total > 500"),
    Query("SELECT * FROM orders WHERE order_purchase_timestamp >= '2018-01-01'", "Orders after 2018-01-01"),
    Query("SELECT COUNT(*) FROM order_items WHERE freight_value > 20", "Count freight > 20"),
    Query("SELECT AVG(price) FROM order_items WHERE price < 1000", "Average price < 1000")
  ]

  /** `fulltext_queries` of the network-driver tester (`MATCH ... AGAINST`). */
  const MySqlTextQueries: seq<Query> := [
    Query("SELECT * FROM order_reviews WHERE MATCH(review_comment_title, review_comment_message) AGAINST('produto')", "Search for 'produto'"),
    Query("SELECT * FROM order_reviews WHERE MATCH(review_comment_title, review_comment_message) AGAINST('entrega')", "Search for 'entrega'"),
    Query("SELECT * FROM order_reviews WHERE MATCH(review_comment_title, review_comment_message) AGAINST('qualidade excelente' IN BOOLEAN MODE)", "Boolean search 'qualidade excelente'"),
    Query("SELECT * FROM order_reviews WHERE MATCH(review_comment_title, review_comment_message) AGAINST('rapido +entrega' IN BOOLEAN MODE)", "Boolean search 'rapido +entrega'"),
    Query("SELECT review_score, COUNT(*) FROM order_reviews WHERE MATCH(review_comment_title, review_comment_message) AGAINST('recomendo') GROUP BY review_score", "Search 'recomendo' grouped by score")
  ]

  /** `fulltext_queries` of the container tester. */
  const DockerTextQueries: seq<Query> := [
    Query("SELECT * FROM order_reviews WHERE MATCH(review_comment_title, review_comment_message) AGAINST('produto')", "Search for 'produto'"),
    Query("SELECT * FROM order_reviews WHERE MATCH(review_comment_title, review_comment_message) AGAINST('entrega')", "Search for 'entrega'"),
    Query("SELECT * FROM order_reviews WHERE MATCH(review_comment_title, review_comment_message) AGAINST('qualidade excelente' IN BOOLEAN MODE)", "Boolean search 'qualidade excelente'"),
    Query("SELECT * FROM order_reviews WHERE MATCH(review_comment_title, review_comment_message) AGAINST('+entrega +rápida' IN BOOLEAN MODE)", "Boolean search '+entrega +rápida'"),
    Query("SELECT review_score, COUNT(*) FROM order_reviews WHERE MATCH(review_comment_title, review_comment_message) AGAINST('recomendo') GROUP BY review_score", "Search 'recomendo' grouped by score")
  ]

  /** `fulltext_queries` of the embedded-engine tester (`LIKE` patterns). */
  const SqliteTextQueries: seq<Query> := [
    Query("SELECT * FROM order_reviews WHERE review_comment_message LIKE '%produto%'", "Search for 'produto'"),
    Query("SELECT * FROM order_reviews WHERE review_comment_message LIKE '%entrega%'", "Search for 'entrega'"),
    Query("SELECT * FROM order_reviews WHERE review_comment_message LIKE '%qualidade%' AND review_comment_message LIKE '%excelente%'", "Search 'qualidade excelente'"),
    Query("SELECT * FROM order_reviews WHERE review_comment_message LIKE '%rapido%' AND review_comment_message LIKE '%entrega%'", "Search 'rapido entrega'"),
    Query("SELECT review_score, COUNT(*) FROM order_reviews WHERE review_comment_message LIKE '%recomendo%' GROUP BY review_score", "Search 'recomendo' grouped by score")
  ]

  /** `index_queries` of the two MySQL testers. */
  const MySqlIndexes: seq<Query> := [
    Query("CREATE INDEX idx_order_items_price ON order_items(price)", "Index on order_items.price"),
    Query("CREATE INDEX idx_order_items_freight ON order_items(freight_value)", "Index on order_items.freight_value"),
    Query("CREATE INDEX idx_orders_purchase_timestamp ON orders(order_purchase_timestamp)", "Index on orders.order_purchase_timestamp"),
    Query("CREATE INDEX idx_order_items_order_price ON order_items(order_id, price)", "Composite index on order_id, price"),
    Query("CREATE INDEX idx_reviews_score ON order_reviews(review_score)", "Index on order_reviews.review_score")
  ]

  /** `index_queries` of the embedded-engine tester: the MySQL five and an index on the review text. */
  const SqliteIndexes: seq<Query> := MySqlIndexes + [
    Query("CREATE INDEX idx_reviews_message ON order_reviews(review_comment_message)", "Index on review_comment_message")
  ]

  function Descriptions(suite: seq<Query>): seq<string>
  {
    MapSeq(suite, (q: Query) => q.description)
  }

  function Statements(suite: seq<Query>): seq<string>
  {
    MapSeq(suite, (q: Query) => q.sql)
  }

  /** The `(description, time_query(...))` pairs in suite order; `observe(k)` is the k-th execution. */
  function Timings(suite: seq<Query>, observe: nat -> Observation): (ps: seq<Entry>)
    ensures |ps| == |suite|
    ensures forall k :: 0 <= k < |suite| ==> ps[k] == Entry(suite[k].description, TimeQuery(observe(k)))
  {
    seq(|suite|, k requires 0 <= k < |suite| => Entry(suite[k].description, TimeQuery(observe(k))))
  }

  /** The dict a suite runner returns. */
  function SuiteResults(suite: seq<Query>, observe: nat -> Observation): Dict
  {
    FromPairs(Timings(suite, observe))
  }

  /**
   * `run_scalar_field_tests` / `run_fulltext_search_tests`: for each query in
   * order, `results[description] = self.time_query(query, description)`.
   */
  method RunSuite(suite: seq<Query>, observe: nat -> Observation) returns (results: Dict)
    ensures results == SuiteResults(suite, observe)
  {
    results := [];
    var k := 0;
    while k < |suite|
      invariant 0 <= k <= |suite|
      invariant results == FromPairs(Timings(suite[..k], observe))
    {
      var executionTime := TimeQuery(observe(k));
      assert Timings(suite[..k + 1], observe) == Timings(suite[..k], observe) + [Entry(suite[k].description, executionTime)];
      results := Put(results, suite[k].description, executionTime);
      k := k + 1;
    }
    assert suite[..k] == suite;
  }

  /**
   * With distinct descriptions, the dict holds one entry per query, in suite
   * order, each with that query's timing: nothing is overwritten.
   */
  lemma SuiteResultsExact(suite: seq<Query>, observe: nat -> Observation)
    requires Distinct(Descriptions(suite))
    ensures SuiteResults(suite, observe) == Timings(suite, observe)
    ensures Labels(SuiteResults(suite, observe)) == Descriptions(suite)
  {
    var ps := Timings(suite, observe);
    assert Labels(ps) == Descriptions(suite);
    FromPairsDistinct(ps);
  }

  /** Whatever the timings, the dict's keys are the suite's descriptions. */
  lemma SuiteKeys(suite: seq<Query>, observe: nat -> Observation, name: string)
    ensures name in Labels(SuiteResults(suite, observe)) <==> name in Descriptions(suite)
  {
    var ps := Timings(suite, observe);
    FromPairsKeys(ps, name);
    assert Labels(ps) == Descriptions(suite);
  }

  /** The scalar suite yields exactly its six labels, whatever the executions did. */
  lemma ScalarSuiteShape(observe: nat -> Observation)
    ensures |SuiteResults(ScalarQueries, observe)| == 6
    ensures Labels(SuiteResults(ScalarQueries, observe)) == Descriptions(ScalarQueries)
  {
    var ds := Descriptions(ScalarQueries);
    assert ds == ["Price filter > 100", "Price range 50-200", "Order total > 500",
                  "Orders after 2018-01-01", "Count freight > 20", "Average price < 1000"];
    SuiteResultsExact(ScalarQueries, observe);
  }

  /** Each text suite yields exactly its five labels. */
  lemma MySqlTextSuiteShape(observe: nat -> Observation)
    ensures |SuiteResults(MySqlTextQueries, observe)| == 5
    ensures Labels(SuiteResults(MySqlTextQueries, observe)) == Descriptions(MySqlTextQueries)
  {
    var ds := Descriptions(MySqlTextQueries);
    assert ds == ["Search for 'produto'", "Search for 'entrega'", "Boolean search 'qualidade excelente'",
                  "Boolean search 'rapido +entrega'", "Search 'recomendo' grouped by score"];
    SuiteResultsExact(MySqlTextQueries, observe);
  }

  lemma DockerTextSuiteShape(observe: nat -> Observation)
    ensures |SuiteResults(DockerTextQueries, observe)| == 5
    ensures Labels(SuiteResults(DockerTextQueries, observe)) == Descriptions(DockerTextQueries)
  {
    var ds := Descriptions(DockerTextQueries);
    assert ds == ["Search for 'produto'", "Search for 'entrega'", "Boolean search 'qualidade excelente'",
                  "Boolean search '+entrega +rápida'", "Search 'recomendo' grouped by score"];
    SuiteResultsExact(DockerTextQueries, observe);
  }

  lemma SqliteTextSuiteShape(observe: nat -> Observation)
    ensures |SuiteResults(SqliteTextQueries, observe)| == 5
    ensures Labels(SuiteResults(SqliteTextQueries, observe)) == Descriptions(SqliteTextQueries)
  {
    var ds := Descriptions(SqliteTextQueries);
    assert ds == ["Search for 'produto'", "Search for 'entrega'", "Search 'qualidade excelente'",
                  "Search 'rapido entrega'", "Search 'recomendo' grouped by score"];
    SuiteResultsExact(SqliteTextQueries, observe);
  }

  // ----- index creation

  /** Which tester: the text each one accepts as "the index is already there" differs. */
  datatype Dialect = MySql | Sqlite | Docker

  /** The outcome `create_indexes` prints for one statement. */
  datatype IndexReport = Created | AlreadyExists | Error(message: string)

  /**
   * The failure texts treated as benign: `"Duplicate key name"` for the network
   * driver, `"already exists"` for the embedded engine, either for the container tester.
   */
  predicate Benign(dialect: Dialect, message: string)
  {
    match dialect
    case MySql => Contains(message, "Duplicate key name")
    case Sqlite => Contains(message, "already exists")
    case Docker => Contains(message, "Duplicate key name") || Contains(message, "already exists")
  }

  /** The branch of the `try` in `create_indexes` an execution takes. */
  function Classify(dialect: Dialect, outcome: Outcome): IndexReport
  {
    match outcome
    case Returned(_) => Created
    case Raised(m) => if Benign(dialect, m) then AlreadyExists else Error(m)
  }

  function IndexReports(dialect: Dialect, count: nat, execute: nat -> Outcome): (r: seq<IndexReport>)
    ensures |r| == count
    ensures forall i :: 0 <= i < count ==> r[i] == Classify(dialect, execute(i))
  {
    seq(count, i requires 0 <= i < count => Classify(dialect, execute(i)))
  }

  /**
   * `create_indexes`: every statement is executed, in order, whatever the
   * earlier ones did (each has its own `try`); `execute(i)` is what the i-th did.
   */
  method CreateIndexes(dialect: Dialect, statements: seq<Query>, execute: nat -> Outcome)
    returns (attempted: seq<string>, reports: seq<IndexReport>)
    ensures attempted == Statements(statements)
    ensures reports == IndexReports(dialect, |statements|, execute)
  {
    attempted, reports := [], [];
    var i := 0;
    while i < |statements|
      invariant 0 <= i <= |statements|
      invariant attempted == Statements(statements[..i])
      invariant reports == IndexReports(dialect, i, execute)
    {
      assert statements[..i + 1] == statements[..i] + [statements[i]];
      MapSnoc(statements[..i], statements[i], (q: Query) => q.sql);
      attempted := attempted + [statements[i].sql];
      reports := reports + [Classify(dialect, execute(i))];
      i := i + 1;
    }
    assert statements[..i] == statements;
  }

  /** A failure is reported as "already exists" exactly when its text is benign for the dialect. */
  lemma ClassifyIff(dialect: Dialect, outcome: Outcome)
    ensures Classify(dialect, outcome) == AlreadyExists <==> outcome.Raised? && Benign(dialect, outcome.message)
    ensures Classify(dialect, outcome).Error? <==> outcome.Raised? && !Benign(dialect, outcome.message)
    ensures Classify(dialect, outcome) == Created <==> outcome.Returned?
  {
  }

  /** No statement is reported as an error exactly when every failure was benign. */
  lemma NoIndexErrorIff(dialect: Dialect, count: nat, execute: nat -> Outcome)
    ensures (forall i :: 0 <= i < count ==> !IndexReports(dialect, count, execute)[i].Error?) <==>
      (forall i :: 0 <= i < count && execute(i).Raised? ==> Benign(dialect, execute(i).message))
  {
    var r := IndexReports(dialect, count, execute);
    forall i | 0 <= i < count
      ensures r[i].Error? <==> execute(i).Raised? && !Benign(dialect, execute(i).message)
    {
      ClassifyIff(dialect, execute(i));
    }
  }

  /** A non-empty text that `s` contains starts with a character of `s`. */
  lemma {:induction false} ContainsHead(s: string, sub: string)
    requires sub != [] && Contains(s, sub)
    ensures sub[0] in s
  {
    if !StartsWith(s, sub) {
      ContainsHead(s[1..], sub);
    } else {
      assert s[0] == sub[0];
    }
  }

  /** The embedded engine's duplicate-index message. */
  const SqliteDuplicateMessage: string := "index idx_order_items_price already exists"

  /** A string contains each of its suffixes. */
  lemma {:induction false} ContainsSuffix(a: string, b: string)
    ensures Contains(a + b, b)
  {
    if a == [] {
      assert a + b == b;
      assert StartsWith(b, b);
    } else {
      assert (a + b)[1..] == a[1..] + b;
      ContainsSuffix(a[1..], b);
    }
  }

  /** The embedded-engine tester calls its duplicate-index message benign. */
  lemma AlreadyExistsIsBenignForSqlite()
    ensures Classify(Sqlite, Raised(SqliteDuplicateMessage)) == AlreadyExists
  {
    assert SqliteDuplicateMessage == "index idx_order_items_price " + "already exists";
    ContainsSuffix("index idx_order_items_price ", "already exists");
  }

  /** The network-driver tester reports that same "already exists" message as an error. */
  lemma AlreadyExistsIsErrorForMySql()
    ensures Classify(MySql, Raised(SqliteDuplicateMessage)).Error?
  {
    assert 'D' !in SqliteDuplicateMessage;
    if Contains(SqliteDuplicateMessage, "Duplicate key name") {
      ContainsHead(SqliteDuplicateMessage, "Duplicate key name");
    }
  }

  // ----- comparison

  /** One reported line of the comparison: `((before - after) / before) * 100`. */
  datatype Improvement = Improvement(name: string, before: real, after: real, percent: real)

  function Percent(before: real, after: real): real
    requires before > 0.0
  {
    ((before - after) / before) * 100.0
  }

  /** Lines reported for the `before` entries, and the label whose `after[test_name]` raised `KeyError`, if any. */
  datatype Comparison = Comparison(reported: seq<Improvement>, missing: Option<string>)

  /**
   * The comparison loop over `before`'s keys in order: a label with a
   * non-positive duration in either phase is skipped; a label absent from
   * `after` stops the loop with `KeyError`.
   */
  function Compare(before: Dict, after: Dict): Comparison
  {
    if before == [] then Comparison([], None)
    else
      var e := before[0];
      match Get(after, e.name)
      case None => Comparison([], Some(e.name))
      case Some(a) =>
        var rest := Compare(before[1..], after);
        var line := if e.value > 0.0 && a > 0.0 then [Improvement(e.name, e.value, a, Percent(e.value, a))] else [];
        Comparison(line + rest.reported, rest.missing)
  }

  /**
   * The loop of `run_complete_performance_test` for one suite, up to the
   * `KeyError` that would end the run.
   */
  method CompareSuites(before: Dict, after: Dict) returns (reported: seq<Improvement>, missing: Option<string>)
    ensures Comparison(reported, missing) == Compare(before, after)
  {
    reported := [];
    missing := None;
    var k := 0;
    while k < |before|
      invariant 0 <= k <= |before|
      invariant var rest := Compare(before[k..], after);
        Compare(before, after) == Comparison(reported + rest.reported, rest.missing)
    {
      var e := before[k];
      assert before[k..][0] == e && before[k..][1..] == before[k + 1..];
      var afterTime := Get(after, e.name);
      if afterTime.None? {
        missing := Some(e.name);
        return;
      }
      if e.value > 0.0 && afterTime.value > 0.0 {
        reported := reported + [Improvement(e.name, e.value, afterTime.value, Percent(e.value, afterTime.value))];
      }
      k := k + 1;
    }
  }

  /** The sign of `x / b` and its position relative to 1, for a positive divisor. */
  lemma DivisionFacts(x: real, b: real)
    requires b > 0.0
    ensures x / b < 1.0 <==> x < b
    ensures x / b > 0.0 <==> x > 0.0
    ensures x / b == 0.0 <==> x == 0.0
  {
    var y := x / b;
    assert y * b == x;
    if y >= 1.0 {
      assert y * b >= 1.0 * b;
    }
    if y > 0.0 {
      assert y * b > 0.0;
    } else {
      assert y * b <= 0.0;
    }
  }

  /** With a positive before-time the improvement is below 100 %, and positive exactly when the query got faster. */
  lemma ImprovementBounds(before: real, after: real)
    requires before > 0.0 && after > 0.0
    ensures Percent(before, after) < 100.0
    ensures Percent(before, after) > 0.0 <==> after < before
    ensures Percent(before, after) == 0.0 <==> after == before
  {
    DivisionFacts(before - after, before);
  }

  /**
   * Every reported line is for a label of `before` whose two durations are
   * positive, with the improvement computed from them; no label with a
   * non-positive duration is reported.
   */
  lemma {:induction false} ReportedOnlyPositive(before: Dict, after: Dict)
    ensures forall r :: r in Compare(before, after).reported ==>
      r.before > 0.0 && r.after > 0.0 && r.percent == Percent(r.before, r.after) &&
      Entry(r.name, r.before) in before && Get(after, r.name) == Some(r.after)
  {
    if before != [] {
      ReportedOnlyPositive(before[1..], after);
      assert forall x :: x in before[1..] ==> x in before;
    }
  }

  /** When no `KeyError` occurs, every label of `before` with two positive durations is reported. */
  lemma {:induction false} ReportedAllPositive(before: Dict, after: Dict)
    requires Compare(before, after).missing.None?
    ensures forall i :: (0 <= i < |before| && before[i].value > 0.0 &&
      Get(after, before[i].name).Some? && Get(after, before[i].name).value > 0.0) ==>
      var e := before[i];
      Improvement(e.name, e.value, Get(after, e.name).value, Percent(e.value, Get(after, e.name).value))
        in Compare(before, after).reported
  {
    if before != [] {
      ReportedAllPositive(before[1..], after);
      forall i | 1 <= i < |before|
        ensures before[i] == before[1..][i - 1]
      {
      }
    }
  }

  /** `KeyError` happens exactly when some label of `before` is not a key of `after`, and names such a label. */
  lemma {:induction false} KeyErrorIff(before: Dict, after: Dict)
    ensures Compare(before, after).missing.None? <==> forall n :: n in Labels(before) ==> n in Labels(after)
    ensures Compare(before, after).missing.Some? ==>
      Compare(before, after).missing.value in Labels(before) &&
      Compare(before, after).missing.value !in Labels(after)
  {
    if before != [] {
      KeyErrorIff(before[1..], after);
      assert Labels(before) == [before[0].name] + Labels(before[1..]);
    }
  }

  /**
   * Comparing two runs of the same suite never raises `KeyError`: both dicts
   * have the suite's descriptions as keys.
   */
  lemma SameSuiteNoKeyError(suite: seq<Query>, first: nat -> Observation, second: nat -> Observation)
    ensures Compare(SuiteResults(suite, first), SuiteResults(suite, second)).missing.None?
  {
    var b := SuiteResults(suite, first);
    var a := SuiteResults(suite, second);
    forall n | n in Labels(b)
      ensures n in Labels(a)
    {
      SuiteKeys(suite, first, n);
      SuiteKeys(suite, second, n);
    }
    KeyErrorIff(b, a);
  }

  // ----- the whole run

  /** What distinguishes the three testers in the harness. */
  datatype Tester = Tester(dialect: Dialect, textQueries: seq<Query>, indexQueries: seq<Query>)

  const MySqlTester: Tester := Tester(MySql, MySqlTextQueries, MySqlIndexes)
  const SqliteTester: Tester := Tester(Sqlite, SqliteTextQueries, SqliteIndexes)
  const DockerTester: Tester := Tester(Docker, DockerTextQueries, MySqlIndexes)

  /**
   * `run_complete_performance_test` from the first timing on: both suites
   * before indexing, the indexes, both suites again, then the two comparisons.
   * The five oracles give the executions of the five phases.
   */
  method CompletePerformanceTest(tester: Tester,
                                 scalarBefore: nat -> Observation, textBefore: nat -> Observation,
                                 indexing: nat -> Outcome,
                                 scalarAfter: nat -> Observation, textAfter: nat -> Observation)
    returns (scalarLines: seq<Improvement>, textLines: seq<Improvement>, reports: seq<IndexReport>)
    ensures reports == IndexReports(tester.dialect, |tester.indexQueries|, indexing)
    ensures Compare(SuiteResults(ScalarQueries, scalarBefore), SuiteResults(ScalarQueries, scalarAfter))
      == Comparison(scalarLines, None)
    ensures Compare(SuiteResults(tester.textQueries, textBefore), SuiteResults(tester.textQueries, textAfter))
      == Comparison(textLines, None)
  {
    var sb := RunSuite(ScalarQueries, scalarBefore);
    var tb := RunSuite(tester.textQueries, textBefore);
    var _, r := CreateIndexes(tester.dialect, tester.indexQueries, indexing);
    reports := r;
    var sa := RunSuite(ScalarQueries, scalarAfter);
    var ta := RunSuite(tester.textQueries, textAfter);
    var missing;
    SameSuiteNoKeyError(ScalarQueries, scalarBefore, scalarAfter);
    scalarLines, missing := CompareSuites(sb, sa);
    SameSuiteNoKeyError(tester.textQueries, textBefore, textAfter);
    textLines, missing := CompareSuites(tb, ta);
  }

  // ----- the container tester

  /**
   * What the container tester's `time_query` and `create_indexes` see of a run
   * of the client: `execute_sql` catches every exception and returns `[]`, so
   * from their side the execution always returns. This is what the code does.
   */
  function DockerOutcomeAsWritten(run: CliOutput.CliRun): (o: Outcome)
    ensures o.Returned?
  {
    Returned(|CliOutput.Rows(run, true)|)
  }

  /** The outcome the `except` branches of `time_query` and `create_indexes` were written for. */
  function DockerOutcome(run: CliOutput.CliRun): (o: Outcome)
    ensures o.Raised? <==> run.Failed?
  {
    match run
    case Completed(_) => Returned(|CliOutput.Rows(run, true)|)
    case Failed(m) => Raised(m)
  }

  /** As written, a failed client run is timed like a successful one and never gets the -1 sentinel. */
  lemma DockerFailureTimedAsWritten(message: string, start: real, end: real)
    ensures TimeQuery(Observation(DockerOutcomeAsWritten(CliOutput.Failed(message)), start, end)) == end - start
    ensures TimeQuery(Observation(DockerOutcomeAsWritten(CliOutput.Failed(message)), 0.0, 0.5)) != -1.0
  {
  }

  /** As written, a duplicate index is reported as created successfully. */
  lemma DockerDuplicateIndexAsWritten(message: string)
    ensures Classify(Docker, DockerOutcomeAsWritten(CliOutput.Failed(message))) == Created
  {
  }

  /** With the failure passed on, a failed run is timed -1 and completed runs keep their elapsed time. */
  lemma DockerTimeQueryCorrected(run: CliOutput.CliRun, start: real, end: real)
    ensures TimeQuery(Observation(DockerOutcome(run), start, end)) == if run.Failed? then -1.0 else end - start
  {
  }

  /**
   * With the failure passed on, the container tester classifies index failures
   * like the others: a duplicate key is "already exists", anything else not benign an error.
   */
  lemma DockerCreateIndexCorrected(run: CliOutput.CliRun)
    ensures Classify(Docker, DockerOutcome(run)) == Created <==> run.Completed?
    ensures run.Failed? && Contains(run.message, "Duplicate key name") ==>
      Classify(Docker, DockerOutcome(run)) == AlreadyExists
    ensures run.Failed? && !Contains(run.message, "Duplicate key name") && !Contains(run.message, "already exists") ==>
      Classify(Docker, DockerOutcome(run)) == Error(run.message)
  {
  }
}
