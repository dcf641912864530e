/**
 * The container variant runs every statement as `docker exec ... mysql -e <query>`
 * and reads the rows back from the client's batch output: a header line with the
 * column names, then one line per row with the fields separated by tabs
 * (docker_performance_tester.py, `execute_sql`).
 */
module CliOutput {
  import opened Text
  import opened Seqs

  /** What `subprocess.run(cmd, capture_output=True, text=True, check=True)` yields. */
  datatype CliRun =
    | Completed(stdout: string)   // exit status 0: the captured standard output
    | Failed(message: string)     // CalledProcessError (non-zero exit status) or any other exception

  /** One output line split into its fields: `tuple(line.split('\t'))`. */
  function SplitTab(line: string): seq<string>
  {
    Split(line, '\t')
  }

  /** The rows made of the lines after the header: each non-blank line split on tabs, in order. */
  function TabRows(lines: seq<string>): seq<seq<string>>
  {
    MapSeq(Filter(lines, NonBlank), SplitTab)
  }

  /** `result.stdout.strip().split('\n')`. */
  function OutputLines(stdout: string): (lines: seq<string>)
    ensures |lines| >= 1
  {
    Split(Strip(stdout), '\n')
  }

  /** The value `execute_sql` returns for a run of the client. */
  function Rows(run: CliRun, fetchResults: bool): seq<seq<string>>
  {
    if run.Failed? || !fetchResults || run.stdout == [] then []
    else
      var lines := OutputLines(run.stdout);
      if |lines| > 1 then TabRows(lines[1..]) else []
  }

  lemma TabRowsSnoc(lines: seq<string>, line: string)
    ensures TabRows(lines + [line]) == TabRows(lines) + (if NonBlank(line) then [SplitTab(line)] else [])
  {
    FilterSnoc(lines, line, NonBlank);
    if NonBlank(line) {
      MapSnoc(Filter(lines, NonBlank), line, SplitTab);
    }
  }

  /**
   * `execute_sql(query, fetch_results)` once the client has run: every error is
   * swallowed and gives the empty list, and so do an empty output and
   * `fetch_results=False`; otherwise the header line is skipped and each
   * remaining non-blank line becomes one row of tab-separated fields.
   */
  method ExecuteSql(run: CliRun, fetchResults: bool) returns (rows: seq<seq<string>>)
    ensures rows == Rows(run, fetchResults)
  {
    rows := [];
    if run.Failed? {
      return;
    }
    if fetchResults && run.stdout != [] {
      var lines := Split(Strip(run.stdout), '\n');
      if |lines| > 1 {
        rows := ParseDataLines(lines[1..]);
      }
    }
  }

  /** The loop of `execute_sql` over `lines[1:]`: append the fields of each non-blank line. */
  method ParseDataLines(body: seq<string>) returns (rows: seq<seq<string>>)
    ensures rows == TabRows(body)
  {
    rows := [];
    var k := 0;
    while k < |body|
      invariant 0 <= k <= |body|
      invariant rows == TabRows(body[..k])
    {
      var line := body[k];
      ghost var prev := body[..k];
      assert body[..k + 1] == prev + [line];
      TabRowsSnoc(prev, line);
      if NonBlank(line) {
        rows := rows + [SplitTab(line)];
      }
      k := k + 1;
    }
    assert body[..k] == body;
  }

  /** A failed run, an empty output or `fetch_results=False` all give no rows. */
  lemma NoRowsWithoutOutput(run: CliRun, fetchResults: bool)
    requires run.Failed? || !fetchResults || run.stdout == []
    ensures Rows(run, fetchResults) == []
  {
  }

  /** An output that is only a header line once stripped (or blank) gives no rows. */
  lemma HeaderOnlyGivesNoRows(stdout: string, fetchResults: bool)
    requires |OutputLines(stdout)| <= 1
    ensures Rows(Completed(stdout), fetchResults) == []
  {
  }

  /** There is at most one row per line after the header. */
  lemma RowCountBound(stdout: string, fetchResults: bool)
    ensures |Rows(Completed(stdout), fetchResults)| <= |OutputLines(stdout)| - 1
  {
  }

  /** Row parsing keeps the order of the lines: it distributes over concatenation. */
  lemma TabRowsConcat(a: seq<string>, b: seq<string>)
    ensures TabRows(a + b) == TabRows(a) + TabRows(b)
  {
    FilterConcat(a, b, NonBlank);
    MapConcat(Filter(a, NonBlank), Filter(b, NonBlank), SplitTab);
  }

  /**
   * Every row parsed from the lines after position `from` comes from a
   * non-blank line there, and joining its fields with tabs gives that line
   * back; conversely every non-blank line there gives a row.
   */
  lemma TabRowsFromLines(lines: seq<string>, from: nat)
    requires from <= |lines|
    ensures forall row :: row in TabRows(lines[from..]) ==>
      exists i :: from <= i < |lines| && NonBlank(lines[i]) && Join(row, '\t') == lines[i]
    ensures forall i :: from <= i < |lines| && NonBlank(lines[i]) ==> SplitTab(lines[i]) in TabRows(lines[from..])
  {
    var body := lines[from..];
    var kept := Filter(body, NonBlank);
    forall row | row in TabRows(body)
      ensures exists i :: from <= i < |lines| && NonBlank(lines[i]) && Join(row, '\t') == lines[i]
    {
      var j :| 0 <= j < |kept| && TabRows(body)[j] == row;
      FilterMembership(body, NonBlank, kept[j]);
      var b :| 0 <= b < |body| && body[b] == kept[j];
      assert lines[from + b] == kept[j];
      JoinSplit(kept[j], '\t');
    }
    forall i | from <= i < |lines| && NonBlank(lines[i])
      ensures SplitTab(lines[i]) in TabRows(body)
    {
      assert body[i - from] == lines[i];
      FilterMembership(body, NonBlank, lines[i]);
      var j :| 0 <= j < |kept| && kept[j] == lines[i];
      assert TabRows(body)[j] == SplitTab(lines[i]);
    }
  }

  /**
   * Every row `execute_sql` returns comes from a non-blank line after the
   * header (so never from the header), and joining its fields with tabs gives
   * that line back; conversely, for a non-empty output, every non-blank line
   * after the header is returned as a row.
   */
  lemma RowsAreDataLines(stdout: string)
    ensures var lines := OutputLines(stdout);
      forall row :: row in Rows(Completed(stdout), true) ==>
        exists i :: 1 <= i < |lines| && NonBlank(lines[i]) && Join(row, '\t') == lines[i]
    ensures var lines := OutputLines(stdout);
      stdout != [] ==>
      forall i :: 1 <= i < |lines| && NonBlank(lines[i]) ==> SplitTab(lines[i]) in Rows(Completed(stdout), true)
  {
    var lines := OutputLines(stdout);
    if stdout != [] && |lines| > 1 {
      TabRowsFromLines(lines, 1);
    }
  }

  /** Each row has at least one field, and splitting a line never yields more fields than it has tabs plus one. */
  lemma {:induction false} RowFields(line: string)
    ensures 1 <= |SplitTab(line)| == CountChar('\t', line) + 1
    ensures forall f :: f in SplitTab(line) ==> '\t' !in f
  {
    SplitFacts(line, '\t');
  }

  /** `SELECT 1` prints a header `1` and a row `1`: one row, which is what `connect` tests for. */
  lemma SelectOneOutput()
    ensures Rows(Completed("1\n1\n"), true) == [["1"]]
  {
    assert TrimStart("1\n1\n") == "1\n1\n";
    assert "1\n1\n"[..3] == "1\n1";
    assert TrimEnd("1\n1") == "1\n1";
    assert "1"[1..] == [];
    var empty: string := [];
    assert Split(empty, '\n') == [empty];
    assert Split("1", '\n') == [['1'] + empty] + [empty][1..];
    assert ['1'] + empty == "1";
    assert [empty][1..] == [];
    assert Split("1", '\n') == ["1"];
    assert "\n1"[1..] == "1";
    assert Split("\n1", '\n') == [[]] + ["1"];
    assert "1\n1"[1..] == "\n1";
    assert OutputLines("1\n1\n") == ["1", "1"];
    assert NonBlank("1");
    assert Filter(["1"], NonBlank) == ["1"];
  }
}
