/**
 * Cutting a schema script into the statements the driver executes, one by one:
 * the embedded-engine variant strips the pieces of `split(';')` and drops the
 * empty ones (sqlite_performance_tester.py, `create_database_schema`); the
 * network-driver variant executes the non-blank pieces as they are
 * (performance_tester.py, `create_database_schema`). In both, the first
 * statement that raises ends the loop: the exception is caught outside it.
 */
module SchemaScript {
  import opened Text
  import opened Seqs

  /** `[s.strip() for s in schema_sql.split(';') if s.strip()]`. */
  function SqliteStatements(script: string): seq<string>
  {
    MapSeq(Filter(Split(script, ';'), NonBlank), Strip)
  }

  /** The pieces of `sql_script.split(';')` that pass `if statement.strip():`, unstripped. */
  function MySqlStatements(script: string): seq<string>
  {
    Filter(Split(script, ';'), NonBlank)
  }

  /**
   * The position of the first statement whose `execute` raises, or `n` when
   * none of the `n` statements does.
   */
  function FirstFailure(n: nat, fails: nat -> bool): (k: nat)
    ensures k <= n
    ensures forall j :: 0 <= j < k ==> !fails(j)
    ensures k < n ==> fails(k)
  {
    if n == 0 then 0
    else
      var k := FirstFailure(n - 1, fails);
      if k < n - 1 then k else if fails(n - 1) then n - 1 else n
  }

  /** How many statements reach `execute`: all up to and including the first that raises. */
  function Attempted(n: nat, fails: nat -> bool): (k: nat)
    ensures k <= n
  {
    var f := FirstFailure(n, fails);
    if f < n then f + 1 else n
  }

  /**
   * `for statement in statements: cursor.execute(statement)` inside a `try`:
   * `fails(k)` says whether the k-th call raises. The statements are executed
   * in order up to and including the first that raises; the schema is complete
   * (and committed) exactly when none raises.
   */
  method ExecuteStatements(statements: seq<string>, fails: nat -> bool)
    returns (executed: seq<string>, completed: bool)
    ensures executed == statements[..Attempted(|statements|, fails)]
    ensures completed <==> forall k :: 0 <= k < |statements| ==> !fails(k)
  {
    executed := [];
    var k := 0;
    while k < |statements|
      invariant 0 <= k <= |statements|
      invariant executed == statements[..k]
      invariant forall j :: 0 <= j < k ==> !fails(j)
    {
      executed := executed + [statements[k]];
      assert executed == statements[..k + 1];
      if fails(k) {
        completed := false;
        return;
      }
      k := k + 1;
    }
    completed := true;
  }

  /** The embedded-engine `create_database_schema` on a given script. */
  method CreateSchemaSqlite(script: string, fails: nat -> bool)
    returns (executed: seq<string>, completed: bool)
    ensures var all := SqliteStatements(script);
      executed == all[..Attempted(|all|, fails)]
    ensures completed <==> forall k :: 0 <= k < |SqliteStatements(script)| ==> !fails(k)
  {
    var statements := MapSeq(Filter(Split(script, ';'), NonBlank), Strip);
    executed, completed := ExecuteStatements(statements, fails);
  }

  /**
   * The network-driver `create_database_schema`: the script is the contents of
   * the schema file, `None` when opening or reading it raised (then nothing is
   * executed and the schema is not created). The loop runs over all pieces
   * of `split(';')` and executes each non-blank one without stripping it.
   */
  method CreateSchemaMySql(file: Option<string>, fails: nat -> bool)
    returns (executed: seq<string>, completed: bool)
    ensures file.None? ==> executed == [] && !completed
    ensures file.Some? ==> var all := MySqlStatements(file.value);
      executed == all[..Attempted(|all|, fails)]
    ensures file.Some? ==>
      (completed <==> forall k :: 0 <= k < |MySqlStatements(file.value)| ==> !fails(k))
  {
    executed := [];
    if file.None? {
      completed := false;
      return;
    }
    var script := file.value;
    var pieces := Split(script, ';');
    var i := 0;
    while i < |pieces|
      invariant 0 <= i <= |pieces|
      invariant executed == Filter(pieces[..i], NonBlank)
      invariant forall j :: 0 <= j < |executed| ==> !fails(j)
    {
      var statement := pieces[i];
      FilterStep(pieces, i, NonBlank);
      if NonBlank(statement) {
        var k := |executed|;
        executed := executed + [statement];
        if fails(k) {
          StopsAtPiece(pieces, i, fails);
          completed := false;
          return;
        }
      }
      i := i + 1;
    }
    assert pieces[..i] == pieces;
    StopsAt(|executed|, |executed|, fails);
    completed := true;
  }

  /**
   * When the non-blank piece at `i` is the first statement to raise, what has
   * been executed is the attempted prefix of all the statements.
   */
  lemma StopsAtPiece(pieces: seq<string>, i: nat, fails: nat -> bool)
    requires i < |pieces| && NonBlank(pieces[i])
    requires forall j :: 0 <= j < |Filter(pieces[..i], NonBlank)| ==> !fails(j)
    requires fails(|Filter(pieces[..i], NonBlank)|)
    ensures var all := Filter(pieces, NonBlank);
      Filter(pieces[..i + 1], NonBlank) == all[..Attempted(|all|, fails)]
  {
    FilterStep(pieces, i, NonBlank);
    FilteredPrefix(pieces, i + 1, NonBlank);
    StopsAt(|Filter(pieces, NonBlank)|, |Filter(pieces[..i], NonBlank)|, fails);
  }

  /** Execution that has passed `k` statements and meets a raising one (or the end) stops there. */
  lemma StopsAt(n: nat, k: nat, fails: nat -> bool)
    requires k <= n
    requires forall j :: 0 <= j < k ==> !fails(j)
    requires k < n ==> fails(k)
    ensures Attempted(n, fails) == if k < n then k + 1 else n
  {
  }

  /**
   * No embedded-engine statement is empty, starts or ends with whitespace, or
   * contains a `;`.
   */
  lemma SqliteStatementsWellFormed(script: string)
    ensures forall st :: st in SqliteStatements(script) ==>
      st != [] && !IsSpace(st[0]) && !IsSpace(st[|st| - 1]) && ';' !in st
  {
    forall st | st in SqliteStatements(script)
      ensures st != [] && !IsSpace(st[0]) && !IsSpace(st[|st| - 1]) && ';' !in st
    {
      StatementWellFormed(script, st);
    }
  }

  /** One statement of the script: the strip of a non-blank piece, which holds no `;`. */
  lemma StatementWellFormed(script: string, st: string)
    requires st in SqliteStatements(script)
    ensures st != [] && !IsSpace(st[0]) && !IsSpace(st[|st| - 1]) && ';' !in st
  {
    var pieces := Split(script, ';');
    var kept := Filter(pieces, NonBlank);
    var j :| 0 <= j < |kept| && st == Strip(kept[j]);
    FilterMembership(pieces, NonBlank, kept[j]);
    SplitFacts(script, ';');
    StrippedPiece(kept[j]);
  }

  /** A non-blank piece without `;` strips to a statement without `;` and without surrounding whitespace. */
  lemma StrippedPiece(piece: string)
    requires NonBlank(piece) && ';' !in piece
    ensures var st := Strip(piece);
      st != [] && !IsSpace(st[0]) && !IsSpace(st[|st| - 1]) && ';' !in st
  {
    StripFacts(piece);
  }

  /**
   * Statements keep the script's order: the statements of two scripts joined
   * by `;` are those of the first followed by those of the second.
   */
  lemma SqliteStatementsOrder(a: string, b: string)
    ensures SqliteStatements(a + ";" + b) == SqliteStatements(a) + SqliteStatements(b)
  {
    SplitAtSeparator(a, b, ';');
    FilterConcat(Split(a, ';'), Split(b, ';'), NonBlank);
    MapConcat(Filter(Split(a, ';'), NonBlank), Filter(Split(b, ';'), NonBlank), Strip);
  }

  lemma MySqlStatementsOrder(a: string, b: string)
    ensures MySqlStatements(a + ";" + b) == MySqlStatements(a) + MySqlStatements(b)
  {
    SplitAtSeparator(a, b, ';');
    FilterConcat(Split(a, ';'), Split(b, ';'), NonBlank);
  }

  /**
   * The network-driver variant executes a piece of `split(';')` exactly when
   * its strip is non-empty; no piece contains `;`.
   */
  lemma MySqlStatementsExact(script: string, piece: string)
    ensures piece in MySqlStatements(script) <==> piece in Split(script, ';') && NonBlank(piece)
    ensures piece in MySqlStatements(script) ==> ';' !in piece
  {
    FilterMembership(Split(script, ';'), NonBlank, piece);
    SplitFacts(script, ';');
  }

  /** Stripping what the network-driver variant executes gives the embedded-engine statements. */
  lemma StrippedMySqlIsSqlite(script: string)
    ensures MapSeq(MySqlStatements(script), Strip) == SqliteStatements(script)
  {
  }

  /** On success every statement ran, in order; on failure the last one run is the one that raised. */
  lemma ExecutionOutcome(statements: seq<string>, fails: nat -> bool)
    ensures var n := Attempted(|statements|, fails);
      (forall k :: 0 <= k < |statements| ==> !fails(k)) ==> n == |statements|
    ensures var n := Attempted(|statements|, fails);
      (exists k :: 0 <= k < |statements| && fails(k)) ==>
        n >= 1 && fails(n - 1) && forall j :: 0 <= j < n - 1 ==> !fails(j)
  {
  }

  /** A script with no `;` and some non-blank text is one statement, its stripped text. */
  lemma SingleStatement(script: string)
    requires ';' !in script && NonBlank(script)
    ensures SqliteStatements(script) == [Strip(script)]
  {
    SplitNoSeparator(script, ';');
    FilterSingleton(script, NonBlank);
  }
}
