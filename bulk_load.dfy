/**
 * The network-driver loader (performance_tester.py, `load_csv_data` and
 * `_insert_dataframe_chunk`): the rows of a frame are sent in slices of 1000,
 * each slice as one `executemany` of an `INSERT` statement with one `%s`
 * placeholder per column, and the progress printed after each slice.
 */
module BulkLoad {
  import opened Text
  import opened Seqs

  /** `chunk_size = 1000`. */
  const ChunkSize: nat := 1000

  function Min(a: int, b: int): int
  {
    if a <= b then a else b
  }

  /** `range(i, total, 1000)`. */
  function StartsFrom(i: nat, total: nat): (r: seq<nat>)
    ensures forall k :: 0 <= k < |r| ==> i <= r[k] < total
    decreases total - i
  {
    if i >= total then [] else [i] + StartsFrom(i + ChunkSize, total)
  }

  /** `df.iloc[i:i+1000]` for each start `i` from `i` on. */
  function ChunksFrom<R>(rows: seq<R>, i: nat): seq<seq<R>>
    decreases |rows| - i
  {
    if i >= |rows| then [] else [rows[i..Min(i + ChunkSize, |rows|)]] + ChunksFrom(rows, i + ChunkSize)
  }

  /** The values `min(i+chunk_size, total_rows)` printed for each start `i` from `i` on. */
  function ProgressFrom(i: nat, total: nat): seq<nat>
    decreases total - i
  {
    if i >= total then [] else [Min(i + ChunkSize, total) as nat] + ProgressFrom(i + ChunkSize, total)
  }

  function Chunks<R>(rows: seq<R>): seq<seq<R>>
  {
    ChunksFrom(rows, 0)
  }

  function Progress(total: nat): seq<nat>
  {
    ProgressFrom(0, total)
  }

  /** What `executemany(sql, data)` is handed. */
  datatype Insert<R> = Insert(sql: string, data: seq<R>)

  /** `', '.join(['%s'] * n)`. */
  function Placeholders(n: nat): string
  {
    JoinSep(Repeat("%s", n), ", ")
  }

  /** `[x] * n`. */
  function Repeat<T>(x: T, n: nat): (r: seq<T>)
    ensures |r| == n
    ensures forall i :: 0 <= i < n ==> r[i] == x
  {
    if n == 0 then [] else [x] + Repeat(x, n - 1)
  }

  /** f"INSERT INTO {table_name} ({columns}) VALUES ({placeholders})". */
  function InsertSql(table: string, columns: seq<string>): string
  {
    "INSERT INTO " + table + " (" + JoinSep(columns, ", ") + ") VALUES (" + Placeholders(|columns|) + ")"
  }

  /**
   * `_insert_dataframe_chunk(df, table_name)`: an empty chunk issues nothing;
   * otherwise one statement with the chunk's rows, one tuple per row, in order.
   */
  function InsertChunk<R>(table: string, columns: seq<string>, chunk: seq<R>): (r: Option<Insert<R>>)
    ensures r.None? <==> chunk == []
    ensures r.Some? ==> r.value.data == chunk && r.value.sql == InsertSql(table, columns)
  {
    if |chunk| == 0 then None else Some(Insert(InsertSql(table, columns), chunk))
  }

  /**
   * The chunk loop of `load_csv_data` for one frame: `issued[k]` is what the
   * k-th call of `_insert_dataframe_chunk` sends (a failing `executemany` is
   * caught inside that call, so the loop goes on), `progress[k]` the k-th
   * progress value printed.
   */
  method LoadFrame<R>(table: string, columns: seq<string>, rows: seq<R>)
    returns (chunks: seq<seq<R>>, issued: seq<Option<Insert<R>>>, progress: seq<nat>)
    ensures chunks == Chunks(rows)
    ensures progress == Progress(|rows|)
    ensures |issued| == |chunks|
    ensures forall k :: 0 <= k < |chunks| ==> issued[k] == InsertChunk(table, columns, chunks[k])
  {
    var total := |rows|;
    chunks, issued, progress := [], [], [];
    var i := 0;
    while i < total
      invariant chunks + ChunksFrom(rows, i) == Chunks(rows)
      invariant progress + ProgressFrom(i, total) == Progress(total)
      invariant |issued| == |chunks|
      invariant forall k :: 0 <= k < |chunks| ==> issued[k] == InsertChunk(table, columns, chunks[k])
      decreases total - i
    {
      var chunk := rows[i..Min(i + ChunkSize, total)];
      var sent := InsertChunk(table, columns, chunk);
      assert ChunksFrom(rows, i) == [chunk] + ChunksFrom(rows, i + ChunkSize);
      assert ProgressFrom(i, total) == [Min(i + ChunkSize, total) as nat] + ProgressFrom(i + ChunkSize, total);
      chunks := chunks + [chunk];
      issued := issued + [sent];
      progress := progress + [Min(i + ChunkSize, total) as nat];
      i := i + ChunkSize;
    }
  }

  /** There is one start, one chunk and one progress value per slice; the k-th start is 1000·k. */
  lemma {:induction false} StartsShape(i: nat, total: nat)
    ensures |StartsFrom(i, total)| == |ProgressFrom(i, total)|
    ensures forall k :: 0 <= k < |StartsFrom(i, total)| ==>
      StartsFrom(i, total)[k] == i + ChunkSize * k < total
    ensures forall k :: 0 <= k < |ProgressFrom(i, total)| ==>
      ProgressFrom(i, total)[k] == Min(StartsFrom(i, total)[k] + ChunkSize, total)
    decreases total - i
  {
    if i < total {
      StartsShape(i + ChunkSize, total);
    }
  }

  /** Every start below the total that is a multiple of 1000 (counting from `i`) is a start. */
  lemma {:induction false} StartsComplete(i: nat, total: nat, k: nat)
    requires i + ChunkSize * k < total
    ensures k < |StartsFrom(i, total)| && StartsFrom(i, total)[k] == i + ChunkSize * k
    decreases k
  {
    if k > 0 {
      StartsComplete(i + ChunkSize, total, k - 1);
    }
  }

  /** The k-th chunk is the slice at the k-th start: the chunks match the starts one for one. */
  lemma {:induction false} ChunksAtStarts<R>(rows: seq<R>, i: nat)
    ensures |ChunksFrom(rows, i)| == |StartsFrom(i, |rows|)|
    ensures forall k :: 0 <= k < |ChunksFrom(rows, i)| ==>
      var s := StartsFrom(i, |rows|)[k];
      ChunksFrom(rows, i)[k] == rows[s..Min(s + ChunkSize, |rows|)]
    decreases |rows| - i
  {
    if i < |rows| {
      ChunksAtStarts(rows, i + ChunkSize);
    }
  }

  /** Every chunk holds between 1 and 1000 rows. */
  lemma {:induction false} ChunkSizes<R>(rows: seq<R>, i: nat)
    ensures forall c :: c in ChunksFrom(rows, i) ==> 0 < |c| <= ChunkSize
    decreases |rows| - i
  {
    if i < |rows| {
      ChunkSizes(rows, i + ChunkSize);
    }
  }

  /** The chunks, concatenated in order, are exactly the rows from `i` on: they cover them without overlap. */
  lemma {:induction false} ChunksCover<R>(rows: seq<R>, i: nat)
    requires i <= |rows|
    ensures Flatten(ChunksFrom(rows, i)) == rows[i..]
    decreases |rows| - i
  {
    if i < |rows| {
      var j := Min(i + ChunkSize, |rows|);
      var rest := ChunksFrom(rows, i + ChunkSize);
      if i + ChunkSize <= |rows| {
        ChunksCover(rows, i + ChunkSize);
        assert Flatten(rest) == rows[j..];
      } else {
        assert rest == [];
      }
      assert ([rows[i..j]] + rest)[1..] == rest;
      assert rows[i..j] + rows[j..] == rows[i..];
    }
  }

  /** The progress values strictly increase and never exceed the total; the last one is the total. */
  lemma {:induction false} ProgressMonotone(i: nat, total: nat)
    ensures forall a, b :: 0 <= a < b < |ProgressFrom(i, total)| ==>
      ProgressFrom(i, total)[a] < ProgressFrom(i, total)[b]
    ensures forall a :: 0 <= a < |ProgressFrom(i, total)| ==> i < ProgressFrom(i, total)[a] <= total
    ensures i < total ==> |ProgressFrom(i, total)| > 0 && ProgressFrom(i, total)[|ProgressFrom(i, total)| - 1] == total
    decreases total - i
  {
    if i < total {
      ProgressMonotone(i + ChunkSize, total);
      var p := ProgressFrom(i, total);
      var rest := ProgressFrom(i + ChunkSize, total);
      assert p == [Min(i + ChunkSize, total) as nat] + rest;
      assert forall a :: 1 <= a < |p| ==> p[a] == rest[a - 1];
      if rest != [] {
        assert i + ChunkSize < total;
      }
    }
  }

  /** A frame of `total` rows is loaded in ⌈total/1000⌉ statements, none of them empty. */
  lemma LoadFrameIssuesEveryChunk<R>(table: string, columns: seq<string>, rows: seq<R>)
    ensures |Chunks(rows)| == (|rows| + ChunkSize - 1) / ChunkSize
    ensures forall c :: c in Chunks(rows) ==> InsertChunk(table, columns, c).Some?
  {
    ChunkCount(rows, 0);
    ChunkSizes(rows, 0);
  }

  lemma {:induction false} ChunkCount<R>(rows: seq<R>, i: nat)
    ensures |ChunksFrom(rows, i)| == if i >= |rows| then 0 else (|rows| - i + ChunkSize - 1) / ChunkSize
    decreases |rows| - i
  {
    if i < |rows| {
      ChunkCount(rows, i + ChunkSize);
    }
  }

  /** The placeholder list holds one `%` per column and is 4n-2 characters long. */
  lemma {:induction false} PlaceholdersShape(n: nat)
    ensures CountChar('%', Placeholders(n)) == n
    ensures |Placeholders(n)| == if n == 0 then 0 else 4 * n - 2
  {
    if n > 1 {
      PlaceholdersShape(n - 1);
      var rest := Repeat("%s", n - 1);
      assert Repeat("%s", n) == ["%s"] + rest;
      assert (["%s"] + rest)[1..] == rest;
      assert Placeholders(n) == "%s" + ", " + Placeholders(n - 1);
      assert "%s" == ['%'] + ['s'];
      assert ", " == [','] + [' '];
    } else if n == 1 {
      assert Repeat("%s", 1) == ["%s"];
      assert "%s" == ['%'] + ['s'];
    }
  }

  /** Joining names that hold no `c` gives a text with no `c` besides those of the separators. */
  lemma {:induction false} JoinSepCount(parts: seq<string>, sep: string, c: char)
    requires forall p :: p in parts ==> c !in p
    requires c !in sep
    ensures CountChar(c, JoinSep(parts, sep)) == 0
  {
    if |parts| > 1 {
      assert parts[0] in parts;
      assert forall p :: p in parts[1..] ==> p in parts;
      JoinSepCount(parts[1..], sep, c);
    } else if |parts| == 1 {
      assert parts[0] in parts;
    }
  }

  /** The fixed text of the insert statement holds no `%`. */
  lemma StatementTextHasNoPercent()
    ensures CountChar('%', "INSERT INTO ") == 0 && CountChar('%', " (") == 0
    ensures CountChar('%', ") VALUES (") == 0 && CountChar('%', ")") == 0
  {
    assert '%' !in "INSERT INTO ";
    assert '%' !in ") VALUES (";
  }

  /**
   * The insert statement has exactly one `%s` placeholder per column, when
   * neither the table name nor a column name holds a `%`.
   */
  lemma InsertSqlPlaceholders(table: string, columns: seq<string>)
    requires '%' !in table
    requires forall c :: c in columns ==> '%' !in c
    ensures CountChar('%', InsertSql(table, columns)) == |columns|
  {
    PlaceholdersShape(|columns|);
    JoinSepCount(columns, ", ", '%');
    StatementTextHasNoPercent();
    var cols := JoinSep(columns, ", ");
    var ph := Placeholders(|columns|);
    assert multiset(InsertSql(table, columns)) ==
      multiset("INSERT INTO ") + multiset(table) + multiset(" (") + multiset(cols) +
      multiset(") VALUES (") + multiset(ph) + multiset(")");
  }

  /**
   * The column list of the statement gives back the frame's columns: split at
   * `,`, its pieces are the first column and then each further column after
   * the one space of the `", "` separator, when no column name holds a `,`.
   */
  lemma {:induction false} ColumnListSplit(columns: seq<string>)
    requires columns != []
    requires forall c :: c in columns ==> ',' !in c
    ensures Split(JoinSep(columns, ", "), ',') ==
      [columns[0]] + MapSeq(columns[1..], (c: string) => " " + c)
  {
    assert columns[0] in columns;
    if |columns| == 1 {
      SplitNoSeparator(columns[0], ',');
    } else {
      var rest := columns[1..];
      assert forall c :: c in rest ==> c in columns;
      ColumnListSplit(rest);
      var tail := JoinSep(rest, ", ");
      assert JoinSep(columns, ", ") == columns[0] + [','] + ([' '] + tail);
      SplitAtSeparator(columns[0], [' '] + tail, ',');
      SplitNoSeparator(columns[0], ',');
      var st := Split(tail, ',');
      assert ([' '] + tail)[1..] == tail;
      assert Split([' '] + tail, ',') == [[' '] + st[0]] + st[1..];
      assert st[0] == rest[0];
      assert st[1..] == MapSeq(rest[1..], (c: string) => " " + c);
      assert rest[1..] == columns[2..];
    }
  }
}
