/** The batching loops that turn a parsed file into the batches of the pipeline. */
module Extractor {
  import opened Wrappers
  import opened Records

  /** The exception classes the pipeline tells apart. */
  datatype Exn = SkipFile | Retryable | FatalError | OtherError

  /** The batches a generator yields, and the exception that ends it, if one does. */
  datatype Stream = Stream(batches: seq<seq<Record>>, failure: Option<Exn>)

  /**
   A file as the extractor meets it. `broken` says that the parser gives up after these rows.
   A workbook that cannot be opened, or has no active sheet, is Unopened.
   */
  datatype File =
    | Missing
    | Empty
    | Unsupported
    | Csv(rows: seq<Record>, broken: bool)
    | Json(items: seq<Record>, broken: bool)
    | Unopened
    | Excel(sheet: seq<seq<Value>>, broken: bool)

  function Flatten(batches: seq<seq<Record>>): seq<Record> {
    if batches == [] then [] else Flatten(batches[..|batches| - 1]) + batches[|batches| - 1]
  }

  lemma FlattenLast(batches: seq<seq<Record>>, batch: seq<Record>)
    ensures Flatten(batches + [batch]) == Flatten(batches) + batch
  {
    assert (batches + [batch])[..|batches|] == batches;
  }

  /** A batch size below one still yields batches of one row. */
  function EffectiveSize(batchSize: int): nat {
    if batchSize < 1 then 1 else batchSize
  }

  /** The full batches of a run of rows, and the rows left over. */
  function Batched(rows: seq<Record>, size: nat): (seq<seq<Record>>, seq<Record>) {
    if rows == [] then ([], [])
    else
      var (batches, batch) := Batched(rows[..|rows| - 1], size);
      var filled := batch + [rows[|rows| - 1]];
      if |filled| >= size then (batches + [filled], []) else (batches, filled)
  }

  /** What the generator yields: the rest comes only if the parser reaches the end. */
  function StreamOf(rows: seq<Record>, batchSize: int, failure: Option<Exn>): Stream {
    var (batches, rest) := Batched(rows, EffectiveSize(batchSize));
    Stream(if failure.None? && rest != [] then batches + [rest] else batches, failure)
  }

  predicate AllFull(batches: seq<seq<Record>>, size: nat) {
    forall i :: 0 <= i < |batches| ==> |batches[i]| == size
  }

  predicate Exact(rows: seq<Record>, size: nat, batches: seq<seq<Record>>, rest: seq<Record>) {
    Flatten(batches) + rest == rows && |rest| < size && AllFull(batches, size)
  }

  lemma FillBatch(rows: seq<Record>, size: nat, batches: seq<seq<Record>>, batch: seq<Record>, row: Record)
    requires Exact(rows, size, batches, batch)
    ensures |batch| + 1 >= size ==> Exact(rows + [row], size, batches + [batch + [row]], [])
    ensures |batch| + 1 < size ==> Exact(rows + [row], size, batches, batch + [row])
  {
    FlattenLast(batches, batch + [row]);
    assert Flatten(batches) + (batch + [row]) == rows + [row];
  }

  /** Nothing is lost, reordered or repeated, every batch but the rest is full, the rest is not. */
  lemma {:induction false} BatchedIsExact(rows: seq<Record>, size: nat)
    requires size >= 1
    ensures Exact(rows, size, Batched(rows, size).0, Batched(rows, size).1)
  {
    if rows != [] {
      var p, last := rows[..|rows| - 1], rows[|rows| - 1];
      BatchedIsExact(p, size);
      FillBatch(p, size, Batched(p, size).0, Batched(p, size).1, last);
      assert p + [last] == rows;
    }
  }

  predicate WellSized(batches: seq<seq<Record>>, size: nat) {
    && (forall i :: 0 <= i < |batches| - 1 ==> |batches[i]| == size)
    && (forall i :: 0 <= i < |batches| ==> 1 <= |batches[i]| <= size)
  }

  /** A parser that gives up loses the rows of the batch being filled, fewer than one batch, and no others. */
  lemma StreamIsExact(rows: seq<Record>, batchSize: int, failure: Option<Exn>)
    ensures var size, batches := EffectiveSize(batchSize), StreamOf(rows, batchSize, failure).batches;
      && WellSized(batches, size)
      && Flatten(batches) <= rows && |rows| - |Flatten(batches)| < size
      && (failure.None? ==> Flatten(batches) == rows)
      && (failure.Some? ==> AllFull(batches, size))
  {
    var size := EffectiveSize(batchSize);
    BatchedIsExact(rows, size);
    FullBatches(rows, size, Batched(rows, size).0, Batched(rows, size).1);
    AndTheRest(rows, size, Batched(rows, size).0, Batched(rows, size).1);
  }

  lemma FullBatches(rows: seq<Record>, size: nat, batches: seq<seq<Record>>, rest: seq<Record>)
    requires Exact(rows, size, batches, rest)
    ensures WellSized(batches, size) && Flatten(batches) <= rows && |rows| - |Flatten(batches)| < size
    ensures rest == [] ==> Flatten(batches) == rows
  {
  }

  lemma AndTheRest(rows: seq<Record>, size: nat, batches: seq<seq<Record>>, rest: seq<Record>)
    requires Exact(rows, size, batches, rest)
    ensures Flatten(batches + [rest]) == rows
    ensures rest != [] ==> WellSized(batches + [rest], size)
  {
    FlattenLast(batches, rest);
  }

  /** The loop of _stream_csv and _stream_json. */
  method StreamRows(rows: seq<Record>, batchSize: int, failure: Option<Exn>) returns (stream: Stream)
    ensures stream == StreamOf(rows, batchSize, failure)
  {
    ghost var size := EffectiveSize(batchSize);
    var batches: seq<seq<Record>> := [];
    var batch: seq<Record> := [];
    for i := 0 to |rows|
      invariant Batched(rows[..i], size) == (batches, batch)
    {
      assert rows[..i + 1][..i] == rows[..i];
      batch := batch + [rows[i]];
      if |batch| >= batchSize {
        batches := batches + [batch];
        batch := [];
      }
    }
    assert rows[..|rows|] == rows;
    if failure.None? && batch != [] {
      batches := batches + [batch];
    }
    stream := Stream(batches, failure);
  }

  function Digits(n: nat): string {
    if n < 10 then ["0123456789"[n]] else Digits(n / 10) + ["0123456789"[n % 10]]
  }

  /** The column names of the first row; an empty cell is named after its position. */
  function Headers(row: seq<Value>): seq<string> {
    seq(|row|, i requires 0 <= i < |row| => match row[i] case Text(t) => t case Null => "col_" + Digits(i))
  }

  function NumberOf(digits: string): nat {
    if digits == "" then 0
    else
      var d := digits[|digits| - 1];
      NumberOf(digits[..|digits| - 1]) * 10 + (if '0' <= d <= '9' then (d as int) - ('0' as int) else 0)
  }

  lemma {:induction false} DigitsAreRead(n: nat)
    ensures NumberOf(Digits(n)) == n
  {
    if n >= 10 {
      DigitsAreRead(n / 10);
      var front := Digits(n / 10);
      assert (front + ["0123456789"[n % 10]])[..|front|] == front;
    } else {
      assert ["0123456789"[n]][..0] == "";
    }
  }

  /** A named column keeps its name, and columns without one never get the same. */
  lemma HeadersAreDistinct(row: seq<Value>, i: nat, j: nat)
    requires i < |row| && j < |row|
    ensures row[i].Text? ==> Headers(row)[i] == row[i].text
    ensures row[i].Null? ==> |Headers(row)[i]| > 4 && Headers(row)[i][..4] == "col_"
    ensures row[i].Null? && row[j].Null? && i != j ==> Headers(row)[i] != Headers(row)[j]
  {
    DigitsAreRead(i);
    DigitsAreRead(j);
    assert ("col_" + Digits(i))[4..] == Digits(i) && ("col_" + Digits(j))[4..] == Digits(j);
    assert ("col_" + Digits(i))[..4] == "col_";
  }

  /** The dict of a zip: it ends with the shorter side, and of equal names the last one counts. */
  function ZipDict(headers: seq<string>, row: seq<Value>): Record {
    if headers == [] || row == [] then Record([], map[])
    else
      var n := (if |headers| < |row| then |headers| else |row|) - 1;
      var r := ZipDict(headers[..n], row[..n]);
      Record(if headers[n] in r.names then r.names else r.names + [headers[n]], r.cells[headers[n] := row[n]])
  }

  /** The j-th cell is the last one under its name that the row and the headers both have. */
  predicate IsLastUnder(headers: seq<string>, row: seq<Value>, j: nat) {
    && j < |headers| && j < |row|
    && forall k :: j < k < |headers| && k < |row| ==> headers[k] != headers[j]
  }

  lemma LastUnderFront(headers: seq<string>, row: seq<Value>, n: nat, j: nat)
    requires j < n && n + 1 == if |headers| < |row| then |headers| else |row|
    ensures IsLastUnder(headers, row, j) <==> IsLastUnder(headers[..n], row[..n], j) && headers[n] != headers[j]
  {
    if IsLastUnder(headers[..n], row[..n], j) && headers[n] != headers[j] {
      forall k | j < k < |headers| && k < |row| ensures headers[k] != headers[j] {
        assert k < n ==> headers[..n][k] == headers[k];
      }
    }
  }

  /** No such cell is lost. */
  lemma {:induction false} ZipDictCell(headers: seq<string>, row: seq<Value>, j: nat)
    requires IsLastUnder(headers, row, j)
    ensures headers[j] in ZipDict(headers, row).cells && ZipDict(headers, row).cells[headers[j]] == row[j]
  {
    var n := (if |headers| < |row| then |headers| else |row|) - 1;
    if j < n {
      LastUnderFront(headers, row, n, j);
      ZipDictCell(headers[..n], row[..n], j);
    }
  }

  /** And every column has the last cell of the row under its name. */
  lemma {:induction false} ZipDictCells(headers: seq<string>, row: seq<Value>, c: string) returns (j: nat)
    requires c in ZipDict(headers, row).cells
    ensures IsLastUnder(headers, row, j) && headers[j] == c && ZipDict(headers, row).cells[c] == row[j]
  {
    var n := (if |headers| < |row| then |headers| else |row|) - 1;
    j := n;
    if c != headers[n] {
      j := ZipDictCells(headers[..n], row[..n], c);
      LastUnderFront(headers, row, n, j);
    }
  }

  /** The rows below the header row. */
  function SheetRows(sheet: seq<seq<Value>>): seq<Record> {
    if |sheet| <= 1 then []
    else SheetRows(sheet[..|sheet| - 1]) + [ZipDict(Headers(sheet[0]), sheet[|sheet| - 1])]
  }

  lemma {:induction false} ZipDictIsWellFormed(headers: seq<string>, row: seq<Value>)
    ensures WellFormed(ZipDict(headers, row))
    ensures forall c :: c in ZipDict(headers, row).cells ==> c in headers
  {
    if headers != [] && row != [] {
      var n := (if |headers| < |row| then |headers| else |row|) - 1;
      ZipDictIsWellFormed(headers[..n], row[..n]);
    }
  }

  lemma SheetRowsStep(sheet: seq<seq<Value>>, i: nat)
    requires i < |sheet|
    ensures SheetRows(sheet[..i + 1])
         == if i == 0 then [] else SheetRows(sheet[..i]) + [ZipDict(Headers(sheet[0]), sheet[i])]
  {
    assert sheet[..i + 1][..i] == sheet[..i];
  }

  lemma BatchedLast(rows: seq<Record>, row: Record, size: nat)
    ensures var (batches, batch) := Batched(rows, size);
      Batched(rows + [row], size)
      == if |batch| + 1 >= size then (batches + [batch + [row]], []) else (batches, batch + [row])
  {
    assert (rows + [row])[..|rows|] == rows;
  }

  /** The loop of _stream_excel: the first row gives the names, the others are batched. */
  method StreamExcel(sheet: seq<seq<Value>>, batchSize: int, failure: Option<Exn>) returns (stream: Stream)
    ensures stream == StreamOf(SheetRows(sheet), batchSize, failure)
  {
    ghost var size := EffectiveSize(batchSize);
    var headers: Option<seq<string>> := None;
    var batches: seq<seq<Record>> := [];
    var batch: seq<Record> := [];
    for i := 0 to |sheet|
      invariant headers == if i == 0 then None else Some(Headers(sheet[0]))
      invariant Batched(SheetRows(sheet[..i]), size) == (batches, batch)
    {
      SheetRowsStep(sheet, i);
      if headers.None? {
        headers := Some(Headers(sheet[i]));
        continue;
      }
      var row := ZipDict(headers.value, sheet[i]);
      BatchedLast(SheetRows(sheet[..i]), row, size);
      batch := batch + [row];
      if |batch| >= batchSize {
        batches := batches + [batch];
        batch := [];
      }
    }
    assert sheet[..|sheet|] == sheet;
    if failure.None? && batch != [] {
      batches := batches + [batch];
    }
    stream := Stream(batches, failure);
  }

  /** The rows a parser can read from the file. */
  function RowsIn(file: File): seq<Record> {
    match file
    case Csv(rows, _) => rows
    case Json(items, _) => items
    case Excel(sheet, _) => SheetRows(sheet)
    case _ => []
  }

  /** How the stream ends: only the JSON parser's own errors are turned into a skip. */
  function FailureOf(file: File): Option<Exn> {
    match file
    case Csv(_, broken) => if broken then Some(OtherError) else None
    case Json(_, broken) => if broken then Some(SkipFile) else None
    case Excel(_, broken) => if broken then Some(OtherError) else None
    case _ => Some(SkipFile)
  }

  /** The same for all formats: exact batches of the rows that could be read. */
  method Extract(file: File, batchSize: int) returns (stream: Stream)
    ensures stream == StreamOf(RowsIn(file), batchSize, FailureOf(file))
    ensures WellSized(stream.batches, EffectiveSize(batchSize))
    ensures Flatten(stream.batches) <= RowsIn(file)
    ensures |RowsIn(file)| - |Flatten(stream.batches)| < EffectiveSize(batchSize)
    ensures stream.failure.None? ==> Flatten(stream.batches) == RowsIn(file)
    ensures stream.failure.Some? ==> AllFull(stream.batches, EffectiveSize(batchSize))
    ensures batchSize >= 1 ==> WellSized(stream.batches, batchSize)
    ensures stream.failure == Some(SkipFile) <==>
      !(file.Csv? || file.Excel? || (file.Json? && !file.broken))
    ensures stream.failure == Some(OtherError) <==> (file.Csv? || file.Excel?) && file.broken
    ensures stream.failure in {None, Some(SkipFile), Some(OtherError)}
    ensures file.Csv? && !file.broken ==> Flatten(stream.batches) == file.rows
    ensures file.Json? && !file.broken ==> Flatten(stream.batches) == file.items
    ensures file.Missing? || file.Empty? || file.Unsupported? || file.Unopened? ==>
      stream == Stream([], Some(SkipFile))
  {
    StreamIsExact(RowsIn(file), batchSize, FailureOf(file));
    match file
    case Csv(rows, broken) => stream := StreamRows(rows, batchSize, if broken then Some(OtherError) else None);
    case Json(items, broken) => stream := StreamRows(items, batchSize, if broken then Some(SkipFile) else None);
    case Excel(sheet, broken) => stream := StreamExcel(sheet, batchSize, if broken then Some(OtherError) else None);
    case Missing => stream := Stream([], Some(SkipFile));
    case Empty => stream := Stream([], Some(SkipFile));
    case Unsupported => stream := Stream([], Some(SkipFile));
    case Unopened => stream := Stream([], Some(SkipFile));
  }
}
