/** `Database` of `database.py`: reads the CSV report row by row, turns
    its metadata rows into (file, key, value) triples, hands them to
    `process_data` in chunks, and `process_data` groups each chunk by
    file into one Firebase `update`.

    The CSV file is given as its parsed rows; the Firebase reference is
    the log of the dicts passed to `update`, in order. */
module Database {
  import opened Common
  import opened PyText

  /** `chunk_size` when the constructor is given none. */
  const DefaultChunkSize := 1000

  /** The first cell of the row that names the file the following rows
      describe. */
  const FileMarker := "File:"

  type Row = seq<string>

  /** `(file_name, row[0], row[1])`; the file is `None` before the first
      "File:" row. */
  datatype Triple = Triple(file: Option<string>, key: string, value: string)

  /** The dict handed to `ref.update`: file to key to value. */
  type Batch = map<Option<string>, map<string, string>>

  /* ---------- reading rows ---------- */

  /** A row the loop body reads without an `IndexError`: `row[0]` always
      exists, and `row[1]` is read unless the first cell is empty (the
      `and` short-circuits). */
  predicate WellFormed(row: Row) {
    |row| >= 1 && (row[0] == "" || |row| >= 2)
  }

  predicate AllWellFormed(rows: seq<Row>) {
    forall i :: 0 <= i < |rows| ==> WellFormed(rows[i])
  }

  /** The number of rows read before the first one that raises. */
  function Valid(rows: seq<Row>): (n: nat)
    ensures n <= |rows|
    ensures AllWellFormed(rows[..n])
    ensures n < |rows| ==> !WellFormed(rows[n])
    ensures n == |rows| <==> AllWellFormed(rows)
    decreases |rows|
  {
    if rows == [] || !WellFormed(rows[0]) then 0
    else
      var n := 1 + Valid(rows[1..]);
      assert rows[..n] == [rows[0]] + rows[1..][..n - 1];
      n
  }

  /** `file_name.replace('.', '-')`: a Firebase key may not contain a dot. */
  function FileKey(name: string): (r: string)
    ensures |r| == |name| && '.' !in r
    ensures forall i :: 0 <= i < |name| && name[i] != '.' ==> r[i] == name[i]
  {
    ReplaceChar(name, '.', '-')
  }

  predicate IsFileRow(row: Row)
    requires WellFormed(row)
  {
    row[0] == FileMarker
  }

  /** The file name in force after `rows`: that of the last "File:" row. */
  function CurrentFile(rows: seq<Row>): (r: Option<string>)
    requires AllWellFormed(rows)
    decreases |rows|
  {
    if rows == [] then None
    else
      var last := rows[|rows| - 1];
      if IsFileRow(last) then Some(FileKey(last[1]))
      else CurrentFile(rows[..|rows| - 1])
  }

  /** The file name in force is that of the last "File:" row, and there
      is one exactly when some row is a "File:" row. */
  lemma {:induction false} CurrentFileIsLastMarker(rows: seq<Row>)
    requires AllWellFormed(rows)
    ensures CurrentFile(rows).Some? ==>
      exists i :: 0 <= i < |rows| && IsFileRow(rows[i]) && CurrentFile(rows).value == FileKey(rows[i][1])
        && forall j :: i < j < |rows| ==> !IsFileRow(rows[j])
    ensures CurrentFile(rows).None? <==> forall i :: 0 <= i < |rows| ==> !IsFileRow(rows[i])
    decreases |rows|
  {
    if rows != [] {
      var n := |rows| - 1;
      var init := rows[..n];
      assert forall i :: 0 <= i < |init| ==> init[i] == rows[i];
      CurrentFileIsLastMarker(init);
      if IsFileRow(rows[n]) {
        assert CurrentFile(rows).value == FileKey(rows[n][1]);
      } else if CurrentFile(rows).Some? {
        var i :| 0 <= i < |init| && IsFileRow(init[i]) && CurrentFile(init).value == FileKey(init[i][1])
          && forall j :: i < j < |init| ==> !IsFileRow(init[j]);
        assert forall j :: i < j < |rows| ==> !IsFileRow(rows[j]) by {
          forall j | i < j < |rows| ensures !IsFileRow(rows[j]) {
            if j < n {
              assert rows[j] == init[j];
            }
          }
        }
      }
    }
  }

  /** The triple a row contributes, if any: a metadata row has a
      non-empty key and value. */
  function RowTriples(file: Option<string>, row: Row): (r: seq<Triple>)
    requires WellFormed(row)
    ensures |r| <= 1
    ensures r != [] <==> !IsFileRow(row) && row[0] != "" && row[1] != ""
    ensures r != [] ==> r[0] == Triple(file, row[0], row[1])
  {
    if IsFileRow(row) then []
    else if row[0] != "" && row[1] != "" then [Triple(file, row[0], row[1])]
    else []
  }

  /** Every triple the rows append to `data`, in order. */
  function Triples(rows: seq<Row>): (r: seq<Triple>)
    requires AllWellFormed(rows)
    ensures |r| <= |rows|
    decreases |rows|
  {
    if rows == [] then []
    else
      var init := rows[..|rows| - 1];
      Triples(init) + RowTriples(CurrentFile(init), rows[|rows| - 1])
  }

  /** Every triple names a dot-free file, and has a non-empty key and
      value. */
  lemma {:induction false} TriplesAreClean(rows: seq<Row>)
    requires AllWellFormed(rows)
    ensures forall t :: t in Triples(rows) ==>
      t.key != "" && t.value != "" && (t.file.Some? ==> '.' !in t.file.value)
    decreases |rows|
  {
    if rows != [] {
      TriplesAreClean(rows[..|rows| - 1]);
      CurrentFileIsLastMarker(rows[..|rows| - 1]);
    }
  }

  /* ---------- process_data ---------- */

  /** `batch_data[file_name][key] = value` on a `defaultdict(dict)`. */
  function Add(b: Batch, t: Triple): (r: Batch)
    ensures r.Keys == b.Keys + {t.file}
    ensures r[t.file].Keys == (if t.file in b then b[t.file].Keys else {}) + {t.key}
    ensures r[t.file][t.key] == t.value
  {
    b[t.file := (if t.file in b then b[t.file] else map[])[t.key := t.value]]
  }

  /** The batch `process_data` builds from `data`. */
  function Group(data: seq<Triple>): (b: Batch)
    decreases |data|
  {
    if data == [] then map[] else Add(Group(data[..|data| - 1]), data[|data| - 1])
  }

  /** No triple after index `i` writes `key` of `file`. */
  predicate NoLaterWrite(data: seq<Triple>, i: int, file: Option<string>, key: string) {
    forall j :: 0 <= j < |data| && i < j ==> data[j].file != file || data[j].key != key
  }

  /** The value of the last triple of `data` for `file` and `key`, the
      reference for what grouping keeps. */
  function Lookup(data: seq<Triple>, file: Option<string>, key: string): (r: Option<string>)
    decreases |data|
  {
    if data == [] then None
    else
      var last := data[|data| - 1];
      if last.file == file && last.key == key then Some(last.value)
      else Lookup(data[..|data| - 1], file, key)
  }

  /** `Lookup` finds a value exactly when some triple writes the pair,
      and then it is the value of a write no later triple overrides. */
  lemma {:induction false} LookupIsLastWrite(data: seq<Triple>, file: Option<string>, key: string)
    ensures Lookup(data, file, key).Some? <==> exists i :: 0 <= i < |data| && data[i].file == file && data[i].key == key
    ensures Lookup(data, file, key).Some? ==>
      exists i :: 0 <= i < |data| && data[i] == Triple(file, key, Lookup(data, file, key).value) && NoLaterWrite(data, i, file, key)
    decreases |data|
  {
    if data != [] {
      var init := data[..|data| - 1];
      LookupIsLastWrite(init, file, key);
      var last := data[|data| - 1];
      if last.file == file && last.key == key {
        assert data[|data| - 1] == Triple(file, key, last.value);
        assert NoLaterWrite(data, |data| - 1, file, key);
      } else {
        if Lookup(init, file, key).Some? {
          var i :| 0 <= i < |init| && init[i] == Triple(file, key, Lookup(init, file, key).value)
            && NoLaterWrite(init, i, file, key);
          assert data[i] == init[i];
          assert NoLaterWrite(data, i, file, key);
        }
        if exists i :: 0 <= i < |data| && data[i].file == file && data[i].key == key {
          var i :| 0 <= i < |data| && data[i].file == file && data[i].key == key;
          assert init[i] == data[i];
        }
      }
    }
  }

  /** Grouping keeps exactly the (file, key) pairs of the data, each with
      its last value. */
  lemma {:induction false} GroupIsLastWins(data: seq<Triple>, file: Option<string>, key: string)
    ensures file in Group(data) && key in Group(data)[file] <==> Lookup(data, file, key).Some?
    ensures file in Group(data) && key in Group(data)[file] ==>
      Group(data)[file][key] == Lookup(data, file, key).value
    decreases |data|
  {
    if data != [] {
      GroupIsLastWins(data[..|data| - 1], file, key);
    }
  }

  /** A file is a key of the batch exactly when some triple names it. */
  lemma {:induction false} GroupFiles(data: seq<Triple>, file: Option<string>)
    ensures file in Group(data) <==> exists i :: 0 <= i < |data| && data[i].file == file
    decreases |data|
  {
    if data != [] {
      var init := data[..|data| - 1];
      GroupFiles(init, file);
      if file in Group(init) {
        var i :| 0 <= i < |init| && init[i].file == file;
        assert data[i].file == file;
      }
      if exists i :: 0 <= i < |data| && data[i].file == file {
        var i :| 0 <= i < |data| && data[i].file == file;
        if i < |init| {
          assert init[i].file == file;
        }
      }
    }
  }

  /** `if batch_data:`: the batch is empty exactly when the chunk is. */
  lemma GroupEmpty(data: seq<Triple>)
    ensures Group(data) == map[] <==> data == []
  {
    if data != [] {
      assert data[|data| - 1].file in Group(data);
    }
  }

  /** `process_data(data)`: the batch is built one triple at a time and
      sent only when it is not empty. */
  method ProcessData(log: seq<Batch>, data: seq<Triple>) returns (r: seq<Batch>)
    ensures data == [] ==> r == log
    ensures data != [] ==> |r| == |log| + 1 && r[..|log|] == log
    ensures data != [] ==> r == log + [Group(data)]
    ensures data != [] ==> forall f, k :: (f in r[|log|] && k in r[|log|][f]) <==> Lookup(data, f, k).Some?
    ensures data != [] ==> forall f, k :: f in r[|log|] && k in r[|log|][f] ==>
      r[|log|][f][k] == Lookup(data, f, k).value
  {
    var batch: Batch := map[];
    var i := 0;
    while i < |data|
      invariant 0 <= i <= |data|
      invariant batch == Group(data[..i])
    {
      assert data[..i + 1][..i] == data[..i];
      batch := Add(batch, data[i]);
      i := i + 1;
    }
    assert data[..|data|] == data;
    GroupEmpty(data);
    if batch != map[] {
      r := log + [batch];
      forall f, k ensures (f in batch && k in batch[f]) <==> Lookup(data, f, k).Some? {
        GroupIsLastWins(data, f, k);
      }
      forall f, k | f in batch && k in batch[f] ensures batch[f][k] == Lookup(data, f, k).value {
        GroupIsLastWins(data, f, k);
      }
    } else {
      r := log;
    }
  }

  /** The updates that a sequence of `process_data` calls sends: each
      call appends the chunk's `Group` exactly when the chunk is not
      empty, as `ProcessData` does (see `PublishSnoc`). */
  function Publish(chunks: seq<seq<Triple>>): (log: seq<Batch>)
    ensures |log| <= |chunks|
    ensures forall i :: 0 <= i < |log| ==> log[i] != map[]
    decreases |chunks|
  {
    if chunks == [] then []
    else
      var init := Publish(chunks[..|chunks| - 1]);
      var last := chunks[|chunks| - 1];
      GroupEmpty(last);
      if last == [] then init else init + [Group(last)]
  }

  /** One more `process_data` call: the log gains the chunk's batch,
      the one `ProcessData` appends, exactly when the chunk is not
      empty. */
  lemma PublishSnoc(chunks: seq<seq<Triple>>, c: seq<Triple>)
    ensures c == [] ==> Publish(chunks + [c]) == Publish(chunks)
    ensures c != [] ==> Publish(chunks + [c]) == Publish(chunks) + [Group(c)]
  {
    var all := chunks + [c];
    assert all[..|all| - 1] == chunks;
    assert all[|all| - 1] == c;
  }

  /** With no empty chunk, every chunk is one update, in order. */
  lemma {:induction false} PublishEveryChunk(chunks: seq<seq<Triple>>)
    requires forall i :: 0 <= i < |chunks| ==> chunks[i] != []
    ensures |Publish(chunks)| == |chunks|
    ensures forall i :: 0 <= i < |chunks| ==> Publish(chunks)[i] == Group(chunks[i])
    decreases |chunks|
  {
    if chunks != [] {
      PublishEveryChunk(chunks[..|chunks| - 1]);
    }
  }

  /* ---------- send_data_to_firebase ---------- */

  function Concat(chunks: seq<seq<Triple>>): (r: seq<Triple>)
    decreases |chunks|
  {
    if chunks == [] then [] else Concat(chunks[..|chunks| - 1]) + chunks[|chunks| - 1]
  }

  lemma ConcatSnoc(chunks: seq<seq<Triple>>, data: seq<Triple>)
    ensures Concat(chunks + [data]) == Concat(chunks) + data
  {
    assert (chunks + [data])[..|chunks|] == chunks;
  }

  /** Reading row `i` after the rows before it. */
  lemma PrefixStep(rows: seq<Row>, i: nat)
    requires i < |rows| && AllWellFormed(rows[..i + 1])
    ensures AllWellFormed(rows[..i]) && WellFormed(rows[i])
    ensures Triples(rows[..i + 1]) == Triples(rows[..i]) + RowTriples(CurrentFile(rows[..i]), rows[i])
    ensures CurrentFile(rows[..i + 1]) ==
      if IsFileRow(rows[i]) then Some(FileKey(rows[i][1])) else CurrentFile(rows[..i])
  {
    assert rows[..i + 1][..i] == rows[..i] && rows[..i + 1][i] == rows[i];
    assert forall j :: 0 <= j < i ==> rows[..i][j] == rows[..i + 1][j];
  }

  /** The first `i` rows of a well-formed prefix are well formed. */
  lemma ShorterPrefix(rows: seq<Row>, i: nat, n: nat)
    requires i <= n <= |rows| && AllWellFormed(rows[..n])
    ensures AllWellFormed(rows[..i])
  {
    assert forall j :: 0 <= j < i ==> rows[..i][j] == rows[..n][j];
  }

  /** The loop body up to the chunk test: a "File:" row sets the file
      name, a metadata row appends its triple. */
  method ReadRow(file: Option<string>, data: seq<Triple>, row: Row) returns (file': Option<string>, data': seq<Triple>)
    requires WellFormed(row)
    ensures file' == if IsFileRow(row) then Some(FileKey(row[1])) else file
    ensures data' == data + RowTriples(file, row)
  {
    file', data' := file, data;
    if row[0] == FileMarker {
      file' := Some(FileKey(row[1]));
    } else if row[0] != "" && row[1] != "" {
      data' := data + [Triple(file, row[0], row[1])];
    }
  }

  /** The chunks sent and the pending data account for every triple of
      the rows read so far. */
  predicate Sent(chunks: seq<seq<Triple>>, data: seq<Triple>, read: seq<Row>) {
    AllWellFormed(read) && Concat(chunks) + data == Triples(read)
  }

  /** Every chunk holds between `lo` and `hi` triples. */
  predicate SizedAs(chunks: seq<seq<Triple>>, lo: int, hi: int) {
    forall j :: 0 <= j < |chunks| ==> lo <= |chunks[j]| <= hi
  }

  /** One iteration of the loop: read the row, then flush `data` when it
      has reached the chunk size. */
  method Feed(chunks: seq<seq<Triple>>, data: seq<Triple>, file: Option<string>, row: Row, chunkSize: int)
    returns (chunks': seq<seq<Triple>>, data': seq<Triple>, file': Option<string>)
    requires WellFormed(row)
    requires chunkSize >= 1 ==> |data| < chunkSize
    requires chunkSize < 1 ==> data == []
    ensures file' == if IsFileRow(row) then Some(FileKey(row[1])) else file
    ensures Concat(chunks') + data' == Concat(chunks) + data + RowTriples(file, row)
    ensures chunkSize >= 1 ==> |data'| < chunkSize
    ensures |chunks| <= |chunks'| <= |chunks| + 1
    ensures chunkSize >= 1 && SizedAs(chunks, chunkSize, chunkSize) ==> SizedAs(chunks', chunkSize, chunkSize)
    ensures chunkSize < 1 ==> data' == [] && |chunks'| == |chunks| + 1
    ensures chunkSize < 1 && SizedAs(chunks, 0, 1) ==> SizedAs(chunks', 0, 1)
  {
    var read: seq<Triple>;
    file', read := ReadRow(file, data, row);
    assert |read| <= |data| + 1;
    assert Concat(chunks) + data + RowTriples(file, row) == Concat(chunks) + read;
    if |read| >= chunkSize {
      ConcatSnoc(chunks, read);
      chunks' := chunks + [read];
      data' := [];
      assert Concat(chunks') + data' == Concat(chunks') == Concat(chunks) + read;
      assert chunks'[|chunks|] == read;
      assert forall j :: 0 <= j < |chunks| ==> chunks'[j] == chunks[j];
    } else {
      chunks', data' := chunks, read;
    }
  }

  /** The `for row in reader` loop over the first `n` rows, none of
      which raises: the chunks flushed so far and the pending `data`. */
  method ReadRows(rows: seq<Row>, n: nat, chunkSize: int) returns (chunks: seq<seq<Triple>>, data: seq<Triple>)
    requires n <= |rows| && AllWellFormed(rows[..n])
    ensures Concat(chunks) + data == Triples(rows[..n])
    ensures chunkSize >= 1 ==> |data| < chunkSize
    ensures chunkSize >= 1 ==> SizedAs(chunks, chunkSize, chunkSize)
    ensures chunkSize < 1 ==> data == [] && |chunks| == n && SizedAs(chunks, 0, 1)
  {
    chunks := [];
    data := [];
    var file: Option<string> := None;
    var i := 0;
    assert rows[..0] == [];
    assert Sent(chunks, data, rows[..0]);
    while i < n
      invariant 0 <= i <= n
      invariant AllWellFormed(rows[..i])
      invariant file == CurrentFile(rows[..i])
      invariant Sent(chunks, data, rows[..i])
      invariant chunkSize >= 1 ==> |data| < chunkSize
      invariant chunkSize >= 1 ==> SizedAs(chunks, chunkSize, chunkSize)
      invariant chunkSize < 1 ==> data == [] && |chunks| == i && SizedAs(chunks, 0, 1)
    {
      var row := rows[i];
      ShorterPrefix(rows, i + 1, n);
      PrefixStep(rows, i);
      chunks, data, file := Feed(chunks, data, file, row, chunkSize);
      i := i + 1;
    }
  }

  /** `send_data_to_firebase` on the parsed rows of the CSV file: the
      chunks handed to `process_data`, in order; whether every row was
      read (a short row raises `IndexError`, which the outer handler
      reports, ending the run); and the triples still pending when it
      raised, which are never sent. */
  method SendData(rows: seq<Row>, chunkSize: int) returns (chunks: seq<seq<Triple>>, completed: bool, abandoned: seq<Triple>)
    ensures completed <==> AllWellFormed(rows)
    ensures completed ==> abandoned == []
    ensures Concat(chunks) + abandoned == Triples(rows[..Valid(rows)])
    ensures chunkSize >= 1 ==> forall i :: 0 <= i < |chunks| ==> 0 < |chunks[i]| <= chunkSize
    ensures chunkSize >= 1 ==> forall i :: 0 <= i < |chunks| - 1 ==> |chunks[i]| == chunkSize
    ensures chunkSize >= 1 && !completed ==>
      |abandoned| < chunkSize && forall i :: 0 <= i < |chunks| ==> |chunks[i]| == chunkSize
    ensures chunkSize < 1 ==> abandoned == [] && |chunks| == Valid(rows)
    ensures chunkSize < 1 ==> forall i :: 0 <= i < |chunks| ==> |chunks[i]| <= 1
  {
    var n := Valid(rows);
    var data;
    chunks, data := ReadRows(rows, n, chunkSize);
    completed := n == |rows|;
    if completed {
      if data != [] {
        ConcatSnoc(chunks, data);
        chunks := chunks + [data];
      }
      abandoned := [];
    } else {
      abandoned := data;
    }
  }
}
