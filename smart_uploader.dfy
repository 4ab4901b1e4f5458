/** src/components/SmartUploader.tsx: the client-side uploader for the `contacts`
    table. Rows are validated locally, then the valid numbers are sent in chunks of
    1000: for each chunk the numbers already stored are counted as duplicates and
    the others are inserted and counted as added. The table is modelled as the set
    of its `phone_number`s; reading the spreadsheet is not part of this model (a
    row is its `Contact_Number` cell as text, `None` when the column is missing). */
module SmartUploader {
  import opened Seqs
  import opened Text

  const CHUNK_SIZE: nat := 1000

  const EMPTY_ROW: string := "Empty Row"

  datatype UploadReport = UploadReport(
    total: int,
    success: int,
    duplicates: int,
    failed: int,
    failedList: seq<string>)

  /** The running state of the chunk loop: the stored numbers and both counters. */
  datatype ImportTally = ImportTally(stored: set<string>, added: nat, duplicates: nat)

  /** `rawVal`: the cell's text, "" when the column is missing. */
  function RawValue(row: Option<string>): string
  {
    if row.Some? then row.value else ""
  }

  /** `raw`: the trimmed cell with every non-digit removed. */
  function Candidate(row: Option<string>): (r: string)
    ensures AllDigits(r)
  {
    StripNonDigits(Trim(RawValue(row)))
  }

  /** What a failing row contributes to the failed list: its text, or "Empty Row". */
  function FailedEntry(row: Option<string>): string
  {
    if RawValue(row) == "" then EMPTY_ROW else RawValue(row)
  }

  /** The valid numbers of the rows, in row order. */
  function ValidNumbers(rows: seq<Option<string>>): seq<string>
  {
    if rows == [] then []
    else
      var row := rows[|rows| - 1];
      ValidNumbers(rows[..|rows| - 1]) + (if |Candidate(row)| == 10 then [Candidate(row)] else [])
  }

  /** The failed list of the rows, in row order. */
  function FailedEntries(rows: seq<Option<string>>): seq<string>
  {
    if rows == [] then []
    else
      var row := rows[|rows| - 1];
      FailedEntries(rows[..|rows| - 1]) + (if |Candidate(row)| == 10 then [] else [FailedEntry(row)])
  }

  /** Lines 43-52: the `forEach` that sorts every row into one of the two lists. */
  method ValidateRows(rows: seq<Option<string>>) returns (valid: seq<string>, failed: seq<string>)
    ensures valid == ValidNumbers(rows) && failed == FailedEntries(rows)
  {
    valid, failed := [], [];
    for i := 0 to |rows|
      invariant valid == ValidNumbers(rows[..i]) && failed == FailedEntries(rows[..i])
    {
      ValidateStep(rows, i);
      var rawVal := RawValue(rows[i]);
      var raw := StripNonDigits(Trim(rawVal));
      if |raw| == 10 {
        valid := valid + [raw];
      } else {
        failed := failed + [if rawVal == "" then EMPTY_ROW else rawVal];
      }
    }
    assert rows[..|rows|] == rows;
  }

  /** One more row adds its number to the valid list or its entry to the failed list. */
  lemma ValidateStep(rows: seq<Option<string>>, i: nat)
    requires i < |rows|
    ensures ValidNumbers(rows[..i + 1])
         == ValidNumbers(rows[..i]) + (if |Candidate(rows[i])| == 10 then [Candidate(rows[i])] else [])
    ensures FailedEntries(rows[..i + 1])
         == FailedEntries(rows[..i]) + (if |Candidate(rows[i])| == 10 then [] else [FailedEntry(rows[i])])
  {
    assert rows[..i + 1][..i] == rows[..i];
    assert rows[..i + 1][i] == rows[i];
  }

  function Min(a: int, b: int): int { if a < b then a else b }

  /** The chunk starting at offset `i`. */
  function ChunkAt(valid: seq<string>, i: nat): seq<string>
    requires i < |valid|
  {
    valid[i..Min(i + CHUNK_SIZE, |valid|)]
  }

  /** `existingSet`: the distinct numbers of the chunk that are already stored. */
  function Existing(chunk: seq<string>, stored: set<string>): set<string>
  {
    set v | v in chunk && v in stored
  }

  /** `newContacts`: the entries of the chunk not yet stored, repeats included. */
  function NewContacts(chunk: seq<string>, stored: set<string>): seq<string>
  {
    Filter(chunk, v => v !in stored)
  }

  /** The chunk loop from offset `i` on, starting from the stored set `stored`. */
  function ImportFrom(stored: set<string>, valid: seq<string>, i: nat): ImportTally
    decreases |valid| - i
  {
    if i >= |valid| then ImportTally(stored, 0, 0)
    else
      var chunk := ChunkAt(valid, i);
      var newOnes := NewContacts(chunk, stored);
      var rest := ImportFrom(stored + (set v | v in newOnes), valid, i + CHUNK_SIZE);
      ImportTally(rest.stored, |newOnes| + rest.added, |Existing(chunk, stored)| + rest.duplicates)
  }

  /** Lines 55-82: the chunk loop, checking each chunk against the store before
      inserting its new entries. */
  method ImportChunks(stored: set<string>, valid: seq<string>)
    returns (stored': set<string>, added: nat, duplicates: nat)
    ensures ImportTally(stored', added, duplicates) == ImportFrom(stored, valid, 0)
  {
    stored', added, duplicates := stored, 0, 0;
    var i: nat := 0;
    while i < |valid|
      invariant var rest := ImportFrom(stored', valid, i);
        ImportFrom(stored, valid, 0) == ImportTally(rest.stored, added + rest.added, duplicates + rest.duplicates)
      decreases |valid| - i
    {
      var chunk := valid[i..Min(i + CHUNK_SIZE, |valid|)];
      var existingSet := set v | v in chunk && v in stored';
      var newContacts := Filter(chunk, v => v !in stored');
      duplicates := duplicates + |existingSet|;
      added := added + |newContacts|;
      stored' := stored' + (set v | v in newContacts);
      i := i + CHUNK_SIZE;
    }
  }

  /** The whole handler: validate, import, and build the report. */
  method HandleUpload(rows: seq<Option<string>>, stored: set<string>)
    returns (report: UploadReport, stored': set<string>)
    ensures var t := ImportFrom(stored, ValidNumbers(rows), 0);
      && stored' == t.stored
      && report == UploadReport(|rows|, t.added, t.duplicates, |FailedEntries(rows)|, FailedEntries(rows))
  {
    var valid, failed := ValidateRows(rows);
    var added, duplicates;
    stored', added, duplicates := ImportChunks(stored, valid);
    report := UploadReport(|rows|, added, duplicates, |failed|, failed);
  }

  // ---------------------------------------------------------------------------
  // Properties

  /** Every row lands in exactly one list, so valid + failed = total; every valid
      number has ten digits and no failed entry is empty. */
  lemma ValidationSpec(rows: seq<Option<string>>)
    ensures |ValidNumbers(rows)| + |FailedEntries(rows)| == |rows|
    ensures forall x :: x in ValidNumbers(rows) ==> |x| == 10 && AllDigits(x)
    ensures forall x :: x in FailedEntries(rows) ==> x != ""
  {
    ValidationCounts(rows);
    ValidNumbersShape(rows);
    FailedEntriesNonEmpty(rows);
  }

  lemma {:induction false} ValidationCounts(rows: seq<Option<string>>)
    ensures |ValidNumbers(rows)| + |FailedEntries(rows)| == |rows|
  {
    if rows != [] {
      var n := |rows| - 1;
      ValidationCounts(rows[..n]);
      ValidateStep(rows, n);
      assert rows[..n + 1] == rows;
    }
  }

  lemma {:induction false} ValidNumbersShape(rows: seq<Option<string>>)
    ensures forall x :: x in ValidNumbers(rows) ==> |x| == 10 && AllDigits(x)
  {
    if rows != [] {
      ValidNumbersShape(rows[..|rows| - 1]);
      ValidNumbersLast(rows);
    }
  }

  /** A valid number comes from the earlier rows or is the last row's ten-digit candidate. */
  lemma ValidNumbersLast(rows: seq<Option<string>>)
    requires rows != []
    ensures forall x :: x in ValidNumbers(rows) ==>
      x in ValidNumbers(rows[..|rows| - 1]) || (x == Candidate(rows[|rows| - 1]) && |x| == 10)
  {
  }

  lemma {:induction false} FailedEntriesNonEmpty(rows: seq<Option<string>>)
    ensures forall x :: x in FailedEntries(rows) ==> x != ""
  {
    if rows != [] {
      var n := |rows| - 1;
      FailedEntriesNonEmpty(rows[..n]);
      FailedEntriesLast(rows);
      FailedEntryNonEmpty(rows[n]);
    }
  }

  /** An entry of the failed list comes from the earlier rows or is the last row's entry. */
  lemma FailedEntriesLast(rows: seq<Option<string>>)
    requires rows != []
    ensures forall x :: x in FailedEntries(rows) ==>
      x in FailedEntries(rows[..|rows| - 1]) || x == FailedEntry(rows[|rows| - 1])
  {
  }

  lemma FailedEntryNonEmpty(row: Option<string>)
    ensures FailedEntry(row) != ""
  {
    assert |EMPTY_ROW| == 9;
  }

  /** "Empty Row" is reported exactly when some row's cell is missing or empty (or
      is itself the text "Empty Row"). */
  lemma {:induction false} EmptyRowReported(rows: seq<Option<string>>)
    ensures EMPTY_ROW in FailedEntries(rows) <==> exists i :: 0 <= i < |rows| && BlankRow(rows[i])
  {
    if rows != [] {
      EmptyRowReported(rows[..|rows| - 1]);
      LastRowEntry(rows);
      BlankRowsSplit(rows);
    }
  }

  lemma LastRowEntry(rows: seq<Option<string>>)
    requires rows != []
    ensures EMPTY_ROW in FailedEntries(rows) <==>
      EMPTY_ROW in FailedEntries(rows[..|rows| - 1]) || BlankRow(rows[|rows| - 1])
  {
    var last := rows[|rows| - 1];
    if BlankRow(last) {
      EmptyRowFails(last);
    }
  }

  /** Some row is blank. */
  ghost predicate HasBlankRow(rows: seq<Option<string>>)
  {
    exists i :: 0 <= i < |rows| && BlankRow(rows[i])
  }

  lemma BlankRowsSplit(rows: seq<Option<string>>)
    requires rows != []
    ensures HasBlankRow(rows) <==> HasBlankRow(rows[..|rows| - 1]) || BlankRow(rows[|rows| - 1])
  {
    var init := rows[..|rows| - 1];
    if exists i :: 0 <= i < |rows| && BlankRow(rows[i]) {
      var i :| 0 <= i < |rows| && BlankRow(rows[i]);
      if i < |init| {
        assert init[i] == rows[i];
      }
    }
  }

  /** A row whose cell is missing or empty, or is itself the text "Empty Row". */
  predicate BlankRow(row: Option<string>)
  {
    RawValue(row) == "" || RawValue(row) == EMPTY_ROW
  }

  /** Neither an empty cell nor the text "Empty Row" has ten digits. */
  lemma EmptyRowFails(row: Option<string>)
    requires BlankRow(row)
    ensures |Candidate(row)| != 10
  {
    var t := Trim(RawValue(row));
    assert |StripNonDigits(t)| <= |t| <= |RawValue(row)|;
    if RawValue(row) == EMPTY_ROW {
      assert |EMPTY_ROW| == 9;
    }
  }

  /** Per chunk, the duplicates are the distinct stored numbers of the chunk and the
      added are its unstored entries, so the two together never exceed the chunk. */
  lemma ChunkCounts(chunk: seq<string>, stored: set<string>)
    ensures |Existing(chunk, stored)| + |NewContacts(chunk, stored)| <= |chunk|
    ensures stored + (set v | v in NewContacts(chunk, stored)) == stored + (set v | v in chunk)
  {
    var inStore := Filter(chunk, v => v in stored);
    assert Existing(chunk, stored) == set v | v in inStore;
    SetOfSeqCardinality(inStore);
    FilterComplementLength(chunk, v => v in stored, v => v !in stored);
  }

  /** After the loop every valid number is stored, nothing else was added to the
      store, and added + duplicates never exceeds the number of valid rows. */
  lemma {:induction false} ImportSpec(stored: set<string>, valid: seq<string>, i: nat)
    requires i <= |valid|
    ensures var t := ImportFrom(stored, valid, i);
      && t.stored == stored + (set v | v in valid[i..])
      && t.added + t.duplicates <= |valid| - i
    decreases |valid| - i
  {
    if i < |valid| {
      var chunk := ChunkAt(valid, i);
      var next := Min(i + CHUNK_SIZE, |valid|);
      ChunkCounts(chunk, stored);
      var stored1 := stored + (set v | v in NewContacts(chunk, stored));
      ImportSpec(stored1, valid, next);
      if next < i + CHUNK_SIZE {
        assert ImportFrom(stored1, valid, i + CHUNK_SIZE) == ImportTally(stored1, 0, 0);
      }
      assert ImportFrom(stored1, valid, i + CHUNK_SIZE) == ImportFrom(stored1, valid, next);
      assert valid[i..] == chunk + valid[next..];
    } else {
      assert valid[i..] == [];
    }
  }

  /** The report of the whole handler: total = rows, failed = the failed list,
      success + duplicates <= the valid rows, and the store gains exactly the valid numbers. */
  lemma ReportSpec(rows: seq<Option<string>>, stored: set<string>)
    ensures var t := ImportFrom(stored, ValidNumbers(rows), 0);
      && t.stored == stored + (set v | v in ValidNumbers(rows))
      && t.added + t.duplicates + |FailedEntries(rows)| <= |rows|
  {
    ValidationSpec(rows);
    ImportSpec(stored, ValidNumbers(rows), 0);
    assert ValidNumbers(rows)[0..] == ValidNumbers(rows);
  }

  /** Existence is checked once per chunk, before inserting: a new number repeated
      within one chunk is counted as added twice. */
  lemma RepeatWithinChunk(stored: set<string>, x: string)
    requires x !in stored
    ensures ImportFrom(stored, [x, x], 0) == ImportTally(stored + {x}, 2, 0)
  {
    var chunk := [x, x];
    assert ChunkAt(chunk, 0) == chunk;
    assert NewContacts(chunk, stored) == chunk;
    assert Existing(chunk, stored) == {};
    assert (set v | v in chunk) == {x};
  }

  /** A chunk loop over exactly one full chunk. */
  lemma OneFullChunk(stored: set<string>, a: seq<string>)
    requires |a| == CHUNK_SIZE
    ensures ImportFrom(stored, a, 0) ==
      ImportTally(stored + (set y | y in NewContacts(a, stored)), |NewContacts(a, stored)|, |Existing(a, stored)|)
  {
    assert ChunkAt(a, 0) == a;
  }

  /** A repeat split across chunks is counted once as added and once as a duplicate:
      after a full chunk `a` holding a new number `x`, another `x` is a duplicate. */
  lemma RepeatAcrossChunks(stored: set<string>, a: seq<string>, x: string)
    requires |a| == CHUNK_SIZE && x in a && x !in stored
    ensures var before := ImportFrom(stored, a, 0);
      var after := ImportFrom(stored, a + [x], 0);
      && x in NewContacts(a, stored)
      && after.added == before.added
      && after.duplicates == before.duplicates + 1
  {
    var v := a + [x];
    OneFullChunk(stored, a);
    var stored1 := stored + (set y | y in NewContacts(a, stored));
    assert x in NewContacts(a, stored);
    assert x in stored1;
    StoredSingleton(stored1, v);
    var rest := ImportFrom(stored1, v, CHUNK_SIZE);
    assert ChunkAt(v, 0) == a;
    assert ImportFrom(stored, v, 0) ==
      ImportTally(rest.stored, |NewContacts(a, stored)| + rest.added, |Existing(a, stored)| + rest.duplicates);
  }

  /** A last chunk made of one stored number adds nothing and counts one duplicate. */
  lemma StoredSingleton(stored: set<string>, v: seq<string>)
    requires |v| == CHUNK_SIZE + 1 && v[CHUNK_SIZE] in stored
    ensures ImportFrom(stored, v, CHUNK_SIZE) == ImportTally(stored, 0, 1)
  {
    var x := v[CHUNK_SIZE];
    assert ChunkAt(v, CHUNK_SIZE) == [x];
    assert Existing([x], stored) == {x};
    assert NewContacts([x], stored) == [];
    assert (set y | y in NewContacts([x], stored)) == {};
    assert stored + {} == stored;
  }
}
