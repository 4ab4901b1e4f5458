/** app/upload/page.tsx: the client-side upload page. It cleans the first column
    of every spreadsheet row into a ten-digit number, then sends the numbers in
    chunks of 10000, advancing an `uploaded` counter after each chunk. Reading the
    spreadsheet and the request itself are not part of this model: a cell is its
    text ("" for an empty or missing cell) and whether each request went through
    is a parameter. */
module UploadPage {
  import opened Seqs
  import opened Text

  const CHUNK_SIZE: nat := 10000

  const SUCCESS_MESSAGE: string := "Upload completed successfully."
  const ERROR_MESSAGE: string := "Error uploading some chunks."

  /** "91" followed by more than eight digits: a number with its country code. */
  predicate CountryCoded(s: string)
  {
    |s| > 10 && s[0] == '9' && s[1] == '1'
  }

  /** `cleanNumber`: an empty cell gives null; otherwise every non-digit is
      dropped, a country-coded number keeps its last ten digits, and the result
      is kept only when it has exactly ten digits. */
  function CleanNumber(cell: string): (r: Option<string>)
    ensures r.Some? ==> |r.value| == 10 && AllDigits(r.value)
    ensures r.Some? <==>
      cell != [] && (|StripNonDigits(cell)| == 10 || CountryCoded(StripNonDigits(cell)))
    ensures r.Some? ==>
      (10 <= |StripNonDigits(cell)| && r.value == StripNonDigits(cell)[|StripNonDigits(cell)| - 10..])
  {
    if cell == [] then None
    else
      var digits := StripNonDigits(cell);
      var s := if CountryCoded(digits) then digits[|digits| - 10..] else digits;
      if |s| != 10 then None else Some(s)
  }

  /** The numbers collected from the rows: the non-null cleaned first cells, in row order. */
  function Collected(cells: seq<string>): seq<string>
  {
    if cells == [] then []
    else
      var c := CleanNumber(cells[|cells| - 1]);
      Collected(cells[..|cells| - 1]) + (if c.Some? then [c.value] else [])
  }

  /** Lines 48-53: the `forEach` that pushes every non-null cleaned cell. */
  method CollectNumbers(cells: seq<string>) returns (numbers: seq<string>)
    ensures numbers == Collected(cells)
  {
    numbers := [];
    for i := 0 to |cells|
      invariant numbers == Collected(cells[..i])
    {
      assert cells[..i + 1][..i] == cells[..i];
      var cleaned := CleanNumber(cells[i]);
      if cleaned.Some? {
        numbers := numbers + [cleaned.value];
      }
    }
    assert cells[..|cells|] == cells;
  }

  function Min(a: int, b: int): int { if a < b then a else b }

  /** Whether every chunk from offset `i` on goes through (`ok(i)` says whether the
      request for the chunk starting at `i` completes without throwing). */
  predicate AllSent(n: nat, ok: nat -> bool, i: nat)
    decreases n - i
  {
    i >= n || (ok(i) && AllSent(n, ok, i + CHUNK_SIZE))
  }

  /** How many chunks from offset `i` on go through before the first failure. */
  function Sent(n: nat, ok: nat -> bool, i: nat): nat
    decreases n - i
  {
    if i >= n || !ok(i) then 0 else 1 + Sent(n, ok, i + CHUNK_SIZE)
  }

  /** The successive values given to `uploaded`: after chunk `j`, `min((j+1)*10000, n)`. */
  function UploadHistory(n: nat, ok: nat -> bool): seq<int>
  {
    seq(Sent(n, ok, 0), j requires 0 <= j => Min((j + 1) * CHUNK_SIZE, n))
  }

  /** The messages the page sets after reading the file, as written: the error
      message when a request throws, then the success message in every case. */
  function MessagesAsWritten(n: nat, ok: nat -> bool): seq<string>
  {
    (if AllSent(n, ok, 0) then [] else [ERROR_MESSAGE]) + [SUCCESS_MESSAGE]
  }

  /** The message the page evidently means to leave on screen. */
  function FinalMessage(n: nat, ok: nat -> bool): string
  {
    if AllSent(n, ok, 0) then SUCCESS_MESSAGE else ERROR_MESSAGE
  }

  /** Lines 57-77 as written: the chunk loop stops at the first request that
      throws, and the success message is set after the loop regardless. */
  method UploadChunksAsWritten(n: nat, ok: nat -> bool) returns (history: seq<int>, messages: seq<string>)
    ensures history == UploadHistory(n, ok)
    ensures messages == MessagesAsWritten(n, ok)
  {
    history, messages := [], [];
    var i: nat := 0;
    while i < n
      invariant i == |history| * CHUNK_SIZE
      invariant forall j :: 0 <= j < |history| ==> history[j] == Min((j + 1) * CHUNK_SIZE, n)
      invariant Sent(n, ok, 0) == |history| + Sent(n, ok, i)
      invariant AllSent(n, ok, 0) == AllSent(n, ok, i)
      invariant messages == []
      decreases n - i
    {
      if !ok(i) {
        messages := messages + [ERROR_MESSAGE];
        break;
      }
      history := history + [Min(i + CHUNK_SIZE, n)];
      i := i + CHUNK_SIZE;
    }
    messages := messages + [SUCCESS_MESSAGE];
  }

  /** The loop with the message corrected: success only when every chunk went through. */
  method UploadChunks(n: nat, ok: nat -> bool) returns (history: seq<int>, message: string)
    ensures history == UploadHistory(n, ok)
    ensures message == FinalMessage(n, ok)
  {
    history := [];
    var failed := false;
    var i: nat := 0;
    while i < n
      invariant i == |history| * CHUNK_SIZE
      invariant forall j :: 0 <= j < |history| ==> history[j] == Min((j + 1) * CHUNK_SIZE, n)
      invariant Sent(n, ok, 0) == |history| + Sent(n, ok, i)
      invariant AllSent(n, ok, 0) == AllSent(n, ok, i)
      invariant !failed
      decreases n - i
    {
      if !ok(i) {
        failed := true;
        break;
      }
      history := history + [Min(i + CHUNK_SIZE, n)];
      i := i + CHUNK_SIZE;
    }
    message := if failed then ERROR_MESSAGE else SUCCESS_MESSAGE;
  }

  // ---------------------------------------------------------------------------
  // Properties of cleanNumber

  /** Cleaning a cleaned number gives it back. */
  lemma CleanNumberIdempotent(cell: string)
    requires CleanNumber(cell).Some?
    ensures CleanNumber(CleanNumber(cell).value) == CleanNumber(cell)
  {
  }

  /** A ten-digit number is kept as it is, even when it starts with "91". */
  lemma TenDigitsKept(d: string)
    requires |d| == 10 && AllDigits(d)
    ensures CleanNumber(d) == Some(d)
  {
  }

  /** A country-coded run of digits keeps its last ten. */
  lemma CountryCodedKeepsLastTen(cell: string, d: string)
    requires StripNonDigits(cell) == ['9', '1'] + d && |d| == 10 && cell != []
    ensures CleanNumber(cell) == Some(d)
  {
    var digits := ['9', '1'] + d;
    assert CountryCoded(digits);
    assert digits[|digits| - 10..] == d;
  }

  /** The digits of "+91 " followed by `rest` are "91" followed by those of `rest`. */
  lemma StripCountryCode(cell: string, rest: string)
    requires cell == ['+', '9', '1', ' '] + rest
    ensures StripNonDigits(cell) == ['9', '1'] + StripNonDigits(rest)
  {
    var code := ['+', '9', '1', ' '];
    StripNonDigitsAppend(code, rest);
    assert code[1..] == ['9', '1', ' '];
    assert code[1..][1..] == ['1', ' '];
    assert code[1..][1..][1..] == [' '];
    assert StripNonDigits(code) == ['9', '1'];
  }

  /** "+91", a blank, and a ten-digit number written in two groups separated by
      a blank clean to the ten digits: "+91 98765 43210" gives "9876543210". */
  lemma CountryCodeDropped(d1: string, d2: string)
    requires AllDigits(d1) && AllDigits(d2) && |d1| + |d2| == 10
    ensures CleanNumber("+91 " + d1 + " " + d2) == Some(d1 + d2)
  {
    var rest := d1 + ([' '] + d2);
    var cell := "+91 " + d1 + " " + d2;
    assert cell == ['+', '9', '1', ' '] + rest;
    StripCountryCode(cell, rest);
    StripNonDigitsAppend(d1, [' '] + d2);
    StripSpaceThenDigits(d2);
    CountryCodedKeepsLastTen(cell, d1 + d2);
  }

  /** A ten-digit number written in two groups split by any non-digit keeps its
      ten digits: "98765-43210" gives "9876543210". */
  lemma SeparatedNumberKept(d1: string, sep: char, d2: string)
    requires AllDigits(d1) && AllDigits(d2) && |d1| + |d2| == 10 && !IsDigit(sep)
    ensures CleanNumber(d1 + [sep] + d2) == Some(d1 + d2)
  {
    assert d1 + [sep] + d2 == d1 + ([sep] + d2);
    var tail := [sep] + d2;
    assert tail[0] == sep && tail[1..] == d2;
    assert StripNonDigits(tail) == d2;
    StripNonDigitsAppend(d1, tail);
    assert StripNonDigits(d1 + tail) == d1 + d2;
  }

  /** "9123456789" is kept as it is. */
  lemma NinetyOneNumberKept()
    ensures CleanNumber("9123456789") == Some("9123456789")
  {
    TenDigitsKept("9123456789");
  }

  /** A cell that `cleanNumber` turns into a number. */
  predicate Cleanable(cell: string)
  {
    CleanNumber(cell).Some?
  }

  /** The collected numbers are, position by position, the cleaned cells of the
      rows that clean to a number, in row order; a repeated row is collected again. */
  lemma {:induction false} CollectedOrder(cells: seq<string>)
    ensures var kept := Filter(cells, Cleanable);
      && |Collected(cells)| == |kept|
      && forall k :: 0 <= k < |kept| ==> Collected(cells)[k] == CleanNumber(kept[k]).value
  {
    if cells != [] {
      var init, last := cells[..|cells| - 1], cells[|cells| - 1];
      CollectedOrder(init);
      assert cells == init + [last];
      FilterAppend(init, [last], Cleanable);
      assert [last][1..] == [];
    }
  }

  /** A number is collected exactly when some row's cell cleans to it; every
      collected number has ten digits, and there are at most as many as rows.
      The collected list is the cleaned values of the rows that clean, in row
      order, one entry per such row. */
  lemma CollectedSpec(cells: seq<string>)
    ensures |Collected(cells)| <= |cells|
    ensures var kept := Filter(cells, Cleanable);
      && |Collected(cells)| == |kept|
      && forall k :: 0 <= k < |kept| ==> Collected(cells)[k] == CleanNumber(kept[k]).value
    ensures forall x :: x in Collected(cells) <==> exists i :: 0 <= i < |cells| && CleanNumber(cells[i]) == Some(x)
    ensures forall x :: x in Collected(cells) ==> |x| == 10 && AllDigits(x)
  {
    CollectedOrder(cells);
    CollectedMembers(cells);
  }

  /** The membership half of CollectedSpec. */
  lemma {:induction false} CollectedMembers(cells: seq<string>)
    ensures |Collected(cells)| <= |cells|
    ensures forall x :: x in Collected(cells) <==> exists i :: 0 <= i < |cells| && CleanNumber(cells[i]) == Some(x)
    ensures forall x :: x in Collected(cells) ==> |x| == 10 && AllDigits(x)
  {
    if cells != [] {
      var init := cells[..|cells| - 1];
      CollectedMembers(init);
      forall x | (exists i :: 0 <= i < |cells| && CleanNumber(cells[i]) == Some(x))
        ensures x in Collected(cells)
      {
        var i :| 0 <= i < |cells| && CleanNumber(cells[i]) == Some(x);
        if i < |cells| - 1 {
          assert init[i] == cells[i];
        }
      }
      forall x | x in Collected(cells)
        ensures exists i :: 0 <= i < |cells| && CleanNumber(cells[i]) == Some(x)
      {
        if x in Collected(init) {
          var i :| 0 <= i < |init| && CleanNumber(init[i]) == Some(x);
          assert cells[i] == init[i];
        } else {
          assert CleanNumber(cells[|cells| - 1]) == Some(x);
        }
      }
    }
  }

  // ---------------------------------------------------------------------------
  // Properties of the chunk loop

  /** When every chunk from `i` on goes through, the last one reaches `n`; when one
      fails, the ones before it stop short of `n`. */
  lemma {:induction false} SentReach(n: nat, ok: nat -> bool, i: nat)
    requires i < n
    ensures AllSent(n, ok, i) ==> Sent(n, ok, i) >= 1 && i + (Sent(n, ok, i) - 1) * CHUNK_SIZE < n <= i + Sent(n, ok, i) * CHUNK_SIZE
    ensures !AllSent(n, ok, i) ==> i + Sent(n, ok, i) * CHUNK_SIZE < n
    decreases n - i
  {
    if ok(i) && i + CHUNK_SIZE < n {
      SentReach(n, ok, i + CHUNK_SIZE);
      var s := Sent(n, ok, i + CHUNK_SIZE);
      assert Sent(n, ok, i) == s + 1;
      assert i + (s + 1) * CHUNK_SIZE == (i + CHUNK_SIZE) + s * CHUNK_SIZE;
    } else if ok(i) {
      assert AllSent(n, ok, i + CHUNK_SIZE);
      assert Sent(n, ok, i + CHUNK_SIZE) == 0;
    }
  }

  /** `uploaded` strictly increases, never passes `n`, and ends at `n` exactly when
      every chunk went through (for a non-empty file). */
  lemma UploadProgress(n: nat, ok: nat -> bool)
    ensures var h := UploadHistory(n, ok);
      && (forall j, k :: 0 <= j < k < |h| ==> h[j] < h[k])
      && (forall j :: 0 <= j < |h| ==> 0 < h[j] <= n)
      && (n > 0 ==> (AllSent(n, ok, 0) <==> |h| > 0 && h[|h| - 1] == n))
  {
    var h := UploadHistory(n, ok);
    if n > 0 {
      SentReach(n, ok, 0);
    }
    forall j, k | 0 <= j < k < |h| ensures h[j] < h[k] {
      assert (j + 1) * CHUNK_SIZE < (k + 1) * CHUNK_SIZE;
      assert (j + 1) * CHUNK_SIZE < n by {
        assert (j + 1) * CHUNK_SIZE <= (|h| - 1) * CHUNK_SIZE;
        if AllSent(n, ok, 0) {
        } else {
        }
      }
    }
  }

  /** As written, a failed chunk leaves the error message overwritten by the success
      message: the last message set is always the success message. */
  lemma ErrorMessageOverwritten(n: nat, ok: nat -> bool)
    requires !AllSent(n, ok, 0)
    ensures ERROR_MESSAGE in MessagesAsWritten(n, ok)
    ensures MessagesAsWritten(n, ok)[|MessagesAsWritten(n, ok)| - 1] == SUCCESS_MESSAGE
  {
  }

  /** One number and a request that throws: the page still reports success. */
  lemma FailedUploadReportsSuccess()
    ensures var ok := (i: nat) => false;
      !AllSent(1, ok, 0) && UploadHistory(1, ok) == [] &&
      MessagesAsWritten(1, ok)[|MessagesAsWritten(1, ok)| - 1] == SUCCESS_MESSAGE
  {
  }

  /** With the message corrected, success is reported exactly when every chunk was
      sent, which for a non-empty file is when `uploaded` reached the total. */
  lemma FinalMessageSpec(n: nat, ok: nat -> bool)
    ensures FinalMessage(n, ok) == SUCCESS_MESSAGE <==> AllSent(n, ok, 0)
    ensures FinalMessage(n, ok) == ERROR_MESSAGE <==> !AllSent(n, ok, 0)
    ensures n > 0 ==> (FinalMessage(n, ok) == SUCCESS_MESSAGE <==>
      |UploadHistory(n, ok)| > 0 && UploadHistory(n, ok)[|UploadHistory(n, ok)| - 1] == n)
  {
    assert SUCCESS_MESSAGE != ERROR_MESSAGE by {
      assert SUCCESS_MESSAGE[0] != ERROR_MESSAGE[0];
    }
    UploadProgress(n, ok);
  }
}
