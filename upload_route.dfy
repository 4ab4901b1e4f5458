/** app/api/upload/route.ts: clean a list of raw values, split them into valid
    and invalid ones for the channel, and insert the valid ones into the
    channel's table in chunks, skipping values already stored. */
module UploadRoute {
  import opened Seqs
  import opened Text
  import opened Store
  import UploadHelpers

  /** Line 7: the number of values sent to one `createMany`. */
  const CHUNK_SIZE: nat := 10000

  datatype UploadError = InvalidPayload   // "Invalid payload"

  /** The response counts and the values listed in the failed-rows sheet. */
  datatype UploadReport = UploadReport(
    totalReceived: nat,
    valid: nat,
    inserted: nat,
    duplicates: int,
    invalid: nat,
    invalidValues: seq<string>)

  /** `t` starts with "+91". */
  predicate InternationalPrefix(t: string) { |t| >= 3 && t[0] == '+' && t[1] == '9' && t[2] == '1' }

  /** `t` starts with "91". */
  predicate NationalPrefix(t: string) { |t| >= 2 && t[0] == '9' && t[1] == '1' }

  /** Lines 35-38: trim, drop one leading "+91" (or else "91", as `/^(\+91|91)/`
      tries the alternatives in order), then delete every non-digit. A falsy value
      reaches this as "". */
  function CleanUploadValue(v: string): (r: string)
    ensures AllDigits(r)
  {
    var t := Trim(v);
    var unprefixed := if InternationalPrefix(t) then t[3..] else if NationalPrefix(t) then t[2..] else t;
    StripNonDigits(unprefixed)
  }

  /** Line 34: the cleaned list, one entry per received value. */
  function Cleaned(values: seq<string>): (r: seq<string>)
    ensures |r| == |values|
    ensures forall i :: 0 <= i < |values| ==> r[i] == CleanUploadValue(values[i])
  {
    seq(|values|, i requires 0 <= i < |values| => CleanUploadValue(values[i]))
  }

  /** Lines 45-53: a WhatsApp value is valid when it has ten characters; an email
      value when it matches the email pattern. */
  predicate Accepted(wa: bool, value: string)
  {
    if wa then |value| == 10 else UploadHelpers.EmailRegexTest(value)
  }

  function ValidValues(cleaned: seq<string>, wa: bool): seq<string>
  {
    Filter(cleaned, v => Accepted(wa, v))
  }

  function InvalidValues(cleaned: seq<string>, wa: bool): seq<string>
  {
    Filter(cleaned, v => !Accepted(wa, v))
  }

  /** A `createMany` row `{ [field]: value, slot_array: [], labels: [] }` with
      `skipDuplicates`: stored unless the identity is already there. */
  function InsertValue(store: seq<Contact>, value: string): (r: seq<Contact>)
    ensures value in Identities(r)
  {
    if value in Identities(store) then store
    else
      var r := store + [Contact(|store|, value, [], [])];
      assert Identities(r)[|store|] == value;
      r
  }

  /** The rows of one or more `createMany` calls, inserted in order. */
  function InsertAll(store: seq<Contact>, values: seq<string>): (r: seq<Contact>)
    ensures |store| <= |r| <= |store| + |values|
    decreases |values|
  {
    if values == [] then store
    else InsertValue(InsertAll(store, values[..|values| - 1]), values[|values| - 1])
  }

  /** The whole route, for a channel and the body's `values` (`None` when missing or
      not an array): the new state and the report. */
  function Upload(db: Stores, channel: string, values: Option<seq<string>>): Result<(Stores, UploadReport), UploadError>
  {
    match values
    case None => Err(InvalidPayload)
    case Some(vs) =>
      var wa := IsWhatsApp(channel);
      var cleaned := Cleaned(vs);
      var valid := ValidValues(cleaned, wa);
      var invalid := InvalidValues(cleaned, wa);
      var store := ChannelStore(db, channel);
      var store' := InsertAll(store, valid);
      var inserted := |store'| - |store|;
      var report := UploadReport(|vs|, |valid|, inserted, |valid| - inserted, |invalid|, invalid);
      Ok((WithChannelStore(db, channel, store'), report))
  }

  /** Lines 44-55: push each cleaned value into `valid` or `invalid`. */
  method Partition(cleaned: seq<string>, wa: bool) returns (valid: seq<string>, invalid: seq<string>)
    ensures valid == ValidValues(cleaned, wa)
    ensures invalid == InvalidValues(cleaned, wa)
  {
    valid, invalid := [], [];
    for k := 0 to |cleaned|
      invariant valid == ValidValues(cleaned[..k], wa)
      invariant invalid == InvalidValues(cleaned[..k], wa)
    {
      PartitionStep(cleaned, k, wa);
      if Accepted(wa, cleaned[k]) {
        valid := valid + [cleaned[k]];
      } else {
        invalid := invalid + [cleaned[k]];
      }
    }
    assert cleaned[..|cleaned|] == cleaned;
  }

  /** One more cleaned value lands at the end of exactly one of the two lists. */
  lemma PartitionStep(cleaned: seq<string>, k: nat, wa: bool)
    requires k < |cleaned|
    ensures ValidValues(cleaned[..k + 1], wa)
         == ValidValues(cleaned[..k], wa) + (if Accepted(wa, cleaned[k]) then [cleaned[k]] else [])
    ensures InvalidValues(cleaned[..k + 1], wa)
         == InvalidValues(cleaned[..k], wa) + (if Accepted(wa, cleaned[k]) then [] else [cleaned[k]])
  {
    assert cleaned[..k + 1] == cleaned[..k] + [cleaned[k]];
    FilterAppend(cleaned[..k], [cleaned[k]], v => Accepted(wa, v));
    FilterAppend(cleaned[..k], [cleaned[k]], v => !Accepted(wa, v));
  }

  /** Lines 61-78: insert `valid` in slices of `chunkSize` values, adding up how many
      rows each `createMany` reports. The route uses `CHUNK_SIZE`. */
  method InsertInChunks(store: seq<Contact>, valid: seq<string>, chunkSize: nat)
    returns (store': seq<Contact>, totalInserted: int)
    requires chunkSize > 0
    ensures store' == InsertAll(store, valid)
    ensures totalInserted == |store'| - |store|
  {
    store', totalInserted := store, 0;
    var i := 0;
    while i < |valid|
      invariant 0 <= i <= |valid|
      invariant store' == InsertAll(store, valid[..i])
      invariant totalInserted == |store'| - |store|
      decreases |valid| - i
    {
      var end := if i + chunkSize < |valid| then i + chunkSize else |valid|;
      var batch := valid[i..end];
      var before := store';
      InsertAllAppend(store, valid[..i], batch);
      assert valid[..i] + batch == valid[..end];
      store' := InsertAll(store', batch);
      totalInserted := totalInserted + (|store'| - |before|);
      i := end;
    }
    assert valid[..|valid|] == valid;
  }

  /** Lines 9-124: the route as the loops run it, cleaning, partitioning and inserting
      chunk by chunk, proved to produce the state and report `Upload` describes. */
  method HandleUpload(db: Stores, channel: string, values: Option<seq<string>>)
    returns (r: Result<(Stores, UploadReport), UploadError>)
    ensures r == Upload(db, channel, values)
  {
    if values.None? {
      return Err(InvalidPayload);
    }
    var vs := values.value;
    var wa := IsWhatsApp(channel);
    var cleaned := Cleaned(vs);
    var store := ChannelStore(db, channel);
    var valid, invalid := Partition(cleaned, wa);
    var store', inserted := InsertInChunks(store, valid, CHUNK_SIZE);
    var report := UploadReport(|vs|, |valid|, inserted, |valid| - inserted, |invalid|, invalid);
    ghost var u := Upload(db, channel, values);
    assert u.value.0 == WithChannelStore(db, channel, store');
    assert u.value.1.totalReceived == report.totalReceived && u.value.1.valid == report.valid;
    assert u.value.1.inserted == report.inserted && u.value.1.duplicates == report.duplicates;
    assert u.value.1.invalid == report.invalid && u.value.1.invalidValues == report.invalidValues;
    r := Ok((WithChannelStore(db, channel, store'), report));
  }

  // ---------------------------------------------------------------------------
  // Properties

  /** Inserting in two runs is inserting once: the number of chunks does not matter. */
  lemma {:induction false} InsertAllAppend(store: seq<Contact>, a: seq<string>, b: seq<string>)
    ensures InsertAll(store, a + b) == InsertAll(InsertAll(store, a), b)
    decreases |b|
  {
    if b == [] {
      assert a + b == a;
    } else {
      assert (a + b)[..|a + b| - 1] == a + b[..|b| - 1];
      InsertAllAppend(store, a, b[..|b| - 1]);
    }
  }

  /** What insertion does to a table: the old records stay as they were, in front; each
      new record holds a value that was not stored, with the next id, an empty
      `slot_array` and no labels; new identities are pairwise distinct; every value
      ends up stored. */
  lemma InsertAllShape(store: seq<Contact>, values: seq<string>)
    ensures var r := InsertAll(store, values);
      && |store| <= |r| && r[..|store|] == store
      && (forall i :: |store| <= i < |r| ==>
            r[i] == Contact(i, r[i].identity, [], []) && r[i].identity in values &&
            r[i].identity !in Identities(store))
      && (forall i, j :: |store| <= i < j < |r| ==> r[i].identity != r[j].identity)
      && (forall v :: v in values ==> v in Identities(r))
  {
    InsertAllNewRecords(store, values);
    InsertAllStores(store, values);
  }

  lemma {:induction false} InsertAllNewRecords(store: seq<Contact>, values: seq<string>)
    ensures var r := InsertAll(store, values);
      && |store| <= |r| && r[..|store|] == store
      && (forall i :: |store| <= i < |r| ==>
            r[i] == Contact(i, r[i].identity, [], []) && r[i].identity in values &&
            r[i].identity !in Identities(store))
      && (forall i, j :: |store| <= i < j < |r| ==> r[i].identity != r[j].identity)
    decreases |values|
  {
    if values != [] {
      var init := values[..|values| - 1];
      var last := values[|values| - 1];
      InsertAllNewRecords(store, init);
      var m := InsertAll(store, init);
      assert forall v :: v in init ==> v in values;
      if last !in Identities(m) {
        var r := m + [Contact(|m|, last, [], [])];
        assert InsertAll(store, values) == r;
        assert r[..|store|] == m[..|store|];
        forall i | |store| <= i < |m| ensures m[i].identity != last {
          assert Identities(m)[i] == m[i].identity;
        }
        forall i | 0 <= i < |store| ensures store[i].identity != last {
          assert Identities(m)[i] == m[i].identity;
        }
      }
    }
  }

  lemma {:induction false} InsertAllStores(store: seq<Contact>, values: seq<string>)
    ensures forall v :: v in values ==> v in Identities(InsertAll(store, values))
    decreases |values|
  {
    if values != [] {
      var init := values[..|values| - 1];
      var last := values[|values| - 1];
      InsertAllStores(store, init);
      var m := InsertAll(store, init);
      var r := InsertAll(store, values);
      assert values == init + [last];
      if last !in Identities(m) {
        assert r == m + [Contact(|m|, last, [], [])];
        forall v | v in init ensures v in Identities(r) {
          var j :| 0 <= j < |m| && Identities(m)[j] == v;
          assert Identities(r)[j] == v;
        }
      }
    }
  }

  /** Values that are all stored already insert nothing. */
  lemma {:induction false} InsertAllPresent(store: seq<Contact>, values: seq<string>)
    requires forall v :: v in values ==> v in Identities(store)
    ensures InsertAll(store, values) == store
    decreases |values|
  {
    if values != [] {
      InsertAllPresent(store, values[..|values| - 1]);
    }
  }

  /** The number of inserted rows is the number of distinct valid values that were not
      stored before, whatever the chunk size. */
  lemma InsertedCount(store: seq<Contact>, values: seq<string>)
    ensures |InsertAll(store, values)| - |store| == |set v | v in values && v !in Identities(store)|
  {
    var r := InsertAll(store, values);
    InsertAllNewRecords(store, values);
    var added := Identities(r)[|store|..];
    NewIdentitiesDistinct(store, values);
    NoDupCardinality(added);
    NewIdentitiesAreNewValues(store, values);
  }

  lemma NewIdentitiesDistinct(store: seq<Contact>, values: seq<string>)
    ensures |store| <= |InsertAll(store, values)|
    ensures NoDup(Identities(InsertAll(store, values))[|store|..])
  {
    var r := InsertAll(store, values);
    InsertAllNewRecords(store, values);
    var added := Identities(r)[|store|..];
    forall i, j | 0 <= i < j < |added| ensures added[i] != added[j] {
      assert added[i] == r[|store| + i].identity && added[j] == r[|store| + j].identity;
    }
  }

  lemma NewIdentitiesAreNewValues(store: seq<Contact>, values: seq<string>)
    ensures |store| <= |InsertAll(store, values)|
    ensures (set x | x in Identities(InsertAll(store, values))[|store|..])
         == (set v | v in values && v !in Identities(store))
  {
    var r := InsertAll(store, values);
    InsertAllNewRecords(store, values);
    InsertAllStores(store, values);
    var added := Identities(r)[|store|..];
    forall x | x in added ensures x in values && x !in Identities(store) {
      var k :| 0 <= k < |added| && added[k] == x;
      assert r[|store| + k].identity == x;
    }
    forall v | v in values && v !in Identities(store) ensures v in added {
      var j :| 0 <= j < |r| && Identities(r)[j] == v;
      if j < |store| {
        assert false;
      }
      assert added[j - |store|] == v;
    }
  }

  /** Inserting the same values again leaves the table as it is. */
  lemma InsertAllIdempotent(store: seq<Contact>, values: seq<string>)
    ensures InsertAll(InsertAll(store, values), values) == InsertAll(store, values)
  {
    InsertAllShape(store, values);
    InsertAllPresent(InsertAll(store, values), values);
  }

  /** The response counts: valid + invalid = received = number of values; inserted =
      distinct valid values not stored before; duplicates = valid - inserted; the
      failed-rows list holds the invalid cleaned values in input order. A missing or
      non-array payload is an error. */
  lemma UploadReportCounts(db: Stores, channel: string, values: Option<seq<string>>)
    ensures Upload(db, channel, values).Err? <==> values.None?
    ensures values.Some? ==>
      var report := Upload(db, channel, values).value.1;
      var wa := IsWhatsApp(channel);
      var valid := ValidValues(Cleaned(values.value), wa);
      && report.totalReceived == |values.value| == report.valid + report.invalid
      && report.inserted == |set v | v in valid && v !in Identities(ChannelStore(db, channel))|
      && report.duplicates == report.valid - report.inserted
      && report.invalidValues == InvalidValues(Cleaned(values.value), wa)
  {
    if values.Some? {
      var wa := IsWhatsApp(channel);
      FilterComplementLength(Cleaned(values.value), v => Accepted(wa, v), v => !Accepted(wa, v));
      InsertedCount(ChannelStore(db, channel), ValidValues(Cleaned(values.value), wa));
    }
  }

  /** What a successful upload changes: the channel's table gains the valid values
      not already stored (its old records untouched, see InsertAllShape), while the
      other channel's table, the slots and the audit log are kept. */
  lemma UploadedState(db: Stores, channel: string, values: seq<string>)
    ensures var db' := Upload(db, channel, Some(values)).value.0;
      var store, store' := ChannelStore(db, channel), ChannelStore(db', channel);
      && store' == InsertAll(store, ValidValues(Cleaned(values), IsWhatsApp(channel)))
      && store'[..|store|] == store
      && db'.slots == db.slots && db'.auditLog == db.auditLog
      && (if IsWhatsApp(channel) then db'.email == db.email else db'.whatsapp == db.whatsapp)
  {
    var store := ChannelStore(db, channel);
    var valid := ValidValues(Cleaned(values), IsWhatsApp(channel));
    UploadOk(db, channel, values);
    InsertAllNewRecords(store, valid);
  }

  /** A successful upload is the channel's table with the valid values inserted. */
  lemma UploadOk(db: Stores, channel: string, values: seq<string>)
    ensures Upload(db, channel, Some(values)).Ok?
    ensures Upload(db, channel, Some(values)).value.0 ==
      WithChannelStore(db, channel, InsertAll(ChannelStore(db, channel), ValidValues(Cleaned(values), IsWhatsApp(channel))))
  {
  }

  /** Insertion keeps a table well formed: the old records keep their ids and the new
      ones get the next ids, fresh identities and empty `slot_array`s. */
  lemma InsertAllWellFormed(store: seq<Contact>, values: seq<string>)
    requires WellFormedStore(store)
    ensures WellFormedStore(InsertAll(store, values))
  {
    var r := InsertAll(store, values);
    InsertAllShape(store, values);
    forall i | 0 <= i < |r| ensures r[i].id == i && NoDup(r[i].slotArray) {
      if i < |store| {
        assert r[i] == store[i];
      }
    }
    forall i, j | 0 <= i < j < |r| ensures r[i].identity != r[j].identity {
      if j < |store| {
        assert r[i] == store[i] && r[j] == store[j];
      } else if i < |store| {
        assert Identities(store)[i] == r[i].identity;
      }
    }
  }

  /** Insertion keeps a table linked to the slots: new records hold no slot and their
      identities, being fresh, are in no slot's values. */
  lemma InsertAllLinked(store: seq<Contact>, slots: seq<Slot>, wa: bool, values: seq<string>)
    requires Linked(store, slots, wa)
    ensures Linked(InsertAll(store, values), slots, wa)
  {
    var r := InsertAll(store, values);
    InsertAllShape(store, values);
    forall i, k | 0 <= i < |r| && 0 <= k < |slots| && IsWhatsApp(slots[k].campaignType) == wa
      ensures slots[k].slotId in r[i].slotArray <==> r[i].identity in slots[k].tupleOfValues
    {
      if i < |store| {
        assert r[i] == store[i];
      }
    }
    forall i, s | 0 <= i < |r| && s in r[i].slotArray
      ensures 1 <= s <= |slots| && IsWhatsApp(slots[s - 1].campaignType) == wa
    {
      assert r[i] == store[i];
    }
    forall k, v | 0 <= k < |slots| && IsWhatsApp(slots[k].campaignType) == wa && v in slots[k].tupleOfValues
      ensures v in Identities(r)
    {
      assert v in Identities(store);
      var j :| 0 <= j < |store| && Identities(store)[j] == v;
      assert Identities(r)[j] == v;
    }
  }

  /** Uploading keeps the whole state valid. */
  lemma UploadPreservesValid(db: Stores, channel: string, values: Option<seq<string>>)
    requires Valid(db)
    requires Upload(db, channel, values).Ok?
    ensures Valid(Upload(db, channel, values).value.0)
  {
    var wa := IsWhatsApp(channel);
    var store := ChannelStore(db, channel);
    var valid := ValidValues(Cleaned(values.value), wa);
    var r := InsertAll(store, valid);
    assert Upload(db, channel, values).value.0 == WithChannelStore(db, channel, r);
    ValidChannelLinked(db, channel);
    InsertAllWellFormed(store, valid);
    InsertAllLinked(store, db.slots, wa, valid);
    WithChannelStoreValid(db, channel, r, db.slots);
    assert db.(slots := db.slots) == db;
  }

  /** Uploading the same payload twice: the second upload inserts nothing, reports every
      valid value as a duplicate and leaves the state as the first one left it. */
  lemma UploadIdempotent(db: Stores, channel: string, values: seq<string>)
    ensures var (db1, _) := Upload(db, channel, Some(values)).value;
      var (db2, report2) := Upload(db1, channel, Some(values)).value;
      db2 == db1 && report2.inserted == 0 && report2.duplicates == report2.valid
  {
    var wa := IsWhatsApp(channel);
    var valid := ValidValues(Cleaned(values), wa);
    InsertAllIdempotent(ChannelStore(db, channel), valid);
    var db1 := Upload(db, channel, Some(values)).value.0;
    assert WithChannelStore(db1, channel, ChannelStore(db1, channel)) == db1;
  }

  /** Cleaning also applies to email uploads and leaves only digits, so no email
      value is ever accepted: every one lands in the invalid list. */
  lemma EmailUploadsAllInvalid(values: seq<string>)
    ensures ValidValues(Cleaned(values), false) == []
    ensures InvalidValues(Cleaned(values), false) == Cleaned(values)
  {
    var cleaned := Cleaned(values);
    forall i | 0 <= i < |cleaned| ensures !Accepted(false, cleaned[i]) {
      UploadHelpers.DigitsNeverEmail(cleaned[i]);
    }
    FilterNone(cleaned, v => Accepted(false, v));
    FilterAll(cleaned, v => !Accepted(false, v));
  }

  /** After trimming, a value starting with "+91" keeps the non-digits of the rest. */
  lemma CleanInternationalBranch(v: string, rest: string)
    requires Trim(v) == "+91" + rest
    ensures CleanUploadValue(v) == StripNonDigits(rest)
  {
    var t := Trim(v);
    assert t[0] == '+' && t[1] == '9' && t[2] == '1' && t[3..] == rest;
  }

  /** After trimming, a value starting with "91" keeps the non-digits of the rest. */
  lemma CleanNationalBranch(v: string, rest: string)
    requires Trim(v) == "91" + rest
    ensures CleanUploadValue(v) == StripNonDigits(rest)
  {
    var t := Trim(v);
    assert t[0] == '9' && t[1] == '1' && t[2..] == rest;
  }

  /** A number written "+91 ddddd ddddd" cleans to its ten digits. */
  lemma CleanInternationalNumber(d1: string, d2: string)
    requires AllDigits(d1) && AllDigits(d2) && d2 != []
    ensures CleanUploadValue("+91" + (([' '] + d1) + ([' '] + d2))) == d1 + d2
  {
    var rest := ([' '] + d1) + ([' '] + d2);
    var t := "+91" + rest;
    assert t[|t| - 1] == d2[|d2| - 1];
    TrimUnpadded(t);
    CleanInternationalBranch(t, rest);
    StripSpaceThenDigits(d1);
    StripSpaceThenDigits(d2);
    StripNonDigitsAppend([' '] + d1, [' '] + d2);
  }

  /** After trimming, a value that starts with neither "+91" nor "91" only loses its non-digits. */
  lemma CleanUnprefixedBranch(v: string, t: string)
    requires Trim(v) == t && !InternationalPrefix(t) && !NationalPrefix(t)
    ensures CleanUploadValue(v) == StripNonDigits(t)
  {
  }

  /** A bare digit string that does not start with "91" is kept as it is. */
  lemma CleanPlainDigits(n: string)
    requires AllDigits(n) && |n| >= 2 && !(n[0] == '9' && n[1] == '1')
    ensures CleanUploadValue(n) == n
  {
    DigitsUnprefixed(n);
    TrimDigits(n);
    CleanUnprefixedBranch(n, n);
  }

  lemma DigitsUnprefixed(n: string)
    requires AllDigits(n) && |n| >= 2 && !(n[0] == '9' && n[1] == '1')
    ensures !InternationalPrefix(n) && !NationalPrefix(n)
  {
  }

  /** The prefix quirk: a bare ten-digit number that starts with "91", such as
      "9123456789", loses those two digits and is rejected. */
  lemma NinetyOneQuirk(rest: string)
    requires AllDigits(rest) && |rest| == 8
    ensures CleanUploadValue("91" + rest) == rest
    ensures !Accepted(true, CleanUploadValue("91" + rest))
  {
    assert AllDigits("91" + rest);
    TrimDigits("91" + rest);
    CleanNationalBranch("91" + rest, rest);
  }

  /** A number written "+91 ddddd ddddd" and the same ten digits written bare clean alike. */
  lemma TwoFormsCleanAlike(d1: string, d2: string)
    requires AllDigits(d1) && AllDigits(d2) && |d1| + |d2| == 10 && d2 != []
    requires !((d1 + d2)[0] == '9' && (d1 + d2)[1] == '1')
    ensures Cleaned(["+91" + (([' '] + d1) + ([' '] + d2)), d1 + d2]) == [d1 + d2, d1 + d2]
  {
    CleanInternationalNumber(d1, d2);
    DigitsConcat(d1, d2);
    CleanPlainDigits(d1 + d2);
    CleanedPair(["+91" + (([' '] + d1) + ([' '] + d2)), d1 + d2], d1 + d2);
  }

  lemma DigitsConcat(d1: string, d2: string)
    requires AllDigits(d1) && AllDigits(d2)
    ensures AllDigits(d1 + d2)
  {
    var n := d1 + d2;
    forall i | 0 <= i < |n| ensures IsDigit(n[i]) {
      if i < |d1| { assert n[i] == d1[i]; } else { assert n[i] == d2[i - |d1|]; }
    }
  }

  /** Two values that clean to the same number give that number twice. */
  lemma CleanedPair(vs: seq<string>, n: string)
    requires |vs| == 2 && CleanUploadValue(vs[0]) == n && CleanUploadValue(vs[1]) == n
    ensures Cleaned(vs) == [n, n]
  {
    SeqOfTwo(Cleaned(vs));
  }

  /** Two values that clean to the same ten digits, uploaded into an empty WhatsApp
      table: both are valid, one row is inserted and one is counted as a duplicate. */
  lemma UploadDuplicatePair(db: Stores, raw: string, n: string)
    requires db.whatsapp == [] && |n| == 10 && Cleaned([raw, n]) == [n, n]
    ensures var (db', report) := Upload(db, "WhatsApp", Some([raw, n])).value;
      && report.totalReceived == 2 && report.valid == 2 && report.invalid == 0
      && report.inserted == 1 && report.duplicates == 1
      && db'.whatsapp == [Contact(0, n, [], [])]
  {
    DuplicatePairInsert(n);
  }

  lemma DuplicatePairInsert(n: string)
    requires |n| == 10
    ensures ValidValues([n, n], true) == [n, n] && InvalidValues([n, n], true) == []
    ensures InsertAll([], [n, n]) == [Contact(0, n, [], [])]
  {
    FilterAll([n, n], v => Accepted(true, v));
    FilterNone([n, n], v => !Accepted(true, v));
    var once := InsertValue([], n);
    assert once == [Contact(0, n, [], [])];
    assert Identities(once) == [n];
    assert [n, n][..1] == [n];
    assert InsertAll([], [n]) == once;
  }

  /** The same number uploaded as "+91 98765 43210" and as "9876543210" (in general,
      "+91 ddddd ddddd" and the bare ten digits) into an empty WhatsApp table: one row
      is inserted and one is counted as a duplicate. */
  lemma UploadScenario(db: Stores, d1: string, d2: string)
    requires db.whatsapp == []
    requires AllDigits(d1) && AllDigits(d2) && |d1| + |d2| == 10 && d2 != []
    requires !((d1 + d2)[0] == '9' && (d1 + d2)[1] == '1')
    ensures var n := d1 + d2;
      var (db', report) := Upload(db, "WhatsApp", Some(["+91" + (([' '] + d1) + ([' '] + d2)), n])).value;
      && report.inserted == 1 && report.duplicates == 1
      && db'.whatsapp == [Contact(0, n, [], [])]
  {
    TwoFormsCleanAlike(d1, d2);
    UploadDuplicatePair(db, "+91" + (([' '] + d1) + ([' '] + d2)), d1 + d2);
  }
}
