/** app/api/failed/route.ts: report failed deliveries for a slot. Each reported
    value that names a contact of the slot's channel loses the slot id from its
    `slot_array`, and the slot's `tuple_of_values` drops every reported value. */
module ReportFailed {
  import opened Seqs
  import opened Store
  import opened FailedHelpers

  /** The 400 and 404 responses of the route. */
  datatype FailedError =
    | InvalidInput   // "Invalid input"
    | SlotNotFound   // "Slot not found"

  /** Each contact whose identity is among `values` has every `slotId` removed
      from its `slot_array`; the others are unchanged. */
  function Released(store: seq<Contact>, values: seq<string>, slotId: int): seq<Contact>
  {
    seq(|store|, i requires 0 <= i < |store| =>
      if store[i].identity in values
      then store[i].(slotArray := RemoveSlotFromArray(store[i].slotArray, slotId))
      else store[i])
  }

  /** Lines 78-81: `slot.tuple_of_values.filter(v => !values.includes(v))`. */
  function RemainingValues(tuple: seq<string>, values: seq<string>): seq<string>
  {
    Filter(tuple, v => v !in values)
  }

  /** The whole route. `slotIdNumber` is `Number(slotId)`, with `None` for NaN;
      `values` is `None` when the body's `values` is not an array. */
  function ReportFailed(db: Stores, slotIdNumber: Option<int>, values: Option<seq<string>>)
    : Result<Stores, FailedError>
  {
    if slotIdNumber.None? || slotIdNumber.value == 0 || values.None? then Err(InvalidInput)
    else
      var slotId := slotIdNumber.value;
      match FindSlot(db.slots, slotId)
      case None => Err(SlotNotFound)
      case Some(k) =>
        var slot := db.slots[k];
        var store' := Released(ChannelStore(db, slot.campaignType), values.value, slotId);
        var tuple' := RemainingValues(slot.tupleOfValues, values.value);
        var slots' := db.slots[k := slot.(tupleOfValues := tuple', count := |tuple'|)];
        Ok(WithChannelStore(db.(slots := slots'), slot.campaignType, store'))
  }

  /** Lines 50-75: for each value, look the contact up by identity, skip it when there
      is none, and otherwise write back its `slot_array` without `slotId`, by its id. */
  method ReleaseContacts(store: seq<Contact>, values: seq<string>, slotId: int) returns (updated: seq<Contact>)
    requires forall i :: 0 <= i < |store| ==> store[i].id == i
    requires DistinctIdentities(store)
    ensures updated == Released(store, values, slotId)
  {
    updated := store;
    for k := 0 to |values|
      invariant updated == Released(store, values[..k], slotId)
    {
      assert values[..k + 1] == values[..k] + [values[k]];
      match FindByIdentity(updated, values[k])
      case None =>
        forall i | 0 <= i < |store| ensures store[i].identity != values[k] {
          assert updated[i].identity == store[i].identity;
        }
      case Some(i) =>
        var record := updated[i];
        assert record.id == i;
        RemoveIdempotent(store[i].slotArray, slotId);
        updated := updated[record.id := record.(slotArray := RemoveSlotFromArray(record.slotArray, slotId))];
    }
    assert values[..|values|] == values;
  }

  // ---------------------------------------------------------------------------
  // Properties

  /** The error responses: invalid input when the id converts to 0 or NaN or `values`
      is not an array; not found when no slot has the id; otherwise success. */
  lemma ReportFailedErrors(db: Stores, slotIdNumber: Option<int>, values: Option<seq<string>>)
    ensures var r := ReportFailed(db, slotIdNumber, values);
      && (r == Err(InvalidInput) <==> slotIdNumber.None? || slotIdNumber.value == 0 || values.None?)
      && (r == Err(SlotNotFound) <==>
            slotIdNumber.Some? && slotIdNumber.value != 0 && values.Some? &&
            forall k :: 0 <= k < |db.slots| ==> db.slots[k].slotId != slotIdNumber.value)
  {
  }

  /** What a successful report changes: the contacts of the slot's channel that are
      named in `values` lose every occurrence of the slot id (other entries keep their
      order), all other contacts and the other channel are unchanged; the slot keeps
      exactly its values not reported, in order, with `count` their number; every
      other slot and the audit log are unchanged. */
  lemma ReportedState(db: Stores, slotId: int, values: seq<string>)
    requires WellFormedSlots(db.slots) && 1 <= slotId <= |db.slots|
    ensures ReportFailed(db, Some(slotId), Some(values)).Ok?
    ensures var db' := ReportFailed(db, Some(slotId), Some(values)).value;
      var slot, slot' := db.slots[slotId - 1], db'.slots[slotId - 1];
      var store, store' := ChannelStore(db, slot.campaignType), ChannelStore(db', slot.campaignType);
      && |store'| == |store|
      && (forall i :: 0 <= i < |store| ==>
            && store'[i].id == store[i].id && store'[i].identity == store[i].identity
            && store'[i].labels == store[i].labels
            && (store[i].identity in values ==>
                  slotId !in store'[i].slotArray && IsSubsequence(store'[i].slotArray, store[i].slotArray) &&
                  forall s :: s in store[i].slotArray && s != slotId ==> s in store'[i].slotArray)
            && (store[i].identity in values ==> forall s ::
                  Count(store'[i].slotArray, s) == if s == slotId then 0 else Count(store[i].slotArray, s))
            && (store[i].identity !in values ==> store'[i].slotArray == store[i].slotArray))
      && (if IsWhatsApp(slot.campaignType) then db'.email == db.email else db'.whatsapp == db.whatsapp)
      && |db'.slots| == |db.slots|
      && (forall k :: 0 <= k < |db.slots| && k != slotId - 1 ==> db'.slots[k] == db.slots[k])
      && slot' == slot.(tupleOfValues := slot'.tupleOfValues, count := |slot'.tupleOfValues|)
      && IsSubsequence(slot'.tupleOfValues, slot.tupleOfValues)
      && (forall v :: v in slot'.tupleOfValues <==> v in slot.tupleOfValues && v !in values)
      && (forall v :: Count(slot'.tupleOfValues, v) == if v in values then 0 else Count(slot.tupleOfValues, v))
      && db'.auditLog == db.auditLog
  {
    FindSlotById(db.slots, slotId);
    ReportFailedOk(db, Some(slotId), Some(values));
    var slot := db.slots[slotId - 1];
    FilterIsSubsequence(slot.tupleOfValues, v => v !in values);
    RemainingCounts(slot.tupleOfValues, values);
    ReleasedCounts(ChannelStore(db, slot.campaignType), values, slotId);
  }

  /** The remaining values keep every occurrence of an unreported value and none of
      a reported one. */
  lemma RemainingCounts(tuple: seq<string>, values: seq<string>)
    ensures forall v :: Count(RemainingValues(tuple, values), v) == if v in values then 0 else Count(tuple, v)
  {
    forall v ensures Count(RemainingValues(tuple, values), v) == if v in values then 0 else Count(tuple, v) {
      FilterCount(tuple, v => v !in values, v);
    }
  }

  /** A released contact loses every occurrence of the slot id and keeps every
      occurrence of its other slot ids. */
  lemma ReleasedCounts(store: seq<Contact>, values: seq<string>, slotId: int)
    ensures forall i, s :: 0 <= i < |store| && store[i].identity in values ==>
      Count(Released(store, values, slotId)[i].slotArray, s) == if s == slotId then 0 else Count(store[i].slotArray, s)
  {
    forall i, s | 0 <= i < |store| && store[i].identity in values
      ensures Count(Released(store, values, slotId)[i].slotArray, s) ==
        if s == slotId then 0 else Count(store[i].slotArray, s)
    {
      RemoveCount(store[i].slotArray, slotId, s);
    }
  }

  /** A released table is still well formed and has the same identities. */
  lemma ReleasedWellFormed(store: seq<Contact>, values: seq<string>, slotId: int)
    requires WellFormedStore(store)
    ensures WellFormedStore(Released(store, values, slotId))
    ensures Identities(Released(store, values, slotId)) == Identities(store)
  {
    var r := Released(store, values, slotId);
    forall i | 0 <= i < |r| ensures NoDup(r[i].slotArray) {
      RemoveNoDup(store[i].slotArray, slotId);
    }
  }

  /** The slot's channel table stays linked after the release, in both directions. */
  lemma ReleasedLinked(store: seq<Contact>, slots: seq<Slot>, wa: bool, slotId: int, values: seq<string>)
    requires Linked(store, slots, wa) && WellFormedSlots(slots)
    requires 1 <= slotId <= |slots| && IsWhatsApp(slots[slotId - 1].campaignType) == wa
    ensures var slot := slots[slotId - 1];
      var tuple' := RemainingValues(slot.tupleOfValues, values);
      Linked(Released(store, values, slotId), slots[slotId - 1 := slot.(tupleOfValues := tuple', count := |tuple'|)], wa)
  {
    var slot := slots[slotId - 1];
    var tuple' := RemainingValues(slot.tupleOfValues, values);
    var slots' := slots[slotId - 1 := slot.(tupleOfValues := tuple', count := |tuple'|)];
    var r := Released(store, values, slotId);
    ReleasedSlotsAgree(store, slots, wa, slotId, values);
    forall i, s | 0 <= i < |r| && s in r[i].slotArray
      ensures 1 <= s <= |slots'| && IsWhatsApp(slots'[s - 1].campaignType) == wa
    {
      assert s in store[i].slotArray;
    }
    assert Identities(r) == Identities(store);
  }

  /** After the release a contact holds the slot id exactly when its identity is
      still among the slot's values. */
  lemma ReleasedSlotsAgree(store: seq<Contact>, slots: seq<Slot>, wa: bool, slotId: int, values: seq<string>)
    requires SlotsAgree(store, slots, wa) && WellFormedSlots(slots)
    requires 1 <= slotId <= |slots| && IsWhatsApp(slots[slotId - 1].campaignType) == wa
    ensures var slot := slots[slotId - 1];
      var tuple' := RemainingValues(slot.tupleOfValues, values);
      SlotsAgree(Released(store, values, slotId), slots[slotId - 1 := slot.(tupleOfValues := tuple', count := |tuple'|)], wa)
  {
    var slot := slots[slotId - 1];
    var tuple' := RemainingValues(slot.tupleOfValues, values);
    var slots' := slots[slotId - 1 := slot.(tupleOfValues := tuple', count := |tuple'|)];
    var r := Released(store, values, slotId);
    forall i, k | 0 <= i < |r| && 0 <= k < |slots'| && IsWhatsApp(slots'[k].campaignType) == wa
      ensures slots'[k].slotId in r[i].slotArray <==> r[i].identity in slots'[k].tupleOfValues
    {
      if store[i].identity in values && k != slotId - 1 {
        assert slots[k].slotId != slotId;
        assert slots'[k].slotId in r[i].slotArray <==> slots[k].slotId in store[i].slotArray;
      }
    }
  }

  /** The other channel's table is unaffected: the updated slot is not of its channel. */
  lemma OtherChannelStillLinked(store: seq<Contact>, slots: seq<Slot>, wa: bool, k: nat, slot': Slot)
    requires Linked(store, slots, wa)
    requires k < |slots| && slot'.slotId == slots[k].slotId && slot'.campaignType == slots[k].campaignType
    requires IsWhatsApp(slot'.campaignType) != wa
    ensures Linked(store, slots[k := slot'], wa)
  {
  }

  /** Reporting failures keeps the whole state valid: the released contacts and the
      shrunk slot agree in both directions, and no other link changes. */
  lemma ReportFailedPreservesValid(db: Stores, slotIdNumber: Option<int>, values: Option<seq<string>>)
    requires Valid(db)
    requires ReportFailed(db, slotIdNumber, values).Ok?
    ensures Valid(ReportFailed(db, slotIdNumber, values).value)
  {
    var slotId := slotIdNumber.value;
    ReportFailedOk(db, slotIdNumber, values);
    var slot := db.slots[slotId - 1];
    var channel := slot.campaignType;
    var wa := IsWhatsApp(channel);
    var store := ChannelStore(db, channel);
    var other := if wa then db.email else db.whatsapp;
    var tuple' := RemainingValues(slot.tupleOfValues, values.value);
    var slot' := slot.(tupleOfValues := tuple', count := |tuple'|);
    var slots' := db.slots[slotId - 1 := slot'];
    ValidChannelLinked(db, channel);
    ReleasedWellFormed(store, values.value, slotId);
    ReleasedLinked(store, db.slots, wa, slotId, values.value);
    assert Linked(other, db.slots, !wa);
    OtherChannelStillLinked(other, db.slots, !wa, slotId - 1, slot');
    WithChannelStoreValid(db, channel, Released(store, values.value, slotId), slots');
  }

  /** A successful report is the released channel table with the shrunk slot at
      position `slotId - 1`. */
  lemma ReportFailedOk(db: Stores, slotIdNumber: Option<int>, values: Option<seq<string>>)
    requires WellFormedSlots(db.slots)
    requires ReportFailed(db, slotIdNumber, values).Ok?
    ensures var slotId := slotIdNumber.value;
      && 1 <= slotId <= |db.slots| && values.Some?
      && var slot := db.slots[slotId - 1];
      var tuple' := RemainingValues(slot.tupleOfValues, values.value);
      ReportFailed(db, slotIdNumber, values).value ==
        WithChannelStore(db.(slots := db.slots[slotId - 1 := slot.(tupleOfValues := tuple', count := |tuple'|)]),
          slot.campaignType, Released(ChannelStore(db, slot.campaignType), values.value, slotId))
  {
    FindSlotById(db.slots, slotIdNumber.value);
  }

  lemma ReleasedTwice(store: seq<Contact>, values: seq<string>, slotId: int)
    ensures Released(Released(store, values, slotId), values, slotId) == Released(store, values, slotId)
  {
    var r := Released(store, values, slotId);
    forall i | 0 <= i < |store| && store[i].identity in values
      ensures Released(r, values, slotId)[i] == r[i]
    {
      RemoveIdempotent(store[i].slotArray, slotId);
    }
  }

  /** Reporting the same values twice leaves the state of reporting them once. */
  lemma ReportFailedIdempotent(db: Stores, slotIdNumber: Option<int>, values: Option<seq<string>>)
    requires ReportFailed(db, slotIdNumber, values).Ok?
    ensures var db' := ReportFailed(db, slotIdNumber, values).value;
      ReportFailed(db', slotIdNumber, values) == Ok(db')
  {
    var slotId := slotIdNumber.value;
    var k := FindSlot(db.slots, slotId).value;
    var db' := ReportFailed(db, slotIdNumber, values).value;
    var slot := db.slots[k];
    var tuple' := RemainingValues(slot.tupleOfValues, values.value);
    var store := ChannelStore(db, slot.campaignType);
    assert db'.slots[k] == slot.(tupleOfValues := tuple', count := |tuple'|);
    match FindSlot(db'.slots, slotId)
    case None =>
      assert false;
    case Some(k') =>
      assert k' == k by {
        if k' < k {
          assert db'.slots[k'] == db.slots[k'];
          assert FindSlot(db.slots, slotId) == Some(k);
          FindSlotFirst(db.slots, slotId, k');
        } else if k' > k {
          FindSlotFirst(db'.slots, slotId, k);
        }
      }
      FilterIdempotent(slot.tupleOfValues, v => v !in values.value);
      ReleasedTwice(store, values.value, slotId);
      assert ChannelStore(db', slot.campaignType) == Released(store, values.value, slotId);
      var slots'' := db'.slots[k := db'.slots[k].(tupleOfValues := tuple', count := |tuple'|)];
      assert slots'' == db'.slots;
      assert WithChannelStore(db'.(slots := slots''), slot.campaignType, Released(store, values.value, slotId)) == db';
  }

  /** `findUnique` returns the first slot with the id. */
  lemma {:induction false} FindSlotFirst(slots: seq<Slot>, slotId: int, j: nat)
    requires j < |slots| && slots[j].slotId == slotId
    ensures FindSlot(slots, slotId).Some? && FindSlot(slots, slotId).value <= j
  {
    if j > 0 && slots[0].slotId != slotId {
      FindSlotFirst(slots[1..], slotId, j - 1);
    }
  }

  /** A slot with values A, B and C, reported with B and an unknown X: the slot keeps
      A and C with count 2, and B's contact loses the slot id. */
  lemma ReportScenario(db: Stores, a: Contact, b: Contact, c: Contact)
    requires db.whatsapp == [a, b, c] && a.identity == "A" && b.identity == "B" && c.identity == "C"
    requires db.slots == [Slot(1, "WhatsApp", "ops", 3, [], ["A", "B", "C"])]
    requires b.slotArray == [1]
    ensures var r := ReportFailed(db, Some(1), Some(["B", "X"]));
      && r.Ok?
      && r.value.slots[0].tupleOfValues == ["A", "C"]
      && r.value.slots[0].count == 2
      && r.value.whatsapp == [a, b.(slotArray := []), c]
  {
    var values := ["B", "X"];
    ScenarioRemaining();
    ScenarioReleased(a, b, c);
    assert FindSlot(db.slots, 1) == Some(0);
    assert ChannelStore(db, "WhatsApp") == [a, b, c];
  }

  lemma ScenarioRemaining()
    ensures RemainingValues(["A", "B", "C"], ["B", "X"]) == ["A", "C"]
  {
    var p := (v: string) => v !in ["B", "X"];
    assert "A" != "B" && "A" != "X" && "C" != "B" && "C" != "X";
    assert Filter(["C"], p) == ["C"];
    assert Filter(["B", "C"], p) == ["C"] by { assert ["B", "C"][1..] == ["C"]; }
    assert Filter(["A", "B", "C"], p) == ["A", "C"] by { assert ["A", "B", "C"][1..] == ["B", "C"]; }
  }

  lemma ScenarioReleased(a: Contact, b: Contact, c: Contact)
    requires a.identity == "A" && b.identity == "B" && c.identity == "C" && b.slotArray == [1]
    ensures Released([a, b, c], ["B", "X"], 1) == [a, b.(slotArray := []), c]
  {
    var values := ["B", "X"];
    assert "A" !in values && "C" !in values && "B" in values;
    assert RemoveSlotFromArray([1], 1) == [];
  }
}
