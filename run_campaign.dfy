/** app/api/run-campaign/route.ts: derive how many contacts a campaign needs,
    select that many eligible contacts of the channel, create a slot holding
    their identities and append the new slot id to each selected contact. */
module RunCampaign {
  import opened Seqs
  import opened Store
  import SlotHelpers

  /** The JSON body. `None` is a field that is undefined or null; `label` and
      `user` are "" when missing, since the route only tests their truthiness. */
  datatype CampaignRequest = CampaignRequest(
    channel: string,
    interval: Option<int>,
    duration: Option<int>,
    dataType: string,
    labelValue: string,
    user: string,
    requiredCount: Option<int>)

  /** The 400 responses of the route. */
  datatype CampaignError =
    | InvalidRequiredCount                             // "Required count must be a positive number."
    | MissingIntervalOrDuration                        // "Provide either a required count or valid interval/duration values."
    | ZeroCalculatedCount                              // "Invalid interval/duration values — calculated count is 0."
    | InsufficientPool(required: int, available: int)  // "Required: ${required}, Available: ${selected.length}"

  /** A row of the exported sheet (the `Created_At` column is not modelled). */
  datatype ExportRow = ExportRow(serialNo: int, slotIdColumn: int, campaignType: string, value: string)

  /** A successful allocation: the new state, the created slot and the exported rows. */
  datatype Allocation = Allocation(db: Stores, slot: Slot, rows: seq<ExportRow>)

  /** Whether a request takes the direct-count branch or the legacy duration/interval branch. */
  predicate DirectMode(req: CampaignRequest) { req.requiredCount.Some? }

  predicate LegacyOperandsPresent(req: CampaignRequest)
  {
    req.interval.Some? && req.interval.value != 0 && req.duration.Some? && req.duration.value != 0
  }

  /** Lines 19-46: the number of contacts to pull, or the validation error. */
  function RequiredCount(req: CampaignRequest): (r: Result<int, CampaignError>)
    ensures r.Ok? ==> r.value > 0
    ensures DirectMode(req) ==>
      (r.Ok? <==> req.requiredCount.value > 0) &&
      (r.Ok? ==> r.value == req.requiredCount.value) &&
      (r.Err? ==> r.error == InvalidRequiredCount)
    ensures !DirectMode(req) && !LegacyOperandsPresent(req) ==> r == Err(MissingIntervalOrDuration)
    ensures !DirectMode(req) && LegacyOperandsPresent(req) ==>
      var d, i := req.duration.value, req.interval.value;
      (r.Ok? ==> (i > 0 ==> r.value * i <= d < (r.value + 1) * i) &&
                 (i < 0 ==> (r.value + 1) * i < d <= r.value * i)) &&
      (r.Err? <==> (if i > 0 then d < i else d > i)) &&
      (r.Err? ==> r.error == ZeroCalculatedCount)
  {
    match req.requiredCount
    case Some(n) =>
      if n <= 0 then Err(InvalidRequiredCount) else Ok(n)
    case None =>
      if !LegacyOperandsPresent(req) then Err(MissingIntervalOrDuration)
      else
        var q := SlotHelpers.FloorDiv(req.duration.value, req.interval.value);
        if q <= 0 then Err(ZeroCalculatedCount) else Ok(q)
  }

  /** Lines 62-80: the `where` filter. "New" asks for an empty `slot_array`, "Old" for a
      non-empty one, any other data type (such as "Shuffled") for neither; a non-empty
      label must be among the contact's labels. */
  predicate Eligible(c: Contact, dataType: string, labelValue: string)
  {
    && (dataType == "New" ==> c.slotArray == [])
    && (dataType == "Old" ==> c.slotArray != [])
    && (labelValue != "" ==> labelValue in c.labels)
  }

  /** Lines 86-89: `findMany({ where, take: required })`, the first `required`
      matching records in table order. */
  function Selected(store: seq<Contact>, dataType: string, labelValue: string, required: nat): seq<Contact>
  {
    var matching := Filter(store, c => Eligible(c, dataType, labelValue));
    if required < |matching| then matching[..required] else matching
  }

  /** Each contact whose identity is among `values` gets `slotId` appended to its `slot_array`. */
  function Tagged(store: seq<Contact>, values: seq<string>, slotId: int): seq<Contact>
  {
    seq(|store|, i requires 0 <= i < |store| =>
      if store[i].identity in values then store[i].(slotArray := store[i].slotArray + [slotId]) else store[i])
  }

  /** Lines 140-152: the exported rows, numbered from 1 in value order. */
  function ExportRows(slot: Slot): (rows: seq<ExportRow>)
    ensures |rows| == |slot.tupleOfValues|
    ensures forall i :: 0 <= i < |rows| ==>
      rows[i] == ExportRow(i + 1, slot.slotId, slot.campaignType, slot.tupleOfValues[i])
  {
    seq(|slot.tupleOfValues|, i requires 0 <= i < |slot.tupleOfValues| =>
      ExportRow(i + 1, slot.slotId, slot.campaignType, slot.tupleOfValues[i]))
  }

  /** Lines 86-134 for a validated `required`: fail with the shortfall, or create the
      slot with the next id and tag every selected contact. */
  function Allocate(db: Stores, channel: string, required: nat, dataType: string, labelValue: string, user: string)
    : Result<Allocation, CampaignError>
  {
    var store := ChannelStore(db, channel);
    var selected := Selected(store, dataType, labelValue, required);
    if |selected| < required then Err(InsufficientPool(required, |selected|))
    else
      var slotId := |db.slots| + 1;
      var values := Identities(selected);
      var slot := Slot(slotId, channel, if user == "" then "internal" else user, required,
                       if labelValue == "" then [] else [labelValue], values);
      var db' := WithChannelStore(db.(slots := db.slots + [slot]), channel, Tagged(store, values, slotId));
      Ok(Allocation(db', slot, ExportRows(slot)))
  }

  /** The whole route: validation, then allocation. */
  function RunCampaign(db: Stores, req: CampaignRequest): Result<Allocation, CampaignError>
  {
    match RequiredCount(req)
    case Err(e) => Err(e)
    case Ok(required) => Allocate(db, req.channel, required, req.dataType, req.labelValue, req.user)
  }

  /** Lines 120-131: the loop that rewrites each selected record's `slot_array` as
      `[...record.slot_array, newSlot.slot_id]`, updating the record by its id. */
  method TagSelected(store: seq<Contact>, selected: seq<Contact>, slotId: int) returns (updated: seq<Contact>)
    requires forall i :: 0 <= i < |store| ==> store[i].id == i
    requires DistinctIdentities(store)
    requires forall k :: 0 <= k < |selected| ==> selected[k] in store
    requires DistinctIdentities(selected)
    ensures updated == Tagged(store, Identities(selected), slotId)
  {
    updated := store;
    for k := 0 to |selected|
      invariant |updated| == |store|
      invariant updated == Tagged(store, Identities(selected[..k]), slotId)
    {
      var record := selected[k];
      assert record == store[record.id] by {
        var i :| 0 <= i < |store| && store[i] == record;
      }
      assert record.identity !in Identities(selected[..k]) by {
        forall j | 0 <= j < k ensures Identities(selected[..k])[j] != record.identity {
          assert Identities(selected[..k])[j] == selected[j].identity;
        }
      }
      assert Identities(selected[..k + 1]) == Identities(selected[..k]) + [record.identity];
      updated := updated[record.id := record.(slotArray := record.slotArray + [slotId])];
    }
    assert selected[..|selected|] == selected;
  }

  // ---------------------------------------------------------------------------
  // Properties

  /** The legacy branch computes what `calculateRequiredContacts` computes, for a positive interval. */
  lemma LegacyAgreesWithHelper(req: CampaignRequest)
    requires !DirectMode(req) && LegacyOperandsPresent(req) && req.interval.value > 0
    requires RequiredCount(req).Ok?
    ensures RequiredCount(req).value == SlotHelpers.CalculateRequiredContacts(req.duration.value, req.interval.value)
  {
  }

  lemma {:induction false} FilterDistinct(store: seq<Contact>, p: Contact -> bool)
    requires DistinctIdentities(store)
    ensures DistinctIdentities(Filter(store, p))
  {
    if store != [] {
      FilterDistinct(store[1..], p);
      if p(store[0]) {
        var fr := Filter(store[1..], p);
        assert Filter(store, p) == [store[0]] + fr;
        HeadIdentityFresh(store, fr);
        ConsDistinct(store[0], fr);
      }
    }
  }

  /** The first record's identity occurs in none of the records drawn from the rest. */
  lemma HeadIdentityFresh(store: seq<Contact>, fr: seq<Contact>)
    requires DistinctIdentities(store) && store != []
    requires forall b :: 0 <= b < |fr| ==> fr[b] in store[1..]
    ensures forall b :: 0 <= b < |fr| ==> fr[b].identity != store[0].identity
  {
    forall b | 0 <= b < |fr| ensures fr[b].identity != store[0].identity {
      var m :| 0 <= m < |store[1..]| && store[1..][m] == fr[b];
      assert store[m + 1] == fr[b];
    }
  }

  lemma ConsDistinct(c: Contact, s: seq<Contact>)
    requires DistinctIdentities(s)
    requires forall b :: 0 <= b < |s| ==> s[b].identity != c.identity
    ensures DistinctIdentities([c] + s)
  {
    var f := [c] + s;
    forall a, b | 0 <= a < b < |f| ensures f[a].identity != f[b].identity {
      assert f[b] == s[b - 1];
      if a > 0 {
        assert f[a] == s[a - 1];
      }
    }
  }

  /** What `findMany({ where, take })` returns: at most `required` records, in table order,
      each satisfying the filter, each a record of the table, with distinct identities; and
      exactly `required` of them whenever at least that many records match. */
  lemma SelectedSpec(store: seq<Contact>, dataType: string, labelValue: string, required: nat)
    requires DistinctIdentities(store)
    ensures var sel := Selected(store, dataType, labelValue, required);
      var matching := Filter(store, c => Eligible(c, dataType, labelValue));
      && |sel| == (if required < |matching| then required else |matching|)
      && IsSubsequence(sel, store)
      && (forall k :: 0 <= k < |sel| ==> sel[k] in store && Eligible(sel[k], dataType, labelValue))
      && DistinctIdentities(sel)
  {
    var p := c => Eligible(c, dataType, labelValue);
    var matching := Filter(store, p);
    var sel := Selected(store, dataType, labelValue, required);
    FilterIsSubsequence(store, p);
    FilterDistinct(store, p);
    if required < |matching| {
      PrefixIsSubsequence(matching, required);
      SubsequenceTransitive(sel, matching, store);
    }
  }

  /** All or nothing: allocation fails exactly when fewer than `required` contacts
      match, reports how many do, and then produces no state at all. */
  lemma InsufficientIffTooFewMatch(db: Stores, channel: string, required: nat, dataType: string, labelValue: string, user: string)
    ensures var matching := Filter(ChannelStore(db, channel), c => Eligible(c, dataType, labelValue));
      Allocate(db, channel, required, dataType, labelValue, user).Err? <==> |matching| < required
    ensures var matching := Filter(ChannelStore(db, channel), c => Eligible(c, dataType, labelValue));
      |matching| < required ==>
        Allocate(db, channel, required, dataType, labelValue, user) == Err(InsufficientPool(required, |matching|))
  {
  }

  /** The created slot: the next slot id, `count` = required, `campaign_type` = channel,
      `generated_by` = user or "internal", `label_associated` = [label] or [], and
      `tuple_of_values` = the identities of `required` distinct contacts of the channel
      that satisfy the filter, in selection order. Earlier slots are unchanged and
      the slot is appended to the slot table. */
  lemma AllocatedSlot(db: Stores, channel: string, required: nat, dataType: string, labelValue: string, user: string)
    requires Valid(db)
    requires Allocate(db, channel, required, dataType, labelValue, user).Ok?
    ensures var a := Allocate(db, channel, required, dataType, labelValue, user).value;
      var store := ChannelStore(db, channel);
      && a.db.slots == db.slots + [a.slot]
      && a.slot.slotId == |db.slots| + 1
      && a.slot.campaignType == channel
      && a.slot.generatedBy == (if user == "" then "internal" else user)
      && a.slot.count == required == |a.slot.tupleOfValues|
      && a.slot.labelAssociated == (if labelValue == "" then [] else [labelValue])
      && NoDup(a.slot.tupleOfValues)
      && (forall k :: 0 <= k < |a.slot.tupleOfValues| ==>
            exists i :: 0 <= i < |store| && store[i].identity == a.slot.tupleOfValues[k] &&
                        Eligible(store[i], dataType, labelValue))
  {
    var store := ChannelStore(db, channel);
    SelectedSpec(store, dataType, labelValue, required);
    var sel := Selected(store, dataType, labelValue, required);
    forall k | 0 <= k < |sel|
      ensures exists i :: 0 <= i < |store| && store[i].identity == Identities(sel)[k] && Eligible(store[i], dataType, labelValue)
    {
      var i :| 0 <= i < |store| && store[i] == sel[k];
    }
  }

  /** The contact updates: each selected contact's `slot_array` becomes the old one
      with the new slot id appended, every other contact of the channel and the
      whole other channel are unchanged, and no label changes. */
  lemma AllocatedContacts(db: Stores, channel: string, required: nat, dataType: string, labelValue: string, user: string)
    requires Allocate(db, channel, required, dataType, labelValue, user).Ok?
    ensures var a := Allocate(db, channel, required, dataType, labelValue, user).value;
      var store, store' := ChannelStore(db, channel), ChannelStore(a.db, channel);
      && |store'| == |store|
      && (forall i :: 0 <= i < |store| ==>
            store'[i].id == store[i].id && store'[i].identity == store[i].identity &&
            store'[i].labels == store[i].labels &&
            store'[i].slotArray == (if store[i].identity in a.slot.tupleOfValues
                                    then store[i].slotArray + [a.slot.slotId] else store[i].slotArray))
      && (if IsWhatsApp(channel) then a.db.email == db.email else a.db.whatsapp == db.whatsapp)
      && a.db.auditLog == db.auditLog
  {
  }

  /** The export has one row per slot value, numbered 1..n in value order, each
      carrying the new slot id. */
  lemma ExportedRows(db: Stores, req: CampaignRequest)
    requires RunCampaign(db, req).Ok?
    ensures var a := RunCampaign(db, req).value;
      |a.rows| == |a.slot.tupleOfValues| &&
      forall i :: 0 <= i < |a.rows| ==>
        a.rows[i].serialNo == i + 1 && a.rows[i].slotIdColumn == |db.slots| + 1 &&
        a.rows[i].value == a.slot.tupleOfValues[i]
  {
  }

  /** Tagging with an id that no contact holds yet keeps a table well formed. */
  lemma TaggedWellFormed(store: seq<Contact>, values: seq<string>, slotId: int)
    requires WellFormedStore(store)
    requires forall i :: 0 <= i < |store| ==> slotId !in store[i].slotArray
    ensures WellFormedStore(Tagged(store, values, slotId))
    ensures Identities(Tagged(store, values, slotId)) == Identities(store)
  {
    var t := Tagged(store, values, slotId);
    forall i | 0 <= i < |t| ensures NoDup(t[i].slotArray) {
      assert slotId !in store[i].slotArray;
    }
  }

  /** The channel's table stays linked once the new slot (next id, this channel,
      values drawn from the table) is appended and its contacts are tagged. */
  lemma TaggedLinked(store: seq<Contact>, slots: seq<Slot>, wa: bool, slot: Slot)
    requires Linked(store, slots, wa) && WellFormedSlots(slots)
    requires slot.slotId == |slots| + 1 && IsWhatsApp(slot.campaignType) == wa
    requires forall v :: v in slot.tupleOfValues ==> v in Identities(store)
    ensures Linked(Tagged(store, slot.tupleOfValues, slot.slotId), slots + [slot], wa)
  {
    var t := Tagged(store, slot.tupleOfValues, slot.slotId);
    var slots' := slots + [slot];
    assert Identities(t) == Identities(store);
    forall i, k | 0 <= i < |t| && 0 <= k < |slots'| && IsWhatsApp(slots'[k].campaignType) == wa
      ensures slots'[k].slotId in t[i].slotArray <==> t[i].identity in slots'[k].tupleOfValues
    {
      if k < |slots| {
        assert slots'[k] == slots[k];
      }
    }
    forall i, s | 0 <= i < |t| && s in t[i].slotArray
      ensures 1 <= s <= |slots'| && IsWhatsApp(slots'[s - 1].campaignType) == wa
    {
      if s != slot.slotId {
        assert s in store[i].slotArray;
        assert slots'[s - 1] == slots[s - 1];
      }
    }
    forall k, v | 0 <= k < |slots'| && IsWhatsApp(slots'[k].campaignType) == wa && v in slots'[k].tupleOfValues
      ensures v in Identities(t)
    {
      if k < |slots| {
        assert slots'[k] == slots[k];
      }
    }
  }

  /** The other channel's table is untouched and stays linked: the new slot is not of its channel. */
  lemma OtherChannelLinked(store: seq<Contact>, slots: seq<Slot>, wa: bool, slot: Slot)
    requires Linked(store, slots, wa)
    requires IsWhatsApp(slot.campaignType) != wa
    ensures Linked(store, slots + [slot], wa)
  {
    var slots' := slots + [slot];
    forall i, s | 0 <= i < |store| && s in store[i].slotArray
      ensures 1 <= s <= |slots'| && IsWhatsApp(slots'[s - 1].campaignType) == wa
    {
      assert slots'[s - 1] == slots[s - 1];
    }
    forall i, k | 0 <= i < |store| && 0 <= k < |slots'| && IsWhatsApp(slots'[k].campaignType) == wa
      ensures slots'[k].slotId in store[i].slotArray <==> store[i].identity in slots'[k].tupleOfValues
    {
      assert slots'[k] == slots[k];
    }
    forall k, v | 0 <= k < |slots'| && IsWhatsApp(slots'[k].campaignType) == wa && v in slots'[k].tupleOfValues
      ensures v in Identities(store)
    {
      assert slots'[k] == slots[k];
    }
  }

  /** The identities of selected records are identities of the table. */
  lemma SelectedIdentitiesInStore(store: seq<Contact>, sel: seq<Contact>)
    requires forall k :: 0 <= k < |sel| ==> sel[k] in store
    ensures forall v :: v in Identities(sel) ==> v in Identities(store)
  {
    forall v | v in Identities(sel) ensures v in Identities(store) {
      var j :| 0 <= j < |sel| && sel[j].identity == v;
      var i :| 0 <= i < |store| && store[i] == sel[j];
      assert Identities(store)[i] == v;
    }
  }

  /** Allocation keeps the whole state valid: identities stay unique, `slot_array`s stay
      duplicate-free, and the new slot and its contacts are linked in both directions. */
  lemma AllocatePreservesValid(db: Stores, channel: string, required: nat, dataType: string, labelValue: string, user: string)
    requires Valid(db)
    requires Allocate(db, channel, required, dataType, labelValue, user).Ok?
    ensures Valid(Allocate(db, channel, required, dataType, labelValue, user).value.db)
  {
    var wa := IsWhatsApp(channel);
    var store := ChannelStore(db, channel);
    var other := if wa then db.email else db.whatsapp;
    var sel := Selected(store, dataType, labelValue, required);
    var slot := Allocate(db, channel, required, dataType, labelValue, user).value.slot;
    assert slot.slotId == |db.slots| + 1 && slot.campaignType == channel && slot.tupleOfValues == Identities(sel);
    var tagged := Tagged(store, slot.tupleOfValues, slot.slotId);
    assert Allocate(db, channel, required, dataType, labelValue, user).value.db
      == WithChannelStore(db.(slots := db.slots + [slot]), channel, tagged);
    ValidChannelLinked(db, channel);
    SelectedSpec(store, dataType, labelValue, required);
    SelectedIdentitiesInStore(store, sel);
    TaggedLinked(store, db.slots, wa, slot);
    TaggedWellFormed(store, slot.tupleOfValues, slot.slotId);
    assert Linked(other, db.slots, !wa);
    OtherChannelLinked(other, db.slots, !wa, slot);
    WithChannelStoreValid(db, channel, tagged, db.slots + [slot]);
  }

  /** No double booking under the "New" filter: after a "New" allocation every contact
      of the new slot has a non-empty `slot_array`, so no later "New" allocation can
      select it until it is released. */
  lemma NewAllocationExhaustsContacts(db: Stores, channel: string, required: nat, labelValue: string, user: string)
    requires Allocate(db, channel, required, "New", labelValue, user).Ok?
    ensures var a := Allocate(db, channel, required, "New", labelValue, user).value;
      var store' := ChannelStore(a.db, channel);
      forall i :: 0 <= i < |store'| && store'[i].identity in a.slot.tupleOfValues ==>
        !Eligible(store'[i], "New", labelValue)
  {
  }

  /** The scenario of five new WhatsApp contacts: allocating all five succeeds with five
      values, and an immediate second "New" request for one contact fails with
      "Required: 1, Available: 0". */
  lemma FiveNewContactsScenario(db: Stores)
    requires |db.whatsapp| == 5
    requires forall i :: 0 <= i < 5 ==> db.whatsapp[i].slotArray == []
    ensures var first := Allocate(db, "WhatsApp", 5, "New", "", "");
      && first.Ok?
      && |first.value.slot.tupleOfValues| == 5
      && Allocate(first.value.db, "WhatsApp", 1, "New", "", "") == Err(InsufficientPool(1, 0))
  {
    FreshPoolTaken(db);
    var first := Allocate(db, "WhatsApp", 5, "New", "", "").value;
    var store' := first.db.whatsapp;
    forall i | 0 <= i < |store'| ensures !Eligible(store'[i], "New", "") {
      assert db.whatsapp[i].identity in Identities(db.whatsapp);
    }
    NoneEligibleFails(first.db);
  }

  /** Five fresh contacts are all selected, and each of them gets tagged. */
  lemma FreshPoolTaken(db: Stores)
    requires |db.whatsapp| == 5
    requires forall i :: 0 <= i < 5 ==> db.whatsapp[i].slotArray == []
    ensures var first := Allocate(db, "WhatsApp", 5, "New", "", "");
      && first.Ok?
      && first.value.slot.tupleOfValues == Identities(db.whatsapp)
      && first.value.db.whatsapp == Tagged(db.whatsapp, Identities(db.whatsapp), |db.slots| + 1)
  {
    FilterAll(db.whatsapp, (c: Contact) => Eligible(c, "New", ""));
    assert Selected(db.whatsapp, "New", "", 5) == db.whatsapp;
  }

  /** With no "New" contact left, a request for one fails with nothing available. */
  lemma NoneEligibleFails(db: Stores)
    requires forall i :: 0 <= i < |db.whatsapp| ==> !Eligible(db.whatsapp[i], "New", "")
    ensures Allocate(db, "WhatsApp", 1, "New", "", "") == Err(InsufficientPool(1, 0))
  {
    FilterNone(db.whatsapp, (c: Contact) => Eligible(c, "New", ""));
    assert Selected(db.whatsapp, "New", "", 1) == [];
  }
}
