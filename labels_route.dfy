/** app/api/labels/route.ts: add a label to one contact, as a set insert, and
    record the change in the audit log. */
module AddLabel {
  import opened Seqs
  import opened Store

  datatype LabelError = RecordNotFound   // "Record not found"

  /** Lines 35-37: `Array.from(new Set([...existing.labels, label]))`. */
  function UpdatedLabels(labels: seq<string>, labelValue: string): seq<string>
  {
    Dedup(labels + [labelValue])
  }

  /** Lines 49-55: the audit entry of a successful call. */
  function LabelAudit(value: string, user: string): AuditEntry
  {
    AuditEntry(if user == "" then "internal" else user, "ADD_LABEL", value)
  }

  /** The whole route: find the record of the channel by identity, rewrite its labels,
      and append one audit entry. */
  function AddLabel(db: Stores, channel: string, value: string, labelValue: string, user: string)
    : Result<Stores, LabelError>
  {
    var store := ChannelStore(db, channel);
    match FindByIdentity(store, value)
    case None => Err(RecordNotFound)
    case Some(i) =>
      var store' := store[i := store[i].(labels := UpdatedLabels(store[i].labels, labelValue))];
      var db' := WithChannelStore(db, channel, store');
      Ok(db'.(auditLog := db.auditLog + [LabelAudit(value, user)]))
  }

  // ---------------------------------------------------------------------------
  // Properties

  /** The new labels are the old ones with repeats collapsed in first-occurrence order,
      followed by the label when it was not there; they hold no repeats and hold
      exactly the old labels and the new one. */
  lemma UpdatedLabelsSpec(labels: seq<string>, labelValue: string)
    ensures var r := UpdatedLabels(labels, labelValue);
      && r == Dedup(labels) + (if labelValue in labels then [] else [labelValue])
      && NoDup(r)
      && labelValue in r
      && (forall x :: x in r <==> x in labels || x == labelValue)
  {
    var r := UpdatedLabels(labels, labelValue);
    assert (labels + [labelValue])[..|labels|] == labels;
    DedupNoDup(labels + [labelValue]);
    forall x | x in labels || x == labelValue ensures x in r {
      if x in labels {
        var i :| 0 <= i < |labels| && labels[i] == x;
        assert (labels + [labelValue])[i] == x;
      } else {
        assert (labels + [labelValue])[|labels|] == x;
      }
    }
  }

  /** Adding the same label twice is adding it once. */
  lemma UpdatedLabelsIdempotent(labels: seq<string>, labelValue: string)
    ensures UpdatedLabels(UpdatedLabels(labels, labelValue), labelValue) == UpdatedLabels(labels, labelValue)
  {
    var r := UpdatedLabels(labels, labelValue);
    UpdatedLabelsSpec(labels, labelValue);
    UpdatedLabelsSpec(r, labelValue);
    DedupOfNoDup(r);
  }

  /** Not found exactly when the channel's table has no record with the value. On
      success only that record's labels change (its id, identity and `slot_array`
      stay), every other record, the other channel and the slots are unchanged, and
      exactly one audit entry is appended. */
  lemma AddLabelEffects(db: Stores, channel: string, value: string, labelValue: string, user: string)
    ensures AddLabel(db, channel, value, labelValue, user).Err? <==> value !in Identities(ChannelStore(db, channel))
    ensures AddLabel(db, channel, value, labelValue, user).Ok? ==>
      var db' := AddLabel(db, channel, value, labelValue, user).value;
      var store, store' := ChannelStore(db, channel), ChannelStore(db', channel);
      && |store'| == |store|
      && (forall i :: 0 <= i < |store| ==>
            if store[i].identity == value && FindByIdentity(store, value) == Some(i)
            then store'[i] == store[i].(labels := UpdatedLabels(store[i].labels, labelValue))
            else store'[i] == store[i])
      && (if IsWhatsApp(channel) then db'.email == db.email else db'.whatsapp == db.whatsapp)
      && db'.slots == db.slots
      && db'.auditLog == db.auditLog + [AuditEntry(if user == "" then "internal" else user, "ADD_LABEL", value)]
  {
  }

  /** Labels take no part in the slot links, so adding one keeps the state valid; the
      record with the value then holds the label. */
  lemma AddLabelPreservesValid(db: Stores, channel: string, value: string, labelValue: string, user: string)
    requires Valid(db)
    requires AddLabel(db, channel, value, labelValue, user).Ok?
    ensures var db' := AddLabel(db, channel, value, labelValue, user).value;
      && Valid(db')
      && exists i :: 0 <= i < |ChannelStore(db', channel)| &&
           ChannelStore(db', channel)[i].identity == value && labelValue in ChannelStore(db', channel)[i].labels
  {
    var store := ChannelStore(db, channel);
    var i := FindByIdentity(store, value).value;
    var store' := store[i := store[i].(labels := UpdatedLabels(store[i].labels, labelValue))];
    ValidChannelLinked(db, channel);
    LabelsOnlyChange(store, store', db.slots, IsWhatsApp(channel));
    WithChannelStoreValid(db, channel, store', db.slots);
    assert db.(slots := db.slots) == db;
    var db1 := WithChannelStore(db, channel, store');
    var db' := db1.(auditLog := db.auditLog + [LabelAudit(value, user)]);
    assert AddLabel(db, channel, value, labelValue, user) == Ok(db');
    assert Valid(db1);
    assert ChannelStore(db', channel) == store';
    UpdatedLabelsSpec(store[i].labels, labelValue);
    assert store'[i].identity == value && labelValue in store'[i].labels;
  }

  /** Records that differ only in their labels are as well formed and as linked. */
  lemma LabelsOnlyChange(store: seq<Contact>, store': seq<Contact>, slots: seq<Slot>, wa: bool)
    requires WellFormedStore(store) && Linked(store, slots, wa)
    requires |store'| == |store|
    requires forall j :: 0 <= j < |store| ==> store'[j] == store[j].(labels := store'[j].labels)
    ensures WellFormedStore(store') && Linked(store', slots, wa)
  {
    assert Identities(store') == Identities(store);
  }

  /** Labelling twice leaves the tables as labelling once; only the audit log grows. */
  lemma AddLabelTwice(db: Stores, channel: string, value: string, labelValue: string, user: string)
    requires AddLabel(db, channel, value, labelValue, user).Ok?
    ensures var db1 := AddLabel(db, channel, value, labelValue, user).value;
      var db2 := AddLabel(db1, channel, value, labelValue, user).value;
      AddLabel(db1, channel, value, labelValue, user).Ok? &&
      db2 == db1.(auditLog := db1.auditLog + [LabelAudit(value, user)])
  {
    var store := ChannelStore(db, channel);
    var i := FindByIdentity(store, value).value;
    var db1 := AddLabel(db, channel, value, labelValue, user).value;
    var store1 := ChannelStore(db1, channel);
    assert Identities(store1) == Identities(store);
    FindByIdentitySameIdentities(store, store1, value);
    UpdatedLabelsIdempotent(store[i].labels, labelValue);
    assert store1[i := store1[i].(labels := UpdatedLabels(store1[i].labels, labelValue))] == store1;
  }

  /** Lookup by identity only depends on the identity column. */
  lemma {:induction false} FindByIdentitySameIdentities(a: seq<Contact>, b: seq<Contact>, value: string)
    requires Identities(a) == Identities(b)
    ensures FindByIdentity(a, value) == FindByIdentity(b, value)
  {
    if a != [] {
      assert Identities(a[1..]) == Identities(a)[1..];
      assert Identities(b[1..]) == Identities(b)[1..];
      FindByIdentitySameIdentities(a[1..], b[1..], value);
    }
  }
}
