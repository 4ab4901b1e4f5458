/** The persisted state the routes read and write: two contact tables
    (`whatsappContact` keyed by `contact_number`, `emailContact` keyed by
    `email_id`), the `campaignSlot` table and the `auditLog` table.

    Tables are sequences in insertion order. Records are never deleted, so a
    contact's `id` is its position in its table and a slot's `slot_id` is its
    position plus one (ids are assigned by an autoincrement counter starting at 1). */
module Store {
  import opened Seqs

  /** A contact record; `identity` is the `contact_number` or `email_id` column. */
  datatype Contact = Contact(id: nat, identity: string, slotArray: seq<int>, labels: seq<string>)

  /** A `campaignSlot` record. `created_at` is not modelled: creation order is table order. */
  datatype Slot = Slot(
    slotId: int,
    campaignType: string,
    generatedBy: string,
    count: int,
    labelAssociated: seq<string>,
    tupleOfValues: seq<string>)

  datatype AuditEntry = AuditEntry(user: string, action: string, entity: string)

  datatype Stores = Stores(
    whatsapp: seq<Contact>,
    email: seq<Contact>,
    slots: seq<Slot>,
    auditLog: seq<AuditEntry>)

  /** The channel test every route uses: only the exact string "WhatsApp" selects
      the WhatsApp table; any other channel selects the email table. */
  predicate IsWhatsApp(channel: string) { channel == "WhatsApp" }

  function ChannelStore(db: Stores, channel: string): seq<Contact>
  {
    if IsWhatsApp(channel) then db.whatsapp else db.email
  }

  function WithChannelStore(db: Stores, channel: string, store: seq<Contact>): (db': Stores)
    ensures ChannelStore(db', channel) == store
    ensures db'.slots == db.slots && db'.auditLog == db.auditLog
    ensures IsWhatsApp(channel) ==> db'.email == db.email
    ensures !IsWhatsApp(channel) ==> db'.whatsapp == db.whatsapp
  {
    if IsWhatsApp(channel) then db.(whatsapp := store) else db.(email := store)
  }

  /** The identity column of a list of records, in order (`records.map(r => r[field])`). */
  function Identities(records: seq<Contact>): (ids: seq<string>)
    ensures |ids| == |records|
    ensures forall i :: 0 <= i < |records| ==> ids[i] == records[i].identity
  {
    seq(|records|, i requires 0 <= i < |records| => records[i].identity)
  }

  /** `findUnique({ where: { [field]: value } })`: the position of the record with that identity. */
  function FindByIdentity(store: seq<Contact>, value: string): (r: Option<nat>)
    ensures r.Some? ==> r.value < |store| && store[r.value].identity == value
    ensures r.None? ==> value !in Identities(store)
  {
    if store == [] then None
    else if store[0].identity == value then Some(0)
    else match FindByIdentity(store[1..], value)
      case None => None
      case Some(j) => Some(j + 1)
  }

  /** `campaignSlot.findUnique({ where: { slot_id } })`: the position of the slot with that id. */
  function FindSlot(slots: seq<Slot>, slotId: int): (r: Option<nat>)
    ensures r.Some? ==> r.value < |slots| && slots[r.value].slotId == slotId
    ensures r.None? ==> forall k :: 0 <= k < |slots| ==> slots[k].slotId != slotId
  {
    if slots == [] then None
    else if slots[0].slotId == slotId then Some(0)
    else match FindSlot(slots[1..], slotId)
      case None => None
      case Some(k) => Some(k + 1)
  }

  /** No two records share an identity (the identity column is unique). */
  ghost predicate DistinctIdentities(records: seq<Contact>)
  {
    forall i, j :: 0 <= i < j < |records| ==> records[i].identity != records[j].identity
  }

  /** A contact table: ids are positions, identities are unique (the unique
      column), and no record's `slot_array` holds a slot id twice. */
  ghost predicate WellFormedStore(store: seq<Contact>)
  {
    && (forall i :: 0 <= i < |store| ==> store[i].id == i)
    && DistinctIdentities(store)
    && (forall i :: 0 <= i < |store| ==> NoDup(store[i].slotArray))
  }

  ghost predicate WellFormedSlots(slots: seq<Slot>)
  {
    forall k :: 0 <= k < |slots| ==> slots[k].slotId == k + 1
  }

  /** With autoincrement ids, the slot with id `slotId` exists exactly when
      `1 <= slotId <= |slots|`, and it sits at position `slotId - 1`. */
  lemma FindSlotById(slots: seq<Slot>, slotId: int)
    requires WellFormedSlots(slots)
    ensures FindSlot(slots, slotId) == if 1 <= slotId <= |slots| then Some(slotId - 1) else None
  {
    if 1 <= slotId <= |slots| {
      assert slots[slotId - 1].slotId == slotId;
    }
  }

  /** Bidirectional consistency between one contact table and the slots of its
      channel (`wa` says which table this is):
      - a slot id is in a contact's `slot_array` iff the contact's identity is in
        that slot's `tuple_of_values`;
      - every id in a `slot_array` names an existing slot of this channel;
      - every value in such a slot's `tuple_of_values` is the identity of a contact. */
  ghost predicate Linked(store: seq<Contact>, slots: seq<Slot>, wa: bool)
  {
    SlotsAgree(store, slots, wa) && SlotIdsExist(store, slots, wa) && ValuesStored(store, slots, wa)
  }

  ghost predicate SlotsAgree(store: seq<Contact>, slots: seq<Slot>, wa: bool)
  {
    forall i, k :: 0 <= i < |store| && 0 <= k < |slots| && IsWhatsApp(slots[k].campaignType) == wa ==>
      (slots[k].slotId in store[i].slotArray <==> store[i].identity in slots[k].tupleOfValues)
  }

  ghost predicate SlotIdsExist(store: seq<Contact>, slots: seq<Slot>, wa: bool)
  {
    forall i, sid :: 0 <= i < |store| && sid in store[i].slotArray ==>
      1 <= sid <= |slots| && IsWhatsApp(slots[sid - 1].campaignType) == wa
  }

  ghost predicate ValuesStored(store: seq<Contact>, slots: seq<Slot>, wa: bool)
  {
    forall k, v :: 0 <= k < |slots| && IsWhatsApp(slots[k].campaignType) == wa && v in slots[k].tupleOfValues ==>
      v in Identities(store)
  }

  ghost predicate Consistent(db: Stores)
  {
    Linked(db.whatsapp, db.slots, true) && Linked(db.email, db.slots, false)
  }

  /** The invariant every route preserves. */
  ghost predicate Valid(db: Stores)
  {
    && WellFormedStore(db.whatsapp)
    && WellFormedStore(db.email)
    && WellFormedSlots(db.slots)
    && Consistent(db)
  }

  /** The table of a slot's channel is linked to the slots exactly when the slot's
      id and its values agree with the contacts' `slot_array`s, in both directions. */
  lemma ValidChannelLinked(db: Stores, channel: string)
    requires Valid(db)
    ensures WellFormedStore(ChannelStore(db, channel))
    ensures Linked(ChannelStore(db, channel), db.slots, IsWhatsApp(channel))
  {
  }

  /** Replacing the table of one channel by a well-formed table linked to the same
      slots keeps the whole state valid. */
  lemma WithChannelStoreValid(db: Stores, channel: string, store: seq<Contact>, slots: seq<Slot>)
    requires WellFormedStore(db.whatsapp) && WellFormedStore(db.email) && WellFormedSlots(slots)
    requires IsWhatsApp(channel) ==> Linked(db.email, slots, false)
    requires !IsWhatsApp(channel) ==> Linked(db.whatsapp, slots, true)
    requires WellFormedStore(store) && Linked(store, slots, IsWhatsApp(channel))
    ensures Valid(WithChannelStore(db.(slots := slots), channel, store))
  {
  }

  /** The consistency invariant does not involve the audit log. */
  lemma ValidIgnoresAuditLog(db: Stores, log: seq<AuditEntry>)
    ensures Valid(db.(auditLog := log)) <==> Valid(db)
  {
    assert db.(auditLog := log).slots == db.slots;
  }

  /** The empty database. */
  lemma EmptyValid()
    ensures Valid(Stores([], [], [], []))
  {
  }
}
