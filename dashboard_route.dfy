/** app/api/dashboard/route.ts: read-only counts over the tables. The route's
    count of slots created today depends on the clock and is not part of this model. */
module Dashboard {
  import opened Seqs
  import opened Store

  /** `take: 5` on the recent slots. */
  const RECENT_LIMIT: nat := 5

  datatype Counts = Counts(total: int, used: int, unused: int)

  /** The `select` of the recent-slots query. */
  datatype RecentSlot = RecentSlot(slotId: int, campaignType: string)

  datatype DashboardReport = DashboardReport(
    whatsapp: Counts,
    email: Counts,
    totalSlots: int,
    recentSlots: seq<RecentSlot>)

  /** Lines 12-20 and 26-34: `count()` and `count({ where: { slot_array: { isEmpty: false } } })`;
      `unused` is their difference. */
  function ChannelCounts(store: seq<Contact>): Counts
  {
    var used := |Filter(store, (c: Contact) => c.slotArray != [])|;
    Counts(|store|, used, |store| - used)
  }

  /** Lines 57-66: the five most recently created slots, newest first. Creation order
      is table order. */
  function RecentSlots(slots: seq<Slot>): seq<RecentSlot>
  {
    var n := if |slots| < RECENT_LIMIT then |slots| else RECENT_LIMIT;
    seq(n, i requires 0 <= i < n => RecentSlot(slots[|slots| - 1 - i].slotId, slots[|slots| - 1 - i].campaignType))
  }

  /** The route; `failed` stands for any database error, which yields all zeros. */
  function Dashboard(db: Stores, failed: bool): DashboardReport
  {
    if failed then DashboardReport(Counts(0, 0, 0), Counts(0, 0, 0), 0, [])
    else DashboardReport(ChannelCounts(db.whatsapp), ChannelCounts(db.email), |db.slots|, RecentSlots(db.slots))
  }

  // ---------------------------------------------------------------------------
  // Properties

  /** `used` never exceeds `total`, and `unused` is the number of contacts with an
      empty `slot_array`, counted independently. */
  lemma CountsSpec(store: seq<Contact>)
    ensures var r := ChannelCounts(store);
      && r.total == |store|
      && 0 <= r.used <= r.total
      && r.unused == |Filter(store, (c: Contact) => c.slotArray == [])|
      && r.unused >= 0
  {
    FilterComplementLength(store, (c: Contact) => c.slotArray != [], (c: Contact) => c.slotArray == []);
  }

  /** In a valid state a contact counts as used exactly when its identity was
      handed out in some slot of its channel; so `used` counts the contacts that
      appear in a campaign. */
  lemma UsedMeansAllocated(db: Stores, channel: string, i: nat)
    requires Valid(db) && i < |ChannelStore(db, channel)|
    ensures var c := ChannelStore(db, channel)[i];
      c.slotArray != [] <==>
        exists k :: 0 <= k < |db.slots| && IsWhatsApp(db.slots[k].campaignType) == IsWhatsApp(channel) &&
          c.identity in db.slots[k].tupleOfValues
  {
    var store := ChannelStore(db, channel);
    ValidChannelLinked(db, channel);
    var c := store[i];
    if c.slotArray != [] {
      var sid := c.slotArray[0];
      assert sid in c.slotArray;
      var k := sid - 1;
      assert db.slots[k].slotId == sid;
      assert c.identity in db.slots[k].tupleOfValues;
    }
  }

  /** At most five recent slots, the newest first: entry `i` is the `i`-th slot from
      the end of the table, so with autoincrement ids the ids strictly decrease. */
  lemma RecentSlotsSpec(slots: seq<Slot>)
    ensures var r := RecentSlots(slots);
      && |r| <= RECENT_LIMIT
      && |r| == (if |slots| < RECENT_LIMIT then |slots| else RECENT_LIMIT)
      && (forall i :: 0 <= i < |r| ==>
            r[i].slotId == slots[|slots| - 1 - i].slotId && r[i].campaignType == slots[|slots| - 1 - i].campaignType)
    ensures WellFormedSlots(slots) ==>
      forall i, j :: 0 <= i < j < |RecentSlots(slots)| ==> RecentSlots(slots)[i].slotId > RecentSlots(slots)[j].slotId
  {
  }

  /** On a database error every count is zero and no slot is listed; otherwise the
      counts are those of the tables. */
  lemma DashboardFallback(db: Stores, failed: bool)
    ensures var r := Dashboard(db, failed);
      if failed then r.whatsapp == r.email == Counts(0, 0, 0) && r.totalSlots == 0 && r.recentSlots == []
      else r.whatsapp.total == |db.whatsapp| && r.email.total == |db.email| && r.totalSlots == |db.slots|
  {
  }
}
