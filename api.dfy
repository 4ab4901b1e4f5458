/** The database the API routes share, as an object whose tables the routes
    update in place. Each route is a method: it runs the route's loops (the
    methods of the route modules) on the current tables, writes back the tables
    it changes, and is proved to leave exactly the state the route's function
    describes, keeping the consistency invariant. */
module Api {
  import opened Seqs
  import Store
  import Campaign = RunCampaign
  import Failed = ReportFailed
  import Uploads = UploadRoute
  import Labels = AddLabel
  import Searches = Search
  import Stats = Dashboard

  class Database {
    var whatsapp: seq<Store.Contact>
    var email: seq<Store.Contact>
    var slots: seq<Store.Slot>
    var auditLog: seq<Store.AuditEntry>

    function State(): Store.Stores
      reads this
    {
      Store.Stores(whatsapp, email, slots, auditLog)
    }

    ghost predicate Valid()
      reads this
    {
      Store.Valid(State())
    }

    /** An empty database. */
    constructor ()
      ensures State() == Store.Stores([], [], [], []) && Valid()
    {
      whatsapp, email, slots, auditLog := [], [], [], [];
      Store.EmptyValid();
    }

    /** Writes back the table that `channel` selects. Every route calls it last,
        once the state it completes is known to be valid. */
    method SetChannelStore(channel: string, store: seq<Store.Contact>)
      requires Store.Valid(Store.WithChannelStore(State(), channel, store))
      modifies this
      ensures State() == Store.WithChannelStore(old(State()), channel, store)
      ensures Valid()
    {
      if Store.IsWhatsApp(channel) {
        whatsapp := store;
      } else {
        email := store;
      }
    }

    /** POST /api/run-campaign. On an error nothing changes; on success the new slot
        is appended, the selected contacts are tagged, and the slot and the export
        rows are returned. */
    method RunCampaign(req: Campaign.CampaignRequest)
      returns (r: Result<(Store.Slot, seq<Campaign.ExportRow>), Campaign.CampaignError>)
      requires Valid()
      modifies this
      ensures Valid()
      ensures match Campaign.RunCampaign(old(State()), req)
        case Err(e) => r == Err(e) && State() == old(State())
        case Ok(a) => r == Ok((a.slot, a.rows)) && State() == a.db
    {
      var db0 := State();
      var required := Campaign.RequiredCount(req);
      if required.Err? {
        return Err(required.error);
      }
      var n := required.value;
      var store := Store.ChannelStore(db0, req.channel);
      var selected := Campaign.Selected(store, req.dataType, req.labelValue, n);
      if |selected| < n {
        return Err(Campaign.InsufficientPool(n, |selected|));
      }
      Campaign.SelectedSpec(store, req.dataType, req.labelValue, n);
      var slotId := |slots| + 1;
      var slot := Store.Slot(slotId, req.channel, if req.user == "" then "internal" else req.user, n,
                             if req.labelValue == "" then [] else [req.labelValue], Store.Identities(selected));
      slots := slots + [slot];
      var updated := Campaign.TagSelected(store, selected, slotId);
      Campaign.AllocatePreservesValid(db0, req.channel, n, req.dataType, req.labelValue, req.user);
      assert Store.WithChannelStore(State(), req.channel, updated)
          == Campaign.Allocate(db0, req.channel, n, req.dataType, req.labelValue, req.user).value.db;
      SetChannelStore(req.channel, updated);
      r := Ok((slot, Campaign.ExportRows(slot)));
    }

    /** POST /api/failed. On an error nothing changes; otherwise the reported
        contacts lose the slot id and the slot drops the reported values. */
    method ReportFailed(slotIdNumber: Option<int>, values: Option<seq<string>>)
      returns (r: Result<(), Failed.FailedError>)
      requires Valid()
      modifies this
      ensures Valid()
      ensures match Failed.ReportFailed(old(State()), slotIdNumber, values)
        case Err(e) => r == Err(e) && State() == old(State())
        case Ok(db') => r == Ok(()) && State() == db'
    {
      var db0 := State();
      if slotIdNumber.None? || slotIdNumber.value == 0 || values.None? {
        return Err(Failed.InvalidInput);
      }
      var slotId := slotIdNumber.value;
      var found := Store.FindSlot(slots, slotId);
      if found.None? {
        return Err(Failed.SlotNotFound);
      }
      var k := found.value;
      var slot := slots[k];
      var store := Store.ChannelStore(db0, slot.campaignType);
      var updated := Failed.ReleaseContacts(store, values.value, slotId);
      var tuple' := Failed.RemainingValues(slot.tupleOfValues, values.value);
      slots := slots[k := slot.(tupleOfValues := tuple', count := |tuple'|)];
      Failed.ReportFailedPreservesValid(db0, slotIdNumber, values);
      SetChannelStore(slot.campaignType, updated);
      r := Ok(());
    }

    /** POST /api/upload. On an error nothing changes; otherwise the valid values
        are inserted in chunks of 10000 and the report is returned. */
    method Upload(channel: string, values: Option<seq<string>>)
      returns (r: Result<Uploads.UploadReport, Uploads.UploadError>)
      requires Valid()
      modifies this
      ensures Valid()
      ensures match Uploads.Upload(old(State()), channel, values)
        case Err(e) => r == Err(e) && State() == old(State())
        case Ok(res) => r == Ok(res.1) && State() == res.0
    {
      var db0 := State();
      var result := Uploads.HandleUpload(db0, channel, values);
      if result.Err? {
        return Err(result.error);
      }
      Uploads.UploadPreservesValid(db0, channel, values);
      SetChannelStore(channel, Store.ChannelStore(result.value.0, channel));
      assert State() == result.value.0;
      r := Ok(result.value.1);
    }

    /** POST /api/labels. On an error nothing changes; otherwise the record's labels
        are rewritten and one audit entry is appended. */
    method AddLabel(channel: string, value: string, labelValue: string, user: string)
      returns (r: Result<(), Labels.LabelError>)
      requires Valid()
      modifies this
      ensures Valid()
      ensures match Labels.AddLabel(old(State()), channel, value, labelValue, user)
        case Err(e) => r == Err(e) && State() == old(State())
        case Ok(db') => r == Ok(()) && State() == db'
    {
      var db0 := State();
      var store := Store.ChannelStore(db0, channel);
      var found := Store.FindByIdentity(store, value);
      if found.None? {
        return Err(Labels.RecordNotFound);
      }
      var i := found.value;
      var labels := Labels.UpdatedLabels(store[i].labels, labelValue);
      var store' := store[i := store[i].(labels := labels)];
      Labels.AddLabelPreservesValid(db0, channel, value, labelValue, user);
      Store.ValidIgnoresAuditLog(Store.WithChannelStore(db0, channel, store'), auditLog + [Labels.LabelAudit(value, user)]);
      SetChannelStore(channel, store');
      auditLog := auditLog + [Labels.LabelAudit(value, user)];
      r := Ok(());
    }

    /** POST /api/search: reads the tables and changes nothing. */
    method Search(query: string) returns (r: Result<Searches.SearchResult, Searches.SearchError>)
      ensures r == Searches.Search(State(), query)
      ensures r.Ok? ==> && |r.value.whatsapp| <= Searches.CONTACT_LIMIT && |r.value.email| <= Searches.CONTACT_LIMIT
                        && |r.value.slot| <= Searches.SLOT_LIMIT
    {
      r := Searches.Search(State(), query);
      if r.Ok? {
        Searches.SearchResults(State(), query);
      }
    }

    /** GET /api/dashboard: reads the tables and changes nothing; `failed` stands
        for a database error. */
    method Dashboard(failed: bool) returns (r: Stats.DashboardReport)
      ensures r == Stats.Dashboard(State(), failed)
      ensures 0 <= r.whatsapp.used <= r.whatsapp.total && 0 <= r.email.used <= r.email.total
      ensures |r.recentSlots| <= Stats.RECENT_LIMIT
    {
      r := Stats.Dashboard(State(), failed);
      Stats.CountsSpec(whatsapp);
      Stats.CountsSpec(email);
      Stats.RecentSlotsSpec(slots);
    }
  }
}
