/** app/api/search/route.ts: a read-only search over both contact tables and the
    slot table, each result list filtered and capped. */
module Search {
  import opened Seqs
  import opened Text
  import opened Store

  /** `take: 50` on each contact table, `take: 20` on the slots. */
  const CONTACT_LIMIT: nat := 50
  const SLOT_LIMIT: nat := 20

  datatype SearchError = QueryRequired   // "Query is required", status 400

  datatype SearchResult = SearchResult(whatsapp: seq<Contact>, email: seq<Contact>, slot: seq<Slot>)

  /** `findMany({ ..., take: n })`: the first `n` matches in table order. */
  function Take<T>(s: seq<T>, n: nat): (r: seq<T>)
    ensures |r| <= n && |r| <= |s| && r == s[..|r|]
    ensures |r| < n ==> r == s
  {
    if |s| <= n then s else s[..n]
  }

  /** Lines 24-25 and 35-36: the identity contains `q` ignoring case, or a label equals `q`. */
  predicate ContactMatches(c: Contact, q: string)
  {
    ContainsInsensitive(c.identity, q) || q in c.labels
  }

  /** Lines 46-49: the slot id equals `parseInt(q)` when that is a number; or a
      label equals `q`; or the creator or the channel contains `q` ignoring case. */
  predicate SlotMatches(s: Slot, q: string, slotIdNum: Option<int>)
  {
    || (slotIdNum.Some? && s.slotId == slotIdNum.value)
    || q in s.labelAssociated
    || ContainsInsensitive(s.generatedBy, q)
    || ContainsInsensitive(s.campaignType, q)
  }

  function MatchingContacts(store: seq<Contact>, q: string): seq<Contact>
  {
    Take(Filter(store, c => ContactMatches(c, q)), CONTACT_LIMIT)
  }

  function MatchingSlots(slots: seq<Slot>, q: string, slotIdNum: Option<int>): seq<Slot>
  {
    Take(Filter(slots, s => SlotMatches(s, q, slotIdNum)), SLOT_LIMIT)
  }

  /** The route. A missing query is the empty string. */
  function Search(db: Stores, query: string): Result<SearchResult, SearchError>
  {
    var q := Trim(query);
    if q == [] then Err(QueryRequired)
    else
      var slotIdNum := ParseInt(q);
      Ok(SearchResult(
        MatchingContacts(db.whatsapp, q),
        MatchingContacts(db.email, q),
        MatchingSlots(db.slots, q, slotIdNum)))
  }

  // ---------------------------------------------------------------------------
  // Properties

  /** An empty or all-whitespace query is refused; any other query is answered. */
  lemma SearchErrors(db: Stores, query: string)
    ensures Search(db, query).Err? <==> Trim(query) == []
  {
  }

  /** A capped filter: at most `n` entries, in table order, each one matching, and
      when fewer than `n` came back, every matching entry is among them. */
  lemma {:induction false} CappedFilterSpec<T>(s: seq<T>, p: T -> bool, n: nat)
    ensures var r := Take(Filter(s, p), n);
      && |r| <= n
      && IsSubsequence(r, s)
      && (forall i :: 0 <= i < |r| ==> p(r[i]) && r[i] in s)
      && (|r| < n ==> forall i :: 0 <= i < |s| && p(s[i]) ==> s[i] in r)
  {
    var f := Filter(s, p);
    var r := Take(f, n);
    FilterIsSubsequence(s, p);
    PrefixIsSubsequence(f, |r|);
    SubsequenceTransitive(r, f, s);
    forall i | 0 <= i < |r| ensures p(r[i]) && r[i] in s {
      assert r[i] == f[i];
    }
  }

  /** What each list holds, in terms of the trimmed query `q`: at most 50 contacts
      of each table and 20 slots, each a subsequence of its table, every entry
      matching, and every match present when the cap was not reached. */
  lemma SearchResults(db: Stores, query: string)
    requires Search(db, query).Ok?
    ensures var r, q := Search(db, query).value, Trim(query);
      && |r.whatsapp| <= CONTACT_LIMIT && |r.email| <= CONTACT_LIMIT && |r.slot| <= SLOT_LIMIT
      && IsSubsequence(r.whatsapp, db.whatsapp) && IsSubsequence(r.email, db.email)
      && IsSubsequence(r.slot, db.slots)
      && (forall i :: 0 <= i < |r.whatsapp| ==> ContactMatches(r.whatsapp[i], q))
      && (forall i :: 0 <= i < |r.email| ==> ContactMatches(r.email[i], q))
      && (forall i :: 0 <= i < |r.slot| ==> SlotMatches(r.slot[i], q, ParseInt(q)))
      && (|r.whatsapp| < CONTACT_LIMIT ==>
            forall i :: 0 <= i < |db.whatsapp| && ContactMatches(db.whatsapp[i], q) ==> db.whatsapp[i] in r.whatsapp)
      && (|r.email| < CONTACT_LIMIT ==>
            forall i :: 0 <= i < |db.email| && ContactMatches(db.email[i], q) ==> db.email[i] in r.email)
      && (|r.slot| < SLOT_LIMIT ==>
            forall k :: 0 <= k < |db.slots| && SlotMatches(db.slots[k], q, ParseInt(q)) ==> db.slots[k] in r.slot)
  {
    var q := Trim(query);
    MatchingContactsSpec(db.whatsapp, q);
    MatchingContactsSpec(db.email, q);
    MatchingSlotsSpec(db.slots, q, ParseInt(q));
  }

  /** One contact table's list: capped, in table order, matching, complete below the cap. */
  lemma MatchingContactsSpec(store: seq<Contact>, q: string)
    ensures var r := MatchingContacts(store, q);
      && |r| <= CONTACT_LIMIT && IsSubsequence(r, store)
      && (forall i :: 0 <= i < |r| ==> ContactMatches(r[i], q))
      && (|r| < CONTACT_LIMIT ==>
            forall i :: 0 <= i < |store| && ContactMatches(store[i], q) ==> store[i] in r)
  {
    CappedFilterSpec(store, c => ContactMatches(c, q), CONTACT_LIMIT);
  }

  /** The slot list: capped, in table order, matching, complete below the cap. */
  lemma MatchingSlotsSpec(slots: seq<Slot>, q: string, slotIdNum: Option<int>)
    ensures var r := MatchingSlots(slots, q, slotIdNum);
      && |r| <= SLOT_LIMIT && IsSubsequence(r, slots)
      && (forall i :: 0 <= i < |r| ==> SlotMatches(r[i], q, slotIdNum))
      && (|r| < SLOT_LIMIT ==>
            forall k :: 0 <= k < |slots| && SlotMatches(slots[k], q, slotIdNum) ==> slots[k] in r)
  {
    CappedFilterSpec(slots, s => SlotMatches(s, q, slotIdNum), SLOT_LIMIT);
  }

  /** `parseInt` prefix semantics: a query whose trimmed text starts with digits
      followed by a non-digit ("12abc") matches the slot whose id is the value of
      those digits. */
  lemma SlotIdByLeadingDigits(s: Slot, query: string, ds: string, rest: string)
    requires Trim(query) == ds + rest
    requires ds != [] && AllDigits(ds) && (rest == [] || !IsDigit(rest[0]))
    requires s.slotId == DigitsValue(ds)
    ensures SlotMatches(s, Trim(query), ParseInt(Trim(query)))
  {
    ParseIntLeadingDigits(ds, rest);
  }

  /** The query "12abc" matches slot 12. */
  lemma TwelveAbcMatchesSlotTwelve(s: Slot)
    requires s.slotId == 12
    ensures SlotMatches(s, "12abc", ParseInt("12abc"))
  {
    TwelveAbcParses();
  }

  /** `parseInt("12abc", 10)` is 12. */
  lemma TwelveAbcParses()
    ensures ParseInt("12abc") == Some(12)
  {
    TwelveAbcSplits();
    ParseIntLeadingDigits("12", "abc");
    TwelveValue();
  }

  lemma TwelveAbcSplits()
    ensures "12abc" == "12" + "abc" && AllDigits("12") && !IsDigit("abc"[0])
  {
  }

  lemma TwelveValue()
    ensures DigitsValue("12") == 12
  {
    assert "12"[..1] == "1";
  }

  /** When the query has no leading integer, the slot id plays no part. */
  lemma SlotIdIrrelevantWithoutNumber(s: Slot, q: string, otherId: int)
    requires ParseInt(q).None?
    ensures SlotMatches(s, q, ParseInt(q)) == SlotMatches(s.(slotId := otherId), q, ParseInt(q))
  {
  }

  /** The result depends on the query only through its trimmed text. */
  lemma SearchIgnoresPadding(db: Stores, w1: string, query: string, w2: string)
    requires AllSpace(w1) && AllSpace(w2)
    ensures Search(db, w1 + query + w2) == Search(db, query)
  {
    TrimIgnoresPadding(w1, query, w2);
  }
}
