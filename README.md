# Contact pool and campaign slots, modelled in Dafny

The system keeps two pools of contacts: WhatsApp numbers and email
addresses. It hands them out to campaigns in *slots*.

- A slot (`campaignSlot`) records:
  - its channel (`campaign_type`);
  - who generated it;
  - the number of contacts it took (`count`);
  - the contacts themselves (`tuple_of_values`).
- Every contact carries a `slot_array` with the ids of the slots it has been given to, plus a list of `labels`.

The server routes work on these tables:

- **run-campaign** derives how many contacts a campaign needs, selects fresh or used contacts, creates a slot and tags them.
- **failed** reports contacts of a slot as failed, which releases them from the slot.
- **upload** cleans and inserts new numbers in chunks, skipping known ones.
- **labels** adds a label to a contact and writes an audit entry.
- **search** and **dashboard** read the tables.

Three more pieces of logic sit on the client side:

- the upload page's number cleaning and chunk loop;
- the `SmartUploader` component's validation and duplicate-counting chunk loop;
- the middleware's routing decision.

## Model layout

- `seqs.dfy` (`Seqs`): Option/Result, `Array.prototype.filter`, `Array.from(new Set(..))`, and occurrence and subsequence notions.
- `text.dfy` (`Text`): ASCII `trim`, `\D` stripping, case-insensitive containment, `parseInt`.
- `store.dfy` (`Store`):
  - the four tables as sequences. A contact's `id` is its position; a slot's `slot_id` is its position plus one, as an autoincrement counter gives.
  - the invariant `Valid`: ids match positions, identities are unique, and no `slot_array` holds a duplicate. On top of that, contacts and slots are linked both ways: `s ∈ C.slot_array ⇔ C.identity ∈ slots[s].tuple_of_values` for every slot of C's channel.
- `slot_helpers.dfy`, `failed_helpers.dfy`, `upload_helpers.dfy`: the three helper libraries.
- One module per route: `run_campaign.dfy`, `failed_route.dfy`, `upload_route.dfy`, `labels_route.dfy`, `search_route.dfy`, `dashboard_route.dfy`.
  - Each route is a function from the tables (and the request) to a result and new tables.
  - The loops of the source are methods proved equal to those functions.
- `upload_page.dfy`, `smart_uploader.dfy`, `middleware.dfy`: the client-side logic.
- `api.dfy` (`Api.Database`): a class whose fields are the four tables.
  - Each mutating route is a method that changes the fields in place.
  - Each such method is proved to leave exactly the state its route function gives and to keep `Valid`.

Where the code and its description disagree, the model follows the code:

- The upload route strips every non-digit from email values too, so no email upload is ever valid.
- The upload route's `/^(\+91|91)/` turns a ten-digit number that begins with "91" into eight digits, which then fails validation.
- Search matches a slot id by `parseInt`, so "12abc" finds slot 12.
- The page folders `/run-campagian` and `/global-seacrh`, and `/failed`, are not in the middleware's protected list and pass without a token.

## Model

| member | source | states |
|---|---|---|
| SlotHelpers.FloorDiv | app/api/run-campaign/route.ts:39 | the true floor of a quotient for either sign of divisor: q·b ≤ a < (q+1)·b when b > 0, (q+1)·b < a ≤ q·b when b < 0 |
| SlotHelpers.CalculateRequiredContacts | lib/slotHelpers.ts:1-7 | 0 when interval ≤ 0; otherwise r = floor(duration/interval) (r·interval ≤ duration < (r+1)·interval), non-negative for a non-negative duration |
| SlotHelpers.AppendSlot | lib/slotHelpers.ts:9-16 | [slotId] for a missing list; otherwise the old list is kept as prefix, the id is always present, and the length grows by one exactly when the id was absent |
| SlotHelpers.AppendSlotIdempotent | lib/slotHelpers.ts:14 | appending the same id twice equals appending it once |
| SlotHelpers.AppendSlotNoDup | lib/slotHelpers.ts:13-15 | a duplicate-free slot array stays duplicate-free |
| FailedHelpers.RemoveSlotFromArray | lib/failedHelpers.ts:1-6 | no occurrence of the id remains, every other element is kept in order (a subsequence), and the length drops by the number of occurrences |
| FailedHelpers.RemoveAppend | lib/failedHelpers.ts:5 | removal distributes over concatenation |
| FailedHelpers.RemoveCount | lib/failedHelpers.ts:5 | removal drops every occurrence of the id and keeps every occurrence of every other element |
| FailedHelpers.RemoveAbsent | lib/failedHelpers.ts:5 | an absent id leaves the array unchanged |
| FailedHelpers.RemoveIdempotent | lib/failedHelpers.ts:5 | removing twice equals removing once |
| FailedHelpers.RemoveNoDup | lib/failedHelpers.ts:5 | a duplicate-free array stays duplicate-free |
| FailedHelpers.RemoveUndoesAppend | lib/failedHelpers.ts:5 | removing an id after appending it equals removing it from the original array |
| UploadHelpers.EmailRegexTest | lib/uploadHelpers.ts:8 | the scanner accepts exactly the strings matching `^[^\s@]+@[^\s@]+\.[^\s@]+$` (stated as a declarative predicate) |
| UploadHelpers.ValidateWhatsApp | lib/uploadHelpers.ts:1-4 | true iff the trimmed string has length 10 and consists of digits only |
| UploadHelpers.ValidateEmail | lib/uploadHelpers.ts:6-9 | true iff the trimmed string matches the email pattern |
| UploadHelpers.ValidationIgnoresPadding | lib/uploadHelpers.ts:2-8 | leading and trailing whitespace never changes either verdict |
| UploadHelpers.WhatsAppRejectsNonDigit | lib/uploadHelpers.ts:3 | any non-digit inside the trimmed number makes it invalid |
| UploadHelpers.SpacedNumberRejected | lib/uploadHelpers.ts:3 | "98765 43210" is rejected |
| UploadHelpers.CountryCodeRejected | lib/uploadHelpers.ts:3 | "+919876543210" is rejected |
| UploadHelpers.PaddedDigitsAccepted | lib/uploadHelpers.ts:2-3 | ten digits surrounded by whitespace are accepted |
| UploadHelpers.PaddedNumberAccepted | lib/uploadHelpers.ts:2-3 | " 9876543210\n" is accepted |
| UploadHelpers.ValidEmailShape | lib/uploadHelpers.ts:8 | an accepted email has no whitespace, exactly one '@' not in first position, and a '.' after it that is neither the first nor the last character of the domain |
| UploadHelpers.DigitsNeverEmail | lib/uploadHelpers.ts:8 | a digit-only string is never a valid email |
| Text.ParseIntLeadingDigits | app/api/search/route.ts:18 | `parseInt` reads the leading digit run and ignores what follows |
| Text.ParseIntNoLeadingDigit | app/api/search/route.ts:18 | a string that starts with no digit, sign or blank parses to NaN |
| Text.TrimIgnoresPadding | app/api/search/route.ts:17 | surrounding whitespace does not change the trimmed string |
| Store.FindByIdentity | app/api/labels/route.ts:19-26 | a found position holds a record with that identity; not found means the identity is absent from the table |
| Store.FindSlot | app/api/failed/route.ts:21-23 | a found position holds the slot with that id; not found means no slot has that id |
| Store.FindSlotById | app/api/failed/route.ts:21-30 | with autoincrement ids, slot `s` exists iff 1 ≤ s ≤ number of slots, at position s−1 |
| Store.WithChannelStore | app/api/labels/route.ts:9-17 | the table the channel selects becomes the new one; the other table, the slots and the audit log are kept |
| Store.ValidIgnoresAuditLog | app/api/labels/route.ts:49-55 | the consistency invariant holds with any audit log exactly when it holds with the old one |
| Store.WithChannelStoreValid | app/api/failed/route.ts:32-41 | replacing one channel's table with a well-formed table linked to the slots keeps the whole state valid |
| RunCampaign.RunCampaign | app/api/run-campaign/route.ts:20-176 | the whole route; no contract of its own, properties in RunCampaign.InsufficientIffTooFewMatch, AllocatedSlot, AllocatedContacts, ExportedRows and AllocatePreservesValid |
| RunCampaign.Allocate | app/api/run-campaign/route.ts:86-134 | allocation for a validated count; no contract of its own, properties in RunCampaign.AllocatedSlot, AllocatedContacts and AllocatePreservesValid |
| RunCampaign.Selected | app/api/run-campaign/route.ts:86-89 | the first `required` eligible records; no contract of its own, properties in RunCampaign.SelectedSpec and FilterDistinct |
| RunCampaign.Eligible | app/api/run-campaign/route.ts:62-80 | the `where` filter; no contract of its own, properties in RunCampaign.SelectedSpec and NewAllocationExhaustsContacts |
| RunCampaign.Tagged | app/api/run-campaign/route.ts:120-131 | the tagged table; no contract of its own, properties in RunCampaign.TaggedWellFormed, TaggedLinked and AllocatedContacts |
| RunCampaign.RequiredCount | app/api/run-campaign/route.ts:22-45 | direct mode succeeds iff requiredCount > 0 and returns it; legacy mode without both operands is an error; otherwise the result is floor(duration/interval) as a true floor and is an error exactly when that floor is ≤ 0 |
| RunCampaign.LegacyAgreesWithHelper | lib/slotHelpers.ts:5-6 | for a positive interval the route's legacy count equals `calculateRequiredContacts` |
| RunCampaign.TagSelected | app/api/run-campaign/route.ts:120-131 | the update loop appends the new slot id to exactly the selected contacts' slot arrays (equal to the specification `Tagged`) |
| RunCampaign.SelectedSpec | app/api/run-campaign/route.ts:62-89 | the selection has min(required, matching) contacts, all eligible ("New" ⇒ empty slot array, "Old" ⇒ non-empty, label present), distinct, in table order |
| RunCampaign.FilterDistinct | app/api/run-campaign/route.ts:86-89 | filtering a table with unique identities keeps them unique |
| RunCampaign.InsufficientIffTooFewMatch | app/api/run-campaign/route.ts:91-99 | allocation fails iff fewer contacts match than required, and then reports (required, available) |
| RunCampaign.AllocatedSlot | app/api/run-campaign/route.ts:101-118 | the new slot is appended with the next id, the channel, generator or "internal", count = required = number of values, label or none; values are distinct and each names an eligible contact |
| RunCampaign.AllocatedContacts | app/api/run-campaign/route.ts:120-131 | each selected contact's slot array gets the new id appended; every other contact, the other channel and the audit log are unchanged |
| RunCampaign.ExportRows | app/api/run-campaign/route.ts:140-152 | one row per value, numbered 1..n in value order, each with the slot id, the channel and the value |
| RunCampaign.ExportedRows | app/api/run-campaign/route.ts:140-152 | a successful run's export rows carry the freshly assigned slot id and its values in order |
| RunCampaign.TaggedWellFormed | app/api/run-campaign/route.ts:120-131 | tagging with an unused slot id keeps ids, identities and duplicate-free slot arrays |
| RunCampaign.TaggedLinked | app/api/run-campaign/route.ts:109-131 | after the new slot is appended and its contacts tagged, the contacts and slots of that channel are still linked both ways |
| RunCampaign.OtherChannelLinked | app/api/run-campaign/route.ts:109-118 | a slot of the other channel does not disturb this channel's links |
| RunCampaign.SelectedIdentitiesInStore | app/api/run-campaign/route.ts:101-103 | every value put in the slot is the identity of a stored contact |
| RunCampaign.AllocatePreservesValid | app/api/run-campaign/route.ts:109-131 | a successful allocation keeps the whole consistency invariant |
| RunCampaign.NewAllocationExhaustsContacts | app/api/run-campaign/route.ts:62-67 | after a "New" allocation no allocated contact is "New" any more |
| RunCampaign.FiveNewContactsScenario | app/api/run-campaign/route.ts:86-99 | with five fresh contacts, allocating five succeeds and a further "New" request fails with (1 required, 0 available) |
| ReportFailed.ReportFailed | app/api/failed/route.ts:6-95 | the whole route; no contract of its own, properties in ReportFailed.ReportFailedErrors, ReportedState, ReportFailedPreservesValid and ReportFailedIdempotent |
| ReportFailed.Released | app/api/failed/route.ts:50-75 | the released table; no contract of its own, properties in ReportFailed.ReleasedWellFormed, ReleasedLinked, ReleasedCounts and ReleasedTwice |
| ReportFailed.RemainingValues | app/api/failed/route.ts:78-81 | the slot's remaining values; no contract of its own, properties in ReportFailed.RemainingCounts and ReportedState |
| ReportFailed.ReleaseContacts | app/api/failed/route.ts:50-75 | the loop over `values` removes the slot id from each matching contact's slot array (equal to the specification `Released`) |
| ReportFailed.ReportFailedErrors | app/api/failed/route.ts:8-30 | invalid input iff the slot id is missing/0 or values are missing; not found iff the input is valid and no slot has that id |
| ReportFailed.ReportedState | app/api/failed/route.ts:32-89 | for an existing slot: the contacts named in `values` lose the id (other ids kept in order), all other contacts, the other channel, the other slots and the audit log are unchanged; the slot keeps its fields except that its values are the old ones minus `values` in order and count is their number; occurrence counts pin down repeats: a released contact keeps every occurrence of its other slot ids, and the slot keeps every occurrence of each unreported value |
| ReportFailed.RemainingCounts | app/api/failed/route.ts:78-81 | the remaining values hold each unreported value as often as before and no reported one |
| ReportFailed.ReleasedCounts | app/api/failed/route.ts:50-75 | a released contact holds no occurrence of the slot id and every other slot id as often as before |
| ReportFailed.ReleasedWellFormed | app/api/failed/route.ts:50-75 | releasing keeps ids, identities and duplicate-free slot arrays |
| ReportFailed.ReleasedLinked | app/api/failed/route.ts:50-89 | after releasing contacts and shrinking the slot's values, the channel's contacts and slots are still linked both ways |
| ReportFailed.OtherChannelStillLinked | app/api/failed/route.ts:78-89 | rewriting a slot of the other channel does not disturb this channel's links |
| ReportFailed.ReportFailedOk | app/api/failed/route.ts:33-90 | a successful report puts the released channel table and the shrunk slot in place of the old ones |
| ReportFailed.ReportFailedPreservesValid | app/api/failed/route.ts:47-90 | a successful report keeps the consistency invariant |
| ReportFailed.ReleasedTwice | app/api/failed/route.ts:50-75 | releasing the same values twice equals releasing them once |
| ReportFailed.ReportFailedIdempotent | app/api/failed/route.ts:62-89 | reporting the same values again leaves the state unchanged |
| ReportFailed.FindSlotFirst | app/api/failed/route.ts:21-23 | the lookup finds the first slot with the id |
| ReportFailed.ReportScenario | app/api/failed/route.ts:50-89 | reporting ["B","X"] on slot 1 holding [A,B,C] leaves [A,C], count 2, and clears B's slot array; the unknown "X" is skipped |
| UploadRoute.Upload | app/api/upload/route.ts:9-130 | the whole route; no contract of its own, properties in UploadRoute.UploadReportCounts, UploadedState, UploadPreservesValid and UploadIdempotent |
| UploadRoute.Accepted | app/api/upload/route.ts:45-53 | the per-channel acceptance test; no contract of its own, properties in UploadRoute.EmailUploadsAllInvalid and NinetyOneQuirk |
| UploadRoute.ValidValues | app/api/upload/route.ts:41-55 | the accepted cleaned values in order; no contract of its own, properties in UploadRoute.Partition and UploadReportCounts |
| UploadRoute.CleanUploadValue | app/api/upload/route.ts:34-39 | the cleaned value is digits only |
| UploadRoute.Cleaned | app/api/upload/route.ts:34-39 | the cleaning map keeps the length and cleans each value in place |
| UploadRoute.Partition | app/api/upload/route.ts:41-55 | the push loop splits the cleaned values into the valid and the invalid ones for the channel, each in order |
| UploadRoute.InsertValue | app/api/upload/route.ts:72-76 | after inserting, the value is an identity of the table |
| UploadRoute.InsertAll | app/api/upload/route.ts:61-78 | inserting a list grows the table by at most the list's length |
| UploadRoute.InsertInChunks | app/api/upload/route.ts:61-78 | the chunked insert loop equals inserting all valid values at once (so chunk size does not matter), and `totalInserted` is the growth of the table |
| UploadRoute.HandleUpload | app/api/upload/route.ts:10-125 | the imperative route body (partition loop, chunk loop, counts) returns exactly the specification `Upload` |
| UploadRoute.InsertAllAppend | app/api/upload/route.ts:61-78 | inserting a + b equals inserting a and then b |
| UploadRoute.InsertAllShape | app/api/upload/route.ts:72-76 | existing records are untouched; new records come after them with the next ids, empty slot arrays and labels, distinct identities drawn from the values and not stored before; every value is stored afterwards |
| UploadRoute.InsertAllPresent | app/api/upload/route.ts:72-76 | inserting only stored values changes nothing (`skipDuplicates`) |
| UploadRoute.InsertedCount | app/api/upload/route.ts:61-80 | the number inserted is the number of distinct values not stored before |
| UploadRoute.InsertAllIdempotent | app/api/upload/route.ts:72-80 | inserting the same values twice equals inserting them once |
| UploadRoute.UploadReportCounts | app/api/upload/route.ts:13-18 | error iff values are missing; otherwise total = values = valid + invalid, inserted = distinct new valid values, duplicates = valid − inserted, and the invalid list is the cleaned invalid values |
| UploadRoute.InsertAllWellFormed | app/api/upload/route.ts:72-76 | insertion keeps ids, unique identities and duplicate-free slot arrays |
| UploadRoute.InsertAllLinked | app/api/upload/route.ts:72-76 | new contacts with empty slot arrays keep the links with the slots |
| UploadRoute.UploadedState | app/api/upload/route.ts:61-80 | a successful upload grows only the channel's table, by inserting the valid values after its old records; the other table, the slots and the audit log are kept |
| UploadRoute.UploadOk | app/api/upload/route.ts:9-125 | a payload with `values` succeeds, with the channel's table replaced by the valid values inserted |
| UploadRoute.UploadPreservesValid | app/api/upload/route.ts:61-78 | a successful upload keeps the consistency invariant |
| UploadRoute.UploadIdempotent | app/api/upload/route.ts:72-80 | re-uploading the same input changes nothing, inserts 0 and reports every valid value as a duplicate |
| UploadRoute.EmailUploadsAllInvalid | app/api/upload/route.ts:37-53 | on the email channel no cleaned value is valid; all of them are reported invalid |
| UploadRoute.CleanInternationalBranch | app/api/upload/route.ts:36 | a trimmed value starting with "+91" loses those three characters before stripping |
| UploadRoute.CleanNationalBranch | app/api/upload/route.ts:36 | a trimmed value starting with "91" loses those two characters before stripping |
| UploadRoute.CleanInternationalNumber | app/api/upload/route.ts:34-39 | "+91 d1 d2" cleans to d1 followed by d2 |
| UploadRoute.CleanUnprefixedBranch | app/api/upload/route.ts:35-37 | without a prefix only the non-digits are deleted |
| UploadRoute.CleanPlainDigits | app/api/upload/route.ts:34-39 | a digit string not starting with "91" is unchanged |
| UploadRoute.DigitsUnprefixed | app/api/upload/route.ts:36 | such a digit string matches neither prefix |
| UploadRoute.NinetyOneQuirk | app/api/upload/route.ts:36-46 | a ten-digit number starting with "91" is cut to eight digits and classified invalid |
| UploadRoute.TwoFormsCleanAlike | app/api/upload/route.ts:34-39 | "+91 d1 d2" and the bare ten digits clean to the same number |
| UploadRoute.UploadDuplicatePair | app/api/upload/route.ts:61-80 | two raw values cleaning to one new number give 2 valid, 1 inserted, 1 duplicate |
| UploadRoute.DuplicatePairInsert | app/api/upload/route.ts:41-78 | a repeated valid number is valid twice and inserted once |
| UploadRoute.UploadScenario | app/api/upload/route.ts:34-80 | uploading "+91 d1 d2" together with d1d2 into an empty table inserts one contact and reports one duplicate |
| AddLabel.AddLabel | app/api/labels/route.ts:6-60 | the whole route; no contract of its own, properties in AddLabel.AddLabelEffects, AddLabelPreservesValid and AddLabelTwice |
| AddLabel.UpdatedLabels | app/api/labels/route.ts:35-37 | the new label list; no contract of its own, properties in AddLabel.UpdatedLabelsSpec and UpdatedLabelsIdempotent |
| AddLabel.LabelAudit | app/api/labels/route.ts:49-55 | the audit entry; no contract of its own, properties in AddLabel.AddLabelEffects |
| AddLabel.UpdatedLabelsSpec | app/api/labels/route.ts:35-37 | the new labels are the old ones de-duplicated in first-occurrence order, plus the label at the end if it was absent; duplicate-free, containing the label and nothing new besides it |
| AddLabel.UpdatedLabelsIdempotent | app/api/labels/route.ts:35-37 | adding the same label again leaves the labels unchanged |
| AddLabel.AddLabelEffects | app/api/labels/route.ts:9-55 | not found iff the value is absent from the channel's table; on success only that record's labels change, the other channel and the slots are untouched, and exactly one ADD_LABEL entry (user or "internal") is appended to the audit log |
| AddLabel.AddLabelPreservesValid | app/api/labels/route.ts:39-46 | a successful label update keeps the invariant, and the record now carries the label |
| AddLabel.LabelsOnlyChange | app/api/labels/route.ts:39-46 | changing only labels keeps a table well formed and linked |
| AddLabel.AddLabelTwice | app/api/labels/route.ts:35-55 | adding the same label twice leaves the tables as after once; only a second audit entry is added |
| AddLabel.FindByIdentitySameIdentities | app/api/labels/route.ts:19-26 | the lookup depends only on the identity column |
| Search.Search | app/api/search/route.ts:8-55 | the whole route; no contract of its own, properties in Search.SearchErrors, SearchResults and SearchIgnoresPadding |
| Search.ContactMatches | app/api/search/route.ts:23-37 | the contact `where` clause; no contract of its own, properties in Search.MatchingContactsSpec |
| Search.SlotMatches | app/api/search/route.ts:45-50 | the slot `where` clause; no contract of its own, properties in Search.MatchingSlotsSpec, SlotIdByLeadingDigits and SlotIdIrrelevantWithoutNumber |
| Search.Take | app/api/search/route.ts:28 | `take: n` gives a prefix of at most n elements, all of them when fewer exist |
| Search.SearchErrors | app/api/search/route.ts:10-15 | error iff the trimmed query is empty |
| Search.CappedFilterSpec | app/api/search/route.ts:21-53 | a capped filter returns at most n matching elements in table order, and every match when below the cap |
| Search.SearchResults | app/api/search/route.ts:17-55 | at most 50 contacts per channel and 20 slots, each a subsequence of its table whose entries match the trimmed query; below the cap every match is included |
| Search.SlotIdByLeadingDigits | app/api/search/route.ts:18-46 | a query starting with digits matches the slot whose id is their value |
| Search.MatchingContactsSpec | app/api/search/route.ts:20-41 | one contact table's list: at most 50 entries, a subsequence of the table, each matching the query; below the cap every match is included |
| Search.MatchingSlotsSpec | app/api/search/route.ts:43-55 | the slot list: at most 20 entries, a subsequence of the slot table, each matching; below the cap every match is included |
| Search.TwelveAbcParses | app/api/search/route.ts:18 | `parseInt("12abc", 10)` is 12 |
| Search.TwelveAbcMatchesSlotTwelve | app/api/search/route.ts:18-46 | "12abc" matches slot 12 |
| Search.SlotIdIrrelevantWithoutNumber | app/api/search/route.ts:46 | without a leading integer the slot id plays no part in matching |
| Search.SearchIgnoresPadding | app/api/search/route.ts:17 | surrounding whitespace does not change the result |
| Dashboard.Dashboard | app/api/dashboard/route.ts:6-95 | the whole route; no contract of its own, properties in Dashboard.CountsSpec, RecentSlotsSpec and DashboardFallback |
| Dashboard.ChannelCounts | app/api/dashboard/route.ts:12-34 | one channel's counts; no contract of its own, properties in Dashboard.CountsSpec and UsedMeansAllocated |
| Dashboard.RecentSlots | app/api/dashboard/route.ts:57-66 | the five newest slots; no contract of its own, properties in Dashboard.RecentSlotsSpec |
| Dashboard.CountsSpec | app/api/dashboard/route.ts:12-77 | total is the table size, 0 ≤ used ≤ total, and unused is the number of contacts with an empty slot array |
| Dashboard.UsedMeansAllocated | app/api/dashboard/route.ts:12-20 | under the invariant a contact counts as used iff it is in the values of some slot of its channel |
| Dashboard.RecentSlotsSpec | app/api/dashboard/route.ts:57-66 | at most 5 entries, the newest slots newest first, with strictly decreasing ids |
| Dashboard.DashboardFallback | app/api/dashboard/route.ts:86-95 | on failure all counts are 0 and the list is empty; otherwise totals are the table sizes |
| Middleware.Decide | app/middleware.ts:5-93 | the middleware's decision; no contract of its own, properties in Middleware.PublicPaths, UnlistedPathsPass, ProtectedPaths and AdminNeedsAdminRole |
| Middleware.AnyPrefix | app/middleware.ts:23-59 | true iff the path starts with one of the routes |
| Middleware.PublicPaths | app/middleware.ts:14-39 | a public path is never sent to login; it is sent to the dashboard iff it is exactly "/login" with a token that verifies |
| Middleware.UnlistedPathsPass | app/middleware.ts:45-63 | a path neither public nor protected passes through |
| Middleware.ProtectedPaths | app/middleware.ts:66-93 | a protected path goes to login iff the token is missing or fails; to the dashboard iff it is verified, starts with "/admin" and the role is not "admin"; otherwise it passes |
| Middleware.AdminNeedsAdminRole | app/middleware.ts:79-88 | an "/admin" path that passes had a token whose role is "admin" |
| Middleware.NoRouteMatches | app/middleware.ts:23-59 | a path that differs from each route at some position matches none of them |
| Middleware.MisspelledPagesAreOpen | app/middleware.ts:45-63 | "/run-campagian", "/global-seacrh" and "/failed" pass without a token |
| Middleware.AdminPathNotPublic | app/middleware.ts:14-25 | a path starting with "/admin" starts with no public route |
| Middleware.RunCampagianNotPublic | app/middleware.ts:14-25 | "/run-campagian" starts with no public route |
| Middleware.RunCampagianNotProtected | app/middleware.ts:45-59 | "/run-campagian" starts with no protected route ("/run-campaign" differs at its 11th character) |
| Middleware.GlobalSeacrhNotPublic | app/middleware.ts:14-25 | "/global-seacrh" starts with no public route |
| Middleware.GlobalSeacrhNotProtected | app/middleware.ts:45-59 | "/global-seacrh" starts with no protected route ("/global-search" differs at its 12th character) |
| Middleware.FailedNotPublic | app/middleware.ts:14-25 | "/failed" starts with no public route |
| Middleware.FailedNotProtected | app/middleware.ts:45-59 | "/failed" starts with no protected route (it is shorter than "/failed-campaign") |
| UploadPage.CleanNumber | app/upload/page.tsx:15-27 | null for an empty cell; otherwise non-null iff the digits are exactly ten, or longer and start with "91"; a result is the last ten digits of the cell (all of them when there are ten) |
| UploadPage.SeparatedNumberKept | app/upload/page.tsx:18-26 | ten digits in two groups split by any non-digit ("98765-43210") clean to the ten digits |
| UploadPage.CleanNumberIdempotent | app/upload/page.tsx:15-27 | cleaning a cleaned number returns it |
| UploadPage.TenDigitsKept | app/upload/page.tsx:24-26 | ten digits are kept as they are |
| UploadPage.CountryCodedKeepsLastTen | app/upload/page.tsx:20-22 | "91" followed by ten digits keeps the last ten |
| UploadPage.StripCountryCode | app/upload/page.tsx:18 | stripping "+91 " leaves "91" before the rest's digits |
| UploadPage.CountryCodeDropped | app/upload/page.tsx:18-26 | "+91 d1 d2" with ten digits in d1 d2 cleans to d1d2 (the "+91 98765 43210" case) |
| UploadPage.NinetyOneNumberKept | app/upload/page.tsx:18-26 | "9123456789" is kept unchanged |
| UploadPage.Collected | app/upload/page.tsx:48-53 | the collected numbers; no contract of its own, properties in UploadPage.CollectedSpec and CollectedOrder |
| UploadPage.UploadHistory | app/upload/page.tsx:57-74 | the successive `uploaded` values; no contract of its own, properties in UploadPage.UploadProgress |
| UploadPage.FinalMessage | app/upload/page.tsx:70-77 | the corrected final message; no contract of its own, properties in UploadPage.FinalMessageSpec |
| UploadPage.CollectNumbers | app/upload/page.tsx:48-53 | the row loop collects the specification `Collected` |
| UploadPage.CollectedSpec | app/upload/page.tsx:48-53 | the numbers are exactly the non-null cleaned first-column values, each ten digits, one per row that cleans, in row order (a repeated row is pushed again) |
| UploadPage.CollectedOrder | app/upload/page.tsx:48-53 | position k of the collected list is the cleaned value of the k-th row that cleans |
| UploadPage.UploadChunksAsWritten | app/upload/page.tsx:57-77 | the loop as written: the progress history, and the messages it sets, ending with the success message |
| UploadPage.UploadChunks | app/upload/page.tsx:57-77 | the loop with the final message chosen by whether every chunk went through |
| UploadPage.SentReach | app/upload/page.tsx:57-74 | the number of chunks sent reaches the end iff no request throws |
| UploadPage.UploadProgress | app/upload/page.tsx:57-74 | `uploaded` strictly increases, stays within 1..n, and ends at n iff no request throws |
| UploadPage.ErrorMessageOverwritten | app/upload/page.tsx:70-77 | when a request throws, the error message is set but the last message is the success message |
| UploadPage.FailedUploadReportsSuccess | app/upload/page.tsx:57-77 | one number whose request throws: nothing is uploaded, yet success is reported |
| UploadPage.FinalMessageSpec | app/upload/page.tsx:57-77 | corrected: success iff every chunk went through, iff the progress reaches n |
| SmartUploader.ValidNumbers | src/components/SmartUploader.tsx:43-52 | the valid numbers in row order; no contract of its own, properties in SmartUploader.ValidationSpec |
| SmartUploader.FailedEntries | src/components/SmartUploader.tsx:43-52 | the failed list in row order; no contract of its own, properties in SmartUploader.ValidationSpec and EmptyRowReported |
| SmartUploader.Existing | src/components/SmartUploader.tsx:63-68 | a chunk's already-stored numbers; no contract of its own, properties in SmartUploader.ChunkCounts |
| SmartUploader.NewContacts | src/components/SmartUploader.tsx:71 | a chunk's numbers not yet stored; no contract of its own, properties in SmartUploader.ChunkCounts and RepeatWithinChunk |
| SmartUploader.ImportFrom | src/components/SmartUploader.tsx:57-82 | the chunk loop's outcome; no contract of its own, properties in SmartUploader.ImportChunks and ImportSpec |
| SmartUploader.Candidate | src/components/SmartUploader.tsx:44-45 | the candidate is digits only |
| SmartUploader.ValidateRows | src/components/SmartUploader.tsx:43-52 | the row loop produces the valid numbers and the failed entries of the specification |
| SmartUploader.ValidationSpec | src/components/SmartUploader.tsx:43-52 | valid + failed = rows; every valid number is ten digits; no failed entry is empty |
| SmartUploader.EmptyRowReported | src/components/SmartUploader.tsx:47-51 | "Empty Row" is listed iff some row is missing, empty, or literally "Empty Row" |
| SmartUploader.EmptyRowFails | src/components/SmartUploader.tsx:47-51 | an empty row never validates |
| SmartUploader.ChunkCounts | src/components/SmartUploader.tsx:63-81 | per chunk, existing + new ≤ chunk size, and the store then holds every chunk value |
| SmartUploader.ImportChunks | src/components/SmartUploader.tsx:55-82 | the chunk loop yields the store and counters of the specification `ImportFrom` |
| SmartUploader.ImportSpec | src/components/SmartUploader.tsx:55-82 | the store ends as the old store plus all valid numbers, and added + duplicates ≤ valid numbers |
| SmartUploader.HandleUpload | src/components/SmartUploader.tsx:39-91 | the report carries the row count, added, duplicates, and the failed entries and their number |
| SmartUploader.ReportSpec | src/components/SmartUploader.tsx:85-91 | the store gains exactly the valid numbers, and added + duplicates + failed ≤ rows |
| SmartUploader.RepeatWithinChunk | src/components/SmartUploader.tsx:63-75 | a new number repeated within one chunk counts as added twice and never as a duplicate |
| SmartUploader.OneFullChunk | src/components/SmartUploader.tsx:57-82 | a full chunk is processed in one step |
| SmartUploader.RepeatAcrossChunks | src/components/SmartUploader.tsx:57-82 | a new number repeated in the next chunk counts once as added and once as a duplicate |
| Api.Database.SetChannelStore | app/api/labels/route.ts:9-17 | callable only when the state it completes is consistent; replaces exactly the table the channel selects and leaves the state consistent |
| Api.Database.RunCampaign | app/api/run-campaign/route.ts:20-176 | the in-place route leaves the state `RunCampaign` gives (unchanged on error) and keeps the invariant |
| Api.Database.ReportFailed | app/api/failed/route.ts:6-95 | the in-place route leaves the state `ReportFailed` gives (unchanged on error) and keeps the invariant |
| Api.Database.Upload | app/api/upload/route.ts:9-130 | the in-place route leaves the state `Upload` gives (unchanged on error) and keeps the invariant |
| Api.Database.AddLabel | app/api/labels/route.ts:6-60 | the in-place route leaves the state `AddLabel` gives (unchanged on error) and keeps the invariant |
| Api.Database.Search | app/api/search/route.ts:20-55 | reads without changing state; results are `Search`'s, at most 50 contacts of each channel and 20 slots |
| Api.Database.Dashboard | app/api/dashboard/route.ts:12-84 | reads without changing state; used ≤ total per channel and at most 5 recent slots |

## Left out

- Concurrency is not modelled: every route is one sequential atomic step. The run-campaign route selects contacts outside its transaction and writes back a possibly stale `slot_array`, and that race is not captured.
- The Prisma and Supabase clients are replaced by the tables themselves: each table is a sequence, and `slot_id` comes from an autoincrement counter.
  - The database's reaction to an insert that repeats a value inside one chunk is not modelled: `SmartUploader` stores a set.
  - `findMany` ordering is modelled only as table order.
- Spreadsheet reading and writing (XLSX) is left out. Only the row mappings are modelled: export rows, first-column collection, `Contact_Number` rows.
- The request link between the upload page and the upload route is not modelled. The page sends `contacts`, the route reads `values`. The page's requests are a parameter `ok` saying which chunk requests complete.
- Request bodies are typed:
  - numbers arrive as `Option<int>`, strings as strings, lists as `Option<seq<string>>`;
  - non-string JSON values, fractional numbers and `Number()` conversion of strings are not modelled;
  - `Math.floor` of a fractional requiredCount is therefore not modelled.
- Authentication: `verifyToken` is an abstract partial function from token to role. Password hashing, token signing, reset tokens and mail are left out, as is the middleware's `matcher` configuration.
- Dates and clocks are left out:
  - the dashboard's "today" count;
  - `created_at`, so recent slots are ordered by table position, the order `created_at` gives with autoincrement ids;
  - the export's date formatting.
- `shuffleArray` and other randomness are left out.
- Progress percentages and other floating-point values are left out. `uploaded` is modelled as an integer.
- The client-side allocation components and their remote procedures are left out, since the server routes supersede them. So are the passthrough routes for slots and the audit log, the audit logger, and all pages and UI.
- Database failures (the routes' `catch` blocks answering 500) are not modelled, except on the dashboard, where the zero fallback is. Each route is modelled as running to completion. For run-campaign and failed this loses nothing: their writes sit in one `$transaction`, so a failure leaves the tables as they were. Two routes write outside a transaction, and their partial effects are not captured:
  - upload: `createMany` commits chunk by chunk (app/api/upload/route.ts:62-77), so a failure on chunk k+1 leaves the first k chunks' new values stored while the route answers 500 (lines 127-132);
  - labels: the label update (app/api/labels/route.ts:39-46) and the audit insert (lines 49-55) are separate writes, so a failing audit insert leaves the label added while the route answers 500 (lines 59-63).
- Text is ASCII: `trim`, `\s` and case-insensitive matching cover ASCII whitespace and letters only.
- UploadPage.CountryCodeDropped: states the "+91 98765 43210" example for every pair of digit groups, not for that literal string itself.
- Dashboard.RecentSlotsSpec: states the order by slot id rather than by `created_at`, which is not modelled.

## Findings

| source | as written | input that shows it | evidently intended | confidence | as-written member | corrected member |
|---|---|---|---|---|---|---|
| app/upload/page.tsx:70-77 | when a chunk request throws, the loop sets "Error uploading some chunks." and breaks, but the line after the loop always sets "Upload completed successfully.", so the error is overwritten | one collected number whose request throws (n = 1, `ok` false everywhere): nothing is uploaded and the success message is shown | the success message only when every chunk went through, the error message otherwise | high; not executed | UploadPage.UploadChunksAsWritten, shown by UploadPage.FailedUploadReportsSuccess | UploadPage.UploadChunks, proved by UploadPage.FinalMessageSpec |
