# EdVentures application portal — a Dafny model

This project models the client-side logic of the university-application
portal. A student browses a catalog of partner institutions and filters it.
They select programs and scholarships and edit fees and costs. They fill in
an application form with documents, support services and a visa choice, and
submit it. A tracker then shows the application's status history. An
in-memory store stands in for the backend: it assigns ids of the form
`GEV-<clock>` and moves each application through "Under Review" to a final
decision.

One Dafny module stands for each part of the source:

- `Catalog` (catalog.dfy) holds the entity types and a few catalog entries used as fixtures.
- `App` (app.dfy) is the application shell: the selection store and its reducers.
- `ApplicationForm` (application_form.dfy) covers progress, the cost summary, services and visa, documents and uploads, and the payload.
- `InstitutionModal` (institution_modal.dfy) covers the program filter, the comparison list, the displayed cost and the auto-expand effect.
- `Programs` (programs.dfy) covers catalog filtering, the option lists and the career-goal effect.
- `ApplicationTracker` (application_tracker.dfy) is the tracker.
- `MockApi` (mock_api.dfy) is the application store.
- `Testimonials` (testimonials.dfy) is the carousel.
- `ProgramCard` (program_card.dfy) is the institution card.
- `Wrappers`, `Sequences` and `Strings` hold shared helpers: `Option`/`Result`, the `[...new Set(xs)]` idiom, `filter`, `trim`, `includes`, `split(', ').pop()`, decimal rendering and string sorting.

How the model is written:

- The state updaters that the source passes to React setters are pure functions on sequences.
- Each component's state is a class whose methods are its handlers. Each method states its whole new state in terms of those functions.
- The outcome of an asynchronous call is a parameter: a `Result` for a fetch, a submission or a lookup, a boolean for an upload's success, a pick for the random final status.
- Clocks and timestamps are parameters too.
- Each firing of a timer is a separate method.

Two behaviours of the code are worth noting:

- Starting a new application clears the form fields and forgets the submitted id, but keeps the selected programs (`App.AppState.StartNew`, `ApplicationForm.ApplicationFormState.HandleStartNewApplication`).
- Adding a program of an institution that already has selected programs gives the new entry the catalog fee, not the fee already edited for that institution. The per-institution fee sharing that the fee broadcast maintains can therefore break (`App.ToggleProgramMayBreakFeeSharing`). When it does, the cost summary counts the fee of the last entry (`ApplicationForm.UniversityFees`).

## Model

| member | source | states |
|---|---|---|
| App.RemoveKey | App.tsx:46 | the filter drops every entry with the key and keeps every other entry |
| App.RemoveKeyAbsent | App.tsx:46 | removing a key no entry has leaves the list unchanged |
| App.RemoveKeyAppended | App.tsx:46-60 | removing the key of a just-appended new entry restores the list |
| App.RemoveKeyConcat | App.tsx:46 | the filter keeps order: filtering a concatenation filters each part |
| App.RemoveKeyUnique | App.tsx:46 | removal keeps keys unique |
| App.RemoveKeyShrinks | App.tsx:43-46 | removing a present key makes the list strictly shorter |
| App.FindInstitution | App.tsx:49 | `find` returns None exactly when no institution has the name, otherwise the first match |
| App.CatalogFee | App.tsx:52 | the fee of the first catalog institution with the name; 0 when it lists none or no institution has the name |
| App.DefaultScholarships | App.tsx:55-59 | a new entry starts with the first catalog scholarship if there is one, otherwise none |
| App.NewEntry | App.tsx:49-59 | the added entry keeps the program, its key and its edited cost, and takes the catalog fee and the default scholarships |
| App.ToggleProgram | App.tsx:41-63 | the key's presence flips and every other key's presence is unchanged; an absent key appends exactly one new entry at the end; a present key gives `RemoveKey` of the list, so exactly the other entries stay, in order; unique keys are kept |
| App.ToggleProgramTwice | App.tsx:41-63 | toggling an absent program twice returns the original list |
| App.ToggleProgramMayBreakFeeSharing | App.tsx:49-52 | concrete case: a NUST entry with an edited fee of 7000, then adding another NUST program, gives two NUST fees (7000 and 5000) |
| App.ToggleProgramKeepsCatalogFees | App.tsx:49-52 | when the institution's entries carry its catalog fee, toggling keeps fees shared |
| App.ToggleByName | App.tsx:69-73 | the scholarship's name ends up present exactly when it was absent; other names are untouched; an absent one is appended; a present one gives `RemoveName` of the list, so the others stay in order |
| App.RemoveName | App.tsx:72 | the filter keeps exactly the scholarships with other names |
| App.RemoveNameAbsent | App.tsx:72 | filtering out a name nobody has changes nothing |
| App.ToggleByNameTwice | App.tsx:69-73 | selecting then unselecting a scholarship restores the list |
| App.RemoveNameAppended | App.tsx:72-73 | filtering out a just-appended name restores the list |
| App.RemoveNameConcat | App.tsx:72 | the filter keeps order: filtering a concatenation filters each part |
| App.ToggleScholarship | App.tsx:65-79 | only entries with the key change, and only in their scholarship list, which is toggled by name; an unknown key changes nothing |
| App.ToggleScholarshipTwice | App.tsx:65-79 | toggling the same scholarship twice on a program without it restores the list |
| App.BroadcastUniversityFee | App.tsx:89-91 | every entry of the institution gets the fee, whatever its program; other institutions' entries are unchanged |
| App.BroadcastKeepsFeesShared | App.tsx:89-91 | a broadcast keeps each institution on one shared fee |
| App.SetFeeByName | App.tsx:95-97 | exactly the scholarships with that name get the fee; a missing name matches none |
| App.SetScholarshipFee | App.tsx:93-98 | only the keyed entry changes, and only its same-named scholarships' fees |
| App.ChangeFee | App.tsx:81-103 | keys, programs and edited costs never change; fee sharing is preserved; it dispatches on the target |
| App.WithCostField | App.tsx:114-115 | one cost field is overwritten and the other is kept |
| App.ChangeCost | App.tsx:105-121 | only the keyed entry changes: its edited cost is its previous edited cost (or catalog cost) with one field set; the catalog cost is untouched |
| App.ChangeCostBothFields | App.tsx:105-121 | editing tuition then living expenses keeps both edits and leaves the catalog cost as it was |
| App.MessageOr | App.tsx:31 | an empty message falls back to the default text |
| App.AppState.constructor | App.tsx:15-20 | initial state: nothing selected, loading, no error, no id, no goal |
| App.AppState.FetchInstitutions | App.tsx:23-39 | success stores the catalog; failure sets the error (with the fallback text); loading ends either way; the programs section shows exactly on success; the selection is untouched |
| App.AppState.ShowsProgramsSection | App.tsx:145 | the error banner replaces the programs section: it shows exactly when there is no error (stated through the handlers that set the error) |
| App.AppState.ToggleProgramSelection | App.tsx:41-63 | the selection becomes `ToggleProgram` of it, against the loaded catalog; unique keys are kept |
| App.AppState.ToggleScholarshipSelection | App.tsx:65-79 | the selection becomes `ToggleScholarship` of it |
| App.AppState.HandleFeeChange | App.tsx:81-103 | the selection becomes `ChangeFee` of it |
| App.AppState.HandleCostChange | App.tsx:105-121 | the selection becomes `ChangeCost` of it |
| App.AppState.HandleApplicationSubmit | App.tsx:123-132 | success stores the id; failure keeps the id, sets the shared error and so hides the programs section; nothing else changes |
| App.AppState.StartNew | App.tsx:170 | only the application id is reset; the selected programs remain |
| App.AppState.SetCareerGoal | App.tsx:134-136 | stores the goal and location |
| ApplicationForm.EmailShapeAccepts | components/ApplicationForm.tsx:289 | `a@b.c` matches the email pattern |
| ApplicationForm.EmailShapeAcceptsTwoAts | components/ApplicationForm.tsx:289 | the pattern accepts an address with two `@` |
| ApplicationForm.EmailShapeRejects | components/ApplicationForm.tsx:289 | addresses without `@`, without a final part, or containing white space are rejected |
| ApplicationForm.CompletedSections | components/ApplicationForm.tsx:288-296 | at most five sections are complete |
| ApplicationForm.Progress | components/ApplicationForm.tsx:296-299 | the rounded percentage is exactly 20 per section, so it lies in {0, 20, …, 100} |
| ApplicationForm.ProgressFullIffAllSections | components/ApplicationForm.tsx:287-300 | progress is 100 exactly when all five sections are complete |
| ApplicationForm.InstitutionNames | components/ApplicationForm.tsx:210-211 | the institutions of the entries, position by position |
| ApplicationForm.LastFeeShared | components/ApplicationForm.tsx:209-213 | under fee sharing, the last entry's fee equals any entry's fee for that institution |
| ApplicationForm.MapSet | components/ApplicationForm.tsx:211 | `Map.set` overwrites an existing key in place and appends a new key at the end |
| ApplicationForm.BuildFeeMap | components/ApplicationForm.tsx:209-212 | the map holds each institution once, in first-occurrence order, with the fee of its last entry |
| ApplicationForm.SumValuesOfFeeMap | components/ApplicationForm.tsx:213 | summing the map's values is summing last fees over its keys |
| ApplicationForm.UniversityFees | components/ApplicationForm.tsx:209-213 | the total counts each distinct institution once, with the fee of its last entry |
| ApplicationForm.FindService | components/ApplicationForm.tsx:220 | `find` gives None exactly when no catalog service has the id |
| ApplicationForm.Summary | components/ApplicationForm.tsx:207-232 | nothing is rendered exactly when the total is 0; otherwise the parts are `UniversityFees` (each institution once, at its last fee), `ScholarshipFees` and `ServiceFees` of the inputs, and the total is their sum |
| ApplicationForm.ComputeScholarshipFees | components/ApplicationForm.tsx:215-217 | the loop computes `ScholarshipFees`, the sum over every selected scholarship of every entry |
| ApplicationForm.ComputeServiceFees | components/ApplicationForm.tsx:219-222 | the loop computes `ServiceFees`, the sum of the catalog costs of the chosen ids |
| ApplicationForm.ComputeUniversityFees | components/ApplicationForm.tsx:209-213 | the loop over entries and then over map values computes `UniversityFees` |
| ApplicationForm.ComputeCostSummary | components/ApplicationForm.tsx:208-232 | the loops compute exactly `Summary` |
| ApplicationForm.ExampleUniversityFees | components/ApplicationForm.tsx:209-213 | Cambridge plus two NUST programs cost 15000 + 5000: NUST is counted once |
| ApplicationForm.ExampleScholarshipFees | components/ApplicationForm.tsx:215-217 | the Dawood scholarship's fee of 1500 counts, and a missing fee counts 0 |
| ApplicationForm.ExampleSummary | components/ApplicationForm.tsx:207-232 | with the visa service the summary is 20000 + 1500 + 50000 = 71500 |
| ApplicationForm.ToggleService | components/ApplicationForm.tsx:422-428 | the id's presence flips; other ids are unchanged; an absent id is appended at the end; distinctness is kept |
| ApplicationForm.ToggleServiceTwice | components/ApplicationForm.tsx:422-428 | toggling an unchosen service twice restores the choice |
| ApplicationForm.WithoutAppended | components/ApplicationForm.tsx:425-426 | filtering out a just-appended id restores the list |
| ApplicationForm.VisaTypeChange | components/ApplicationForm.tsx:430-439 | a study or tourist visa puts `visa` in; none takes every `visa` out; other ids are unchanged; distinctness is kept |
| ApplicationForm.VisaTypeChangeAppends | components/ApplicationForm.tsx:434 | on a distinct list the set idiom only appends `visa` when it is missing |
| ApplicationForm.UpdateDocs | components/ApplicationForm.tsx:334-339 | the documents with the id are replaced by their update and all others are kept |
| ApplicationForm.AddDocument | components/ApplicationForm.tsx:320-328 | one idle document, untyped and without files, is appended and the rest is kept |
| ApplicationForm.RemoveDocument | components/ApplicationForm.tsx:330-332 | the filter drops exactly the documents with the id |
| ApplicationForm.RemoveDocumentConcat | components/ApplicationForm.tsx:330-332 | the filter distributes over concatenation, so the kept documents stay in their order |
| ApplicationForm.SetDocumentType | components/ApplicationForm.tsx:334-336 | only the type of the documents with the id changes |
| ApplicationForm.SetOtherType | components/ApplicationForm.tsx:338-340 | only the free-text type of the documents with the id changes |
| ApplicationForm.FileChange | components/ApplicationForm.tsx:381-389 | an empty selection resets the document to idle; files start an upload at 0 with the error cleared; progress stays in 0..100 |
| ApplicationForm.FindDocument | components/ApplicationForm.tsx:349 | `find` gives None exactly when no document has the id |
| ApplicationForm.Advance | components/ApplicationForm.tsx:355-356 | a tick adds 10, capped at 100 |
| ApplicationForm.Tick | components/ApplicationForm.tsx:347-378 | a tick on a missing document or on one without files stops and changes nothing; otherwise only that document's progress advances; completion happens exactly when it reaches 100 |
| ApplicationForm.AdvanceTimesAdds | components/ApplicationForm.tsx:355 | below 100, each tick adds exactly 10 |
| ApplicationForm.UploadCompletesOnTenthTick | components/ApplicationForm.tsx:355-356 | from 0, nine ticks reach 90 and the tenth completes |
| ApplicationForm.Settle | components/ApplicationForm.tsx:359-372 | success or error with the upload-failed message, at progress 100, for that document only |
| ApplicationForm.SummarizeDocument | components/ApplicationForm.tsx:407-410 | an `Other` document submits `Other: <text>`; the file name is the first file's, if any |
| ApplicationForm.ChosenServices | components/ApplicationForm.tsx:411 | exactly the catalog services whose id is chosen |
| ApplicationForm.ChosenServicesAppend | components/ApplicationForm.tsx:411 | the choice distributes over concatenation of the catalog, so the chosen services keep catalog order |
| ApplicationForm.ChosenServicesCatalogOrder | components/ApplicationForm.tsx:411 | choosing the visa service before airport pickup still yields them in catalog order |
| ApplicationForm.ChosenServicesAll | components/ApplicationForm.tsx:411 | choosing every id gives the whole catalog |
| ApplicationForm.SummarizeDocuments | components/ApplicationForm.tsx:407-410 | documents are summarised one by one, in order |
| ApplicationForm.BuildPayload | components/ApplicationForm.tsx:400-416 | the payload passes through the applicant, programs, visa, accommodation and contact fields, plus the summarised documents; the selected services are the catalog services whose id is chosen, in catalog order |
| ApplicationForm.ApplicationFormState.constructor | components/ApplicationForm.tsx:268-285 | initial fields, progress 0, confirmation closed |
| ApplicationForm.ApplicationFormState.RefreshProgress | components/ApplicationForm.tsx:287-300 | progress becomes 20 times the completed sections |
| ApplicationForm.ApplicationFormState.SetApplicant | components/ApplicationForm.tsx:276-277 | only the name and email change |
| ApplicationForm.ApplicationFormState.SetAccommodation | components/ApplicationForm.tsx:269 | only the accommodation changes |
| ApplicationForm.ApplicationFormState.SetContact | components/ApplicationForm.tsx:279-282 | only the contact fields change |
| ApplicationForm.ApplicationFormState.HandleToggleService | components/ApplicationForm.tsx:422-428 | the services become `ToggleService` of them; the visa box is unusable while a visa is required |
| ApplicationForm.ApplicationFormState.HandleVisaTypeChange | components/ApplicationForm.tsx:430-439 | the visa type is set and the services follow `VisaTypeChange` |
| ApplicationForm.ApplicationFormState.HandleAddDocument | components/ApplicationForm.tsx:320-328 | the documents become `AddDocument` of them, with the clock as the id |
| ApplicationForm.ApplicationFormState.HandleRemoveDocument | components/ApplicationForm.tsx:330-332 | the documents become `RemoveDocument` of them |
| ApplicationForm.ApplicationFormState.HandleDocumentTypeChange | components/ApplicationForm.tsx:334-336 | the documents become `SetDocumentType` of them |
| ApplicationForm.ApplicationFormState.HandleDocumentOtherTypeChange | components/ApplicationForm.tsx:338-340 | the documents become `SetOtherType` of them |
| ApplicationForm.ApplicationFormState.HandleFileChange | components/ApplicationForm.tsx:381-389 | the documents become `FileChange` of them |
| ApplicationForm.ApplicationFormState.UploadTick | components/ApplicationForm.tsx:347-378 | one interval firing: the documents and outcome are `Tick` of the old documents |
| ApplicationForm.ApplicationFormState.UploadSettle | components/ApplicationForm.tsx:359-372 | the delayed result: the documents become `Settle` of them |
| ApplicationForm.ApplicationFormState.HandleFormSubmit | components/ApplicationForm.tsx:391-398 | the confirmation opens exactly when the form is valid |
| ApplicationForm.ApplicationFormState.HandleConfirmSubmit | components/ApplicationForm.tsx:400-420 | the payload is `BuildPayload` of the fields; a success stores the id and keeps the error; a failure keeps the id and sets the error message or its fallback; the confirmation closes; the shell's other fields are unchanged |
| ApplicationForm.ApplicationFormState.ResetFormFields | components/ApplicationForm.tsx:302-313 | every field returns to its initial value |
| ApplicationForm.ApplicationFormState.HandleStartNewApplication | components/ApplicationForm.tsx:315-318 | fields reset and the id is forgotten; the selected programs remain; the shell's other fields are unchanged |
| InstitutionModal.FilteredPrograms | components/InstitutionModal.tsx:315-317 | every shown program is admitted by the type filter, and no more programs are shown than exist |
| InstitutionModal.FilteredProgramsMembers | components/InstitutionModal.tsx:315-317 | a program is shown exactly when it is one of the institution's programs and the filter admits it |
| InstitutionModal.FilteredProgramsAll | components/InstitutionModal.tsx:315-317 | with `All`, every program shows, in order |
| InstitutionModal.FilteredProgramsAppend | components/InstitutionModal.tsx:315-317 | the filter keeps catalog order |
| InstitutionModal.FindSelected | components/InstitutionModal.tsx:497-498 | a program is selected exactly when some entry has its name and this institution's name |
| InstitutionModal.DisplayedIsEffectiveCost | components/InstitutionModal.tsx:60-61 | the shown tuition and living costs are the edited cost when present, else the catalog cost |
| InstitutionModal.DisplayedAfterCostChange | components/InstitutionModal.tsx:60-61 | after a cost edit the edited field shows the new value |
| InstitutionModal.RemoveProgramName | components/InstitutionModal.tsx:323 | the filter drops exactly the programs with the name and keeps every other |
| InstitutionModal.RemoveProgramNameShrinks | components/InstitutionModal.tsx:321-323 | removing a listed name makes the list strictly shorter |
| InstitutionModal.RemoveProgramNameKeepsUnique | components/InstitutionModal.tsx:323 | removal keeps the names in the list distinct |
| InstitutionModal.RemoveProgramNameAbsent | components/InstitutionModal.tsx:323 | removing a name nobody has changes nothing |
| InstitutionModal.RemoveProgramNameConcat | components/InstitutionModal.tsx:323 | the filter keeps order: filtering a concatenation filters each part |
| InstitutionModal.ToggleCompare | components/InstitutionModal.tsx:319-331 | a listed name gives `RemoveProgramName` of the list, so the other programs stay in order; an unlisted one is appended if fewer than 3 are listed, else nothing changes; at most 3 entries and unique names are kept |
| InstitutionModal.ToggleCompareChangesIffEnabled | components/InstitutionModal.tsx:319-331 | a click changes the list exactly when the Compare button is enabled |
| InstitutionModal.ToggleCompareTwice | components/InstitutionModal.tsx:319-331 | adding a program and removing it again restores the list |
| InstitutionModal.RemoveProgramNameAppended | components/InstitutionModal.tsx:323-326 | filtering out a just-appended name restores the list |
| InstitutionModal.ProgramListItem.constructor | components/InstitutionModal.tsx:44-47 | collapsed, with the previous selection recorded |
| InstitutionModal.ProgramListItem.SelectionEffect | components/InstitutionModal.tsx:49-58 | auto-expands only on a false-to-true change of selection for a program with scholarships; always records the new value |
| InstitutionModal.ProgramListItem.ToggleExpanded | components/InstitutionModal.tsx:253 | the details panel flips |
| InstitutionModal.ProgramListItem.ToggleProgramOf | components/InstitutionModal.tsx:45-95 | the shell toggles this program under this institution's name; the shell's other fields are unchanged |
| InstitutionModal.ProgramListItem.EditCost | components/InstitutionModal.tsx:142-157 | cost inputs work only for a selected program, and apply `ChangeCost`; the shell's other fields are unchanged |
| InstitutionModal.ProgramListItem.ToggleScholarshipOf | components/InstitutionModal.tsx:202-203 | scholarship boxes work only for a selected program, and apply `ToggleScholarship`; the shell's other fields are unchanged |
| InstitutionModal.InstitutionModalState.constructor | components/InstitutionModal.tsx:307-310 | filter `All`, empty comparison, closed |
| InstitutionModal.InstitutionModalState.SetFilter | components/InstitutionModal.tsx:307 | only the filter changes |
| InstitutionModal.InstitutionModalState.HandleToggleCompare | components/InstitutionModal.tsx:319-331 | the list becomes `ToggleCompare` of it and stays within 3 unique names |
| InstitutionModal.InstitutionModalState.HandleClearCompare | components/InstitutionModal.tsx:333-335 | the comparison list becomes empty |
| InstitutionModal.InstitutionModalState.OpenComparison | components/InstitutionModal.tsx:547-548 | the comparison opens only with at least two programs |
| Programs.FilteredInstitutions | components/Programs.tsx:70-87 | an institution is listed exactly when it passes the abroad rule and all five filters |
| Programs.FilteredInstitutionsAppend | components/Programs.tsx:70 | the filter keeps catalog order |
| Programs.NoFiltersListsAll | components/Programs.tsx:70-87 | with every filter `All` and no career goal the whole catalog is listed |
| Programs.AbroadListsNoPakistan | components/Programs.tsx:77-84 | an `Abroad` goal with open region and country lists no institution located in Pakistan |
| Programs.OptionList | components/Programs.tsx:58-60 | `All` first, then the values sorted and distinct; every value appears and nothing else does |
| Programs.RegionValues | components/Programs.tsx:58 | the region of each institution |
| Programs.CountryValues | components/Programs.tsx:59 | the last `", "` segment of each location |
| Programs.ProgramTags | components/Programs.tsx:60 | every tag of every program, and only those |
| Programs.TagValues | components/Programs.tsx:60 | every tag of every institution, and only those |
| Programs.RegionsCoverCatalog | components/Programs.tsx:58 | the region options are exactly the catalog's regions |
| Programs.CountriesCoverCatalog | components/Programs.tsx:59 | the country options are exactly the catalog's countries |
| Programs.TagsCoverCatalog | components/Programs.tsx:60 | the tag options are exactly the catalog's tags |
| Programs.GoalTag | components/Programs.tsx:40-46 | Business, STEM, Sports and Arts map to themselves; anything else maps to `All` |
| Programs.ApplyGoal | components/Programs.tsx:46-54 | the tag follows the goal; `In Pakistan` gives Asia and Pakistan; any other location gives `All` and `All` |
| Programs.InPakistanListsOnlyPakistan | components/Programs.tsx:48-72 | after an `In Pakistan` goal every listed institution is in Asia and located in Pakistan |
| Programs.ProgramsFilterState.constructor | components/Programs.tsx:31-36 | all filters `All`, no institution open |
| Programs.ProgramsFilterState.ApplyCareerGoal | components/Programs.tsx:38-56 | a goal applies `ApplyGoal`; no goal changes nothing |
| Programs.ProgramsFilterState.SetRegion | components/Programs.tsx:32 | only the region changes |
| Programs.ProgramsFilterState.SetCountry | components/Programs.tsx:33 | only the country changes |
| Programs.ProgramsFilterState.SetType | components/Programs.tsx:34 | only the type changes |
| Programs.ProgramsFilterState.SetScholarshipFilter | components/Programs.tsx:35 | only the scholarship filter changes |
| Programs.ProgramsFilterState.SetTag | components/Programs.tsx:36 | only the tag changes |
| Programs.ProgramsFilterState.ViewDetails | components/Programs.tsx:62-64 | the institution is opened |
| Programs.ProgramsFilterState.CloseDetails | components/Programs.tsx:66-68 | no institution is open |
| ApplicationTracker.StatusConfig | components/ApplicationTracker.tsx:6-12 | every status has a display; green exactly for Submitted and Accepted |
| ApplicationTracker.StatusIconsDistinct | components/ApplicationTracker.tsx:6-12 | each status has its own icon |
| ApplicationTracker.StatusLabel | components/types.ts:74 | each status has a non-empty label |
| ApplicationTracker.StatusLabelsDistinct | components/types.ts:74 | different statuses have different labels |
| ApplicationTracker.CurrentStatusAfterUpdate | components/ApplicationTracker.tsx:44 | the latest appended update gives the current status |
| ApplicationTracker.Timeline | components/ApplicationTracker.tsx:123 | the timeline is the history reversed, position by position |
| ApplicationTracker.TimelineStartsWithCurrent | components/ApplicationTracker.tsx:123-125 | the first timeline item is the current status |
| ApplicationTracker.TimelineTwice | components/ApplicationTracker.tsx:123 | reversing the timeline gives the history back |
| ApplicationTracker.TimelineAfterUpdate | components/ApplicationTracker.tsx:123 | a new update goes to the top of the timeline |
| ApplicationTracker.StatusThroughProgression | components/ApplicationTracker.tsx:44-125 | a fresh application shows Submitted; after review and decision it shows the decision, with Submitted last in the timeline |
| ApplicationTracker.BlankIdNotFound | components/ApplicationTracker.tsx:22-31 | a white-space id passes the emptiness check but is then not found |
| ApplicationTracker.Tracker.constructor | components/ApplicationTracker.tsx:15-18 | empty id, nothing shown, no error, not loading |
| ApplicationTracker.Tracker.SetAppId | components/ApplicationTracker.tsx:70 | only the id changes |
| ApplicationTracker.Tracker.StartTracking | components/ApplicationTracker.tsx:20-31 | an empty id only sets the error and makes no lookup; otherwise it clears the error and the application, starts loading and looks up the trimmed id |
| ApplicationTracker.Tracker.FinishTracking | components/ApplicationTracker.tsx:31-37 | success shows the record; failure shows its message; loading ends either way |
| ApplicationTracker.Tracker.HandleTrackApplication | components/ApplicationTracker.tsx:20-38 | against the store: a stored trimmed id shows its record with no error, and an unknown one shows the not-found error and no record |
| ApplicationTracker.Tracker.TrackAnother | components/ApplicationTracker.tsx:142 | both the application and the id are reset |
| MockApi.ApplicationIdFor | api/mockApi.ts:46 | ids have the `GEV-` shape |
| MockApi.ApplicationIdInjective | api/mockApi.ts:46 | different clock values give different ids |
| MockApi.FinalUpdate | api/mockApi.ts:26-31 | the pick selects Accepted, Rejected or Action Required |
| MockApi.NewRecord | api/mockApi.ts:49-60 | a new record is the payload with its id and date, and a one-entry history that starts with Submitted |
| MockApi.Posted | api/mockApi.ts:62 | the record is stored under its id, any earlier record with that id is replaced, other records are kept, and store validity is preserved |
| MockApi.Lookup | api/mockApi.ts:72-83 | a stored id returns its record; an unknown id fails with the not-found message |
| MockApi.AppendUpdate | api/mockApi.ts:8-19 | one entry is appended to that record's history only; an unknown id is a no-op; validity is preserved |
| MockApi.PostThenLookup | api/mockApi.ts:44-83 | looking up the id a post returns gives that post's record |
| MockApi.SameClockOverwrites | api/mockApi.ts:46-62 | a second post at the same clock value replaces the first |
| MockApi.OtherClockKeepsRecord | api/mockApi.ts:46-62 | a post at another clock value leaves an earlier record alone |
| MockApi.ApplyUpdates | api/mockApi.ts:8-19 | a run of updates changes no other record and no key |
| MockApi.UpdatesExtendHistory | api/mockApi.ts:16 | updates only append: the old history is a prefix of the new one |
| MockApi.Progression | api/mockApi.ts:21-33 | post, review and decision give the history Submitted, Under Review, final |
| MockApi.ApplicationStore.constructor | api/mockApi.ts:5 | the store starts empty |
| MockApi.ApplicationStore.GetInstitutions | api/mockApi.ts:36-42 | returns the catalog unchanged |
| MockApi.ApplicationStore.PostApplication | api/mockApi.ts:44-70 | the store becomes `Posted`, and the returned id finds the new record |
| MockApi.ApplicationStore.GetApplicationById | api/mockApi.ts:72-83 | the result is `Lookup`; the store is not changed |
| MockApi.ApplicationStore.UpdateStatus | api/mockApi.ts:8-19 | the store becomes `AppendUpdate` of it |
| MockApi.ApplicationStore.ReviewTimerFires | api/mockApi.ts:21-23 | appends Under Review with its note |
| MockApi.ApplicationStore.DecisionTimerFires | api/mockApi.ts:25-33 | appends the picked final status |
| Testimonials.NextIndex | components/Testimonials.tsx:35-39 | in range, next is `(i + 1) mod n`: the last index wraps to 0 |
| Testimonials.PrevIndex | components/Testimonials.tsx:29-33 | in range, prev is `(i - 1) mod n`: 0 wraps to the last index |
| Testimonials.PrevAfterNext | components/Testimonials.tsx:29-39 | prev undoes next |
| Testimonials.NextAfterPrev | components/Testimonials.tsx:29-39 | next undoes prev |
| Testimonials.NextTimesRotates | components/Testimonials.tsx:35-39 | k presses of next move the index k places round |
| Testimonials.FullRoundReturns | components/Testimonials.tsx:35-39 | n presses of next return to the start |
| Testimonials.Carousel.constructor | components/Testimonials.tsx:27 | starts at the first slide |
| Testimonials.Carousel.PrevSlide | components/Testimonials.tsx:29-33 | the index becomes `PrevIndex` of it and stays in range |
| Testimonials.Carousel.NextSlide | components/Testimonials.tsx:35-39 | the index becomes `NextIndex` of it and stays in range |
| Testimonials.Carousel.GoToSlide | components/Testimonials.tsx:41-43 | a dot sets exactly its own index, which is in range |
| ProgramCard.AllScholarships | components/ProgramCard.tsx:17 | every scholarship of every program and only those; empty exactly when no program offers one |
| ProgramCard.AllScholarshipsAppend | components/ProgramCard.tsx:17 | the flattening keeps program order |
| ProgramCard.UniqueTags | components/ProgramCard.tsx:19-20 | each tag once, in first-occurrence order |
| ProgramCard.TopTags | components/ProgramCard.tsx:21 | the first min(3, n) unique tags |
| ProgramCard.ScholarshipSection | components/ProgramCard.tsx:54-67 | absent exactly when no program has scholarships; the first two scholarships in order are listed; "and N more" appears only above two, with N = total - 2 |
| ProgramCard.NustCardScholarships | components/ProgramCard.tsx:54-67 | the NUST card lists both of its scholarships and no "more" line |
| ProgramCard.NustCardTags | components/ProgramCard.tsx:19-21 | the NUST card shows STEM, Engineering and Technology |
| Sequences.Dedupe | components/ProgramCard.tsx:20 | `[...new Set(s)]` holds every element of `s` exactly once |
| Sequences.DedupeFirstOccurrenceOrder | components/ProgramCard.tsx:20 | a `Set` keeps first-occurrence order |
| Sequences.Without | components/ApplicationForm.tsx:425 | the filter removes every occurrence, keeps the rest and keeps distinctness |
| Sequences.WithoutConcat | components/ApplicationForm.tsx:425 | the filter keeps order: filtering a concatenation filters each part |
| Strings.TrimEmptyIffBlank | components/ApplicationForm.tsx:289 | `trim()` is empty exactly when the text is all white space |
| Strings.LastSegment | components/Programs.tsx:59 | `split(', ').pop()` is a suffix without `", "`, preceded by `", "` when shorter than the text |
| Strings.LastSegmentOfPlain | components/Programs.tsx:59 | a location without `", "` is its own country |
| Strings.NatToStringInjective | api/mockApi.ts:46 | distinct clock values render differently |
| Strings.SortStringsSorted | components/Programs.tsx:58-60 | `sort()` yields a sorted list |
| Strings.SortStringsDistinct | components/Programs.tsx:58-60 | sorting a distinct list keeps it distinct |

## Left out

- Rendering, CSS classes, icons, scrolling, focus traps and Escape handling are presentation and are not modelled. This also covers the preview modal, the comparison modal, the header, hero, footer, theme toggle, accordion, testimonial card and skeletons.
- The career-goal panel's two-field guard is not modelled; its result enters as `App.AppState.SetCareerGoal`.
- Timer scheduling is not modelled. Each interval tick, delayed settle and status timer is a step method, and their order is up to the caller. Overlapping upload intervals after re-selecting files are concurrency and are left out. So is a settle that lands on a just-cleared document.
- Randomness becomes a parameter: the upload's success and the pick of a final status.
- Clocks and timestamps are parameters: document ids, application ids and the ISO date strings.
- Floating point is not modelled. Fees are integers. The parsing of a typed fee (`parseFloat`, with 0 for text that is not a number) is not modelled: the fee enters the handlers as an integer. A negative fee passes, as it does in the source. A missing scholarship fee counts 0, as in the source. `toFixed` formatting is left out.
- Browser APIs are left out. Form validity (`checkValidity`) is a boolean parameter. The clipboard copy is left out. A `File` is its name, and an empty list stands for a missing or empty selection.
- The JSON deep copies in the store are identities on Dafny values.
- The express server duplicates the store's logic and is not part of this model.
- The catalog literal is abridged to the fixture entries used in examples.
- The modal's skeleton-loading timer and the preview-modal flag are presentation state and are left out.
- Strings.SortStrings: Dafny orders characters by code point, whereas JavaScript's `sort()` compares UTF-16 code units. The two differ only outside the Basic Multilingual Plane.
- Programs.GoalTag: goals that name inherited object properties (such as `toString`) are mapped to `All`. In the source the lookup finds the inherited property instead.
- MockApi.Progression: the bound of three history entries holds for one post and its own two timers. Two posts at the same clock value share an id, so their four timers all append to the surviving record. The timers are not scheduled in the model, so it does not bound a history's length in general.
- App.AppState.FetchInstitutions: `console.error` logging is left out.
- MockApi.Lookup: the source's store is a plain object, so an id naming an inherited property (`toString`, `constructor`, `__proto__`) is found there: the deep copy of a function throws inside the timer and the promise never settles, and `__proto__` yields an empty object. The model treats such ids as absent and returns the not-found error.
- MockApi.ApplicationStore.GetApplicationById: inherits the gap of `MockApi.Lookup` for inherited property names.
- ApplicationTracker.Tracker.HandleTrackApplication: for an id naming an inherited property the source stays loading or throws when it reads the record's history; the model shows the not-found error.

