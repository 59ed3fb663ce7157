# Laboratories and materials front end, modelled in Dafny

This project models the rule-bearing logic of a React front end for booking laboratories and their materials. The logic comes from three places:

- the public booking page (`LaboratoryReservation.tsx`), which computes a duration and a price;
- the administration pages (`LaboratoriesManagement.tsx`, `LaboratoryDetail.tsx`), which handle selection, form validation, prefill and reset, and the state of the delete dialogs;
- the home page carousels and news block, the filter bar, the material card, and the decisions inside the HTTP service (`laboratory.service.ts`).

The model follows the source's structure:

- **Component state** becomes a Dafny class. Its methods update the fields that the source's handlers set, and each method's `modifies` clause names exactly those fields. The classes are `Reservation.ReservationPage`, `LabManagement.LaboratoriesPage`, `LabDetail.LaboratoryDetailPage` and `Carousel.Carousel`.
- **Pure expressions** (filters, folds, `switch` mappings, `??` records) become functions. Folds, filters, sorts, paths and serialisations are paired with a reference definition, an inverse or a preserved property, and lemmas connect the two. Case mappings (labels, colours, icons, slide counts, the excerpt) state each case directly in their `ensures`.
- **Loops** stay loops: the `getAll` parameter appends, the `FormData` `forEach`, the error-message reassignments and the carousel's `push` loop are methods proved against the function that specifies them.

Other modelling choices:

- Money is an exact `real`, and times of day are minutes as `int`.
- Identifiers and text are `string`.
- JavaScript truthiness, `??`, `trim` and `includes` are spelled out in `Prelude`.
- Browser and network effects become parameters: the token, the parsed error body, the confirm answer, the viewport width, the parsed number of an input, and whether the server call failed.

Modules, one per source file:

| module | file | models |
|---|---|---|
| `Prelude` | (shared) | Option, Result, JavaScript truthiness, `trim`, `includes`, `filter` |
| `Types` | `types/laboratory.ts` | Laboratory, Material, LaboratoryFilters, the two form records |
| `Selection` | shared by the two toggles | the id toggle of a multi-selection |
| `Reservation` | `lab40/LaboratoryReservation.tsx` | duration, cost, breakdown, offered and priced materials, request, page state |
| `LaboratoryService` | `services/laboratory.service.ts` | list query, multipart body, token check, error message, feature status, bulk delete |
| `LabManagement` | `pages/LaboratoriesManagement.tsx` | validation, prefill, failure classification, reservation status mappings, select-all, page state |
| `LabDetail` | `pages/LaboratoryDetail.tsx` | material payload, prefill, page state |
| `LabFilters` | `components/LaboratoryFilters.tsx` | active filters, updates, selection panel labels |
| `MaterialCard` | `components/MaterialCard.tsx` | status badge, image, price line, guarded delete |
| `Carousel` | shared by the two carousels | modular navigation and the visible window |
| `Partners`, `Testimonials` | `home/components/PartnersSection.tsx`, `TestimonialsSection.tsx` | slide counts per width |
| `News` | `home/components/NewsSection.tsx` | newest three blogs, excerpt, category colour |

## Model

| member | source | states |
|---|---|---|
| Reservation.FormatClock | src/features/public/lab40/LaboratoryReservation.tsx:174-175 | a time of day formats as a well-formed "HH:MM" string |
| Reservation.ParseFormat | src/features/public/lab40/LaboratoryReservation.tsx:174-175 | reading back a formatted time gives its hours and minutes |
| Reservation.FormatParse | src/features/public/lab40/LaboratoryReservation.tsx:174-175 | every well-formed "HH:MM" string is the formatting of the hours and minutes it reads as |
| Reservation.Hours | src/features/public/lab40/LaboratoryReservation.tsx:171-184 | the duration is never negative and is 0 when either time is empty; with both times set it is the elapsed minutes over 60 when the end is not before the start, and 0 when the end is before the start (no overnight wrap) |
| Reservation.HoursOfTimesOfDay | src/features/public/lab40/LaboratoryReservation.tsx:174-183 | for two times of day the duration is ((eh*60+em) - (sh*60+sm)) / 60 when the end is not earlier, else 0 |
| Reservation.HoursExamples | src/features/public/lab40/LaboratoryReservation.tsx:171-184 | 09:00 to 11:30 is 2.5 hours; equal times, an end before the start, and an empty time give 0 |
| Reservation.MaterialsCost | src/features/public/lab40/LaboratoryReservation.tsx:196-201 | the `reduce` of `calculateTotalCost`, a left fold that adds `hourlyRate * hours` for each billable material; `MaterialsCostIsRateSum` proves it equals the duration times the rate sum |
| Reservation.MaterialsCostIsRateSum | src/features/public/lab40/LaboratoryReservation.tsx:196-201 | the `reduce` fold over the selected materials equals the duration times the sum of their billable rates |
| Reservation.RateSumRemove | src/features/public/lab40/LaboratoryReservation.tsx:196-201 | taking one material out of a selection takes exactly its billable rate out of the sum |
| Reservation.RateSumPermutation | src/features/public/lab40/LaboratoryReservation.tsx:196-201 | two selections holding the same materials (as multisets) have the same rate sum |
| Reservation.TotalCost | src/features/public/lab40/LaboratoryReservation.tsx:189-205 | the total is 0 when the duration is not positive, otherwise the duration times the laboratory rate plus the billable rates of the selected materials |
| Reservation.TotalCostPermutation | src/features/public/lab40/LaboratoryReservation.tsx:193-204 | reordering the selected materials does not change the total |
| Reservation.FreeMaterialCostsNothing | src/features/public/lab40/LaboratoryReservation.tsx:197-200 | inserting a free material anywhere in the selection leaves the total unchanged, whatever its rate |
| Reservation.FreeMaterialAddsNoRate | src/features/public/lab40/LaboratoryReservation.tsx:197-200 | a free material inserted anywhere leaves the sum of billable rates unchanged |
| Reservation.NoMaterialsCost | src/features/public/lab40/LaboratoryReservation.tsx:189-205 | with no material selected, the total is the laboratory rate times the duration |
| Reservation.RateSumNonNegative | src/features/public/lab40/LaboratoryReservation.tsx:196-201 | with non-negative material rates the rate sum is non-negative |
| Reservation.TotalCostNonNegative | src/features/public/lab40/LaboratoryReservation.tsx:189-205 | with non-negative rates the total is never negative |
| Reservation.BreakdownLines | src/features/public/lab40/LaboratoryReservation.tsx:620-633 | the material lines of the summary, one per material that is not free; `BreakdownMatchesFold` proves they add up to the `reduce` |
| Reservation.LineIsBilledCost | src/features/public/lab40/LaboratoryReservation.tsx:620-622 | a material's summary line shows what the cost fold adds for it: its rate for the duration when billed, nothing or 0 otherwise |
| Reservation.BreakdownLinesSnoc | src/features/public/lab40/LaboratoryReservation.tsx:620-633 | summary lines follow the selection order: a material added last adds its line last |
| Reservation.BreakdownMatchesFold | src/features/public/lab40/LaboratoryReservation.tsx:620-633 | the material lines of the summary add up to the `reduce` of the cost computation |
| Reservation.BreakdownIsRateSum | src/features/public/lab40/LaboratoryReservation.tsx:621-622 | the material lines of the summary add up to the duration times the rate sum |
| Reservation.BreakdownSumsToTotal | src/features/public/lab40/LaboratoryReservation.tsx:615-646 | under a positive duration, the laboratory line plus the material lines equals the displayed total |
| Reservation.AvailableMaterials | src/features/public/lab40/LaboratoryReservation.tsx:56 | a fetched material is offered exactly when its status is `available`, and then as many times as it was fetched |
| Reservation.AvailableKeepsOrder | src/features/public/lab40/LaboratoryReservation.tsx:56 | the offered materials keep the fetched order: offering two runs of materials offers those of the first, then those of the second |
| Reservation.PricedMaterials | src/features/public/lab40/LaboratoryReservation.tsx:168 | a material is priced exactly when it is offered and its id is selected, and then as many times as it is offered, so a material listed twice is charged twice |
| Reservation.PricedKeepsOrder | src/features/public/lab40/LaboratoryReservation.tsx:168 | the priced materials keep the offered order |
| Reservation.With | src/features/public/lab40/LaboratoryReservation.tsx:395-453 | the `setFormData({ ...formData, field: value })` spread of one input; `GetWith` proves it sets that field and keeps every other |
| Reservation.GetWith | src/features/public/lab40/LaboratoryReservation.tsx:25-33 | editing one booking-form input sets that field and leaves every other field unchanged |
| Reservation.RequestOf | src/features/public/lab40/LaboratoryReservation.tsx:93-102 | the request carries the selected ids unchanged and the form fields copied; empty notes become absent |
| Reservation.ReservationPage.constructor | src/features/public/lab40/LaboratoryReservation.tsx:25-33 | the page starts with the empty form, an empty selection and no laboratory |
| Reservation.ReservationPage.Loaded | src/features/public/lab40/LaboratoryReservation.tsx:55-56 | a load stores the laboratory and offers only the available materials |
| Reservation.ReservationPage.ToggleMaterial | src/features/public/lab40/LaboratoryReservation.tsx:77-83 | the selection becomes its toggle: the id flips membership and no other id changes |
| Reservation.ReservationPage.Edit | src/features/public/lab40/LaboratoryReservation.tsx:25-33 | one form field is replaced, and the page stays valid when time fields receive "" or "HH:MM" |
| Reservation.ReservationPage.CurrentTotal | src/features/public/lab40/LaboratoryReservation.tsx:207 | the total shown is 0 while either time is empty |
| Reservation.ReservationPage.SelectedMaterialsData | src/features/public/lab40/LaboratoryReservation.tsx:168 | a material is priced exactly when it is offered and its id is selected, never more often than it is offered; `PricedKeepsOrder` gives the offered order |
| Reservation.ReservationPage.CurrentHours | src/features/public/lab40/LaboratoryReservation.tsx:171-186 | the page's duration is never negative and is 0 while either time is empty; `Hours` gives its value |
| Reservation.ReservationPage.Submit | src/features/public/lab40/LaboratoryReservation.tsx:85-102 | a request is built exactly when a laboratory is loaded and the route id is non-empty, and it is the form's request for the current selection |
| Reservation.PricedAreAvailable | src/features/public/lab40/LaboratoryReservation.tsx:56-168 | every priced material of a valid page is available |
| Reservation.PricingScenario | src/features/public/lab40/LaboratoryReservation.tsx:189-205 | a laboratory at 50 per hour booked from 09:00 to 12:00 with a paid and a free material costs 180, and its summary lines add up to 180 |
| Selection.Without | src/features/public/lab40/LaboratoryReservation.tsx:80 | `filter(id => id !== x)`: the result has the multiplicities of the input with x removed |
| Selection.WithoutMembership | src/features/admin/laboratories/pages/LaboratoriesManagement.tsx:282 | filtering x out removes x and keeps every other id |
| Selection.WithoutNoDup | src/features/admin/laboratories/pages/LaboratoriesManagement.tsx:282 | filtering keeps a duplicate-free selection duplicate-free |
| Selection.Toggle | src/features/public/lab40/LaboratoryReservation.tsx:77-83 | the toggle of `handleMaterialToggle` and `handleSelectLaboratory` (LaboratoriesManagement.tsx:279-285): the id's membership flips and every other id's is kept |
| Selection.ToggleMembership | src/features/admin/laboratories/pages/LaboratoriesManagement.tsx:279-285 | toggling flips the membership of the id, leaves every other id as it was, and keeps the selection duplicate-free |
| Selection.ToggleShape | src/features/public/lab40/LaboratoryReservation.tsx:77-83 | an absent id is appended after the others in their order; a present id has every occurrence removed |
| Selection.ToggleTwiceAbsent | src/features/public/lab40/LaboratoryReservation.tsx:77-83 | toggling an absent id twice restores the selection exactly |
| Selection.ToggleTwicePresent | src/features/public/lab40/LaboratoryReservation.tsx:77-83 | toggling a present id twice in a duplicate-free selection moves it to the end: same ids, still duplicate-free |
| Types.FirstImage | src/features/admin/laboratories/pages/LaboratoryDetail.tsx:148 | `files[0]`: no image exactly when no file is chosen, else the first file |
| Types.LabIds | src/features/admin/laboratories/pages/LaboratoriesManagement.tsx:290 | `labs.map(l => l._id)`: one id per laboratory, in list order |
| Prelude.Trim | src/features/admin/laboratories/pages/LaboratoriesManagement.tsx:232 | JavaScript `trim`: no leading or trailing whitespace, no longer than the input, and empty exactly when the input is all whitespace |
| Prelude.TrimIsSlice | src/features/admin/laboratories/pages/LaboratoriesManagement.tsx:232 | the trimmed title is a slice `s[i..j]` of the typed title with only whitespace before `i` and after `j`: trimming cuts whitespace from the two ends and nothing else |
| Prelude.TrimUntouched | src/features/admin/laboratories/pages/LaboratoriesManagement.tsx:232 | a string that neither starts nor ends with whitespace is its own trim |
| Prelude.TrimIdempotent | src/features/admin/laboratories/pages/LaboratoriesManagement.tsx:232 | trimming twice is trimming once |
| Prelude.Contains | src/features/admin/laboratories/pages/LaboratoriesManagement.tsx:251-254 | `includes`: the substring occurs at some position |
| Prelude.Filter | src/features/public/lab40/LaboratoryReservation.tsx:56 | `filter`: an element is kept exactly when it is in the input and passes the test, and the result is never longer than the input |
| Prelude.FilterCounts | src/features/public/lab40/LaboratoryReservation.tsx:56 | an element that passes the test is kept as often as it occurs in the input, any other is dropped |
| Prelude.FilterAppend | src/features/public/lab40/LaboratoryReservation.tsx:56 | `filter` keeps the input order: the filter of two runs is that of the first followed by that of the second |
| LaboratoryService.Keys | src/features/admin/laboratories/services/laboratory.service.ts:19-21 | the parameter names of a query, in order |
| LaboratoryService.ActiveKeys | src/features/admin/laboratories/services/laboratory.service.ts:19-21 | the criteria the list query carries; `ActiveKeysExpanded` and `ActiveKeysShape` prove each is present exactly when truthy, in the order search, minRate, maxRate |
| LaboratoryService.ActiveKeysExpanded | src/features/admin/laboratories/services/laboratory.service.ts:19-21 | the active criteria are search, minRate and maxRate in that order, each present exactly when truthy |
| LaboratoryService.BuildQuery | src/features/admin/laboratories/services/laboratory.service.ts:16-21 | the appended parameters are exactly the active criteria in order, each with its filter value |
| LaboratoryService.ZeroRateOmitted | src/features/admin/laboratories/services/laboratory.service.ts:20 | a minimum rate of 0 is left out of the query like an absent one |
| LaboratoryService.ActiveKeysShape | src/features/admin/laboratories/services/laboratory.service.ts:19-21 | a criterion is in the query exactly when it is truthy; no criterion twice, at most three, none without filters |
| LaboratoryService.BuildFormData | src/features/admin/laboratories/services/laboratory.service.ts:49-60 | the `forEach` loop builds the image part first, when there is one, then one field part per defined entry in key order |
| LaboratoryService.FieldParts | src/features/admin/laboratories/services/laboratory.service.ts:55-60 | one field part per entry with a value, in entry order; `FieldPartsMembership` and `FieldPartsAppend` prove that |
| LaboratoryService.Multipart | src/features/admin/laboratories/services/laboratory.service.ts:47-60 | the image part first when an image is given, then the field parts; `MultipartShape` proves it |
| LaboratoryService.FieldPartsMembership | src/features/admin/laboratories/services/laboratory.service.ts:55-60 | a field part appears exactly when some entry has that key and a value; there are no more parts than entries |
| LaboratoryService.MultipartShape | src/features/admin/laboratories/services/laboratory.service.ts:49-60 | the image, when given, is the first and only image part; every defined entry leaves its part and every part comes from a defined entry |
| LaboratoryService.AbsentKeyLeavesNoPart | src/features/admin/laboratories/services/laboratory.service.ts:57 | an entry that is undefined or null leaves no part in the body |
| LaboratoryService.FieldPartsAppend | src/features/admin/laboratories/services/laboratory.service.ts:55-60 | fields keep the relative order of their entries: the parts of two runs of entries are those of the first, then those of the second |
| LaboratoryService.PrepareUpload | src/features/admin/laboratories/services/laboratory.service.ts:42-45 | without a non-empty token the upload fails with "Authentication required. Please login first." and nothing is sent; with one, the request has the target's verb and path, the bearer token and the multipart body |
| LaboratoryService.ErrorMessage | src/features/admin/laboratories/services/laboratory.service.ts:71-80 | the message is the JSON `message`, else `error`, else "API Error: <statusText>"; for a body that is not JSON it is the raw text, else that default; it is never empty |
| LaboratoryService.Coalesce | src/features/admin/laboratories/services/laboratory.service.ts:345-346 | `a ?? b` gives `b` only when `a` is absent |
| LaboratoryService.NormaliseFeatureStatus | src/features/admin/laboratories/services/laboratory.service.ts:330-357 | a failed request gives everything enabled; otherwise the legacy fields win when present and the public ones fill in, the other fields are copied |
| LaboratoryService.LegacyFieldsOverride | src/features/admin/laboratories/services/laboratory.service.ts:345-346 | a legacy `false` disables the feature even when the public flag is true; without a legacy flag the public one decides |
| LaboratoryService.DeletePathInjective | src/features/admin/laboratories/services/laboratory.service.ts:140 | two ids share a delete path only when they are equal |
| LaboratoryService.DeletePath | src/features/admin/laboratories/services/laboratory.service.ts:139-141 | the delete path is "/laboratories/" followed by the id itself, so the id can be read back; `DeletePathInjective` proves distinct ids give distinct paths |
| LaboratoryService.BulkDeleteRequests | src/features/admin/laboratories/services/laboratory.service.ts:144-146 | one delete request per id, in list order |
| LaboratoryService.BulkDeleteExactlyOnce | src/features/admin/laboratories/services/laboratory.service.ts:145 | a laboratory is deleted exactly when its id is in the list, and a duplicate-free list gives duplicate-free requests |
| LabManagement.ValidateLaboratoryForm | src/features/admin/laboratories/pages/LaboratoriesManagement.tsx:220-236 | an empty or whitespace-only title is rejected first, then a rate that is not positive; otherwise the payload has the trimmed, non-empty title and the other fields copied |
| LabManagement.PrefillForm | src/features/admin/laboratories/pages/LaboratoriesManagement.tsx:181-191 | editing copies the title and rate, and shows a missing description or image URL as '' |
| LabManagement.PrefillRoundTrip | src/features/admin/laboratories/pages/LaboratoriesManagement.tsx:181-236 | saving an unedited well-formed laboratory sends its own fields back |
| LabManagement.EmptyFormRejected | src/features/admin/laboratories/pages/LaboratoriesManagement.tsx:56-61 | the form of a new laboratory is rejected for its missing title |
| LabManagement.IsAuthError | src/features/admin/laboratories/pages/LaboratoriesManagement.tsx:251-254 | a message is an authentication failure exactly when it includes one of the four markers; `FailureOutcome` proves such a message, and only such a one, logs out |
| LabManagement.FailureOutcome | src/features/admin/laboratories/pages/LaboratoriesManagement.tsx:246-262 | a failed save logs out with the session alert exactly when the message names an authentication error, and otherwise alerts the message |
| LabManagement.MissingTokenLogsOut | src/features/admin/laboratories/pages/LaboratoriesManagement.tsx:251-259 | the service's missing-token error ends the session |
| LabManagement.OfferedTargets | src/features/admin/laboratories/pages/LaboratoriesManagement.tsx:538-576 | the offered target statuses are exactly confirmed, cancelled and pending other than the current one, each once; completed is never offered |
| LabManagement.ReservationStatusColor | src/features/admin/laboratories/pages/LaboratoriesManagement.tsx:18-23 | the four known statuses have their colour and any other status the pending colour |
| LabManagement.ReservationStatusLabel | src/features/admin/laboratories/pages/LaboratoriesManagement.tsx:25-30 | the four known statuses have their French label and any other status shows itself |
| LabManagement.UnknownStatusDisplay | src/features/admin/laboratories/pages/LaboratoriesManagement.tsx:517-519 | an unknown status looks pending, keeps its own name and is offered all three targets |
| LabManagement.SelectAllAsWritten | src/features/admin/laboratories/pages/LaboratoriesManagement.tsx:287-293 | `handleSelectAll` as written: the result is empty exactly when the lengths match or nothing is listed; whenever the lengths differ it is exactly the listed ids in list order; duplicate-free when the listed ids are |
| LabManagement.SelectAllAsWrittenClearsPartialSelection | src/features/admin/laboratories/pages/LaboratoriesManagement.tsx:287-293 | as written, a selection holding one listed and one stale id of a two-laboratory list is cleared instead of completed |
| LabManagement.SelectAll | src/features/admin/laboratories/pages/LaboratoriesManagement.tsx:287-293 | as intended: when every listed laboratory is selected the selection is cleared, otherwise it becomes the listed ids in order, all of them selected |
| LabManagement.SelectAllAgreesWithoutStaleIds | src/features/admin/laboratories/pages/LaboratoriesManagement.tsx:287-293 | with a duplicate-free selection of listed ids only, the code as written and the intended select-all agree |
| LabManagement.LaboratoriesPage.constructor | src/features/admin/laboratories/pages/LaboratoriesManagement.tsx:56-61 | the page starts with no laboratories, an empty selection, the empty form and both dialogs closed |
| LabManagement.LaboratoriesPage.Loaded | src/features/admin/laboratories/pages/LaboratoriesManagement.tsx:92-95 | a list load replaces the laboratories and nothing else |
| LabManagement.LaboratoriesPage.SelectLaboratory | src/features/admin/laboratories/pages/LaboratoriesManagement.tsx:279-285 | the selection becomes its toggle and stays duplicate-free |
| LabManagement.LaboratoriesPage.SelectAllLaboratories | src/features/admin/laboratories/pages/LaboratoriesManagement.tsx:287-293 | the selection becomes select-all as written: cleared when its length equals the list's, otherwise exactly the listed ids in list order; duplicate-free when the listed ids are; equal to the intended select-all while the selection holds only listed ids, each once |
| LabManagement.LaboratoriesPage.ClearSelection | src/features/admin/laboratories/pages/LaboratoriesManagement.tsx:305-307 | the selection becomes empty |
| LabManagement.LaboratoriesPage.BulkDelete | src/features/admin/laboratories/pages/LaboratoriesManagement.tsx:295-303 | one delete per selected id; after success the selection is empty, after a failure it is kept; a duplicate-free selection stays so |
| LabManagement.LaboratoriesPage.CreateLaboratory | src/features/admin/laboratories/pages/LaboratoriesManagement.tsx:169-179 | the form is reset to the empty form with no image and shown, with nothing being edited |
| LabManagement.LaboratoriesPage.EditLaboratory | src/features/admin/laboratories/pages/LaboratoriesManagement.tsx:181-191 | the laboratory is being edited, the form is its prefill, the images are cleared and the form is shown |
| LabManagement.LaboratoriesPage.Cancel | src/features/admin/laboratories/pages/LaboratoriesManagement.tsx:266-276 | the form is hidden and reset to the empty form with no image, with nothing being edited |
| LabManagement.LaboratoriesPage.ChooseImages | src/features/admin/laboratories/pages/LaboratoriesManagement.tsx:238-242 | the chosen files replace the images |
| LabManagement.LaboratoriesPage.Submit | src/features/admin/laboratories/pages/LaboratoriesManagement.tsx:216-264 | a form that fails validation alerts and sends nothing; a valid one goes through the token check and the upload, a success hides the form, and a failure gives the classified outcome |
| LabManagement.PayloadEntries | src/features/admin/laboratories/pages/LaboratoriesManagement.tsx:228-236 | the multipart entries of a laboratory: title, description, imageUrl and hourlyRate in that order, each with a value, carrying the trimmed title and the rate |
| LabManagement.LaboratoriesPage.DeleteLaboratory | src/features/admin/laboratories/pages/LaboratoriesManagement.tsx:193-196 | the dialog opens on that laboratory |
| LabManagement.LaboratoriesPage.ConfirmDelete | src/features/admin/laboratories/pages/LaboratoriesManagement.tsx:198-209 | a delete request exactly for a non-empty target; the dialog closes and the target is dropped whatever happens |
| LabManagement.ReservationDeletePath | src/features/admin/laboratories/services/laboratory.service.ts:325-326 | a reservation delete goes to "/laboratories/reservations/" followed by the reservation id itself; `ConfirmDeleteReservation` sends it for the dialog's target |
| LabManagement.LaboratoriesPage.CancelDelete | src/features/admin/laboratories/pages/LaboratoriesManagement.tsx:211-214 | the dialog closes and the target is dropped |
| LabManagement.LaboratoriesPage.DeleteReservation | src/features/admin/laboratories/pages/LaboratoriesManagement.tsx:143-146 | the reservation dialog opens on that reservation |
| LabManagement.LaboratoriesPage.ConfirmDeleteReservation | src/features/admin/laboratories/pages/LaboratoriesManagement.tsx:148-161 | a reservation delete request exactly for a non-empty target; the dialog closes and the target is dropped whatever happens |
| LabManagement.LaboratoriesPage.CancelDeleteReservation | src/features/admin/laboratories/pages/LaboratoriesManagement.tsx:163-166 | the reservation dialog closes and the target is dropped |
| LabDetail.MaterialPayloadOf | src/features/admin/laboratories/pages/LaboratoryDetail.tsx:138-146 | the material sent has no hourly rate exactly when it is free, the form rate otherwise, the route id as laboratory, and the other form fields |
| LabDetail.FreeMaterialSendsNoRate | src/features/admin/laboratories/pages/LaboratoryDetail.tsx:138-154 | the multipart body of a free material has no hourlyRate field; that of a paid one carries the form rate |
| LabDetail.PrefillMaterialForm | src/features/admin/laboratories/pages/LaboratoryDetail.tsx:101-113 | editing copies the material's fields, with a missing description as '' and a missing or zero rate as 0 |
| LabDetail.PrefillPayloadRoundTrip | src/features/admin/laboratories/pages/LaboratoryDetail.tsx:101-146 | saving an unedited material sends its fields back, its rate (or 0) when paid and none when free |
| LabDetail.LaboratoryDetailPage.constructor | src/features/admin/laboratories/pages/LaboratoryDetail.tsx:25-32 | the page starts with the default material form, no image, no material being edited and the dialogs closed |
| LabDetail.LaboratoryDetailPage.MaterialsLoaded | src/features/admin/laboratories/pages/LaboratoryDetail.tsx:58-61 | a load of the materials replaces them and nothing else |
| LabDetail.LaboratoryDetailPage.CreateMaterial | src/features/admin/laboratories/pages/LaboratoryDetail.tsx:87-99 | the form is reset to the default material form with no image and shown, with nothing being edited |
| LabDetail.LaboratoryDetailPage.EditMaterial | src/features/admin/laboratories/pages/LaboratoryDetail.tsx:101-113 | the material is being edited, the form is its prefill, the images are cleared and the form is shown |
| LabDetail.LaboratoryDetailPage.EditForm | src/features/admin/laboratories/pages/LaboratoryDetail.tsx:133-148 | the form inputs and chosen files replace the current ones |
| LabDetail.LaboratoryDetailPage.CancelMaterial | src/features/admin/laboratories/pages/LaboratoryDetail.tsx:165-177 | the form is hidden and reset to the default material form with no image, with nothing being edited |
| LabDetail.LaboratoryDetailPage.SubmitMaterial | src/features/admin/laboratories/pages/LaboratoryDetail.tsx:133-163 | nothing is sent without a route id or a token; otherwise the create or update request for the first chosen image and the payload is sent, and only a success hides the form, drops the edited material and clears the images |
| LabDetail.MaterialEntries | src/features/admin/laboratories/pages/LaboratoryDetail.tsx:138-146 | the multipart entries of a material: name, description, type, hourlyRate, isFree, status and laboratoryId in that order; only hourlyRate may lack a value, exactly when the payload has no rate, and otherwise it carries that rate |
| LabDetail.LaboratoryDetailPage.DeleteMaterial | src/features/admin/laboratories/pages/LaboratoryDetail.tsx:115-118 | the dialog opens on that material |
| LabDetail.LaboratoryDetailPage.ConfirmDeleteMaterial | src/features/admin/laboratories/pages/LaboratoryDetail.tsx:120-131 | a delete request exactly when the target and the route id are non-empty; the dialog closes and the target is dropped whatever happens |
| LabDetail.MaterialDeletePath | src/features/admin/laboratories/services/laboratory.service.ts:270-272 | a material delete goes to "/laboratories/", the laboratory id, "/materials/", then the material id itself; `ConfirmDeleteMaterial` sends it for the route id and the dialog's target |
| LabDetail.LaboratoryDetailPage.DismissMaterialDelete | src/features/admin/laboratories/pages/LaboratoryDetail.tsx:364 | the dialog's cancel button hides the dialog |
| LabFilters.HasActiveFilters | src/features/admin/laboratories/components/LaboratoryFilters.tsx:19 | a truthy search, minimum or maximum; `ActiveFiltersMatchQuery` proves it holds exactly when the list request carries a parameter |
| LabFilters.ActiveFiltersMatchQuery | src/features/admin/laboratories/components/LaboratoryFilters.tsx:19 | filters are active exactly when the list request carries a parameter, and a chip is shown exactly for each criterion it carries |
| LabFilters.ChipShown | src/features/admin/laboratories/components/LaboratoryFilters.tsx:111-139 | a chip per truthy criterion; a shown chip means the filters are active, and `ActiveFiltersMatchQuery` proves a chip is shown exactly for each criterion the list request carries |
| LabFilters.ClearFilters | src/features/admin/laboratories/components/LaboratoryFilters.tsx:15-17 | the empty filter record, with no filter active |
| LabFilters.SetSearch | src/features/admin/laboratories/components/LaboratoryFilters.tsx:62 | editing search replaces `search` only; the filters are then active exactly when the text is non-empty or a truthy rate remains |
| LabFilters.RateOfInput | src/features/admin/laboratories/components/LaboratoryFilters.tsx:77-80 | an empty input gives no rate, any other the parsed number |
| LabFilters.SetMinRate | src/features/admin/laboratories/components/LaboratoryFilters.tsx:77-80 | editing the minimum replaces `minRate` only |
| LabFilters.SetMaxRate | src/features/admin/laboratories/components/LaboratoryFilters.tsx:95-98 | editing the maximum replaces `maxRate` only |
| LabFilters.EmptyInputsDeactivate | src/features/admin/laboratories/components/LaboratoryFilters.tsx:15-98 | emptying every input deactivates the filters, and the request then carries no parameter, as after clearing them |
| LabFilters.SelectAllLabelOf | src/features/admin/laboratories/components/LaboratoryFilters.tsx:162-168 | the button reads "Désélectionner tout" exactly when the selection count equals the laboratory count |
| LabFilters.LabelText | src/features/admin/laboratories/components/LaboratoryFilters.tsx:166-168 | the two texts of the select-all button, chosen by `SelectAllLabelOf` |
| LabFilters.ShowSelectionPanel | src/features/admin/laboratories/components/LaboratoryFilters.tsx:144 | the selection panel shows when laboratories are listed and select-all is offered |
| LabFilters.SelectionBadge | src/features/admin/laboratories/components/LaboratoryFilters.tsx:172-179 | the badge is shown exactly when something is selected; it carries the selection count, and "sélectionné" takes an s exactly when more than one is selected |
| LabFilters.BadgeText | src/features/admin/laboratories/components/LaboratoryFilters.tsx:179 | the badge reads the decimal count, a space, then the word |
| LabFilters.DecimalValue | src/features/admin/laboratories/components/LaboratoryFilters.tsx:179 | the count's decimal digits read back as the count |
| LabFilters.Decimal | src/features/admin/laboratories/components/LaboratoryFilters.tsx:179 | the count printed as decimal digits, at least one, with no leading zero except for 0 itself; `DecimalValue` proves the digits read back as the count |
| Carousel.Next | src/features/public/home/components/PartnersSection.tsx:64-66 | the intended `goNext` of the Findings row: for n > 0 the next index, in [0, n); with no item the index stays |
| Carousel.Prev | src/features/public/home/components/PartnersSection.tsx:59-63 | the intended `goPrev` of the Findings row: for n > 0 the previous index, in [0, n); with no item the index stays |
| Carousel.PrevNextInverse | src/features/public/home/components/PartnersSection.tsx:59-66 | for an index i < n, prev after next and next after prev return exactly to i (the same code is at TestimonialsSection.tsx:39-46) |
| Carousel.NextTimesIsAddition | src/features/public/home/components/PartnersSection.tsx:64-66 | k presses of next advance an index in range by k modulo n |
| Carousel.FullTurn | src/features/public/home/components/PartnersSection.tsx:65 | n presses of next return to the starting index (the same code is at TestimonialsSection.tsx:45) |
| Carousel.VisibleCount | src/features/public/home/components/PartnersSection.tsx:54 | the window holds min(slidesToShow, n) items, so an empty list shows none |
| Carousel.Window | src/features/public/home/components/PartnersSection.tsx:53-56 | the window has min(slidesToShow, n) positions |
| Carousel.WindowPositionsDistinct | src/features/public/home/components/PartnersSection.tsx:54-55 | no two positions of the window show the same index of the list |
| Carousel.WindowAfterNext | src/features/public/home/components/PartnersSection.tsx:64-66 | after next, the window is the previous one shifted by one position |
| Carousel.Carousel.constructor | src/features/public/home/components/PartnersSection.tsx:30-31 | the index starts at the number 0 and the slide count is the one given for the width |
| Carousel.Carousel.SetItems | src/features/public/home/components/PartnersSection.tsx:26-29 | new items replace the list; the index is kept |
| Carousel.Carousel.Resize | src/features/public/home/components/PartnersSection.tsx:35-39 | a resize sets the slide count |
| Carousel.Carousel.GoNext | src/features/public/home/components/PartnersSection.tsx:64-66 | the index becomes `(prev + 1) % length` as written: NaN on an empty list or from NaN, otherwise the intended next index, in range (the same code is at TestimonialsSection.tsx:44-46) |
| Carousel.Carousel.GoPrev | src/features/public/home/components/PartnersSection.tsx:59-63 | the index becomes `(prev - 1 + length) % length` as written: NaN on an empty list or from NaN, otherwise the intended previous index, in range (the same code is at TestimonialsSection.tsx:39-43) |
| Carousel.Carousel.VisibleItems | src/features/public/home/components/PartnersSection.tsx:53-56 | the loop builds min(slidesToShow, n) slots; with a numeric index slot k is position k of the window, `items[(current + k) mod n]`; with a NaN index every slot is undefined (the same code is at TestimonialsSection.tsx:33-36) |
| Carousel.NextAsWritten | src/features/public/home/components/PartnersSection.tsx:64-66 | `(prev + 1) % length` over JavaScript numbers: NaN exactly from NaN or on an empty list, otherwise the intended next index |
| Carousel.PrevAsWritten | src/features/public/home/components/PartnersSection.tsx:59-63 | `(prev - 1 + length) % length`: NaN exactly from NaN or on an empty list, otherwise the intended previous index |
| Carousel.ElementAsWritten | src/features/public/home/components/PartnersSection.tsx:55 | `items[(current + k) % length]` is undefined exactly for a NaN index or an empty list, otherwise an item of the list |
| Carousel.ElementIsWindowSlot | src/features/public/home/components/PartnersSection.tsx:53-56 | with a numeric index, what the loop pushes at slot k is position k of the window |
| Carousel.AsWrittenAgreesWithItems | src/features/public/home/components/PartnersSection.tsx:59-66 | with items, the code as written and the intended navigation agree |
| Carousel.EmptyListPoisonsIndex | src/features/public/home/components/PartnersSection.tsx:59-66 | as written, a press on an empty list makes the index NaN, which stays NaN once items arrive and makes every window slot undefined |
| Carousel.IntendedNavigationStaysDefined | src/features/public/home/components/PartnersSection.tsx:53-66 | as intended, a press on an empty list keeps index 0 and the first window after loading starts at the first item |
| Partners.SlidesToShow | src/features/public/home/components/PartnersSection.tsx:20-24 | 4 slides from width 1024, 2 from 768, 1 below |
| Partners.SlidesToShowMonotone | src/features/public/home/components/PartnersSection.tsx:20-24 | a wider viewport shows no fewer partners, between one and four |
| Partners.SomePartnerShown | src/features/public/home/components/PartnersSection.tsx:53-56 | the row shows some partner exactly when there is one, never more than there are, and only listed partners |
| Testimonials.SlidesToShow | src/features/public/home/components/TestimonialsSection.tsx:13-17 | 3 slides from width 1024, 2 from 768, 1 below |
| Testimonials.SlidesToShowMonotone | src/features/public/home/components/TestimonialsSection.tsx:13-17 | a wider viewport shows no fewer reviews, between one and three |
| Testimonials.PositionLine | src/features/public/home/components/TestimonialsSection.tsx:126 | the position line is the reviewer's position, or empty when missing or empty |
| Testimonials.NoReviewShownTwice | src/features/public/home/components/TestimonialsSection.tsx:34-35 | no review position appears twice in the window |
| News.Insert | src/features/public/home/components/NewsSection.tsx:32-36 | inserting a blog adds exactly one element; its contract is the length only, and `InsertPermutes` and `InsertKeepsOrder` prove it adds exactly that blog and keeps newest-first order |
| News.SortNewestFirst | src/features/public/home/components/NewsSection.tsx:31-36 | the sorted copy has as many blogs as the input |
| News.InsertPermutes | src/features/public/home/components/NewsSection.tsx:32-36 | inserting adds the blog to the multiset of the list |
| News.InsertKeepsOrder | src/features/public/home/components/NewsSection.tsx:32-36 | inserting into a newest-first list keeps it newest first |
| News.SortPermutes | src/features/public/home/components/NewsSection.tsx:31-36 | the sorted copy holds the input blogs, as many times each |
| News.SortOrders | src/features/public/home/components/NewsSection.tsx:32-36 | the sorted copy is newest first |
| News.LatestBlogs | src/features/public/home/components/NewsSection.tsx:31-37 | the block shows min(3, n) blogs |
| News.SplitSorted | src/features/public/home/components/NewsSection.tsx:31-37 | the sorted copy is the shown blogs followed by those left out |
| News.LatestBlogsOrderedFromInput | src/features/public/home/components/NewsSection.tsx:31-37 | the shown blogs are newest first and drawn from the input, each at most as often as there |
| News.NoOmittedBlogIsNewer | src/features/public/home/components/NewsSection.tsx:31-37 | no blog left out is newer than the last one shown |
| News.UndatedRanksAtZero | src/features/public/home/components/NewsSection.tsx:33-34 | a blog without a date ranks at time 0: shown after every blog dated later |
| News.Excerpt | src/features/public/home/components/NewsSection.tsx:105-106 | a description of at most 120 characters is shown whole; a longer one as its first 120 characters and "..."; never more than 123 |
| News.ShownExcerpt | src/features/public/home/components/NewsSection.tsx:98-109 | the excerpt is rendered exactly for a non-empty description |
| News.ExcerptStartsTheDescription | src/features/public/home/components/NewsSection.tsx:105-106 | an excerpt starts with the first (up to) 120 characters of the description |
| News.CategoryColor | src/features/public/home/components/NewsSection.tsx:17-28 | Partenariat is blue, Formation orange, Actualité green, anything else gray |
| News.CategoryColorsDistinct | src/features/public/home/components/NewsSection.tsx:17-28 | the three categories and an unknown one have four different colours |
| MaterialCard.StatusHue | src/features/admin/laboratories/components/MaterialCard.tsx:19-30 | a status is gray exactly when it is not one of the three known ones |
| MaterialCard.StatusColor | src/features/admin/laboratories/components/MaterialCard.tsx:19-30 | the eight classes: green, red and yellow for available, unavailable and maintenance, gray for any other status; -600 in the dark theme, -500 in the light one |
| MaterialCard.ThemeChangesOnlyShade | src/features/admin/laboratories/components/MaterialCard.tsx:19-30 | the dark and light classes of a status differ only in the shade |
| MaterialCard.StatusIcon | src/features/admin/laboratories/components/MaterialCard.tsx:32-43 | no icon exactly for an unknown status, and the check, cross and wrench for the three known ones |
| MaterialCard.StatusLabel | src/features/admin/laboratories/components/MaterialCard.tsx:45-56 | Disponible, Indisponible and En maintenance for the three statuses; any other value shows itself |
| MaterialCard.BadgeConsistent | src/features/admin/laboratories/components/MaterialCard.tsx:19-56 | a status has no icon exactly when it is gray, and then it shows itself; the three known statuses have distinct labels and hues |
| MaterialCard.CardImage | src/features/admin/laboratories/components/MaterialCard.tsx:67-75 | the cover path, else the image URL; no image block exactly when neither is set |
| MaterialCard.PriceLineOf | src/features/admin/laboratories/components/MaterialCard.tsx:114-131 | "Gratuit" exactly for a free material; otherwise the material's own rate per hour |
| MaterialCard.FreeIgnoresRate | src/features/admin/laboratories/components/MaterialCard.tsx:114-131 | a free material reads "Gratuit" whatever its rate; changing the rate of a paid one changes its price line |
| MaterialCard.PriceText | src/features/admin/laboratories/components/MaterialCard.tsx:114-131 | "Gratuit" for a free line; otherwise the rate as rendered followed by " TND/heure" |
| MaterialCard.DeleteRequest | src/features/admin/laboratories/components/MaterialCard.tsx:13-17 | `onDelete` receives the material's id exactly when the deletion is confirmed |

## Left out

- HTTP and storage are not modelled. This covers `fetch`, `ApiService` and the `localStorage` token lookup. The token is an `Option` parameter, and the parsed error body is the `ErrorBody` parameter. The results of `Promise.all` are not modelled, and a bulk delete's outcome is a boolean.
- Async effects are not modelled: `useEffect` orchestration, loading and error sequencing, `alert`, `navigate`, `logout` and console logging. A session that ends is the `logsOut` flag of `LabManagement.SubmitOutcome`.
- Platform encoding is not modelled: `URLSearchParams` and `FormData` encoding, number `toString` and `parseFloat`. A parameter value is kept before `toString`. A parsed input number is a parameter, and NaN is not modelled. The one `toString` that is modelled is that of the selection count in the badge (`LabFilters.Decimal`), a non-negative integer.
- `LaboratoryService.ErrorBody`: a `message` or `error` property that is not a string (`{message: 42}`, which `new Error` turns into the message "42") is modelled as absent, so the model falls back to the next candidate where the source would show the converted value.
- Dates are not modelled: `Date` parsing, `getTime` and locale formatting. A blog's timestamp is an `Option<int>`, and an invalid date (NaN in the comparator) is not modelled.
- Floating-point rounding of costs and `toFixed(2)` are not modelled. Costs are exact reals.
- `window.innerWidth` and the resize listener are a width parameter. `window.confirm` is a boolean.
- The booking request's error alert and its feature-disabled flag (LaboratoryReservation.tsx:109-117) are left out. They classify a failure of the network call.
- The reservation status update and view handlers of the administration page are left out. They only forward to the service.
- Presentation-only code is left out: JSX, Tailwind classes other than the mapped ones, animations, and the form, card and bulk-action components.
- `Reservation.Hours`: a time field must hold "" or "HH:MM", the two values `<input type="time">` produces. Other strings, which `split(':').map(Number)` would turn into NaN, are outside the model.
- Strings are sequences of Unicode characters, not UTF-16 code units. This matters for the 120-character excerpt of a description outside the Basic Multilingual Plane.
- The material key `type` is the field `materialType`, because `type` is a Dafny keyword. The multipart entry keeps the key "type".
- The laboratory fields `description || ''` and `imageUrl || ''` are strings in the form record, so the fallback changes nothing and is not modelled separately.
- `LabFilters.SelectAllLabelOf` keeps the source's comparison of counts. The stale-id problem of `LabManagement.SelectAllAsWritten` affects the label in the same way.
- A reservation status that names an `Object.prototype` property (`constructor`, `toString`) would index the colour and label tables in JavaScript. The model treats it as an unknown status.
- The input list of `News.LatestBlogs` is a value, so it is never reordered; the source copies it before sorting.
- `News.SortNewestFirst`: the proved contract is newest first plus a permutation. The stability of `Array.prototype.sort` is modelled by the insertion order, but no lemma states it.

## Findings

| source | as written | input that shows it | evidently intended | confidence | as-written member | corrected member |
|---|---|---|---|---|---|---|
| src/features/admin/laboratories/pages/LaboratoriesManagement.tsx:287-293 | select-all clears the selection when its length equals the number of listed laboratories | laboratories A and B listed; the selection is [A, X], where X is a stale id left by a single delete or by a filter change; select-all clears it | clear only when every listed laboratory is selected, otherwise select them all | not executed | LabManagement.SelectAllAsWrittenClearsPartialSelection | LabManagement.SelectAll |
| src/features/public/home/components/PartnersSection.tsx:59-66 | `goNext` and `goPrev` compute `x % partners.length`, which is NaN for an empty list; the buttons are always rendered | a press on prev or next before the partners arrive (n = 0), then partners load: the index stays NaN, `partners[NaN]` is `undefined`, and `partner._id` is read from it (the same happens in TestimonialsSection.tsx:39-46) | leave the index unchanged when there is nothing to show | not executed | Carousel.EmptyListPoisonsIndex | Carousel.IntendedNavigationStaysDefined |
