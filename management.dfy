/** The laboratory administration page (pages/LaboratoriesManagement.tsx):
    the multi-selection, the laboratory form and its client-side checks, the
    classification of a failed save, the actions and colours offered for a
    reservation, and the two delete-confirmation dialogs. */
module LabManagement {
  import opened Prelude
  import opened Types
  import Selection
  import LaboratoryService

  // ---------------------------------------------------------------------
  // Form validation and payload (handleSubmit, lines 216-236)
  // ---------------------------------------------------------------------

  const TitleRequired := "Le titre du laboratoire est requis"
  const RateMustBePositive := "Le tarif par heure doit être supérieur à 0"

  /** The laboratory data handed to `create`/`update`. */
  datatype LaboratoryPayload = LaboratoryPayload(title: string, description: string, imageUrl: string, hourlyRate: real)

  /** The form of a new laboratory (lines 56-61, 169-179, 266-276). */
  const EmptyLaboratoryForm := LaboratoryFormData("", "", "", 0.0)

  /** The client-side checks, in their order: a title that is empty or only
      white space is refused first, then a rate that is 0 or negative; an
      accepted form sends the trimmed title and the rest as typed. */
  function ValidateLaboratoryForm(form: LaboratoryFormData): (r: Result<LaboratoryPayload, string>)
    ensures AllSpace(form.title) ==> r == Err(TitleRequired)
    ensures !AllSpace(form.title) && form.hourlyRate <= 0.0 ==> r == Err(RateMustBePositive)
    ensures r.Ok? <==> !AllSpace(form.title) && form.hourlyRate > 0.0
    ensures r.Ok? ==> r.value.title == Trim(form.title) && r.value.title != ""
    ensures r.Ok? ==> !IsJsSpace(r.value.title[0]) && !IsJsSpace(r.value.title[|r.value.title| - 1])
    ensures r.Ok? ==> r.value.description == form.description && r.value.imageUrl == form.imageUrl
    ensures r.Ok? ==> r.value.hourlyRate == form.hourlyRate
  {
    if form.title == "" || Trim(form.title) == "" then Err(TitleRequired)
    else if form.hourlyRate == 0.0 || form.hourlyRate <= 0.0 then Err(RateMustBePositive)
    else Ok(LaboratoryPayload(Trim(form.title), form.description, form.imageUrl, form.hourlyRate))
  }

  /** The payload as the multipart body sees it: all four keys, in object
      literal order, each with a value. */
  function PayloadEntries(p: LaboratoryPayload): (entries: seq<LaboratoryService.Entry>)
    ensures |entries| == 4
    ensures [entries[0].key, entries[1].key, entries[2].key, entries[3].key]
         == ["title", "description", "imageUrl", "hourlyRate"]
    ensures forall i :: 0 <= i < |entries| ==> entries[i].value.Some?
    ensures entries[0].value == Some(LaboratoryService.TextField(p.title))
    ensures entries[3].value == Some(LaboratoryService.NumberField(p.hourlyRate))
  {
    [ LaboratoryService.Entry("title", Some(LaboratoryService.TextField(p.title))),
      LaboratoryService.Entry("description", Some(LaboratoryService.TextField(p.description))),
      LaboratoryService.Entry("imageUrl", Some(LaboratoryService.TextField(p.imageUrl))),
      LaboratoryService.Entry("hourlyRate", Some(LaboratoryService.NumberField(p.hourlyRate))) ]
  }

  /** `handleEditLaboratory` (lines 181-191): the laboratory's own fields,
      with a missing description or image URL shown as ''. */
  function PrefillForm(lab: Laboratory): (form: LaboratoryFormData)
    ensures form.title == lab.title && form.hourlyRate == lab.hourlyRate
    ensures form.description == lab.description.GetOr("") && form.imageUrl == lab.imageUrl.GetOr("")
  {
    LaboratoryFormData(lab.title, lab.description.GetOr(""), lab.imageUrl.GetOr(""), lab.hourlyRate)
  }

  /** Saving an unedited, well-formed laboratory sends back what it holds. */
  lemma PrefillRoundTrip(lab: Laboratory)
    requires lab.title != "" && !IsJsSpace(lab.title[0]) && !IsJsSpace(lab.title[|lab.title| - 1])
    requires lab.hourlyRate > 0.0
    ensures ValidateLaboratoryForm(PrefillForm(lab))
      == Ok(LaboratoryPayload(lab.title, lab.description.GetOr(""), lab.imageUrl.GetOr(""), lab.hourlyRate))
  {
    TrimUntouched(lab.title);
    assert !IsJsSpace(lab.title[0]);
  }

  /** The form of a new laboratory cannot be submitted as it is. */
  lemma EmptyFormRejected()
    ensures ValidateLaboratoryForm(EmptyLaboratoryForm) == Err(TitleRequired)
  {
  }

  // ---------------------------------------------------------------------
  // Classifying a failed save (lines 246-262)
  // ---------------------------------------------------------------------

  const SaveFailed := "Une erreur est survenue lors de la sauvegarde"
  const SessionExpired := "Votre session a expiré ou le token est invalide. Veuillez vous reconnecter."

  /** What the `catch` receives: an `Error` with its message, or anything else. */
  datatype Thrown = ErrorThrown(message: string) | OtherThrown

  function ThrownMessage(t: Thrown): string {
    if t.ErrorThrown? then t.message else SaveFailed
  }

  /** Lines 251-254: a message naming one of the four authentication
      failures. */
  predicate IsAuthError(message: string) {
    || Contains(message, "Unauthorized")
    || Contains(message, "Session expirée")
    || Contains(message, "Authentication required")
    || Contains(message, "Token invalide")
  }

  /** The outcome of a submission. */
  datatype SubmitOutcome =
    | Rejected(alert: string)
    | Saved
    | Failed(alert: string, logsOut: bool)

  /** An authentication failure ends the session with a fixed alert; any
      other failure shows its own message and keeps the session. */
  function FailureOutcome(t: Thrown): (o: SubmitOutcome)
    ensures o.Failed?
    ensures o.logsOut <==> IsAuthError(ThrownMessage(t))
    ensures o.logsOut ==> o.alert == SessionExpired
    ensures !o.logsOut ==> o.alert == ThrownMessage(t)
  {
    var message := ThrownMessage(t);
    if IsAuthError(message) then Failed(SessionExpired, true) else Failed(message, false)
  }

  /** The service's missing-token error ends the session. */
  lemma MissingTokenLogsOut()
    ensures FailureOutcome(ErrorThrown(LaboratoryService.AuthenticationRequired)) == Failed(SessionExpired, true)
  {
    var m := LaboratoryService.AuthenticationRequired;
    assert IsPrefix("Authentication required", m[0..]);
  }

  // ---------------------------------------------------------------------
  // Reservation status: actions, colours and labels
  // ---------------------------------------------------------------------

  const Pending := "pending"
  const Confirmed := "confirmed"
  const Cancelled := "cancelled"
  const Completed := "completed"

  /** The status buttons of a reservation row (lines 538, 557, 576), in
      display order: each target that differs from the current status. */
  function OfferedTargets(status: string): (targets: seq<string>)
    ensures forall t :: t in targets <==> (t == Confirmed || t == Cancelled || t == Pending) && t != status
    ensures Completed !in targets
    ensures NoDup(targets)
    ensures |targets| == if status in {Confirmed, Cancelled, Pending} then 2 else 3
  {
    (if status != Confirmed then [Confirmed] else [])
      + (if status != Cancelled then [Cancelled] else [])
      + (if status != Pending then [Pending] else [])
  }

  const PendingColor := "bg-yellow-100 text-yellow-800 dark:bg-yellow-900 dark:text-yellow-200"
  const ConfirmedColor := "bg-green-100 text-green-800 dark:bg-green-900 dark:text-green-200"
  const CancelledColor := "bg-red-100 text-red-800 dark:bg-red-900 dark:text-red-200"
  const CompletedColor := "bg-blue-100 text-blue-800 dark:bg-blue-900 dark:text-blue-200"

  /** `statusColors` (lines 18-23) with the fallback of line 517. */
  function ReservationStatusColor(status: string): (c: string)
    ensures status == Confirmed ==> c == ConfirmedColor
    ensures status == Cancelled ==> c == CancelledColor
    ensures status == Completed ==> c == CompletedColor
    ensures status !in {Confirmed, Cancelled, Completed} ==> c == PendingColor
  {
    if status == Confirmed then ConfirmedColor
    else if status == Cancelled then CancelledColor
    else if status == Completed then CompletedColor
    else PendingColor
  }

  /** `statusLabels` (lines 25-30) with the fallback of line 519: a known
      status is translated, any other one is shown as it is. */
  function ReservationStatusLabel(status: string): (l: string)
    ensures status == Pending ==> l == "En attente"
    ensures status == Confirmed ==> l == "Confirmée"
    ensures status == Cancelled ==> l == "Annulée"
    ensures status == Completed ==> l == "Terminée"
    ensures status !in {Pending, Confirmed, Cancelled, Completed} ==> l == status
  {
    if status == Pending then "En attente"
    else if status == Confirmed then "Confirmée"
    else if status == Cancelled then "Annulée"
    else if status == Completed then "Terminée"
    else status
  }

  /** An unknown status looks pending but keeps its own name. */
  lemma UnknownStatusDisplay(status: string)
    requires status !in {Pending, Confirmed, Cancelled, Completed}
    ensures ReservationStatusColor(status) == ReservationStatusColor(Pending)
    ensures ReservationStatusLabel(status) == status
    ensures |OfferedTargets(status)| == 3
  {
  }

  // ---------------------------------------------------------------------
  // Select all (handleSelectAll, lines 287-293)
  // ---------------------------------------------------------------------

  /** As written: the selection is cleared when it is as long as the list,
      otherwise replaced by every listed id. */
  function SelectAllAsWritten(selected: seq<string>, labs: seq<Laboratory>): (r: seq<string>)
    ensures r == [] <==> |selected| == |labs| || labs == []
    ensures r != [] ==> AllListedSelected(r, labs) && |r| == |labs|
    ensures |selected| != |labs| ==> r == LabIds(labs)
    ensures NoDup(LabIds(labs)) ==> NoDup(r)
  {
    if |selected| == |labs| then [] else LabIds(labs)
  }

  /** The selection keeps the id of a laboratory that has left the list (a
      single delete or a filter change does not prune it). With one such id
      the lengths match although a listed laboratory is not selected, and
      select-all clears the selection instead of completing it. */
  lemma SelectAllAsWrittenClearsPartialSelection(a: Laboratory, b: Laboratory, staleId: string)
    requires a.id != b.id && staleId != a.id && staleId != b.id
    ensures var selected := [a.id, staleId];
      && b.id !in selected
      && SelectAllAsWritten(selected, [a, b]) == []
  {
  }

  /** Every listed laboratory is selected. */
  predicate AllListedSelected(selected: seq<string>, labs: seq<Laboratory>) {
    forall i :: 0 <= i < |labs| ==> labs[i].id in selected
  }

  /** Select-all as intended: clear when every listed laboratory is already
      selected, otherwise select exactly the listed ones in list order. */
  function SelectAll(selected: seq<string>, labs: seq<Laboratory>): (r: seq<string>)
    ensures AllListedSelected(selected, labs) ==> r == []
    ensures !AllListedSelected(selected, labs) ==> r == LabIds(labs) && AllListedSelected(r, labs)
  {
    if AllListedSelected(selected, labs) then [] else LabIds(labs)
  }

  /** When the selection holds only listed ids, each once, and the listed ids
      are distinct, comparing lengths is the same test: the two agree. */
  lemma {:induction false} SelectAllAgreesWithoutStaleIds(selected: seq<string>, labs: seq<Laboratory>)
    requires NoDup(selected) && NoDup(LabIds(labs))
    requires forall id :: id in selected ==> id in LabIds(labs)
    ensures SelectAllAsWritten(selected, labs) == SelectAll(selected, labs)
  {
    var ids := LabIds(labs);
    var s, l := set x | x in selected, set x | x in ids;
    DistinctCard(selected);
    DistinctCard(ids);
    assert s <= l;
    SubsetCard(s, l);
    if |selected| == |labs| {
      forall i | 0 <= i < |labs|
        ensures labs[i].id in selected
      {
        assert ids[i] in l;
      }
    } else {
      var missing :| missing in l - s;
      var i :| 0 <= i < |ids| && ids[i] == missing;
      assert labs[i].id !in selected;
    }
  }

  /** A duplicate-free sequence has as many distinct values as elements. */
  lemma {:induction false} DistinctCard(s: seq<string>)
    requires NoDup(s)
    ensures |set x | x in s| == |s|
    decreases |s|
  {
    if s != [] {
      var t := s[1..];
      assert NoDup(t);
      DistinctCard(t);
      assert (set x | x in s) == (set x | x in t) + {s[0]};
      assert s[0] !in t;
    }
  }

  /** A subset is no larger, and one of the same size is the whole set. */
  lemma SubsetCard(a: set<string>, b: set<string>)
    requires a <= b
    ensures |a| <= |b|
    ensures |a| == |b| <==> a == b
    ensures |a| < |b| ==> exists x :: x in b - a
  {
    var d := b - a;
    assert b == a + d && a * d == {};
    if |d| > 0 {
      var x :| x in d;
      assert a != b by {
        assert x in b && x !in a;
      }
    }
  }

  // ---------------------------------------------------------------------
  // The page state
  // ---------------------------------------------------------------------

  /** The request a confirmed reservation delete sends. */
  function ReservationDeletePath(id: string): (path: string)
    ensures |path| == |"/laboratories/reservations/"| + |id|
    ensures path[|"/laboratories/reservations/"|..] == id
    ensures path[..|"/laboratories/reservations/"|] == "/laboratories/reservations/"
  {
    "/laboratories/reservations/" + id
  }

  class LaboratoriesPage {
    var laboratories: seq<Laboratory>
    var selectedLaboratories: seq<string>
    var showForm: bool
    var editingLaboratory: Option<Laboratory>
    var formData: LaboratoryFormData
    var imageFiles: seq<FileRef>
    var showDeleteConfirm: bool
    var deleteTarget: Option<string>
    var showReservationDeleteConfirm: bool
    var reservationDeleteTarget: Option<string>

    /** The selection never holds an id twice. */
    ghost predicate Valid()
      reads this
    {
      NoDup(selectedLaboratories)
    }

    constructor ()
      ensures Valid()
      ensures laboratories == [] && selectedLaboratories == []
      ensures !showForm && editingLaboratory.None? && formData == EmptyLaboratoryForm && imageFiles == []
      ensures !showDeleteConfirm && deleteTarget.None?
      ensures !showReservationDeleteConfirm && reservationDeleteTarget.None?
    {
      laboratories := [];
      selectedLaboratories := [];
      showForm := false;
      editingLaboratory := None;
      formData := EmptyLaboratoryForm;
      imageFiles := [];
      showDeleteConfirm := false;
      deleteTarget := None;
      showReservationDeleteConfirm := false;
      reservationDeleteTarget := None;
    }

    /** A list (re)load replaces the laboratories and nothing else. */
    method Loaded(labs: seq<Laboratory>)
      modifies this`laboratories
      ensures laboratories == labs
    {
      laboratories := labs;
    }

    /** `handleSelectLaboratory` (lines 279-285). */
    method SelectLaboratory(id: string)
      requires Valid()
      modifies this`selectedLaboratories
      ensures Valid()
      ensures selectedLaboratories == Selection.Toggle(old(selectedLaboratories), id)
      ensures id in selectedLaboratories <==> id !in old(selectedLaboratories)
      ensures forall other :: other != id ==> (other in selectedLaboratories <==> other in old(selectedLaboratories))
    {
      Selection.ToggleMembership(selectedLaboratories, id);
      selectedLaboratories := Selection.Toggle(selectedLaboratories, id);
    }

    /** `handleSelectAll` as written (see `SelectAllAsWritten`): it does
        what `SelectAll` intends as long as the selection holds only listed
        ids. */
    method SelectAllLaboratories()
      modifies this`selectedLaboratories
      ensures NoDup(LabIds(laboratories)) ==> Valid()
      ensures selectedLaboratories == SelectAllAsWritten(old(selectedLaboratories), laboratories)
      ensures |old(selectedLaboratories)| == |laboratories| ==> selectedLaboratories == []
      ensures |old(selectedLaboratories)| != |laboratories| ==> selectedLaboratories == LabIds(laboratories)
      ensures old(Valid()) && NoDup(LabIds(laboratories))
        && (forall id :: id in old(selectedLaboratories) ==> id in LabIds(laboratories))
        ==> selectedLaboratories == SelectAll(old(selectedLaboratories), laboratories)
    {
      if Valid() && NoDup(LabIds(laboratories))
        && (forall id :: id in selectedLaboratories ==> id in LabIds(laboratories)) {
        SelectAllAgreesWithoutStaleIds(selectedLaboratories, laboratories);
      }
      selectedLaboratories := SelectAllAsWritten(selectedLaboratories, laboratories);
    }

    /** `handleClearSelection` (lines 305-307). */
    method ClearSelection()
      modifies this`selectedLaboratories
      ensures Valid()
      ensures selectedLaboratories == []
    {
      selectedLaboratories := [];
    }

    /** `handleBulkDelete` (lines 295-303): one delete per selected id; the
        selection is emptied when they all succeed and kept otherwise. */
    method BulkDelete(succeeded: bool) returns (requests: seq<string>)
      modifies this`selectedLaboratories
      ensures old(Valid()) ==> Valid()
      ensures requests == LaboratoryService.BulkDeleteRequests(old(selectedLaboratories))
      ensures succeeded ==> selectedLaboratories == []
      ensures !succeeded ==> selectedLaboratories == old(selectedLaboratories)
    {
      requests := LaboratoryService.BulkDeleteRequests(selectedLaboratories);
      if succeeded {
        selectedLaboratories := [];
      }
    }

    /** `handleCreateLaboratory` (lines 169-179). */
    method CreateLaboratory()
      modifies this`editingLaboratory, this`formData, this`imageFiles, this`showForm
      ensures editingLaboratory.None? && formData == EmptyLaboratoryForm && imageFiles == [] && showForm
    {
      editingLaboratory := None;
      formData := EmptyLaboratoryForm;
      imageFiles := [];
      showForm := true;
    }

    /** `handleEditLaboratory` (lines 181-191). */
    method EditLaboratory(lab: Laboratory)
      modifies this`editingLaboratory, this`formData, this`imageFiles, this`showForm
      ensures editingLaboratory == Some(lab) && formData == PrefillForm(lab) && imageFiles == [] && showForm
    {
      editingLaboratory := Some(lab);
      formData := PrefillForm(lab);
      imageFiles := [];
      showForm := true;
    }

    /** `handleCancel` (lines 266-276). */
    method Cancel()
      modifies this`editingLaboratory, this`formData, this`imageFiles, this`showForm
      ensures editingLaboratory.None? && formData == EmptyLaboratoryForm && imageFiles == [] && !showForm
    {
      showForm := false;
      editingLaboratory := None;
      formData := EmptyLaboratoryForm;
      imageFiles := [];
    }

    /** The form's image input. */
    method ChooseImages(files: seq<FileRef>)
      modifies this`imageFiles
      ensures imageFiles == files
    {
      imageFiles := files;
    }

    /** `handleSubmit` (lines 216-264). A rejected form alerts and sends
        nothing. An accepted one goes through the service's token guard
        (`token`) and, when it leaves it, to the server, whose failure is
        `thrown`. Only a save that succeeds hides the form. */
    method Submit(token: Option<string>, thrown: Option<Thrown>)
      returns (outcome: SubmitOutcome, sent: Option<LaboratoryService.Upload>)
      modifies this`showForm
      ensures match ValidateLaboratoryForm(formData)
        case Err(alert) => outcome == Rejected(alert) && sent.None? && showForm == old(showForm)
        case Ok(payload) =>
          && (!TruthyText(token) ==>
                && sent.None? && showForm == old(showForm)
                && outcome == FailureOutcome(ErrorThrown(LaboratoryService.AuthenticationRequired)))
          && (TruthyText(token) ==>
                && sent.Some?
                && sent.value.verb == (if editingLaboratory.Some? then LaboratoryService.Patch else LaboratoryService.Post)
                && sent.value.path == (if editingLaboratory.Some?
                                       then "/laboratories/" + editingLaboratory.value.id
                                       else "/laboratories")
                && sent.value.body == LaboratoryService.Multipart(FirstImage(imageFiles), PayloadEntries(payload))
                && (thrown.None? ==> outcome == Saved && !showForm)
                && (thrown.Some? ==> outcome == FailureOutcome(thrown.value) && showForm == old(showForm)))
    {
      var checked := ValidateLaboratoryForm(formData);
      if checked.Err? {
        return Rejected(checked.error), None;
      }
      var target := if editingLaboratory.Some?
        then LaboratoryService.UpdateLaboratory(editingLaboratory.value.id)
        else LaboratoryService.CreateLaboratory;
      var upload := LaboratoryService.PrepareUpload(token, target, FirstImage(imageFiles), PayloadEntries(checked.value));
      if upload.Err? {
        return FailureOutcome(ErrorThrown(upload.error)), None;
      }
      sent := Some(upload.value);
      if thrown.Some? {
        return FailureOutcome(thrown.value), sent;
      }
      showForm := false;
      outcome := Saved;
    }

    /** `handleDeleteLaboratory` (lines 193-196). */
    method DeleteLaboratory(id: string)
      modifies this`deleteTarget, this`showDeleteConfirm
      ensures deleteTarget == Some(id) && showDeleteConfirm
    {
      deleteTarget := Some(id);
      showDeleteConfirm := true;
    }

    /** `confirmDelete` (lines 198-209): the delete request for a non-empty
        target; the dialog closes and the target is dropped in every case. */
    method ConfirmDelete() returns (request: Option<string>)
      modifies this`deleteTarget, this`showDeleteConfirm
      ensures request.Some? <==> TruthyText(old(deleteTarget))
      ensures request.Some? ==> request.value == LaboratoryService.DeletePath(old(deleteTarget).value)
      ensures !showDeleteConfirm && deleteTarget.None?
    {
      request := if TruthyText(deleteTarget) then Some(LaboratoryService.DeletePath(deleteTarget.value)) else None;
      showDeleteConfirm := false;
      deleteTarget := None;
    }

    /** `cancelDelete` (lines 211-214). */
    method CancelDelete()
      modifies this`deleteTarget, this`showDeleteConfirm
      ensures !showDeleteConfirm && deleteTarget.None?
    {
      showDeleteConfirm := false;
      deleteTarget := None;
    }

    /** `handleDeleteReservation` (lines 143-146). */
    method DeleteReservation(id: string)
      modifies this`reservationDeleteTarget, this`showReservationDeleteConfirm
      ensures reservationDeleteTarget == Some(id) && showReservationDeleteConfirm
    {
      reservationDeleteTarget := Some(id);
      showReservationDeleteConfirm := true;
    }

    /** `confirmDeleteReservation` (lines 148-161). */
    method ConfirmDeleteReservation() returns (request: Option<string>)
      modifies this`reservationDeleteTarget, this`showReservationDeleteConfirm
      ensures request.Some? <==> TruthyText(old(reservationDeleteTarget))
      ensures request.Some? ==> request.value == ReservationDeletePath(old(reservationDeleteTarget).value)
      ensures !showReservationDeleteConfirm && reservationDeleteTarget.None?
    {
      request := if TruthyText(reservationDeleteTarget)
        then Some(ReservationDeletePath(reservationDeleteTarget.value)) else None;
      showReservationDeleteConfirm := false;
      reservationDeleteTarget := None;
    }

    /** `cancelDeleteReservation` (lines 163-166). */
    method CancelDeleteReservation()
      modifies this`reservationDeleteTarget, this`showReservationDeleteConfirm
      ensures !showReservationDeleteConfirm && reservationDeleteTarget.None?
    {
      showReservationDeleteConfirm := false;
      reservationDeleteTarget := None;
    }
  }
}
