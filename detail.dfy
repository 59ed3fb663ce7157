/** The detail page of one laboratory (pages/LaboratoryDetail.tsx): the
    material form, the payload it submits, its prefill and reset, and the
    material delete dialog. */
module LabDetail {
  import opened Prelude
  import opened Types
  import LaboratoryService

  /** The form of a new material (lines 25-32, 87-99, 165-177). */
  const EmptyMaterialForm := MaterialFormData("", "", "", 0.0, false, Available)

  /** The material data handed to `createMaterial`/`updateMaterial`;
      `hourlyRate` is `undefined` for a free material. */
  datatype MaterialPayload = MaterialPayload(
    name: string,
    description: string,
    materialType: string,
    hourlyRate: Option<real>,
    isFree: bool,
    status: string,
    laboratoryId: string)

  /** Lines 138-146: the form's fields, no rate for a free material, and
      the laboratory of the route. */
  function MaterialPayloadOf(form: MaterialFormData, laboratoryId: string): (p: MaterialPayload)
    ensures p.hourlyRate.None? <==> form.isFree
    ensures !form.isFree ==> p.hourlyRate == Some(form.hourlyRate)
    ensures p.laboratoryId == laboratoryId && p.isFree == form.isFree && p.status == form.status
    ensures p.name == form.name && p.description == form.description && p.materialType == form.materialType
  {
    MaterialPayload(
      form.name, form.description, form.materialType,
      if form.isFree then None else Some(form.hourlyRate),
      form.isFree, form.status, laboratoryId)
  }

  /** The payload's properties in object literal order; an `undefined`
      rate is an entry without a value. */
  function MaterialEntries(p: MaterialPayload): (entries: seq<LaboratoryService.Entry>)
    ensures |entries| == 7
    ensures [entries[0].key, entries[1].key, entries[2].key, entries[3].key,
             entries[4].key, entries[5].key, entries[6].key]
         == ["name", "description", "type", "hourlyRate", "isFree", "status", "laboratoryId"]
    ensures forall i :: 0 <= i < |entries| && i != 3 ==> entries[i].value.Some?
    ensures entries[3].value.None? <==> p.hourlyRate.None?
    ensures p.hourlyRate.Some? ==> entries[3].value == Some(LaboratoryService.NumberField(p.hourlyRate.value))
  {
    [ LaboratoryService.Entry("name", Some(LaboratoryService.TextField(p.name))),
      LaboratoryService.Entry("description", Some(LaboratoryService.TextField(p.description))),
      LaboratoryService.Entry("type", Some(LaboratoryService.TextField(p.materialType))),
      LaboratoryService.Entry("hourlyRate", if p.hourlyRate.Some? then Some(LaboratoryService.NumberField(p.hourlyRate.value)) else None),
      LaboratoryService.Entry("isFree", Some(LaboratoryService.FlagField(p.isFree))),
      LaboratoryService.Entry("status", Some(LaboratoryService.TextField(p.status))),
      LaboratoryService.Entry("laboratoryId", Some(LaboratoryService.TextField(p.laboratoryId))) ]
  }

  /** The multipart body of a free material carries no rate at all; that of
      a paid one carries the form's rate. */
  lemma {:induction false} FreeMaterialSendsNoRate(form: MaterialFormData, laboratoryId: string, image: Option<FileRef>)
    ensures var body := LaboratoryService.Multipart(image, MaterialEntries(MaterialPayloadOf(form, laboratoryId)));
      && (form.isFree ==> forall part :: part in body && part.FieldPart? ==> part.name != "hourlyRate")
      && (!form.isFree ==> LaboratoryService.FieldPart("hourlyRate", LaboratoryService.NumberField(form.hourlyRate)) in body)
  {
    var entries := MaterialEntries(MaterialPayloadOf(form, laboratoryId));
    if form.isFree {
      forall i | 0 <= i < |entries| && entries[i].key == "hourlyRate"
        ensures entries[i].value.None?
      {
        assert |entries[i].key| == 10;
      }
      LaboratoryService.AbsentKeyLeavesNoPart(image, entries, "hourlyRate");
    } else {
      LaboratoryService.MultipartShape(image, entries);
      assert entries[3] in entries;
    }
  }

  /** `handleEditMaterial` (lines 101-113): the material's fields, with a
      missing description shown as '' and a missing or zero rate as 0. */
  function PrefillMaterialForm(m: Material): (form: MaterialFormData)
    ensures form.name == m.name && form.materialType == m.materialType
    ensures form.isFree == m.isFree && form.status == m.status
    ensures form.description == m.description.GetOr("")
    ensures form.hourlyRate == m.hourlyRate.GetOr(0.0)
  {
    MaterialFormData(
      m.name, m.description.GetOr(""), m.materialType,
      if TruthyNumber(m.hourlyRate) then m.hourlyRate.value else 0.0,
      m.isFree, m.status)
  }

  /** Saving an unedited material sends its own fields back: its rate (or 0)
      when paid, none when free, and its laboratory. */
  lemma PrefillPayloadRoundTrip(m: Material)
    ensures MaterialPayloadOf(PrefillMaterialForm(m), m.laboratoryId)
      == MaterialPayload(
           m.name, m.description.GetOr(""), m.materialType,
           if m.isFree then None else Some(m.hourlyRate.GetOr(0.0)),
           m.isFree, m.status, m.laboratoryId)
  {
  }

  /** The request a confirmed material delete sends. */
  function MaterialDeletePath(laboratoryId: string, materialId: string): (path: string)
    ensures |path| == |"/laboratories/"| + |laboratoryId| + |"/materials/"| + |materialId|
    ensures path[..|"/laboratories/" + laboratoryId|] == "/laboratories/" + laboratoryId
    ensures path[|"/laboratories/" + laboratoryId|..|path| - |materialId|] == "/materials/"
    ensures path[|path| - |materialId|..] == materialId
  {
    "/laboratories/" + laboratoryId + "/materials/" + materialId
  }

  class LaboratoryDetailPage {
    const routeId: Option<string>
    var materials: seq<Material>
    var showMaterialForm: bool
    var editingMaterial: Option<Material>
    var materialFormData: MaterialFormData
    var showMaterialDeleteConfirm: bool
    var deleteMaterialTarget: Option<string>
    var materialImageFiles: seq<FileRef>

    constructor (routeId: Option<string>)
      ensures this.routeId == routeId && materials == []
      ensures !showMaterialForm && editingMaterial.None? && materialFormData == EmptyMaterialForm
      ensures !showMaterialDeleteConfirm && deleteMaterialTarget.None? && materialImageFiles == []
    {
      this.routeId := routeId;
      materials := [];
      showMaterialForm := false;
      editingMaterial := None;
      materialFormData := EmptyMaterialForm;
      showMaterialDeleteConfirm := false;
      deleteMaterialTarget := None;
      materialImageFiles := [];
    }

    /** A (re)load of the materials replaces them and nothing else. */
    method MaterialsLoaded(fetched: seq<Material>)
      modifies this`materials
      ensures materials == fetched
    {
      materials := fetched;
    }

    /** `handleCreateMaterial` (lines 87-99). */
    method CreateMaterial()
      modifies this`editingMaterial, this`materialFormData, this`materialImageFiles, this`showMaterialForm
      ensures editingMaterial.None? && materialFormData == EmptyMaterialForm
      ensures materialImageFiles == [] && showMaterialForm
    {
      editingMaterial := None;
      materialFormData := EmptyMaterialForm;
      materialImageFiles := [];
      showMaterialForm := true;
    }

    /** `handleEditMaterial` (lines 101-113). */
    method EditMaterial(m: Material)
      modifies this`editingMaterial, this`materialFormData, this`materialImageFiles, this`showMaterialForm
      ensures editingMaterial == Some(m) && materialFormData == PrefillMaterialForm(m)
      ensures materialImageFiles == [] && showMaterialForm
    {
      editingMaterial := Some(m);
      materialImageFiles := [];
      materialFormData := PrefillMaterialForm(m);
      showMaterialForm := true;
    }

    /** The form's inputs. */
    method EditForm(form: MaterialFormData, files: seq<FileRef>)
      modifies this`materialFormData, this`materialImageFiles
      ensures materialFormData == form && materialImageFiles == files
    {
      materialFormData := form;
      materialImageFiles := files;
    }

    /** `handleMaterialCancel` (lines 165-177). */
    method CancelMaterial()
      modifies this`editingMaterial, this`materialFormData, this`materialImageFiles, this`showMaterialForm
      ensures editingMaterial.None? && materialFormData == EmptyMaterialForm
      ensures materialImageFiles == [] && !showMaterialForm
    {
      showMaterialForm := false;
      editingMaterial := None;
      materialImageFiles := [];
      materialFormData := EmptyMaterialForm;
    }

    /** `handleMaterialSubmit` (lines 133-163). Without a route id nothing
        happens. Otherwise the upload goes through the service's token guard
        and, when it leaves it, to the server (`failed` is its failure); only
        a successful save hides the form, drops the edited material and
        clears the images. A failure changes nothing visible. */
    method SubmitMaterial(token: Option<string>, failed: bool) returns (sent: Option<LaboratoryService.Upload>)
      modifies this`showMaterialForm, this`editingMaterial, this`materialImageFiles
      ensures !TruthyText(routeId) || !TruthyText(token) ==>
        && sent.None?
        && showMaterialForm == old(showMaterialForm) && editingMaterial == old(editingMaterial)
        && materialImageFiles == old(materialImageFiles)
      ensures TruthyText(routeId) && TruthyText(token) ==>
        && sent.Some?
        && sent.value.verb == (if old(editingMaterial).Some? then LaboratoryService.Patch else LaboratoryService.Post)
        && sent.value.path == (if old(editingMaterial).Some?
                               then "/laboratories/" + routeId.value + "/materials/" + old(editingMaterial).value.id
                               else "/laboratories/" + routeId.value + "/materials")
        && sent.value.body == LaboratoryService.Multipart(
             FirstImage(old(materialImageFiles)), MaterialEntries(MaterialPayloadOf(materialFormData, routeId.value)))
      ensures TruthyText(routeId) && TruthyText(token) && !failed ==>
        !showMaterialForm && editingMaterial.None? && materialImageFiles == []
      ensures TruthyText(routeId) && TruthyText(token) && failed ==>
        && showMaterialForm == old(showMaterialForm) && editingMaterial == old(editingMaterial)
        && materialImageFiles == old(materialImageFiles)
    {
      if !TruthyText(routeId) {
        return None;
      }
      var id := routeId.value;
      var payload := MaterialPayloadOf(materialFormData, id);
      var image := FirstImage(materialImageFiles);
      var target := if editingMaterial.Some?
        then LaboratoryService.UpdateMaterial(id, editingMaterial.value.id)
        else LaboratoryService.CreateMaterial(id);
      var upload := LaboratoryService.PrepareUpload(token, target, image, MaterialEntries(payload));
      if upload.Err? {
        return None;
      }
      sent := Some(upload.value);
      if !failed {
        showMaterialForm := false;
        editingMaterial := None;
        materialImageFiles := [];
      }
    }

    /** `handleDeleteMaterial` (lines 115-118). */
    method DeleteMaterial(materialId: string)
      modifies this`deleteMaterialTarget, this`showMaterialDeleteConfirm
      ensures deleteMaterialTarget == Some(materialId) && showMaterialDeleteConfirm
    {
      deleteMaterialTarget := Some(materialId);
      showMaterialDeleteConfirm := true;
    }

    /** `confirmDeleteMaterial` (lines 120-131): a delete request when both
        the target and the route id are non-empty; the dialog closes and the
        target is dropped whatever happens. */
    method ConfirmDeleteMaterial() returns (request: Option<string>)
      modifies this`deleteMaterialTarget, this`showMaterialDeleteConfirm
      ensures request.Some? <==> TruthyText(old(deleteMaterialTarget)) && TruthyText(routeId)
      ensures request.Some? ==> request.value == MaterialDeletePath(routeId.value, old(deleteMaterialTarget).value)
      ensures !showMaterialDeleteConfirm && deleteMaterialTarget.None?
    {
      request := if TruthyText(deleteMaterialTarget) && TruthyText(routeId)
        then Some(MaterialDeletePath(routeId.value, deleteMaterialTarget.value)) else None;
      showMaterialDeleteConfirm := false;
      deleteMaterialTarget := None;
    }

    /** The dialog's cancel button (line 364) only hides the dialog; the
        target stays until the next delete or confirmation. */
    method DismissMaterialDelete()
      modifies this`showMaterialDeleteConfirm
      ensures !showMaterialDeleteConfirm
    {
      showMaterialDeleteConfirm := false;
    }
  }
}
