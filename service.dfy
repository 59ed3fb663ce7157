/** The decisions inside the laboratory service (services/laboratory.service.ts):
    which query parameters the list request carries, which parts a multipart
    upload holds, the token guard, the message of a failed upload, the
    normalised feature status and the fan-out of a bulk delete. The HTTP
    exchanges themselves are not modelled; a request is described by the
    values the service would send. */
module LaboratoryService {
  import opened Prelude
  import opened Types

  // ---------------------------------------------------------------------
  // getAll: the query string
  // ---------------------------------------------------------------------

  /** A query value before `toString`: the search text or a rate. */
  datatype ParamValue = TextValue(text: string) | RateValue(rate: real)

  /** The three criteria of the list request. */
  datatype Criterion = Search | MinRate | MaxRate

  /** The parameter name of a criterion. */
  function KeyName(c: Criterion): string {
    match c
    case Search => "search"
    case MinRate => "minRate"
    case MaxRate => "maxRate"
  }

  datatype QueryParam = QueryParam(key: Criterion, value: ParamValue)

  /** The criteria in the order the service appends them. */
  const QueryKeys: seq<Criterion> := [Search, MinRate, MaxRate]

  /** Whether a criterion is truthy, so that it is appended. */
  predicate CriterionActive(filters: Option<LaboratoryFilters>, c: Criterion) {
    && filters.Some?
    && match c
       case Search => TruthyText(filters.value.search)
       case MinRate => TruthyNumber(filters.value.minRate)
       case MaxRate => TruthyNumber(filters.value.maxRate)
  }

  /** The value sent for an active criterion. */
  function CriterionValue(filters: Option<LaboratoryFilters>, c: Criterion): ParamValue
    requires CriterionActive(filters, c)
  {
    match c
    case Search => TextValue(filters.value.search.value)
    case MinRate => RateValue(filters.value.minRate.value)
    case MaxRate => RateValue(filters.value.maxRate.value)
  }

  function Keys(params: seq<QueryParam>): (keys: seq<Criterion>)
    ensures |keys| == |params|
    ensures forall i :: 0 <= i < |params| ==> keys[i] == params[i].key
  {
    seq(|params|, i requires 0 <= i < |params| => params[i].key)
  }

  /** The criteria among `keys` that are active, in order. */
  function ActiveAmong(filters: Option<LaboratoryFilters>, keys: seq<Criterion>): seq<Criterion>
    decreases |keys|
  {
    if keys == [] then []
    else
      var last := keys[|keys| - 1];
      ActiveAmong(filters, keys[..|keys| - 1]) + (if CriterionActive(filters, last) then [last] else [])
  }

  /** The criteria that a filter record puts in the query, in append order. */
  function ActiveKeys(filters: Option<LaboratoryFilters>): seq<Criterion> {
    ActiveAmong(filters, QueryKeys)
  }

  function When(b: bool, c: Criterion): seq<Criterion> {
    if b then [c] else []
  }

  /** The active criteria, one by one. */
  lemma ActiveKeysExpanded(filters: Option<LaboratoryFilters>)
    ensures ActiveKeys(filters)
      == When(CriterionActive(filters, Search), Search)
       + When(CriterionActive(filters, MinRate), MinRate)
       + When(CriterionActive(filters, MaxRate), MaxRate)
  {
    var one, two := [Search], [Search, MinRate];
    assert QueryKeys[..2] == two && two[..1] == one && one[..0] == [];
    assert ActiveAmong(filters, one) == [] + When(CriterionActive(filters, Search), Search);
    assert ActiveAmong(filters, two)
      == ActiveAmong(filters, one) + When(CriterionActive(filters, MinRate), MinRate);
    assert ActiveAmong(filters, QueryKeys)
      == ActiveAmong(filters, two) + When(CriterionActive(filters, MaxRate), MaxRate);
  }

  /** `getAll`'s parameters: search, minRate and maxRate in that order, each
      only when truthy, each with its own value. */
  method BuildQuery(filters: Option<LaboratoryFilters>) returns (params: seq<QueryParam>)
    ensures Keys(params) == ActiveKeys(filters)
    ensures forall i :: 0 <= i < |params| ==>
      CriterionActive(filters, params[i].key) && params[i].value == CriterionValue(filters, params[i].key)
  {
    ActiveKeysExpanded(filters);
    params := [];
    if filters.Some? && TruthyText(filters.value.search) {
      params := params + [QueryParam(Search, TextValue(filters.value.search.value))];
    }
    assert Keys(params) == When(CriterionActive(filters, Search), Search);
    if filters.Some? && TruthyNumber(filters.value.minRate) {
      params := params + [QueryParam(MinRate, RateValue(filters.value.minRate.value))];
    }
    assert Keys(params) == When(CriterionActive(filters, Search), Search)
      + When(CriterionActive(filters, MinRate), MinRate);
    if filters.Some? && TruthyNumber(filters.value.maxRate) {
      params := params + [QueryParam(MaxRate, RateValue(filters.value.maxRate.value))];
    }
  }

  /** A rate of 0 is falsy: it is left out of the query like an absent one. */
  lemma ZeroRateOmitted(f: LaboratoryFilters)
    requires f.minRate == Some(0.0) || f.minRate.None?
    ensures MinRate !in ActiveKeys(Some(f))
  {
    ActiveKeysShape(Some(f));
  }

  /** The query lists exactly the active criteria, each once, and none
      without a filter record. */
  lemma ActiveKeysShape(filters: Option<LaboratoryFilters>)
    ensures forall c :: c in ActiveKeys(filters) <==> CriterionActive(filters, c)
    ensures NoDup(ActiveKeys(filters))
    ensures |ActiveKeys(filters)| <= 3
    ensures filters.None? ==> ActiveKeys(filters) == []
  {
    ActiveKeysExpanded(filters);
  }

  // ---------------------------------------------------------------------
  // create / update / createMaterial / updateMaterial: the multipart body
  // ---------------------------------------------------------------------

  /** A DTO field value before `toString`. */
  datatype FieldValue = TextField(text: string) | NumberField(number: real) | FlagField(flag: bool)

  /** One DTO property in key order; `None` is `undefined` or `null`. */
  datatype Entry = Entry(key: string, value: Option<FieldValue>)

  datatype Part = ImagePart(file: FileRef) | FieldPart(name: string, field: FieldValue)

  /** The parts the `forEach` appends: one per entry with a value, in order. */
  function FieldParts(entries: seq<Entry>): seq<Part>
    decreases |entries|
  {
    if entries == [] then []
    else
      var last := entries[|entries| - 1];
      FieldParts(entries[..|entries| - 1])
        + (if last.value.Some? then [FieldPart(last.key, last.value.value)] else [])
  }

  /** The whole body: the image first when there is one, then the fields. */
  function Multipart(image: Option<FileRef>, entries: seq<Entry>): seq<Part> {
    (if image.Some? then [ImagePart(image.value)] else []) + FieldParts(entries)
  }

  /** Lines 47-60 (and their copies in the other three uploads). */
  method BuildFormData(image: Option<FileRef>, entries: seq<Entry>) returns (parts: seq<Part>)
    ensures parts == Multipart(image, entries)
  {
    parts := [];
    if image.Some? {
      parts := parts + [ImagePart(image.value)];
    }
    var head := parts;
    for i := 0 to |entries|
      invariant parts == head + FieldParts(entries[..i])
    {
      assert entries[..i + 1][..i] == entries[..i];
      var entry := entries[i];
      if entry.value.Some? {
        parts := parts + [FieldPart(entry.key, entry.value.value)];
      }
    }
    assert entries[..|entries|] == entries;
  }

  /** Fields keep the relative order of their entries: the parts of two
      runs of entries are the parts of the first, then those of the second. */
  lemma {:induction false} FieldPartsAppend(a: seq<Entry>, b: seq<Entry>)
    ensures FieldParts(a + b) == FieldParts(a) + FieldParts(b)
    decreases |b|
  {
    if b == [] {
      assert a + b == a;
    } else {
      var init := b[..|b| - 1];
      assert (a + b)[..|a + b| - 1] == a + init;
      FieldPartsAppend(a, init);
    }
  }

  lemma {:induction false} FieldPartsMembership(entries: seq<Entry>)
    ensures forall p :: p in FieldParts(entries) ==> p.FieldPart?
    ensures forall p :: p in FieldParts(entries) <==>
      exists e :: e in entries && e.value.Some? && p == FieldPart(e.key, e.value.value)
    ensures |FieldParts(entries)| <= |entries|
    decreases |entries|
  {
    if entries != [] {
      var init, last := entries[..|entries| - 1], entries[|entries| - 1];
      assert entries == init + [last];
      FieldPartsMembership(init);
    }
  }

  /** The image, when given, is the first part and the only image part; the
      fields follow in key order, an entry without a value leaves no part,
      and every entry with a value leaves its part. */
  lemma MultipartShape(image: Option<FileRef>, entries: seq<Entry>)
    ensures image.Some? ==> Multipart(image, entries)[0] == ImagePart(image.value)
    ensures image.Some? ==> Multipart(image, entries)[1..] == FieldParts(entries)
    ensures image.None? ==> Multipart(image, entries) == FieldParts(entries)
    ensures forall p :: p in Multipart(image, entries) && p.ImagePart? ==> image == Some(p.file)
    ensures forall e :: e in entries && e.value.Some? ==> FieldPart(e.key, e.value.value) in Multipart(image, entries)
    ensures forall p :: p in Multipart(image, entries) && p.FieldPart? ==>
      exists e :: e in entries && e.value == Some(p.field) && e.key == p.name
  {
    FieldPartsMembership(entries);
  }

  /** A key whose entries all lack a value leaves no part at all. */
  lemma {:induction false} AbsentKeyLeavesNoPart(image: Option<FileRef>, entries: seq<Entry>, key: string)
    requires forall i :: 0 <= i < |entries| && entries[i].key == key ==> entries[i].value.None?
    ensures forall p :: p in Multipart(image, entries) && p.FieldPart? ==> p.name != key
    decreases |entries|
  {
    if entries != [] {
      var init := entries[..|entries| - 1];
      AbsentKeyLeavesNoPart(image, init, key);
      assert Multipart(image, entries) == Multipart(image, init) + FieldParts(entries[|entries| - 1..]) by {
        assert entries == init + entries[|entries| - 1..];
        FieldPartsAppend(init, entries[|entries| - 1..]);
      }
      assert entries[|entries| - 1..][..0] == [];
    }
  }

  // ---------------------------------------------------------------------
  // The token guard
  // ---------------------------------------------------------------------

  const AuthenticationRequired := "Authentication required. Please login first."

  datatype Verb = Post | Patch

  /** The four multipart uploads of the service. */
  datatype UploadTarget =
    | CreateLaboratory
    | UpdateLaboratory(laboratoryId: string)
    | CreateMaterial(parentId: string)
    | UpdateMaterial(parentId: string, materialId: string)

  function VerbOf(target: UploadTarget): Verb {
    if target.CreateLaboratory? || target.CreateMaterial? then Post else Patch
  }

  function PathOf(target: UploadTarget): string {
    match target
    case CreateLaboratory => "/laboratories"
    case UpdateLaboratory(id) => "/laboratories/" + id
    case CreateMaterial(labId) => "/laboratories/" + labId + "/materials"
    case UpdateMaterial(labId, matId) => "/laboratories/" + labId + "/materials/" + matId
  }

  /** What an upload would send. */
  datatype Upload = Upload(verb: Verb, path: string, bearer: string, body: seq<Part>)

  /** The token check at the head of each upload (lines 42-45, 93-96,
      172-175, 224-227): a missing or empty token fails before anything is
      built; otherwise the request carries the token and the multipart body. */
  method PrepareUpload(token: Option<string>, target: UploadTarget, image: Option<FileRef>, entries: seq<Entry>)
    returns (r: Result<Upload, string>)
    ensures !TruthyText(token) <==> r.Err?
    ensures r.Err? ==> r.error == AuthenticationRequired
    ensures r.Ok? ==> r.value == Upload(VerbOf(target), PathOf(target), token.value, Multipart(image, entries))
  {
    if !TruthyText(token) {
      return Err(AuthenticationRequired);
    }
    var body := BuildFormData(image, entries);
    r := Ok(Upload(VerbOf(target), PathOf(target), token.value, body));
  }

  // ---------------------------------------------------------------------
  // The message of a failed upload
  // ---------------------------------------------------------------------

  /** What `JSON.parse` makes of the error body: not JSON (it throws),
      `null` (reading a property of it throws, so the catch branch runs),
      or a value whose `message` and `error` properties are read. Any
      property that is not a string is modelled as absent. */
  datatype ErrorBody = NotJson | JsonNull | JsonValue(message: Option<string>, error: Option<string>)

  function DefaultMessage(statusText: string): string {
    "API Error: " + statusText
  }

  /** Lines 72-80: `message || error || default` from parsed JSON, else the
      raw text or the default when the text is empty. */
  method ErrorMessage(statusText: string, errorText: string, body: ErrorBody) returns (message: string)
    ensures message != ""
    ensures body.JsonValue? && TruthyText(body.message) ==> message == body.message.value
    ensures body.JsonValue? && !TruthyText(body.message) && TruthyText(body.error) ==> message == body.error.value
    ensures body.JsonValue? && !TruthyText(body.message) && !TruthyText(body.error) ==> message == DefaultMessage(statusText)
    ensures !body.JsonValue? && errorText != "" ==> message == errorText
    ensures !body.JsonValue? && errorText == "" ==> message == DefaultMessage(statusText)
  {
    var errorMessage := DefaultMessage(statusText);
    assert errorMessage[0] == 'A';
    if body.JsonValue? {
      if TruthyText(body.message) {
        errorMessage := body.message.value;
      } else if TruthyText(body.error) {
        errorMessage := body.error.value;
      }
    } else {
      if errorText != "" {
        errorMessage := errorText;
      }
    }
    message := errorMessage;
  }

  // ---------------------------------------------------------------------
  // getFeatureStatus
  // ---------------------------------------------------------------------

  /** The feature-status document (legacy fields optional). */
  datatype FeatureDocument = FeatureDocument(
    isEnabled: Option<bool>,
    isEnabledPublic: bool,
    isEnabledAdmin: bool,
    reason: Option<string>,
    reasonPublic: Option<string>,
    reasonAdmin: Option<string>)

  datatype FeatureStatus = FeatureStatus(
    isEnabled: bool,
    reason: Option<string>,
    isEnabledPublic: Option<bool>,
    isEnabledAdmin: Option<bool>,
    reasonPublic: Option<string>,
    reasonAdmin: Option<string>)

  /** JavaScript `a ?? b`: `b` only when `a` is absent. */
  function Coalesce<T>(a: Option<T>, b: T): (r: T)
    ensures a.Some? ==> r == a.value
    ensures a.None? ==> r == b
  {
    if a.Some? then a.value else b
  }

  /** Lines 330-357: `None` is a failed request. The legacy fields win when
      present, even when `false` or empty; a failure means enabled everywhere. */
  function NormaliseFeatureStatus(fetched: Option<FeatureDocument>): (s: FeatureStatus)
    ensures fetched.None? ==> s.isEnabled && s.isEnabledPublic == Some(true) && s.isEnabledAdmin == Some(true)
    ensures fetched.None? ==> s.reason.None? && s.reasonPublic.None? && s.reasonAdmin.None?
    ensures fetched.Some? ==> s.isEnabled == fetched.value.isEnabled.GetOr(fetched.value.isEnabledPublic)
    ensures fetched.Some? ==> s.reason == (if fetched.value.reason.Some? then fetched.value.reason else fetched.value.reasonPublic)
    ensures fetched.Some? ==> s.isEnabledPublic == Some(fetched.value.isEnabledPublic)
    ensures fetched.Some? ==> s.isEnabledAdmin == Some(fetched.value.isEnabledAdmin)
    ensures fetched.Some? ==> s.reasonPublic == fetched.value.reasonPublic && s.reasonAdmin == fetched.value.reasonAdmin
  {
    match fetched
    case None => FeatureStatus(true, None, Some(true), Some(true), None, None)
    case Some(doc) =>
      FeatureStatus(
        Coalesce(doc.isEnabled, doc.isEnabledPublic),
        if doc.reason.Some? then doc.reason else doc.reasonPublic,
        Some(doc.isEnabledPublic), Some(doc.isEnabledAdmin),
        doc.reasonPublic, doc.reasonAdmin)
  }

  /** `??` is not `||`: a legacy `false` disables the feature although the
      public flag is `true`, and a legacy empty reason hides the public one. */
  lemma LegacyFieldsOverride(doc: FeatureDocument)
    ensures doc.isEnabled == Some(false) ==> !NormaliseFeatureStatus(Some(doc)).isEnabled
    ensures doc.reason == Some("") ==> NormaliseFeatureStatus(Some(doc)).reason == Some("")
    ensures doc.isEnabled.None? ==> NormaliseFeatureStatus(Some(doc)).isEnabled == doc.isEnabledPublic
  {
  }

  // ---------------------------------------------------------------------
  // delete / bulkDelete
  // ---------------------------------------------------------------------

  /** The path `delete(id)` sends its request to. */
  function DeletePath(id: string): (path: string)
    ensures |path| == |"/laboratories/"| + |id|
    ensures path[..|"/laboratories/"|] == "/laboratories/"
    ensures path[|"/laboratories/"|..] == id
  {
    "/laboratories/" + id
  }

  /** Two ids share a delete path only when they are the same id. */
  lemma DeletePathInjective(a: string, b: string)
    ensures DeletePath(a) == DeletePath(b) ==> a == b
  {
    // DeletePath's contract reads the id back from the path.
  }

  /** `bulkDelete`: one delete per id, in list order. */
  function BulkDeleteRequests(ids: seq<string>): (paths: seq<string>)
    ensures |paths| == |ids|
    ensures forall i :: 0 <= i < |ids| ==> paths[i] == DeletePath(ids[i])
  {
    seq(|ids|, i requires 0 <= i < |ids| => DeletePath(ids[i]))
  }

  /** Each laboratory of the list is deleted exactly as often as it is
      listed: every id has its request and no request names another id. */
  lemma {:induction false} BulkDeleteExactlyOnce(ids: seq<string>)
    ensures forall id :: id in ids <==> DeletePath(id) in BulkDeleteRequests(ids)
    ensures NoDup(ids) ==> NoDup(BulkDeleteRequests(ids))
  {
    var paths := BulkDeleteRequests(ids);
    forall id
      ensures id in ids <==> DeletePath(id) in paths
    {
      if DeletePath(id) in paths {
        var i :| 0 <= i < |paths| && paths[i] == DeletePath(id);
        DeletePathInjective(id, ids[i]);
      }
      if id in ids {
        var i :| 0 <= i < |ids| && ids[i] == id;
        assert paths[i] == DeletePath(id);
      }
    }
    if NoDup(ids) {
      forall i, j | 0 <= i < j < |paths|
        ensures paths[i] != paths[j]
      {
        DeletePathInjective(ids[i], ids[j]);
      }
    }
  }
}
