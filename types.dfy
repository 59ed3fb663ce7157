/** The entities of the laboratories feature (types/laboratory.ts).
    Optional (`?`) fields are `Option`s, numbers are exact `real`s and
    dates are millisecond timestamps. `status` stays a string because the
    components compare it with literals and show unknown values as they are. */
module Types {
  import opened Prelude

  /** A browser `File` chosen in an upload input; only its identity matters. */
  datatype FileRef = FileRef(name: string)

  /** The image an upload sends: the first chosen file, if any
      (`files[0]`, or `files.length > 0 ? files[0] : undefined`). */
  function FirstImage(files: seq<FileRef>): (image: Option<FileRef>)
    ensures image.None? <==> files == []
    ensures image.Some? ==> image.value == files[0]
  {
    if files == [] then None else Some(files[0])
  }

  datatype Material = Material(
    id: string,
    name: string,
    description: Option<string>,
    materialType: string,
    hourlyRate: Option<real>,
    isFree: bool,
    status: string,
    coverImagePath: Option<string>,
    imageUrl: Option<string>,
    laboratoryId: string,
    createdAt: int,
    updatedAt: int)

  datatype Laboratory = Laboratory(
    id: string,
    title: string,
    description: Option<string>,
    imageUrl: Option<string>,
    coverImagePath: Option<string>,
    hourlyRate: real,
    materials: Option<seq<Material>>,
    createdAt: int,
    updatedAt: int)

  /** The three statuses the `Material.status` union admits. */
  const Available := "available"
  const Unavailable := "unavailable"
  const Maintenance := "maintenance"

  /** LaboratoryFilters: every criterion is optional. */
  datatype LaboratoryFilters = LaboratoryFilters(
    search: Option<string>,
    minRate: Option<real>,
    maxRate: Option<real>)

  /** The laboratory form as the admin edits it. */
  datatype LaboratoryFormData = LaboratoryFormData(
    title: string,
    description: string,
    imageUrl: string,
    hourlyRate: real)

  /** The material form as the admin edits it. */
  datatype MaterialFormData = MaterialFormData(
    name: string,
    description: string,
    materialType: string,
    hourlyRate: real,
    isFree: bool,
    status: string)

  /** Identifiers of a list of laboratories, in list order (`labs.map(l => l._id)`). */
  function LabIds(labs: seq<Laboratory>): (ids: seq<string>)
    ensures |ids| == |labs|
    ensures forall i :: 0 <= i < |labs| ==> ids[i] == labs[i].id
  {
    seq(|labs|, i requires 0 <= i < |labs| => labs[i].id)
  }
}
