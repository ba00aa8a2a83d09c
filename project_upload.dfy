/** The project upload form: at most five images with one preview each, a
    duplicate-free tag list, per-field validation messages merged into a map,
    the multipart chunk plan for large images, and the submit sequence
    (upload every image, then POST the project). Uploads and the POST are
    abstract results passed in by the caller. */
module ProjectUpload {
  import opened JsString
  import opened FormLists
  import opened Chunking

  const MaxImages: nat := 5
  /** `CHUNK_SIZE`: 5 MiB parts. */
  const ChunkSize: nat := 5 * 1024 * 1024
  /** Files above 50 MiB go through the multipart upload. */
  const MultipartThreshold: nat := 50 * 1024 * 1024

  // ---------------------------------------------------------------------
  // projectSchema

  datatype ProjectData = ProjectData(title: string, description: string, category: string, tags: seq<string>)

  datatype Issue =
    | TitleRequired | TitleTooLong
    | DescriptionTooShort | DescriptionTooLong
    | CategoryRequired
    | TagsRequired | TooManyTags

  /** The issues the schema reports, field by field, bounds checked min first. */
  function SchemaIssues(d: ProjectData): (r: seq<Issue>)
  {
    (if |d.title| < 1 then [TitleRequired] else [])
    + (if |d.title| > 100 then [TitleTooLong] else [])
    + (if |d.description| < 10 then [DescriptionTooShort] else [])
    + (if |d.description| > 1000 then [DescriptionTooLong] else [])
    + (if |d.category| < 1 then [CategoryRequired] else [])
    + (if |d.tags| < 1 then [TagsRequired] else [])
    + (if |d.tags| > 10 then [TooManyTags] else [])
  }

  /** The form is accepted iff title is 1..100 characters, description
      10..1000, a category is chosen and there are 1..10 tags. */
  lemma SchemaAccepts(d: ProjectData)
    ensures SchemaIssues(d) == [] <==>
      1 <= |d.title| <= 100 && 10 <= |d.description| <= 1000 && d.category != [] && 1 <= |d.tags| <= 10
  {
  }

  // ---------------------------------------------------------------------
  // validateField

  /** A field name other than the three that `validateField` checks. */
  type OtherName = s: string | s != "title" && s != "description" && s != "images" witness "tags"

  datatype Field = TitleField | DescriptionField | ImagesField | OtherField(name: OtherName)

  /** The untyped value handed to `validateField`: nothing, a string, or an
      array (only its length matters). */
  datatype FieldValue = Missing | Text(s: string) | Items(count: nat)

  /** `!value`: a missing value or the empty string; an array is always truthy. */
  predicate Falsy(v: FieldValue)
  {
    v.Missing? || (v.Text? && v.s == [])
  }

  function Length(v: FieldValue): nat
  {
    match v
    case Missing => 0
    case Text(s) => |s|
    case Items(n) => n
  }

  /** The key the error is stored under. */
  function FieldKey(f: Field): string
  {
    match f
    case TitleField => "title"
    case DescriptionField => "description"
    case ImagesField => "images"
    case OtherField(name) => name
  }

  /** Each field is stored under its own key, so one field's error never
      lands on another's. */
  lemma FieldKeyInjective(f: Field, g: Field)
    ensures FieldKey(f) == FieldKey(g) <==> f == g
  {
    if FieldKey(f) == FieldKey(g) {
      match f
      case OtherField(n) =>
        assert g.OtherField?;
      case _ =>
    }
  }

  const TitleRequiredMsg := "Tiêu đề là bắt buộc"
  const TitleTooLongMsg := "Tiêu đề không được quá 100 ký tự"
  const DescriptionTooLongMsg := "Mô tả không được quá 1000 ký tự"
  const DescriptionTooShortMsg := "Mô tả phải có ít nhất 10 ký tự"
  const ImagesRequiredMsg := "Vui lòng tải lên ít nhất 1 hình ảnh"
  const TooManyImagesMsg := "Chỉ được tải lên tối đa 5 hình ảnh"

  /** The error `validateField` records for one field, if any. */
  function FieldError(f: Field, v: FieldValue): Option<string>
  {
    match f
    case TitleField =>
      if Falsy(v) || Length(v) < 1 then Some(TitleRequiredMsg)
      else if Length(v) > 100 then Some(TitleTooLongMsg)
      else None
    case DescriptionField =>
      if !Falsy(v) && Length(v) > 1000 then Some(DescriptionTooLongMsg)
      else if Falsy(v) || Length(v) < 10 then Some(DescriptionTooShortMsg)
      else None
    case ImagesField =>
      if Falsy(v) || Length(v) == 0 then Some(ImagesRequiredMsg)
      else if Length(v) > 5 then Some(TooManyImagesMsg)
      else None
    case OtherField(_) => None
  }

  /** The accepted ranges of each field, and which message each failure gets. */
  lemma FieldErrorRules(f: Field, v: FieldValue)
    ensures f.TitleField? ==> (FieldError(f, v).None? <==> !Falsy(v) && 1 <= Length(v) <= 100)
    ensures f.TitleField? && !Falsy(v) && Length(v) > 100 ==> FieldError(f, v) == Some(TitleTooLongMsg)
    ensures f.DescriptionField? ==>
      (FieldError(f, v).None? <==> !Falsy(v) && 10 <= Length(v) <= 1000)
      && (FieldError(f, v) == Some(DescriptionTooLongMsg) <==> !Falsy(v) && Length(v) > 1000)
    ensures f.ImagesField? ==> (FieldError(f, v).None? <==> !Falsy(v) && 1 <= Length(v) <= 5)
    ensures f.ImagesField? && Falsy(v) ==> FieldError(f, v) == Some(ImagesRequiredMsg)
    ensures f.OtherField? ==> FieldError(f, v).None?
  {
  }

  /** On strings, the live check of title and description agrees with the schema. */
  lemma FieldErrorAgreesWithSchema(d: ProjectData)
    ensures FieldError(TitleField, Text(d.title)).None? <==>
      TitleRequired !in SchemaIssues(d) && TitleTooLong !in SchemaIssues(d)
    ensures FieldError(DescriptionField, Text(d.description)).None? <==>
      DescriptionTooShort !in SchemaIssues(d) && DescriptionTooLong !in SchemaIssues(d)
  {
  }

  /** `setValidationErrors(prev => ({...prev, ...errors}))`. */
  function MergeErrors(prev: map<string, string>, f: Field, v: FieldValue): (r: map<string, string>)
    ensures prev.Keys <= r.Keys
    ensures forall k :: k in prev && k != FieldKey(f) ==> r[k] == prev[k]
    ensures FieldError(f, v).Some? ==> FieldKey(f) in r && r[FieldKey(f)] == FieldError(f, v).value
    ensures r.Keys <= prev.Keys + {FieldKey(f)}
  {
    match FieldError(f, v)
    case Some(msg) => prev[FieldKey(f) := msg]
    case None => prev
  }

  /** A field that now passes keeps whatever error it had before. */
  lemma CorrectedFieldKeepsError(prev: map<string, string>, f: Field, v: FieldValue)
    requires FieldError(f, v).None?
    ensures MergeErrors(prev, f, v) == prev
  {
  }

  // ---------------------------------------------------------------------
  // Images

  /** `xs.filter((_, j) => j !== i)`. */
  function RemoveAt<T>(xs: seq<T>, i: int): (r: seq<T>)
    ensures 0 <= i < |xs| ==> (|r| == |xs| - 1
      && (forall k :: 0 <= k < i ==> r[k] == xs[k])
      && (forall k :: i <= k < |r| ==> r[k] == xs[k + 1]))
    ensures !(0 <= i < |xs|) ==> r == xs
  {
    if 0 <= i < |xs| then xs[..i] + xs[i + 1..] else xs
  }

  // ---------------------------------------------------------------------
  // uploadFileInChunks

  datatype Part = Part(partNumber: nat, range: Range)

  /** A small file goes up in one request; a large one as numbered parts. */
  datatype UploadPlan = SinglePut | Multipart(parts: seq<Part>)

  function RangesOf(parts: seq<Part>): (r: seq<Range>)
    ensures |r| == |parts| && forall i :: 0 <= i < |parts| ==> r[i] == parts[i].range
  {
    seq(|parts|, i requires 0 <= i < |parts| => parts[i].range)
  }

  /** The plan of `uploadFileInChunks`: above 50 MiB, ceil(size / 5 MiB)
      parts numbered from 1 that tile the file exactly. */
  method PlanUpload(size: nat) returns (plan: UploadPlan)
    ensures plan.Multipart? <==> size > MultipartThreshold
    ensures plan.Multipart? ==>
      |plan.parts| == CeilDiv(size, ChunkSize)
      && RangesOf(plan.parts) == Chunks(0, size, ChunkSize)
      && Tiles(RangesOf(plan.parts), 0, size, ChunkSize)
      && forall i :: 0 <= i < |plan.parts| ==> plan.parts[i].partNumber == i + 1
  {
    var totalChunks := CeilDiv(size, ChunkSize);
    if size > MultipartThreshold {
      ChunksCount(0, size, ChunkSize);
      var parts: seq<Part> := [];
      for i := 0 to totalChunks
        invariant |parts| == i
        invariant forall k :: 0 <= k < i ==> parts[k] == Part(k + 1, Chunks(0, size, ChunkSize)[k])
      {
        var start := i * ChunkSize;
        var end := Min(start + ChunkSize, size);
        ChunksAt(0, size, ChunkSize, i);
        parts := parts + [Part(i + 1, Range(start, end))];
      }
      ChunksTile(0, size, ChunkSize);
      plan := Multipart(parts);
    } else {
      plan := SinglePut;
    }
  }

  // ---------------------------------------------------------------------
  // The form

  /** The registered text inputs at submit time. */
  datatype FormInput = FormInput(title: string, description: string, category: string)

  /** The body POSTed to /api/projects: the form data plus the image URLs. */
  datatype ProjectPayload = ProjectPayload(
    title: string, description: string, category: string, tags: seq<string>, images: seq<string>)

  datatype SubmitOutcome =
    | NoImages
    | UploadFailed
    | PostFailed(body: ProjectPayload)
    | Created(body: ProjectPayload)

  class ProjectUploadForm {
    var images: seq<File>
    var previews: seq<string>
    var tags: seq<string>
    var currentTag: string
    var validationErrors: map<string, string>
    var isUploading: bool
    var showSuccessModal: bool

    /** One preview per image, never more than five images. */
    predicate Valid()
      reads this
    {
      |images| == |previews| <= MaxImages
    }

    constructor()
      ensures Valid()
      ensures images == [] && previews == [] && tags == [] && currentTag == ""
      ensures validationErrors == map[] && !isUploading && !showSuccessModal
    {
      images := [];
      previews := [];
      tags := [];
      currentTag := "";
      validationErrors := map[];
      isUploading := false;
      showSuccessModal := false;
    }

    /** `handleImageUpload`: `urls` are the object URLs made for `files`. */
    method HandleImageUpload(files: seq<File>, urls: seq<string>) returns (accepted: bool)
      requires Valid() && |urls| == |files|
      modifies this`images, this`previews
      ensures Valid()
      ensures accepted <==> |old(images)| + |files| <= MaxImages
      ensures images == if accepted then old(images) + files else old(images)
      ensures previews == if accepted then old(previews) + urls else old(previews)
    {
      if |files| + |images| > MaxImages {
        accepted := false;
        return;
      }
      accepted := true;
      images := images + files;
      previews := previews + urls;
    }

    /** `removeImage`: drops position `index` from both lists. */
    method RemoveImage(index: int)
      requires Valid()
      modifies this`images, this`previews
      ensures Valid()
      ensures images == RemoveAt(old(images), index) && previews == RemoveAt(old(previews), index)
    {
      images := RemoveAt(images, index);
      previews := RemoveAt(previews, index);
    }

    method AddTag()
      modifies this`tags, this`currentTag
      ensures tags == AddEntry(old(tags), old(currentTag)).entries
      ensures currentTag == AddEntry(old(tags), old(currentTag)).input
    {
      var edit := AddEntry(tags, currentTag);
      tags, currentTag := edit.entries, edit.input;
    }

    method RemoveTag(tag: string)
      modifies this`tags
      ensures tags == RemoveEntry(old(tags), tag)
    {
      tags := RemoveEntry(tags, tag);
    }

    /** `validateField`: records the field's error, if any, and reports whether there was none. */
    method ValidateField(f: Field, v: FieldValue) returns (ok: bool)
      modifies this`validationErrors
      ensures validationErrors == MergeErrors(old(validationErrors), f, v)
      ensures ok <==> FieldError(f, v).None?
    {
      validationErrors := MergeErrors(validationErrors, f, v);
      ok := FieldError(f, v).None?;
    }

    /** `onSubmit`. `uploaded` is the list of image URLs when every upload
        succeeded (None when one failed); `postOk` is the POST response's ok flag. */
    method Submit(input: FormInput, uploaded: Option<seq<string>>, postOk: bool) returns (outcome: SubmitOutcome)
      requires Valid()
      requires uploaded.Some? ==> |uploaded.value| == |images|
      modifies this`images, this`previews, this`tags, this`isUploading, this`showSuccessModal
      ensures Valid()
      ensures outcome == NoImages <==> old(images) == []
      ensures outcome == NoImages ==> isUploading == old(isUploading)
      ensures outcome != NoImages ==> !isUploading
      ensures outcome.UploadFailed? <==> old(images) != [] && uploaded.None?
      ensures outcome.Created? <==> old(images) != [] && uploaded.Some? && postOk
      ensures (outcome.PostFailed? || outcome.Created?) ==> (uploaded.Some? && outcome.body ==
        ProjectPayload(input.title, input.description, input.category, old(tags), uploaded.value))
      ensures outcome.Created? ==> images == [] && previews == [] && tags == [] && showSuccessModal
      ensures !outcome.Created? ==>
        images == old(images) && previews == old(previews) && tags == old(tags)
        && showSuccessModal == old(showSuccessModal)
    {
      if |images| == 0 {
        outcome := NoImages;
        return;
      }
      isUploading := true;
      if uploaded.None? {
        outcome := UploadFailed;
      } else {
        var body := ProjectPayload(input.title, input.description, input.category, tags, uploaded.value);
        if !postOk {
          outcome := PostFailed(body);
        } else {
          showSuccessModal := true;
          tags := [];
          images := [];
          previews := [];
          outcome := Created(body);
        }
      }
      isUploading := false;
    }
  }
}
