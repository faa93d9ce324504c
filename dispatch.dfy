/** The request checks and the backend choice of `bulk_upload`
    (backend/waybill/views.py:298-371): an upload is refused before any
    image is stored when it has no image, names no known extraction model,
    or names a backend whose credentials are not configured; otherwise each
    image goes to the backend the model's name selects. */
module Dispatch {
  import opened Common
  import opened Strings

  datatype Backend = TextractBackend | MistralBackend

  /** "aws textract", in any letter case, selects the geometric OCR service;
      "mistral" and every other name select the markdown OCR service. */
  function SelectBackend(modelName: string): (r: Backend)
    ensures r == TextractBackend <==> Lower(modelName) == "aws textract"
  {
    if Lower(modelName) == "aws textract" then TextractBackend
    else if Lower(modelName) == "mistral" then MistralBackend
    else MistralBackend
  }

  /** Why an upload request is refused before any image is processed. */
  datatype Rejection = NoImages | InvalidModel | AwsNotConfigured | MistralNotConfigured

  /** The HTTP status each refusal is answered with. */
  function StatusOf(r: Rejection): (code: int)
    ensures code == 400 || code == 503
    ensures code == 400 <==> r == NoImages || r == InvalidModel
  {
    match r
    case NoImages => 400
    case InvalidModel => 400
    case AwsNotConfigured => 503
    case MistralNotConfigured => 503
  }

  /** The checks in their source order. `modelName` is the name of the
      extraction model the request names, `None` when no such model exists;
      `awsKeySet` and `mistralKeySet` say whether the credentials are set. */
  function CheckUpload(imageCount: nat, modelName: Option<string>, awsKeySet: bool, mistralKeySet: bool)
    : (r: Option<Rejection>)
    ensures r == Some(NoImages) <==> imageCount == 0
    ensures r.None? ==> imageCount > 0 && modelName.Some?
    ensures r.None? && SelectBackend(modelName.value) == TextractBackend ==> awsKeySet
  {
    if imageCount == 0 then Some(NoImages)
    else if modelName.None? then Some(InvalidModel)
    else if Lower(modelName.value) == "aws textract" && !awsKeySet then Some(AwsNotConfigured)
    else if Lower(modelName.value) == "mistral" && !mistralKeySet then Some(MistralNotConfigured)
    else None
  }

  /** An upload passes the checks exactly when it has an image, names a
      model, and the credentials of a backend named explicitly are set. */
  lemma AcceptedUploads(imageCount: nat, modelName: Option<string>, awsKeySet: bool, mistralKeySet: bool)
    ensures CheckUpload(imageCount, modelName, awsKeySet, mistralKeySet).None? <==>
      imageCount > 0 && modelName.Some?
      && (Lower(modelName.value) == "aws textract" ==> awsKeySet)
      && (Lower(modelName.value) == "mistral" ==> mistralKeySet)
    ensures (CheckUpload(imageCount, modelName, awsKeySet, mistralKeySet).None?
             && SelectBackend(modelName.value) == TextractBackend) ==> awsKeySet
  {
  }

  /** A missing image is reported first, whatever else is wrong. */
  lemma NoImagesFirst(modelName: Option<string>, awsKeySet: bool, mistralKeySet: bool)
    ensures CheckUpload(0, modelName, awsKeySet, mistralKeySet) == Some(NoImages)
  {
  }

  /** The choice ignores letter case. */
  lemma SelectionIgnoresCase(modelName: string)
    ensures SelectBackend(Lower(modelName)) == SelectBackend(modelName)
  {
    LowerIdempotent(modelName);
  }

  /** A model with any other name is processed by the markdown OCR service,
      but its credentials are not checked first: with them missing the
      upload is accepted all the same. */
  lemma FallbackNameSkipsCredentialCheck()
    ensures SelectBackend("other") == MistralBackend
    ensures CheckUpload(1, Some("other"), true, false) == None
  {
    LowerWithoutCapitals("other");
  }
}
