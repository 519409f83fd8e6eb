/** The save-dataset request and response (models/dtos.py). */
module Dtos {
  import opened Text
  import opened Wrappers

  datatype SaveDatasetRequest = SaveDatasetRequest(
    name: string,
    sourceDataset: string,
    projects: seq<string>,
    inboxTasks: seq<string>)

  datatype SaveDatasetResponse = SaveDatasetResponse(
    success: bool,
    message: string,
    datasetName: Option<string>,
    errorType: Option<string>)

  const EmptyNameMessage: string := "Dataset name cannot be empty"
  const LongNameMessage: string := "Dataset name too long"
  const MaxNameLength: nat := 50

  /** `SaveDatasetRequest.validate`: no message exactly when the stripped
      name is non-empty and the raw name has at most 50 characters. The
      blank check comes first, so a long blank name reports emptiness. */
  function Validate(r: SaveDatasetRequest): (e: Option<string>)
    ensures e.None? <==> !IsBlank(r.name) && |r.name| <= MaxNameLength
    ensures IsBlank(r.name) ==> e == Some(EmptyNameMessage)
    ensures !IsBlank(r.name) && |r.name| > MaxNameLength ==> e == Some(LongNameMessage)
  {
    if Strip(r.name) == [] then Some(EmptyNameMessage)
    else if |r.name| > MaxNameLength then Some(LongNameMessage)
    else None
  }

  /** The length limit counts surrounding whitespace: a 49-character name
      padded with two spaces is refused although its stripped form fits. */
  lemma LengthCountsPadding(core: string)
    requires |core| == 49 && IsAlnum(core)
    ensures Validate(SaveDatasetRequest(core, "", [], [])).None?
    ensures Validate(SaveDatasetRequest(" " + core + " ", "", [], [])) == Some(LongNameMessage)
  {
    var padded := " " + core + " ";
    assert padded[1] == core[0];
    assert !IsSpace(padded[1]);
    assert !IsSpace(core[0]);
  }

  /** A blank name of any length reports emptiness, never length. */
  lemma BlankCheckedFirst(n: nat)
    requires n > MaxNameLength
    ensures Validate(SaveDatasetRequest(seq(n, _ => ' '), "", [], [])) == Some(EmptyNameMessage)
  {
  }

  /** `SaveDatasetResponse(success, message)`. */
  function NewResponse(success: bool, message: string): (r: SaveDatasetResponse)
    ensures r.success == success && r.message == message
    ensures r.datasetName.None? && r.errorType.None?
  {
    SaveDatasetResponse(success, message, None, None)
  }
}
