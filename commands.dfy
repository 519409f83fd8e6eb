/** `SaveDatasetCommand` (services/commands.py): validate the request,
    project the dataset, hand it to the dataset manager and turn the
    manager's reply into a response. */
module Commands {
  import opened Wrappers
  import Models
  import opened Dtos
  import opened Projectors
  import opened Services

  /** The response built from the manager's reply: `success` copied,
      the message taken from "message", else "error", else empty, the name
      reported only on success, and the kind copied. */
  function Respond(name: string, reply: SaveReply): (r: SaveDatasetResponse)
    ensures r.success == reply.success
    ensures r.datasetName == (if reply.success then Some(name) else None)
    ensures reply.message.Some? ==> r.message == reply.message.value
    ensures reply.message.None? && reply.error.Some? ==> r.message == reply.error.value
    ensures reply.message.None? && reply.error.None? ==> r.message == ""
    ensures r.errorType == reply.kind
  {
    SaveDatasetResponse(
      reply.success,
      reply.message.GetOr(reply.error.GetOr("")),
      if reply.success then Some(name) else None,
      reply.kind)
  }

  /** The whole command on values: the response for a request, the dataset
      it is built from and the manager's saver. */
  function ExecuteSpec(request: SaveDatasetRequest, source: Models.DatasetContent,
                       outcomeOf: (string, Models.DatasetContent) -> SaverOutcome): SaveDatasetResponse
  {
    match Validate(request)
    case Some(e) => SaveDatasetResponse(false, e, None, Some("validation"))
    case None =>
      var content := ProjectForSave(source, request);
      Respond(request.name, ReplyFor(request.name, outcomeOf(request.name, content)))
  }

  /** End to end: the command succeeds exactly when both name checks pass
      and the write goes through; a refused request reports "validation"
      with the request's own message; on success the name is reported and
      the message is the manager's confirmation. */
  lemma ExecuteOutcomes(request: SaveDatasetRequest, source: Models.DatasetContent,
                        outcomeOf: (string, Models.DatasetContent) -> SaverOutcome)
    ensures var r := ExecuteSpec(request, source, outcomeOf);
      && (r.success <==> Validate(request).None? && GoodName(request.name) && outcomeOf(request.name, source) == Written)
      && (Validate(request).Some? ==> r.errorType == Some("validation") && r.message == Validate(request).value)
      && (r.success ==> r.datasetName == Some(request.name)
                        && r.message == "Dataset '" + request.name + "' saved successfully" && r.errorType.None?)
      && (!r.success ==> r.datasetName.None? && r.errorType.Some?)
  {
  }

  /** The manager's stricter check reaches the user through the command:
      "invalid@name!" passes the request check, and the response carries the
      manager's character message with kind "validation". */
  lemma ManagerCatchesBadCharacters(source: Models.DatasetContent,
                                    outcomeOf: (string, Models.DatasetContent) -> SaverOutcome)
    ensures var request := SaveDatasetRequest("invalid@name!", "", [], []);
      && Validate(request).None?
      && ExecuteSpec(request, source, outcomeOf) == SaveDatasetResponse(false, BadCharsError, None, Some("validation"))
  {
    var request := SaveDatasetRequest("invalid@name!", "", [], []);
    BadCharacterRefused();
  }

  /** Every name the manager accepts, the request check accepts too. */
  lemma ManagerNamesPassRequest(name: string)
    requires GoodName(name)
    ensures Validate(SaveDatasetRequest(name, "", [], [])).None?
  {
    CleanedNameIsAlnum(name);
  }

  /** The command's projector is `Projectors.ProjectForSave` itself rather
      than a constructor argument: every caller passes a `DatasetProjector`
      or a stand-in that returns its dataset, and both behave as it does. */
  class SaveDatasetCommand {
    const manager: DatasetManager

    constructor (manager: DatasetManager)
      ensures this.manager == manager
    {
      this.manager := manager;
    }

    /** `execute`: a refused request returns at once and leaves the manager
        untouched; an accepted one calls `save_dataset` once, with the
        request's name and the projected dataset, which writes exactly when
        the manager's own name check passes. */
    method Execute(request: SaveDatasetRequest, source: Models.DatasetContent) returns (r: SaveDatasetResponse)
      modifies manager
      ensures r == ExecuteSpec(request, source, manager.outcomeOf)
      ensures Validate(request).Some? ==> manager.calls == old(manager.calls) && manager.writes == old(manager.writes)
      ensures Validate(request).None? ==> manager.calls == old(manager.calls) + [(request.name, source)]
      ensures Validate(request).None? ==>
        manager.writes == old(manager.writes) + (if ValidateDatasetName(request.name) == "" then [(request.name, source)] else [])
    {
      var validationError := Validate(request);
      if validationError.Some? {
        return SaveDatasetResponse(false, validationError.value, None, Some("validation"));
      }
      var content := ProjectForSave(source, request);
      var reply := manager.SaveDataset(request.name, content);
      r := Respond(request.name, reply);
    }
  }
}
