/** `DatasetProjector` (services/projectors.py): between the dataset the UI
    holds and the save request. Both operations are pure; neither changes
    the dataset, which the value semantics here make immediate. */
module Projectors {
  import Models
  import opened Dtos

  function ProjectNames(ps: seq<Models.Project>): (r: seq<string>)
    ensures |r| == |ps| && forall k :: 0 <= k < |ps| ==> r[k] == ps[k].name
  {
    seq(|ps|, k requires 0 <= k < |ps| => ps[k].name)
  }

  /** `from_ui_state(dataset, name)`. */
  function FromUiState(dataset: Models.DatasetContent, name: string): (r: SaveDatasetRequest)
    ensures r.name == name && r.sourceDataset == ""
    ensures |r.projects| == |dataset.projects|
    ensures forall k :: 0 <= k < |r.projects| ==> r.projects[k] == dataset.projects[k].name
    ensures r.inboxTasks == dataset.inboxTasks
  {
    SaveDatasetRequest(name, "", ProjectNames(dataset.projects), dataset.inboxTasks)
  }

  /** `project_for_save`: the dataset itself, whatever the request. */
  function ProjectForSave(dataset: Models.DatasetContent, request: SaveDatasetRequest): (r: Models.DatasetContent)
    ensures r == dataset
  {
    dataset
  }
}
