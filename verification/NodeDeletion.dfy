/** Whether a drained node is being deleted, and the results not yet reported (core/scale_down.go). */
module NodeDeletion {
  import opened Wrappers

  /** The outcome of deleting a node: no error, or what went wrong. */
  type DeleteResult = Option<string>

  class NodeDeleteStatus {
    var deleteInProgress: bool
    var nodeDeleteResults: map<string, DeleteResult>

    constructor ()
      ensures !deleteInProgress && nodeDeleteResults == map[]
    {
      deleteInProgress, nodeDeleteResults := false, map[];
    }

    method IsDeleteInProgress() returns (inProgress: bool)
      ensures inProgress == deleteInProgress
    {
      inProgress := deleteInProgress;
    }

    method SetDeleteInProgress(status: bool)
      modifies this`deleteInProgress
      ensures deleteInProgress == status
    {
      deleteInProgress := status;
    }

    method AddNodeDeleteResult(nodeName: string, result: DeleteResult)
      modifies this`nodeDeleteResults
      ensures nodeDeleteResults == old(nodeDeleteResults)[nodeName := result]
    {
      nodeDeleteResults := nodeDeleteResults[nodeName := result];
    }

    /** Hands out all results and forgets them. */
    method DrainNodeDeleteResults() returns (results: map<string, DeleteResult>)
      modifies this`nodeDeleteResults
      ensures results == old(nodeDeleteResults) && nodeDeleteResults == map[]
    {
      results := nodeDeleteResults;
      nodeDeleteResults := map[];
    }
  }
}
