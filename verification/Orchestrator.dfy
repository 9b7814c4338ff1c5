/** The seam between the mine and whatever runs its work:
    internal/orchestrator/orchestrator.go. */
module Orchestrator {
  import opened Basics

  /** What the mine believes of an event, which is why its work is moved. */
  datatype EventState = Unset | Unknown | Kept | Decayed | Promoted

  /** The mine telling the queue that a job it holds has become more or less important. */
  datatype Update = Update(at: Time, job: JobId, priority: Priority, reason: EventState, restart: bool, exempt: bool)

  /** What became of a batch of updates. */
  datatype Applied = Applied(changed: nat, tooLate: nat) {
    function Plus(other: Applied): Applied { Applied(changed + other.changed, tooLate + other.tooLate) }
  }

  /** What one interval produced. */
  datatype Progress = Progress(completed: nat, breached: nat, finished: seq<JobId>)
}
