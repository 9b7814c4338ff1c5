/** The jobs a run replays: internal/workload/generate.go. */
module Work {
  import opened Basics

  datatype Stage = StagePick | StageAssociate | StageLocate

  /** For sweeps, which are of many events at once. */
  const NO_EVENT := -1

  datatype Job = Job(id: JobId, submittedAt: Time, priority: Priority, seconds: Effort, event: int, stage: Stage)
}
