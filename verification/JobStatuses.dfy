/** The states of a job, shared by the job board, billing and reminders. */
module JobStatuses {
  datatype Status =
    | Created | Assigned | EnRoute | OnSite | PartsAwaited
    | CustomerUnavailable | WorkDone | SignedOff | Cancelled
}
