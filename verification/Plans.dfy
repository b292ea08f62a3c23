/** The vocabulary of goal plans: step kinds, permission tiers, statuses. */
module Plans {
  import opened Texts

  /** A string in the place of a tier; only the first two are tiers. */
  datatype Tier = PatchProposal | WorkspaceWrite | UnknownTier(name: Text)

  /** A string in the place of a step kind; `UnknownKind` is any other string. */
  datatype Kind =
    | Review
    | Summarize
    | ProposePatch
    | ApplyPatch
    | RunCommand
    | WriteFile
    | DeleteFile
    | GitCommit
    | GitPush
    | UnknownKind(name: Text)

  datatype PlanStatus = PlanDraft | PlanAwaitingApproval | PlanApproved | PlanExecuting | PlanPaused | PlanDone | PlanCancelled

  /** The kinds that change state. */
  predicate Mutating(kind: Kind) {
    kind in {ApplyPatch, RunCommand, WriteFile, DeleteFile, GitCommit, GitPush}
  }
}
