/** What the orchestrator sees of a round. */
module Rounds {
  import opened Wrappers

  datatype AuditFinding = AuditFinding(severity: Option<string>, criterion: Option<nat>, message: string)

  datatype VerificationOutcome = Pending | Achieved | Rejected(findings: seq<AuditFinding>)

  datatype OpenItem = OpenItem(id: Option<string>, summary: string)

  datatype OpenItems = OpenItems(items: seq<OpenItem>, acceptancePending: bool)

  /** `changedFiles` is None when the host could not read the workspace. */
  datatype RoundActivity = RoundActivity(
    changedFiles: Option<seq<string>>,
    toolsCalled: seq<string>,
    execed: seq<nat>,
    verified: seq<nat>,
    deferred: seq<nat>)

  predicate Worked(a: RoundActivity) {
    |a.toolsCalled| > 0
  }
}
