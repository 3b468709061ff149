/** What one transition asks of the transaction boundary, and the audit facts it
    reports. */
module Changes {
  import opened Domain
  import opened State
  import opened Catalogue

  datatype AuditName = RequestReceived | Decided | RequestOutcome

  datatype Outcome = Accepted | Succeeded | Declined | Failed | Stale | Superseded | Replayed | Refused(reason: Reason)

  datatype AuditMode = NoMode | CommandMode(mode: ApprovalMode) | TransitionMode

  datatype Audit = Audit(name: AuditName, outcome: Outcome, requestId: string, mode: AuditMode)

  /** A transition either leaves the aggregate alone, stores replay records only, or
      is accepted as the next revision. */
  datatype Change = Reject(audits: seq<Audit>) | Persist(rt: Runtime, audits: seq<Audit>)
    | Accept(rt: Runtime, audits: seq<Audit>)

  // A request and the answer its sender gets.
  datatype Reply = Reply(result: ActionResult, change: Change)

  /** What the collaborators contribute to one transition: the catalogue as it is
      now, the next identifier, a freshly generated puzzle if there is one, whether the
      terminal runtime delivers a checkpoint, and the replay-cache bound. */
  datatype Env = Env(catalog: Catalog, id: string, board: Option<HackState>, delivered: bool, limit: nat)
}
