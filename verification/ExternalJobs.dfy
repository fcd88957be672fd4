/** The external backup job of a domain, as its start call, its writer and an inspection show it. */
module ExternalJobs {

  /** What the external job really does. */
  datatype Writer = Idle | Active | Finished

  /** What a live inspection of the domain reports; an active job without a readable description, or an
      unexpected job state, is `Unclear`. */
  datatype Inspection = NoJob | Match | Mismatch | Unclear | InspectionRaises

  /** A domain without a job is never reported while the writer is active, and its identity is only ever
      recognised in the writer itself. */
  predicate Truthful(inspection: Inspection, writer: Writer) {
    (writer.Active? ==> !inspection.NoJob?) && (inspection.Match? ==> writer.Active?)
  }

  /** The outcome of the start call. A rejection is definite; any other error may hide an effect: a call
      that timed out may have been accepted. */
  datatype Begin = Accepted | Rejected | Ambiguous(started: bool)

  /** What the start call leaves. */
  function WriterAfter(begin: Begin): Writer {
    if begin.Accepted? || begin == Ambiguous(true) then Active else Idle
  }
}
