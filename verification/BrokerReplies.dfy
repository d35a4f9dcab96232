/** What the replies of the broker tell the tracee. */
module BrokerReplies {
  import opened Bytes
  import opened BrokerEnv
  import opened BrokerLog
  import opened BrokerSpec

  /** A success without an effect: the fsopen descriptor that was handed over but
      for which no lease could be stored. */
  predicate Leaseless(r: Request, k: Kernel) {
    r.Fsopen? && !k.memory
  }

  /** The tracee sees no success, and gets no descriptor, for a request without an
      effect that the law justifies. */
  lemma {:induction false} SuccessHasEffect(al: Allowlist, log: Log, r: Request, k: Kernel)
    requires !OutcomeOf(al, log, r, k).reply.Errno? && !Leaseless(r, k)
    ensures OutcomeOf(al, log, r, k).events != []
  {
  }
}
