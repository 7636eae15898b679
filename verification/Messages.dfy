/** The message every component passes around (CommunicationInterface.h). */
module Messages {
  import opened Wrappers

  datatype Source = Lower | Upper | Self

  /** `request` is complementary_value; `cycle` is stamped when the message is emitted. */
  datatype Message = Message(msgId: nat, addr: nat, cycle: nat, request: nat, owner: nat, source: Source,
                             data: Option<seq<bv8>>)
  {
    /** A Load/Store or GetS/GetM coming up from below, without data. */
    predicate IsDemandRequest() { source == Lower && data.None? && (request == 0 || request == 1) }

    /** A back-invalidation (INV = 10). */
    predicate IsInvalidation() { request == 10 && data.None? }

    /** What the per-line gate of the processing queue keeps in order. */
    predicate IsOrdered() { IsDemandRequest() || IsInvalidation() }
  }
}
