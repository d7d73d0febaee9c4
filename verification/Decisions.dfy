/** The decision that the inspection hands to the queue worker. */
module Decisions {
  datatype WorkerDecision = APPROVE | REJECT | HITL
}
