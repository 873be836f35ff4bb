/**
 * The work-job table (src/server/src/modules/work/model.js): a partner and a
 * task (required), an optional description, ticket id and time spent in
 * minutes, and the two Sequelize timestamps. A table is a map from id to row.
 */
module WorkSchema {
  import opened Wrappers

  const PartnerMax: nat := 128
  const TaskMax: nat := 256
  const TicketIdMax: nat := 64

  /** A row; `createdAt` and `updatedAt` are the timestamps Sequelize maintains (ms). */
  datatype Work = Work(
    id: nat,
    partner: string,
    task: string,
    description: Option<string>,
    ticketId: Option<string>,
    timeSpent: Option<int>,
    createdAt: nat,
    updatedAt: nat)

  /** The `STRING(n)` lengths; `description` is `TEXT` and has none the model needs. */
  predicate WorkFits(w: Work) {
    |w.partner| <= PartnerMax && |w.task| <= TaskMax && (w.ticketId.None? || |w.ticketId.value| <= TicketIdMax)
  }

  /** Every row sits under its own id, below the next id, and fits its columns. */
  predicate WorkTableOk(items: map<nat, Work>, next: nat) {
    forall k :: k in items ==> items[k].id == k && k < next && WorkFits(items[k])
  }
}
