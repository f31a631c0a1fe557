/** The till's side of the protocol: what is sent, and what is done with the answers. */
module SyncEngine {
  import opened Sums
  import opened Tables
  import opened Sales
  import opened Sync
  import opened LocalTables
  import opened LocalSales

  // ---------- From a local sale to its event ----------

  function ToCents(amount: int): int {
    100 * amount
  }

  function ItemPayload(item: LocalItem): ItemInput {
    ItemInput(item.product, item.name, ItemMilli(item), Some(ToCents(item.unitPrice)),
              if item.catalogPrice.Some? && item.catalogPrice.value != 0 then Some(ToCents(item.catalogPrice.value))
                else None)
  }

  function LegPayload(p: LocalPayment): Leg {
    if p.paidBy.Cash? then Leg(Cash, ToCents(p.amount), Some(ToCents(OrElse(p.received, 0))))
    else Leg(p.paidBy, ToCents(p.amount), None)
  }

  function OnBook(s: LocalSale): bool {
    s.customer.Some? && OrElse(s.credit, 0) > 0
  }

  function ItemPayloads(items: seq<LocalItem>): seq<ItemInput> {
    seq(|items|, i requires 0 <= i < |items| => ItemPayload(items[i]))
  }

  function LegPayloads(payments: seq<LocalPayment>): seq<Leg> {
    seq(|payments|, i requires 0 <= i < |payments| => LegPayload(payments[i]))
  }

  function ToSyncEvent(s: LocalSale): SyncEvent {
    SyncEvent(s.event, s.id, s.createdAt, s.session, ItemPayloads(s.items), LegPayloads(s.payments),
      if OnBook(s) then s.customer else None,
      if OnBook(s) then ToCents(OrElse(s.credit, 0)) else 0)
  }

  // ---------- Answers ----------

  datatype Reply = Confirmed(serverId: Uuid) | Refused(code: Code) | NoResult

  /** Conflicts and rejections end alike; an event without a result stays pending. */
  function ReplyOf(outcome: Outcome): Reply {
    match outcome
    case Synced(entity) => Confirmed(entity)
    case AlreadyProcessed(entity) => Confirmed(entity)
    case Conflict(code) => Refused(code)
    case Rejected(code) => Refused(code)
    case Failed => NoResult
  }

  function Applied(t: Till, id: Uuid, reply: Reply): Till {
    match reply
    case Confirmed(serverId) => SyncedTill(t, id, serverId)
    case Refused(code) => ConflictTill(t, id, code)
    case NoResult => t
  }

  method ApplyResult(db: TillDb, id: Uuid, reply: Reply)
    modifies db
    ensures db.Snapshot() == Applied(old(db.Snapshot()), id, reply)
  {
    match reply {
      case Confirmed(serverId) => MarkLocalSaleSynced(db, id, serverId);
      case Refused(code) => MarkLocalSaleConflict(db, id, code);
      case NoResult =>
    }
  }

  /** What a pending sale becomes: synchronised when the server has it, in conflict with the
      reason it was refused for, and still pending when nothing is known of it. */
  lemma {:induction false} AnswerTaken(t: Till, id: Uuid, outcome: Outcome)
    requires id in t.sales && t.sales[id].status == PendingSync
    ensures id in Applied(t, id, ReplyOf(outcome)).sales
    ensures var (before, after) := (t.sales[id], Applied(t, id, ReplyOf(outcome)).sales[id]);
            match outcome
            case Synced(entity) => after == before.(status := SyncDone, serverId := Some(entity), conflict := None)
            case AlreadyProcessed(entity) =>
              after == before.(status := SyncDone, serverId := Some(entity), conflict := None)
            case Conflict(code) => after == before.(status := InConflict, conflict := Some(code))
            case Rejected(code) => after == before.(status := InConflict, conflict := Some(code))
            case Failed => Applied(t, id, ReplyOf(outcome)) == t
  {
  }
}
