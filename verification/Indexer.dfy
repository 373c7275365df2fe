/**
  The indexer itself: the repository over the tables, the event handlers, and the block
  transaction.
 */
module Indexer {
  import opened Wrappers
  import opened Chain
  import opened Ledger
  import opened Tables
  import opened Effects

  /** The PostgreSQL repository (indexer/internal/repository). */
  class Repository {
    var tokens: map<TokenKey, TokenRow>
    var transfers: seq<TransferRow>
    var transferStatuses: seq<StatusRow<Status>>
    var orders: seq<OrderRow>
    var orderStatuses: seq<StatusRow<OrderStatus>>
    var nextTransferId: nat
    var nextOrderId: nat

    constructor ()
      ensures Rows() == Db(map[], [], [], [], [], 1, 1)
    {
      tokens, transfers, transferStatuses, orders, orderStatuses := map[], [], [], [], [];
      nextTransferId, nextOrderId := 1, 1;
    }

    function Rows(): Db
      reads this
    {
      Db(tokens, transfers, transferStatuses, orders, orderStatuses, nextTransferId, nextOrderId)
    }

    /** INSERT INTO transfers; fails when the token does not exist.  The id is consumed either way. */
    method InsertTransfer(token: TokenKey, from: Address, to: Address, number: nat) returns (id: Option<nat>)
      modifies this`transfers, this`nextTransferId
      ensures nextTransferId == old(nextTransferId) + 1
      ensures id == if token in tokens then Some(old(nextTransferId)) else None
      ensures transfers == if id.None? then old(transfers)
        else old(transfers) + [TransferRow(id.value, token, from, to, false, "", "", number)]
    {
      var next := nextTransferId;
      nextTransferId := next + 1;
      if token !in tokens { return None; }
      transfers := transfers + [TransferRow(next, token, from, to, false, "", "", number)];
      return Some(next);
    }

    /** UPDATE transfers SET to_address, fraud_approved, public_key, encrypted_password WHERE id. */
    method UpdateTransfer(row: TransferRow, ghost n: nat)
      requires n < |transfers| && forall i :: 0 <= i < |transfers| ==> (transfers[i].id == row.id <==> i == n)
      requires row.token == transfers[n].token && row.from == transfers[n].from && row.number == transfers[n].number
      modifies this`transfers
      ensures transfers == old(transfers)[n := row]
    {
      var rows := transfers;
      transfers := seq(|rows|, i requires 0 <= i < |rows| =>
        if rows[i].id == row.id
        then rows[i].(to := row.to, fraudApproved := row.fraudApproved, key := row.key, password := row.password)
        else rows[i]);
    }

    /** INSERT INTO transfer_statuses; fails on a taken (transfer_id, timestamp). */
    method InsertTransferStatus(transferId: nat, timestamp: int, status: Status, tx: Hash) returns (ok: bool)
      modifies this`transferStatuses
      ensures ok == !TakenKey(old(transferStatuses), transferId, timestamp)
      ensures transferStatuses == if ok then old(transferStatuses) + [StatusRow(transferId, timestamp, status, tx)]
                                  else old(transferStatuses)
    {
      ok := !TakenKey(transferStatuses, transferId, timestamp);
      if ok { transferStatuses := transferStatuses + [StatusRow(transferId, timestamp, status, tx)]; }
    }

    method InsertOrder(transferId: nat, price: nat) returns (id: nat)
      modifies this`orders, this`nextOrderId
      ensures id == old(nextOrderId) && nextOrderId == id + 1
      ensures orders == old(orders) + [OrderRow(id, transferId, price)]
    {
      id := nextOrderId;
      nextOrderId := id + 1;
      orders := orders + [OrderRow(id, transferId, price)];
    }

    method InsertOrderStatus(orderId: nat, timestamp: int, status: OrderStatus, tx: Hash) returns (ok: bool)
      modifies this`orderStatuses
      ensures ok == !TakenKey(old(orderStatuses), orderId, timestamp)
      ensures orderStatuses == if ok then old(orderStatuses) + [StatusRow(orderId, timestamp, status, tx)]
                               else old(orderStatuses)
    {
      ok := !TakenKey(orderStatuses, orderId, timestamp);
      if ok { orderStatuses := orderStatuses + [StatusRow(orderId, timestamp, status, tx)]; }
    }

    /** The order the ending events write to: transfer.OrderId, provided GetActiveOrder finds an
        order at all. */
    method OrderOfActive(k: TokenKey, n: nat) returns (id: Option<nat>)
      requires ActiveTransferRow(Rows(), k) == Some(n)
      ensures n < |transfers|
      ensures var o := OrderRowOf(orders, transfers[n].id); id == if o.Some? then Some(o.value.id) else None
    {
      var order := OrderRowOf(orders, transfers[n].id);
      var activeOrder := ActiveOrderRow(Rows(), k);
      if order.Some? {
        assert transfers[n] in transfers;
        assert SelectsOrder(Rows(), k, order.value);
      }
      if order.Some? && activeOrder.Some? { return Some(order.value.id); }
      return None;
    }

    /** ROLLBACK: the tables return to the snapshot, the sequences do not. */
    method Rollback(saved: Db)
      modifies this
      ensures Rows() == saved.(nextTransferId := old(nextTransferId), nextOrderId := old(nextOrderId))
    {
      tokens, transfers, transferStatuses := saved.tokens, saved.transfers, saved.transferStatuses;
      orders, orderStatuses := saved.orders, saved.orderStatuses;
    }
  }

  /** The time between two readings of the clock, for the two readings of one handler. */
  datatype Tick = Tick(first: nat, second: nat)

  /** The machine's clock, which does not run backwards. */
  class Clock {
    var now: int

    constructor (now: int)
      ensures this.now == now
    {
      this.now := now;
    }

    method Read(elapsed: nat) returns (time: int)
      modifies this
      ensures time == now == old(now) + elapsed
    {
      now := now + elapsed;
      time := now;
    }
  }

  class Service {
    const repository: Repository
    const clock: Clock

    constructor (repository: Repository, clock: Clock)
      ensures this.repository == repository && this.clock == clock
    {
      this.repository, this.clock := repository, clock;
    }

    /** Integrity, and no timestamp in the future. */
    ghost predicate Healthy()
      reads this, repository, clock
    {
      Valid(repository.Rows(), clock.now)
    }

    method OnMint(l: Log, r: Round) returns (ok: bool)
      requires l.event.Mint?
      modifies repository
      ensures Done(old(repository.Rows()), repository.Rows(), l, r, ok)
    {
      // The block is fetched again for its timestamp; a failure drops the mint silently.
      if r.weather.LookupFails? { return true; }
      var token := TokenKey(l.txTo, l.token);
      if token in repository.tokens { return true; }
      // metadata and royalty
      if r.weather.CallFails? { return false; }
      repository.tokens := repository.tokens[token := TokenRow(l.event.owner, l.tx)];
      return true;
    }

    method OnTransferInit(l: Log, r: Round) returns (ok: bool)
      requires l.event.TransferInit?
      modifies repository
      ensures Done(old(repository.Rows()), repository.Rows(), l, r, ok)
    {
      if SeenRow(repository.Rows(), l.token, Created, l.tx) { return true; }
      if l.Key() !in repository.tokens { return true; }
      if r.weather.CallFails? { return false; }
      var id := repository.InsertTransfer(TokenKey(l.txTo, l.token), l.event.from, l.event.to, l.event.number);
      if id.None? { return false; }
      ok := repository.InsertTransferStatus(id.value, r.first, Created, l.tx);
    }

    method OnTransferDraft(l: Log, r: Round) returns (ok: bool)
      requires l.event.TransferDraft?
      modifies repository
      ensures Done(old(repository.Rows()), repository.Rows(), l, r, ok)
    {
      if SeenRow(repository.Rows(), l.token, Drafted, l.tx) { return true; }
      if l.Key() !in repository.tokens { return true; }
      // getExchangeOrder: no order is an error like any other
      if r.weather.CallFails? || l.event.answer.None? { return false; }
      var id := repository.InsertTransfer(l.Key(), l.event.from, ZERO_ADDRESS, l.event.number);
      if id.None? { return false; }
      ok := repository.InsertTransferStatus(id.value, r.second, Drafted, l.tx);
      if !ok { return; }
      var orderId := repository.InsertOrder(id.value, l.event.answer.value);
      ok := repository.InsertOrderStatus(orderId, r.first, Placed, l.tx);
    }

    method OnDraftCompletion(l: Log, r: Round) returns (ok: bool)
      requires l.event.DraftCompletion? && Sound(repository.Rows())
      modifies repository
      ensures Done(old(repository.Rows()), repository.Rows(), l, r, ok)
    {
      hide SeenRow, TakenKey, ActiveOrderRow, IsLatest, Refers;
      ghost var before := repository.Rows();
      if SeenRow(repository.Rows(), l.token, Created, l.tx) { return true; }
      if l.Key() !in repository.tokens { return true; }
      var active := ActiveTransferRow(repository.Rows(), l.Key());
      if active.None? { return false; }
      var transfer := repository.transfers[active.value];
      var order := OrderRowOf(repository.orders, transfer.id);
      if order.None? { return false; }
      repository.UpdateTransfer(transfer.(to := l.event.to), active.value);
      ok := repository.InsertTransferStatus(transfer.id, r.first, Created, l.tx);
      if !ok { return; }
      ok := repository.InsertOrderStatus(order.value.id, r.first, Fulfilled, l.tx);
      assert ok ==> Advances(before, repository.Rows(), active.value, l.event, l.tx, r.first);
      // the profiles for the e-mail
      ok := ok && !r.weather.CallFails?;
    }

    method OnPublicKeySet(l: Log, r: Round) returns (ok: bool)
      requires l.event.PublicKeySet? && Sound(repository.Rows())
      modifies repository
      ensures Done(old(repository.Rows()), repository.Rows(), l, r, ok)
    {
      hide SeenRow, TakenKey, ActiveOrderRow, IsLatest, Refers;
      ghost var before := repository.Rows();
      if SeenRow(repository.Rows(), l.token, PublicKeySaved, l.tx) { return true; }
      if l.Key() !in repository.tokens { return true; }
      var active := ActiveTransferRow(repository.Rows(), l.Key());
      if active.None? || r.weather.CallFails? { return false; }
      var transfer := repository.transfers[active.value];
      ok := repository.InsertTransferStatus(transfer.id, r.first, PublicKeySaved, l.tx);
      if !ok { return; }
      repository.UpdateTransfer(transfer.(key := l.event.key), active.value);
      assert ok ==> Advances(before, repository.Rows(), active.value, l.event, l.tx, r.first);
    }

    method OnPasswordSet(l: Log, r: Round) returns (ok: bool)
      requires l.event.PasswordSet? && Sound(repository.Rows())
      modifies repository
      ensures Done(old(repository.Rows()), repository.Rows(), l, r, ok)
    {
      hide SeenRow, TakenKey, ActiveOrderRow, IsLatest, Refers;
      ghost var before := repository.Rows();
      if SeenRow(repository.Rows(), l.token, PasswordSaved, l.tx) { return true; }
      if l.Key() !in repository.tokens { return true; }
      var active := ActiveTransferRow(repository.Rows(), l.Key());
      if active.None? { return false; }
      var transfer := repository.transfers[active.value];
      ok := repository.InsertTransferStatus(transfer.id, r.first, PasswordSaved, l.tx);
      if !ok { return; }
      repository.UpdateTransfer(transfer.(password := l.event.password), active.value);
      assert ok ==> Advances(before, repository.Rows(), active.value, l.event, l.tx, r.first);
      // the profiles for the e-mail
      ok := !r.weather.CallFails?;
    }

    method OnTransferFinish(l: Log, r: Round) returns (ok: bool)
      requires l.event.TransferFinished? && Sound(repository.Rows())
      modifies repository
      ensures Done(old(repository.Rows()), repository.Rows(), l, r, ok)
    {
      hide SeenRow, TakenKey, ActiveOrderRow, IsLatest, Refers;
      ghost var before := repository.Rows();
      if SeenRow(repository.Rows(), l.token, Finished, l.tx) { return true; }
      if l.Key() !in repository.tokens { return true; }
      var active := ActiveTransferRow(repository.Rows(), l.Key());
      if active.None? || r.weather.CallFails? { return false; }
      var transfer := repository.transfers[active.value];
      var order := repository.OrderOfActive(l.Key(), active.value);
      ok := repository.InsertTransferStatus(transfer.id, r.first, Finished, l.tx);
      if !ok { return; }
      if order.Some? {
        ok := repository.InsertOrderStatus(order.value, r.first, Paid, l.tx);
        if !ok { return; }
      }
      repository.tokens := repository.tokens[l.Key() := repository.tokens[l.Key()].(owner := transfer.to)];
      assert ok ==> Advances(before, repository.Rows(), active.value, l.event, l.tx, r.first);
    }

    method OnFraudReported(l: Log, r: Round) returns (ok: bool)
      requires l.event.FraudReported? && Sound(repository.Rows())
      modifies repository
      ensures Done(old(repository.Rows()), repository.Rows(), l, r, ok)
    {
      if SeenRow(repository.Rows(), l.token, Reported, l.tx) { return true; }
      if l.Key() !in repository.tokens { return true; }
      var active := ActiveTransferRow(repository.Rows(), l.Key());
      if active.None? || r.weather.CallFails? { return false; }
      ok := repository.InsertTransferStatus(repository.transfers[active.value].id, r.first, Reported, l.tx);
    }

    method OnFraudDecided(l: Log, r: Round) returns (ok: bool)
      requires l.event.FraudDecided? && Sound(repository.Rows())
      modifies repository
      ensures Done(old(repository.Rows()), repository.Rows(), l, r, ok)
    {
      hide SeenRow, TakenKey, ActiveOrderRow, IsLatest, Refers;
      ghost var before := repository.Rows();
      if SeenRow(repository.Rows(), l.token, Finished, l.tx) { return true; }
      if l.Key() !in repository.tokens { return true; }
      var active := ActiveTransferRow(repository.Rows(), l.Key());
      if active.None? || r.weather.CallFails? { return false; }
      var transfer := repository.transfers[active.value];
      var order := repository.OrderOfActive(l.Key(), active.value);
      ok := repository.InsertTransferStatus(transfer.id, r.first, Finished, l.tx);
      if !ok { return; }
      if order.Some? {
        var status := if l.event.approved then FraudApproved else Paid;
        ok := repository.InsertOrderStatus(order.value, r.first, status, l.tx);
        if !ok { return; }
      }
      if l.event.approved {
        repository.UpdateTransfer(transfer.(fraudApproved := true), active.value);
        assert Advances(before, repository.Rows(), active.value, l.event, l.tx, r.first);
      } else {
        repository.tokens := repository.tokens[l.Key() := repository.tokens[l.Key()].(owner := transfer.to)];
        assert Advances(before, repository.Rows(), active.value, l.event, l.tx, r.first);
      }
    }

    method OnTransferCancel(l: Log, r: Round) returns (ok: bool)
      requires l.event.Cancellation? && Sound(repository.Rows())
      modifies repository
      ensures Done(old(repository.Rows()), repository.Rows(), l, r, ok)
    {
      hide SeenRow, TakenKey, ActiveOrderRow, IsLatest, Refers;
      ghost var before := repository.Rows();
      if SeenRow(repository.Rows(), l.token, Cancelled, l.tx) { return true; }
      if l.Key() !in repository.tokens { return true; }
      var active := ActiveTransferRow(repository.Rows(), l.Key());
      if active.None? || r.weather.CallFails? { return false; }
      var transfer := repository.transfers[active.value];
      var order := repository.OrderOfActive(l.Key(), active.value);
      ok := repository.InsertTransferStatus(transfer.id, r.first, Cancelled, l.tx);
      if !ok { return; }
      if order.Some? {
        ok := repository.InsertOrderStatus(order.value, r.first, Withdrawn, l.tx);
      }
      assert ok ==> Advances(before, repository.Rows(), active.value, l.event, l.tx, r.first);
    }

    /** processCollectionTx: at most one of the event parsers accepts a log. */
    method Dispatch(l: Log, r: Round) returns (ok: bool)
      requires Sound(repository.Rows())
      modifies repository
      ensures Done(old(repository.Rows()), repository.Rows(), l, r, ok)
    {
      match l.event
      case Mint(_) => ok := OnMint(l, r);
      case TransferInit(_, _, _) => ok := OnTransferInit(l, r);
      case TransferDraft(_, _, _, _) => ok := OnTransferDraft(l, r);
      case DraftCompletion(_) => ok := OnDraftCompletion(l, r);
      case PublicKeySet(_) => ok := OnPublicKeySet(l, r);
      case PasswordSet(_) => ok := OnPasswordSet(l, r);
      case TransferFinished => ok := OnTransferFinish(l, r);
      case FraudReported => ok := OnFraudReported(l, r);
      case FraudDecided(_) => ok := OnFraudDecided(l, r);
      case Cancellation => ok := OnTransferCancel(l, r);
      case Unindexed => ok := true;
    }

    /** One block, one database transaction.  An error on the way or in the commit rolls back;
        a commit may also take effect and still be reported as an error. */
    method ProcessBlock(block: seq<Log>, ws: seq<Weather>, ticks: seq<Tick>, commit: Commit) returns (ok: bool)
      requires |block| == |ws| == |ticks| && Healthy()
      modifies repository, clock
      ensures Healthy()
      ensures ok ==> commit.Acknowledged?
      ensures ok ==> HandleAll(ViewOf(old(repository.Rows())), block, ws) == Some(ViewOf(repository.Rows()))
      ensures !ok ==>
        || SameRows(old(repository.Rows()), repository.Rows())
        || (commit.LostReply?
            && HandleAll(ViewOf(old(repository.Rows())), block, ws) == Some(ViewOf(repository.Rows())))
      ensures Ahead(ticks) && commit.Acknowledged? && HandleAll(ViewOf(old(repository.Rows())), block, ws).Some? ==> ok
    {
      hide Keyed, Refers, Timed, Succeeds, Blocked, Skips, ViewOf, Handle;
      var saved := repository.Rows();
      ghost var start := clock.now;
      for i := 0 to |block|
        invariant Healthy() && start <= clock.now
        invariant HandleFirst(ViewOf(saved), block, ws, i) == Some(ViewOf(repository.Rows()))
        invariant repository.nextTransferId >= saved.nextTransferId && repository.nextOrderId >= saved.nextOrderId
      {
        ghost var before, now := repository.Rows(), clock.now;
        var first := clock.Read(ticks[i].first);
        var second := clock.Read(ticks[i].second);
        var r := Round(ws[i], first, second);
        var handled := Dispatch(block[i], r);
        if !handled {
          if Ahead(ticks) {
            FailureHandled(before, repository.Rows(), now, block[i], r);
            StuckStays(ViewOf(saved), block, ws, i + 1, |block|);
          }
          repository.Rollback(saved);
          LaterClock(saved, repository.Rows(), start, clock.now);
          return false;
        }
        SuccessHandled(before, repository.Rows(), now, block[i], r);
      }
      if commit.Refused? {
        repository.Rollback(saved);
        LaterClock(saved, repository.Rows(), start, clock.now);
        return false;
      }
      return commit.Acknowledged?;
    }
  }

  datatype Commit = Acknowledged | Refused | LostReply

  /** Every handler starts strictly later than the last reading of the clock. */
  predicate Ahead(ticks: seq<Tick>) {
    forall i :: 0 <= i < |ticks| ==> ticks[i].first > 0
  }

  /** The same rows; the sequences may have moved on. */
  predicate SameRows(d: Db, e: Db) {
    e == d.(nextTransferId := e.nextTransferId, nextOrderId := e.nextOrderId)
  }

  lemma SameView(d: Db, e: Db)
    requires SameRows(d, e)
    ensures ViewOf(e) == ViewOf(d)
  {
    forall k ensures TransfersOf(e, k) == TransfersOf(d, k) {
      assert forall row :: TransferOf(e, row) == TransferOf(d, row);
    }
  }

  lemma LaterClock(d: Db, e: Db, clock: int, now: int)
    requires Valid(d, clock) && clock <= now
    requires d.nextTransferId <= e.nextTransferId && d.nextOrderId <= e.nextOrderId && SameRows(d, e)
    ensures Valid(e, now)
  {
    assert forall id :: HasTransfer(d, id) ==> HasTransfer(e, id);
    assert forall id :: HasOrder(d, id) ==> HasOrder(e, id);
  }
}
