/**
  What readers of the tables may rely on once the ledgers mirror a legal history.
 */
module Consistency {
  import opened Wrappers
  import opened Chain
  import opened Ledger
  import opened Tables
  import opened Effects
  import opened Refinement

  lemma LedgerMirrors(v: View, logs: seq<Log>, k: TokenKey)
    requires Faithful(v, logs)
    ensures StateAfter(logs, k).Some?
    ensures k in v ==> Mirrors(v[k], StateAfter(logs, k).value)
    ensures k !in v ==> StateAfter(logs, k).value.Unminted?
  {
    assert MirrorsState(if k in v then Some(v[k]) else None, StateAfter(logs, k));
  }

  /** A token has at most one transfer whose latest status is neither Finished nor Cancelled, and
      it has one exactly while the contract has a pending transfer. */
  lemma AtMostOneActive(v: View, logs: seq<Log>, k: TokenKey, i: nat, j: nat)
    requires Faithful(v, logs) && k in v && i < |v[k].transfers| && j < |v[k].transfers|
    requires Active(v[k].transfers[i]) && Active(v[k].transfers[j])
    ensures i == j == |v[k].transfers| - 1
    ensures StateAfter(logs, k).Some? && StateAfter(logs, k).value.Held? && StateAfter(logs, k).value.deal.Some?
  {
    LedgerMirrors(v, logs, k);
  }

  /** No two rows satisfy the query of GetActiveTransfer, so its answer does not depend on the
      order in which SQL visits rows. */
  lemma ActiveTransferIsUnique(d: Db, clock: int, logs: seq<Log>, m: nat, n: nat)
    requires Valid(d, clock) && Faithful(ViewOf(d), logs)
    requires m < |d.transfers| && n < |d.transfers| && d.transfers[m].token == d.transfers[n].token
    requires ActiveRow(d.transferStatuses, d.transfers[m].id) && ActiveRow(d.transferStatuses, d.transfers[n].id)
    ensures m == n
  {
    var k := d.transfers[m].token;
    assert d.transfers[m] in d.transfers;
    ActiveRowIsActive(d, clock, d.transfers[m]);
    ActiveRowIsActive(d, clock, d.transfers[n]);
    var i := PositionFound(d.transfers, m);
    var j := PositionFound(d.transfers, n);
    AtMostOneActive(ViewOf(d), logs, k, i, j);
  }

  /** GetActiveOrder returns the order of the transfer GetActiveTransfer returns. */
  lemma ActiveOrderBelongsToActiveTransfer(d: Db, clock: int, logs: seq<Log>, k: TokenKey)
    requires Valid(d, clock) && Faithful(ViewOf(d), logs)
    ensures
      var transfer := ActiveTransferRow(d, k);
      ActiveOrderRow(d, k) ==
        if transfer.Some? && transfer.value < |d.transfers|
        then OrderRowOf(d.orders, d.transfers[transfer.value].id) else None
  {
    var transfer := ActiveTransferRow(d, k);
    var order := ActiveOrderRow(d, k);
    if order.Some? {
      var t :| t in d.transfers && t.id == order.value.transferId && t.token == k
               && ActiveRow(d.transferStatuses, t.id);
      var n :| 0 <= n < |d.transfers| && d.transfers[n] == t;
      assert transfer.Some?;
      ActiveTransferIsUnique(d, clock, logs, n, transfer.value);
      OneOrderPerTransfer(d, order.value, OrderRowOf(d.orders, t.id).value);
    }
  }

  lemma OneOrderPerTransfer(d: Db, a: OrderRow, b: OrderRow)
    requires Sound(d) && a in d.orders && b in d.orders && a.transferId == b.transferId
    ensures a == b
  {
    var i :| 0 <= i < |d.orders| && d.orders[i] == a;
    var j :| 0 <= j < |d.orders| && d.orders[j] == b;
  }

  /** The owner and the number of transfers of every token are the contracts', and its sales volume is
      what the exchange's answers come to. */
  lemma OwnersAndSales(v: View, logs: seq<Log>, k: TokenKey)
    requires Faithful(v, logs)
    ensures StateAfter(logs, k).Some?
    ensures k in v <==> StateAfter(logs, k).value.Held?
    ensures k in v ==>
      var s := StateAfter(logs, k).value;
      v[k].owner == s.owner && |v[k].transfers| == s.started && Volume(v[k].transfers) == s.answered
  {
    LedgerMirrors(v, logs, k);
  }

  /** An order is placed, then possibly fulfilled, then closed at most once, and its last status
      is the one its transfer calls for; Paid appears at most once, so a sale counts once. */
  lemma OrderFollowsTransfer(v: View, logs: seq<Log>, k: TokenKey, i: nat)
    requires Faithful(v, logs) && k in v && i < |v[k].transfers| && v[k].transfers[i].order.Some?
    ensures
      var t := v[k].transfers[i];
      var stamps := t.order.value.statuses;
      && t.statuses != [] && 1 <= |stamps| <= 3 && stamps[0].status.Placed?
      && (|stamps| == 3 ==> stamps[1].status.Fulfilled?)
      && (stamps[|stamps| - 1].status.Withdrawn? <==> Latest(t).Cancelled?)
      && (stamps[|stamps| - 1].status.FraudApproved? <==> Latest(t).Finished? && t.fraudApproved)
      && (stamps[|stamps| - 1].status.Paid? <==> Latest(t).Finished? && !t.fraudApproved)
      && PaidCount(stamps) == if Latest(t).Finished? && !t.fraudApproved then 1 else 0
  {
    LedgerMirrors(v, logs, k);
    var t := v[k].transfers[i];
    var stamps := t.order.value.statuses;
    assert forall j :: 0 <= j < |stamps| ==> stamps[j].status == Kinds(stamps)[j];
    NonePaid(stamps[..|stamps| - 1]);
  }

  /** A draft completion the contract can log is handled exactly when the pending transfer was started
      by a draft that had an answer. */
  lemma CompletionNeedsDraft(v: View, logs: seq<Log>, l: Log, w: Weather)
    requires Faithful(v, logs) && l.event.DraftCompletion? && l.Key() in v && !w.CallFails?
    requires !Seen(v, l.token, Created, l.tx) && StateAfter(logs, l.Key()).Some?
    requires Emit(StateAfter(logs, l.Key()).value, l.event).Some?
    ensures StateAfter(logs, l.Key()).value.Held? && StateAfter(logs, l.Key()).value.deal.Some?
    ensures Handle(v, l, w).Some? <==> StateAfter(logs, l.Key()).value.deal.value.answer.Some?
  {
    LedgerMirrors(v, logs, l.Key());
    FreshLogHandled(v, StateAfter(logs, l.Key()).value, l, w);
  }

  /** Mints and TransferInits are filed under the recipient of their transaction: they show on their own
      token if and only if that is the contract that logged them. */
  lemma FiledIff(v: View, l: Log, w: Weather)
    requires l.event.Mint? || l.event.TransferInit?
    requires Handle(v, l, w).Some? && Handle(v, l, w).value != v
    ensures var e := Handle(v, l, w).value;
      && (e.Keys == v.Keys + {TokenKey(l.txTo, l.token)})
      && (forall k :: k in v && (k.collection != l.txTo || k.id != l.token) ==> e[k] == v[k])
      && (l.event.Mint? && l.Key() !in v ==> (l.Key() in e <==> l.txTo == l.address))
      && (l.event.TransferInit? ==> l.Key() in v && (e[l.Key()] != v[l.Key()] <==> l.txTo == l.address))
  {
    hide Seen;
    var k := TokenKey(l.txTo, l.token);
    if l.event.TransferInit? {
      assert Handle(v, l, w).value[k].transfers == v[k].transfers + [Opened(l.event, l.tx)];
      assert |Handle(v, l, w).value[k].transfers| == |v[k].transfers| + 1;
    }
  }
}
