/**
  The PostgreSQL tables as values, the queries over them, and how each row change shows in
  the ledger view.
 */
module Tables {
  import opened Wrappers
  import opened Chain
  import opened Ledger

  datatype TokenRow = TokenRow(owner: Address, mintTx: Hash)

  datatype TransferRow = TransferRow(
    id: nat, token: TokenKey, from: Address, to: Address, fraudApproved: bool,
    key: string, password: string, number: nat)

  /** A row of transfer_statuses or order_statuses; (parent, timestamp) is its primary key. */
  datatype StatusRow<S> = StatusRow(parent: nat, timestamp: int, status: S, tx: Hash)

  datatype OrderRow = OrderRow(id: nat, transferId: nat, price: nat)

  datatype Db = Db(
    tokens: map<TokenKey, TokenRow>,
    transfers: seq<TransferRow>,
    transferStatuses: seq<StatusRow<Status>>,
    orders: seq<OrderRow>,
    orderStatuses: seq<StatusRow<OrderStatus>>,
    nextTransferId: nat,
    nextOrderId: nat)

  /** The rows of one parent, oldest first. */
  function History<S>(rows: seq<StatusRow<S>>, parent: nat): seq<Stamp<S>> {
    if rows == [] then []
    else
      var last := rows[|rows| - 1];
      History(rows[..|rows| - 1], parent) + (if last.parent == parent then [Stamp(last.status, last.tx)] else [])
  }

  /** Positions of the transfers of one token, in table order. */
  function Positions(rows: seq<TransferRow>, k: TokenKey): (p: seq<nat>)
    ensures forall i :: 0 <= i < |p| ==> p[i] < |rows| && rows[p[i]].token == k
    ensures forall i, j :: 0 <= i < j < |p| ==> p[i] < p[j]
  {
    if rows == [] then []
    else
      var n := |rows| - 1;
      Positions(rows[..n], k) + (if rows[n].token == k then [n] else [])
  }

  lemma {:induction false} PositionFound(rows: seq<TransferRow>, n: nat) returns (i: nat)
    requires n < |rows|
    ensures i < |Positions(rows, rows[n].token)| && Positions(rows, rows[n].token)[i] == n
  {
    var m := |rows| - 1;
    if n == m {
      i := |Positions(rows[..m], rows[n].token)|;
    } else {
      i := PositionFound(rows[..m], n);
    }
  }

  /** The order placed for a transfer: LEFT JOIN orders ON transfer_id. */
  function OrderRowOf(orders: seq<OrderRow>, transferId: nat): (r: Option<OrderRow>)
    ensures r.Some? ==> r.value in orders && r.value.transferId == transferId
    ensures r.None? ==> forall o :: o in orders ==> o.transferId != transferId
  {
    if orders == [] then None
    else
      var r := OrderRowOf(orders[..|orders| - 1], transferId);
      if r.Some? then r
      else if orders[|orders| - 1].transferId == transferId then Some(orders[|orders| - 1]) else None
  }

  function TransferOf(d: Db, row: TransferRow): Transfer {
    var o := OrderRowOf(d.orders, row.id);
    Transfer(row.from, row.to, row.number, row.fraudApproved, row.key, row.password,
             History(d.transferStatuses, row.id),
             if o.None? then None else Some(Order(o.value.price, History(d.orderStatuses, o.value.id))))
  }

  function TransfersOf(d: Db, k: TokenKey): (r: seq<Transfer>)
    ensures |r| == |Positions(d.transfers, k)|
    ensures forall i :: 0 <= i < |r| ==> r[i] == TransferOf(d, d.transfers[Positions(d.transfers, k)[i]])
  {
    var p := Positions(d.transfers, k);
    seq(|p|, i requires 0 <= i < |p| => TransferOf(d, d.transfers[p[i]]))
  }

  function ViewOf(d: Db): View {
    map k | k in d.tokens :: TokenLedger(d.tokens[k].owner, d.tokens[k].mintTx, TransfersOf(d, k))
  }

  // ---------- Integrity: keys, references and clocks ----------

  predicate HasTransfer(d: Db, id: nat) { exists t :: t in d.transfers && t.id == id }

  predicate HasOrder(d: Db, id: nat) { exists o :: o in d.orders && o.id == id }

  /** Foreign keys: every row refers to an existing one. */
  ghost predicate Refers(d: Db) {
    && (forall t :: t in d.transfers ==> t.token in d.tokens)
    && (forall o :: o in d.orders ==> HasTransfer(d, o.transferId))
    && (forall s :: s in d.transferStatuses ==> HasTransfer(d, s.parent))
    && (forall s :: s in d.orderStatuses ==> HasOrder(d, s.parent))
  }

  /** Primary keys: ids are unique and below their sequences, and a transfer has at most one order. */
  ghost predicate Keyed(d: Db) {
    && (forall i, j :: 0 <= i < j < |d.transfers| ==> d.transfers[i].id != d.transfers[j].id)
    && (forall t :: t in d.transfers ==> 0 < t.id < d.nextTransferId)
    && (forall i, j :: 0 <= i < j < |d.orders| ==>
          d.orders[i].id != d.orders[j].id && d.orders[i].transferId != d.orders[j].transferId)
    && (forall o :: o in d.orders ==> 0 < o.id < d.nextOrderId)
    && 0 < d.nextTransferId && 0 < d.nextOrderId
  }

  ghost predicate Sound(d: Db) { Keyed(d) && Refers(d) }

  /** No row refers to the next ids. */
  lemma FreshIds(d: Db)
    requires Sound(d)
    ensures forall o :: o in d.orders ==> o.transferId < d.nextTransferId
    ensures forall s :: s in d.transferStatuses ==> s.parent < d.nextTransferId
    ensures forall s :: s in d.orderStatuses ==> s.parent < d.nextOrderId
  {
  }

  /** The timestamps of one parent strictly increase in insertion order and none is later than
      `now`.  The primary key keeps them distinct, a clock that does not run backwards ordered. */
  ghost predicate Timed<S(!new)>(rows: seq<StatusRow<S>>, now: int) {
    && (forall i :: 0 <= i < |rows| ==> rows[i].timestamp <= now)
    && (forall i, j :: 0 <= i < j < |rows| && rows[i].parent == rows[j].parent ==>
          rows[i].timestamp < rows[j].timestamp)
  }

  lemma TimedAppend<S(!new)>(rows: seq<StatusRow<S>>, row: StatusRow<S>, clock: int, now: int)
    requires Timed(rows, clock) && clock <= row.timestamp <= now
    requires !TakenKey(rows, row.parent, row.timestamp)
    ensures Timed(rows + [row], now)
  {
  }

  lemma FreshKey<S(!new)>(rows: seq<StatusRow<S>>, clock: int, parent: nat, timestamp: int)
    requires Timed(rows, clock)
    requires clock < timestamp || forall r :: r in rows ==> r.parent != parent
    ensures !TakenKey(rows, parent, timestamp)
  {
    assert forall i :: 0 <= i < |rows| ==> rows[i] in rows;
  }

  // ---------- Queries ----------

  predicate TakenKey<S>(rows: seq<StatusRow<S>>, parent: nat, timestamp: int) {
    exists i :: 0 <= i < |rows| && rows[i].parent == parent && rows[i].timestamp == timestamp
  }

  /** Does row i carry MAX(timestamp) among the rows of its parent? */
  predicate IsLatest<S>(rows: seq<StatusRow<S>>, i: nat)
    requires i < |rows|
  {
    forall j :: 0 <= j < |rows| && rows[j].parent == rows[i].parent ==> rows[j].timestamp <= rows[i].timestamp
  }

  /** The WHERE clause of GetActiveTransfer: the status at MAX(timestamp) ends nothing.  With no
      status row the SQL comparison is NULL and the transfer is not selected. */
  predicate ActiveRow(rows: seq<StatusRow<Status>>, transferId: nat) {
    exists i :: 0 <= i < |rows| && rows[i].parent == transferId && IsLatest(rows, i) && !Terminal(rows[i].status)
  }

  /** Position of the last row of a parent, -1 when it has none. */
  function LastOf<S>(rows: seq<StatusRow<S>>, parent: nat): (n: int)
    ensures -1 <= n < |rows|
    ensures n >= 0 ==> rows[n].parent == parent
    ensures forall i :: n < i < |rows| ==> rows[i].parent != parent
  {
    if rows == [] then -1
    else if rows[|rows| - 1].parent == parent then |rows| - 1
    else LastOf(rows[..|rows| - 1], parent)
  }

  lemma {:induction false} HistoryEndsWithLast<S>(rows: seq<StatusRow<S>>, parent: nat)
    ensures
      var n := LastOf(rows, parent);
      var h := History(rows, parent);
      if n < 0 then h == [] else h != [] && h[|h| - 1] == Stamp(rows[n].status, rows[n].tx)
  {
    if rows != [] && rows[|rows| - 1].parent != parent {
      HistoryEndsWithLast(rows[..|rows| - 1], parent);
    }
  }

  lemma LatestIsLast<S(!new)>(rows: seq<StatusRow<S>>, now: int, i: nat)
    requires Timed(rows, now) && i < |rows|
    ensures IsLatest(rows, i) <==> i == LastOf(rows, rows[i].parent)
  {
    var n := LastOf(rows, rows[i].parent);
    if i < n {
      assert rows[i].timestamp < rows[n].timestamp;
    }
  }

  /** Latest-by-timestamp is latest-by-insertion: the query selects exactly the active transfers
      of the ledger. */
  lemma ActiveRowIsActive(d: Db, now: int, row: TransferRow)
    requires Timed(d.transferStatuses, now)
    ensures ActiveRow(d.transferStatuses, row.id) <==> Active(TransferOf(d, row))
  {
    var rows := d.transferStatuses;
    HistoryEndsWithLast(rows, row.id);
    var n := LastOf(rows, row.id);
    if n >= 0 { LatestIsLast(rows, now, n); }
    if ActiveRow(rows, row.id) {
      var i :| 0 <= i < |rows| && rows[i].parent == row.id && IsLatest(rows, i) && !Terminal(rows[i].status);
      LatestIsLast(rows, now, i);
    }
  }

  /** The row GetActiveTransfer reads.  SQL leaves the choice among several open; the model takes
      the first in table order (on legal histories there is at most one). */
  function ActiveTransferRow(d: Db, k: TokenKey): (r: Option<nat>) {
    FirstActiveRow(d, k, |d.transfers|)
  }

  function FirstActiveRow(d: Db, k: TokenKey, n: nat): (r: Option<nat>)
    requires n <= |d.transfers|
    ensures r.Some? ==>
      r.value < n && d.transfers[r.value].token == k && ActiveRow(d.transferStatuses, d.transfers[r.value].id)
    ensures forall m :: 0 <= m < (if r.Some? then r.value else n) && d.transfers[m].token == k ==>
      !ActiveRow(d.transferStatuses, d.transfers[m].id)
  {
    if n == 0 then None
    else
      var r := FirstActiveRow(d, k, n - 1);
      if r.Some? then r
      else if d.transfers[n - 1].token == k && ActiveRow(d.transferStatuses, d.transfers[n - 1].id) then Some(n - 1)
      else None
  }

  /** The WHERE clause of GetActiveOrder: the order's transfer is an active one of the token. */
  predicate SelectsOrder(d: Db, k: TokenKey, o: OrderRow) {
    exists t :: t in d.transfers && t.id == o.transferId && t.token == k && ActiveRow(d.transferStatuses, t.id)
  }

  function ActiveOrderRow(d: Db, k: TokenKey): Option<OrderRow> {
    FirstActiveOrder(d, k, d.orders)
  }

  function FirstActiveOrder(d: Db, k: TokenKey, orders: seq<OrderRow>): (r: Option<OrderRow>)
    ensures r.Some? ==> r.value in orders && SelectsOrder(d, k, r.value)
    ensures r.None? ==> forall o :: o in orders ==> !SelectsOrder(d, k, o)
  {
    if orders == [] then None
    else if SelectsOrder(d, k, orders[0]) then Some(orders[0])
    else FirstActiveOrder(d, k, orders[1..])
  }

  /** The join of TransferTxExists. */
  predicate SeenRow(d: Db, token: nat, status: Status, tx: Hash) {
    exists s, t ::
      && s in d.transferStatuses && t in d.transfers && s.parent == t.id
      && s.status == status && s.tx == tx && t.token.id == token
  }

  lemma {:induction false} HistoryHas<S>(rows: seq<StatusRow<S>>, parent: nat, s: Stamp<S>)
    ensures s in History(rows, parent) <==>
      exists r :: r in rows && r.parent == parent && r.status == s.status && r.tx == s.tx
  {
    if rows != [] {
      var n := |rows| - 1;
      HistoryHas(rows[..n], parent, s);
      assert rows == rows[..n] + [rows[n]];
      if rows[n].parent == parent {
        assert History(rows, parent) == History(rows[..n], parent) + [Stamp(rows[n].status, rows[n].tx)];
      }
    }
  }

  lemma SeenRowInView(d: Db, s: StatusRow<Status>, t: TransferRow)
    requires Sound(d) && s in d.transferStatuses && t in d.transfers && s.parent == t.id
    ensures t.token in d.tokens && HasStamp(ViewOf(d)[t.token], Stamp(s.status, s.tx))
  {
    var n :| 0 <= n < |d.transfers| && d.transfers[n] == t;
    var i := PositionFound(d.transfers, n);
    HistoryHas(d.transferStatuses, t.id, Stamp(s.status, s.tx));
    assert Stamp(s.status, s.tx) in TransfersOf(d, t.token)[i].statuses;
  }

  lemma ViewStampHasRow(d: Db, k: TokenKey, stamp: Stamp<Status>) returns (s: StatusRow<Status>, t: TransferRow)
    requires k in d.tokens && HasStamp(ViewOf(d)[k], stamp)
    ensures s in d.transferStatuses && t in d.transfers && s.parent == t.id && t.token == k
    ensures s.status == stamp.status && s.tx == stamp.tx
  {
    var i :| 0 <= i < |TransfersOf(d, k)| && stamp in TransfersOf(d, k)[i].statuses;
    t := d.transfers[Positions(d.transfers, k)[i]];
    HistoryHas(d.transferStatuses, t.id, stamp);
    s :| s in d.transferStatuses && s.parent == t.id && s.status == stamp.status && s.tx == stamp.tx;
  }

  lemma SeenRowIsSeen(d: Db, token: nat, status: Status, tx: Hash)
    requires Sound(d)
    ensures SeenRow(d, token, status, tx) <==> Seen(ViewOf(d), token, status, tx)
  {
    if SeenRow(d, token, status, tx) {
      var s, t :| s in d.transferStatuses && t in d.transfers && s.parent == t.id
                  && s.status == status && s.tx == tx && t.token.id == token;
      SeenRowInView(d, s, t);
    }
    if Seen(ViewOf(d), token, status, tx) {
      var k :| k in ViewOf(d) && k.id == token && HasStamp(ViewOf(d)[k], Stamp(status, tx));
      var s, t := ViewStampHasRow(d, k, Stamp(status, tx));
    }
  }

  // ---------- Row changes ----------

  /** A change confined to one token changes the view at that token only. */
  lemma ViewChangesAt(d: Db, e: Db, k: TokenKey)
    requires e.tokens.Keys == d.tokens.Keys + {k}
    requires forall q :: q in d.tokens && q != k ==>
      e.tokens[q] == d.tokens[q] && TransfersOf(e, q) == TransfersOf(d, q)
    ensures ViewOf(e) == ViewOf(d)[k := TokenLedger(e.tokens[k].owner, e.tokens[k].mintTx, TransfersOf(e, k))]
  {
    assert ViewOf(e).Keys == ViewOf(d).Keys + {k};
  }

  lemma {:induction false} PositionsKept(a: seq<TransferRow>, b: seq<TransferRow>, k: TokenKey)
    requires |a| == |b| && forall i :: 0 <= i < |a| ==> a[i].token == b[i].token
    ensures Positions(a, k) == Positions(b, k)
  {
    if a != [] {
      PositionsKept(a[..|a| - 1], b[..|b| - 1], k);
    }
  }

  lemma PositionsAppend(rows: seq<TransferRow>, row: TransferRow, k: TokenKey)
    ensures Positions(rows + [row], k) == Positions(rows, k) + (if row.token == k then [|rows|] else [])
  {
    assert (rows + [row])[..|rows|] == rows;
  }

  lemma HistoryAppend<S>(rows: seq<StatusRow<S>>, row: StatusRow<S>, parent: nat)
    ensures History(rows + [row], parent) ==
            History(rows, parent) + (if row.parent == parent then [Stamp(row.status, row.tx)] else [])
  {
    assert (rows + [row])[..|rows|] == rows;
  }

  lemma OrderAppend(orders: seq<OrderRow>, o: OrderRow, transferId: nat)
    ensures OrderRowOf(orders + [o], transferId) ==
            var r := OrderRowOf(orders, transferId);
            if r.Some? then r else if o.transferId == transferId then Some(o) else None
  {
    assert (orders + [o])[..|orders|] == orders;
  }

  lemma {:induction false} HistoryEmpty<S>(rows: seq<StatusRow<S>>, parent: nat)
    requires forall r :: r in rows ==> r.parent != parent
    ensures History(rows, parent) == []
  {
    if rows != [] {
      HistoryEmpty(rows[..|rows| - 1], parent);
    }
  }

  predicate Opening(ev: Event) { (ev.TransferInit? || ev.TransferDraft?) && Answered(ev) }

  /** The database after a log opened a transfer: one transfer row and its first status, and
      for a draft one order row and its first status. */
  ghost predicate Opens(d: Db, e: Db, token: TokenKey, ev: Event, tx: Hash, time: int, orderTime: int)
    requires Opening(ev)
  {
    && e.tokens == d.tokens
    && d.nextTransferId < e.nextTransferId && d.nextOrderId <= e.nextOrderId
    && e.transfers == d.transfers + [TransferRow(d.nextTransferId, token, ev.from,
         if ev.TransferInit? then ev.to else ZERO_ADDRESS, false, "", "", ev.number)]
    && e.transferStatuses == d.transferStatuses + [StatusRow(d.nextTransferId, time, StatusOf(ev).value, tx)]
    && (if ev.TransferInit? then e.orders == d.orders && e.orderStatuses == d.orderStatuses
        else
          && d.nextOrderId < e.nextOrderId
          && e.orders == d.orders + [OrderRow(d.nextOrderId, d.nextTransferId, ev.answer.value)]
          && e.orderStatuses == d.orderStatuses + [StatusRow(d.nextOrderId, orderTime, Placed, tx)])
  }

  lemma OpensOthers(d: Db, e: Db, token: TokenKey, ev: Event, tx: Hash, time: int, orderTime: int, row: TransferRow)
    requires Sound(d) && Opening(ev) && Opens(d, e, token, ev, tx, time, orderTime)
    requires row in d.transfers
    ensures TransferOf(e, row) == TransferOf(d, row)
  {
    HistoryAppend(d.transferStatuses, StatusRow(d.nextTransferId, time, StatusOf(ev).value, tx), row.id);
    if ev.TransferDraft? {
      OrderAppend(d.orders, OrderRow(d.nextOrderId, d.nextTransferId, ev.answer.value), row.id);
      var o := OrderRowOf(d.orders, row.id);
      if o.Some? {
        HistoryAppend(d.orderStatuses, StatusRow(d.nextOrderId, orderTime, Placed, tx), o.value.id);
        assert History(e.orderStatuses, o.value.id) == History(d.orderStatuses, o.value.id);
        assert OrderRowOf(e.orders, row.id) == o;
      }
    }
  }

  lemma OpensNew(d: Db, e: Db, token: TokenKey, ev: Event, tx: Hash, time: int, orderTime: int)
    requires Sound(d) && Opening(ev) && Opens(d, e, token, ev, tx, time, orderTime)
    ensures TransferOf(e, e.transfers[|d.transfers|]) == Opened(ev, tx)
  {
    FreshIds(d);
    hide Sound;
    var id := d.nextTransferId;
    HistoryEmpty(d.transferStatuses, id);
    HistoryAppend(d.transferStatuses, StatusRow(id, time, StatusOf(ev).value, tx), id);
    if ev.TransferDraft? {
      var oid := d.nextOrderId;
      OrderAppend(d.orders, OrderRow(oid, id, ev.answer.value), id);
      HistoryEmpty(d.orderStatuses, oid);
      HistoryAppend(d.orderStatuses, StatusRow(oid, orderTime, Placed, tx), oid);
      assert OrderRowOf(e.orders, id) == Some(OrderRow(oid, id, ev.answer.value));
      assert History(e.orderStatuses, oid) == [Stamp(Placed, tx)];
    }
  }

  lemma OpensTransfers(d: Db, e: Db, token: TokenKey, ev: Event, tx: Hash, time: int, orderTime: int, k: TokenKey)
    requires Sound(d) && Opening(ev) && Opens(d, e, token, ev, tx, time, orderTime)
    ensures TransfersOf(e, k) == TransfersOf(d, k) + (if k == token then [Opened(ev, tx)] else [])
  {
    hide Keyed, Refers;
    PositionsAppend(d.transfers, e.transfers[|d.transfers|], k);
    var p := Positions(d.transfers, k);
    forall i | 0 <= i < |p| ensures TransferOf(e, e.transfers[p[i]]) == TransferOf(d, d.transfers[p[i]]) {
      OpensOthers(d, e, token, ev, tx, time, orderTime, d.transfers[p[i]]);
    }
    OpensNew(d, e, token, ev, tx, time, orderTime);
  }

  /** Opening a transfer appends it to its token's ledger and changes nothing else. */
  lemma OpensView(d: Db, e: Db, token: TokenKey, ev: Event, tx: Hash, time: int, orderTime: int)
    requires Sound(d) && token in d.tokens && Opening(ev) && Opens(d, e, token, ev, tx, time, orderTime)
    ensures Sound(e)
    ensures var g := ViewOf(d)[token];
      ViewOf(e) == ViewOf(d)[token := g.(transfers := g.transfers + [Opened(ev, tx)])]
  {
    forall k ensures TransfersOf(e, k) == TransfersOf(d, k) + (if k == token then [Opened(ev, tx)] else []) {
      OpensTransfers(d, e, token, ev, tx, time, orderTime, k);
    }
    ViewChangesAt(d, e, token);
    OpensSound(d, e, token, ev, tx, time, orderTime);
  }

  lemma OpensSound(d: Db, e: Db, token: TokenKey, ev: Event, tx: Hash, time: int, orderTime: int)
    requires Sound(d) && token in d.tokens && Opening(ev) && Opens(d, e, token, ev, tx, time, orderTime)
    ensures Sound(e)
  {
    FreshIds(d);
    assert Keyed(e);
    OpensRefers(d, e, token, ev, tx, time, orderTime);
  }

  lemma OpensRefers(d: Db, e: Db, token: TokenKey, ev: Event, tx: Hash, time: int, orderTime: int)
    requires Refers(d) && token in d.tokens && Opening(ev) && Opens(d, e, token, ev, tx, time, orderTime)
    ensures Refers(e)
  {
    var n, m := |d.transfers|, |d.orders|;
    assert e.transfers[n] in e.transfers && e.transfers[n].id == d.nextTransferId;
    assert HasTransfer(e, d.nextTransferId);
    forall id | HasTransfer(d, id) ensures HasTransfer(e, id) {
      var t :| t in d.transfers && t.id == id;
      assert t in e.transfers;
    }
    if ev.TransferDraft? {
      assert e.orders[m] in e.orders && e.orders[m].id == d.nextOrderId;
      assert HasOrder(e, d.nextOrderId);
    }
    forall id | HasOrder(d, id) ensures HasOrder(e, id) {
      var o :| o in d.orders && o.id == id;
      assert o in e.orders;
    }
  }

  /** The row of a transfer after one more event. */
  function Patched(row: TransferRow, ev: Event): TransferRow {
    match ev
    case DraftCompletion(to) => row.(to := to)
    case PublicKeySet(key) => row.(key := key)
    case PasswordSet(password) => row.(password := password)
    case FraudDecided(approved) => row.(fraudApproved := row.fraudApproved || approved)
    case _ => row
  }

  /** The database after a log advanced the transfer at position n: its row patched, one status
      row for it, one for its order where the event has one, and the owner where it changes. */
  ghost predicate Advances(d: Db, e: Db, n: nat, ev: Event, tx: Hash, time: int)
    requires n < |d.transfers| && StatusOf(ev).Some?
  {
    var row := d.transfers[n];
    var o := OrderRowOf(d.orders, row.id);
    && row.token in d.tokens
    && e.transfers == d.transfers[n := Patched(row, ev)]
    && e.transferStatuses == d.transferStatuses + [StatusRow(row.id, time, StatusOf(ev).value, tx)]
    && e.orders == d.orders
    && (if o.Some? && OrderStatusOf(ev).Some?
        then e.orderStatuses == d.orderStatuses + [StatusRow(o.value.id, time, OrderStatusOf(ev).value, tx)]
        else e.orderStatuses == d.orderStatuses)
    && e.tokens == (if HandsOver(ev) then d.tokens[row.token := d.tokens[row.token].(owner := row.to)] else d.tokens)
    && e.nextTransferId == d.nextTransferId && e.nextOrderId == d.nextOrderId
  }

  lemma AdvancesThis(d: Db, e: Db, n: nat, ev: Event, tx: Hash, time: int)
    requires Sound(d) && n < |d.transfers| && StatusOf(ev).Some? && Advances(d, e, n, ev, tx, time)
    requires !ev.TransferInit? && !ev.TransferDraft?
    ensures TransferOf(e, e.transfers[n]) == Stamped(TransferOf(d, d.transfers[n]), ev, tx)
  {
    var row := d.transfers[n];
    HistoryAppend(d.transferStatuses, StatusRow(row.id, time, StatusOf(ev).value, tx), row.id);
    var o := OrderRowOf(d.orders, row.id);
    if o.Some? && OrderStatusOf(ev).Some? {
      HistoryAppend(d.orderStatuses, StatusRow(o.value.id, time, OrderStatusOf(ev).value, tx), o.value.id);
    }
  }

  lemma AdvancesOthers(d: Db, e: Db, n: nat, ev: Event, tx: Hash, time: int, m: nat)
    requires Sound(d) && n < |d.transfers| && StatusOf(ev).Some? && Advances(d, e, n, ev, tx, time)
    requires m < |d.transfers| && m != n
    ensures TransferOf(e, e.transfers[m]) == TransferOf(d, d.transfers[m])
  {
    var row := d.transfers[n];
    var other := d.transfers[m];
    assert other.id != row.id;
    HistoryAppend(d.transferStatuses, StatusRow(row.id, time, StatusOf(ev).value, tx), other.id);
    var o := OrderRowOf(d.orders, row.id);
    var oo := OrderRowOf(d.orders, other.id);
    if o.Some? && OrderStatusOf(ev).Some? && oo.Some? {
      assert o.value.id != oo.value.id by {
        var i :| 0 <= i < |d.orders| && d.orders[i] == o.value;
        var j :| 0 <= j < |d.orders| && d.orders[j] == oo.value;
        assert i != j;
      }
      HistoryAppend(d.orderStatuses, StatusRow(o.value.id, time, OrderStatusOf(ev).value, tx), oo.value.id);
      assert History(e.orderStatuses, oo.value.id) == History(d.orderStatuses, oo.value.id);
    }
  }

  lemma AdvancesSound(d: Db, e: Db, n: nat, ev: Event, tx: Hash, time: int)
    requires Sound(d) && n < |d.transfers| && StatusOf(ev).Some? && Advances(d, e, n, ev, tx, time)
    ensures Sound(e)
  {
    SameIds(d.transfers, e.transfers, d.nextTransferId);
    AdvancesRefers(d, e, n, ev, tx, time);
  }

  lemma SameIds(a: seq<TransferRow>, b: seq<TransferRow>, next: nat)
    requires |a| == |b| && forall i :: 0 <= i < |a| ==> a[i].id == b[i].id
    requires forall t :: t in a ==> 0 < t.id < next
    ensures forall t :: t in b ==> 0 < t.id < next
  {
    forall t | t in b ensures 0 < t.id < next {
      var i :| 0 <= i < |b| && b[i] == t;
      assert a[i] in a;
    }
  }

  lemma AdvancesRefers(d: Db, e: Db, n: nat, ev: Event, tx: Hash, time: int)
    requires Refers(d) && n < |d.transfers| && StatusOf(ev).Some? && Advances(d, e, n, ev, tx, time)
    ensures Refers(e)
  {
    assert forall i :: 0 <= i < |d.transfers| ==>
      e.transfers[i].id == d.transfers[i].id && e.transfers[i].token == d.transfers[i].token;
    forall id | HasTransfer(d, id) ensures HasTransfer(e, id) {
      var i :| 0 <= i < |d.transfers| && d.transfers[i].id == id;
      assert e.transfers[i] in e.transfers;
    }
    assert d.transfers[n] in d.transfers;
    forall t | t in e.transfers ensures t.token in e.tokens {
      var i :| 0 <= i < |e.transfers| && e.transfers[i] == t;
      assert d.transfers[i] in d.transfers;
    }
    forall id | HasOrder(d, id) ensures HasOrder(e, id) {}
    var o := OrderRowOf(d.orders, d.transfers[n].id);
    if o.Some? { assert HasOrder(e, o.value.id); }
  }

  lemma AdvancesTransfers(d: Db, e: Db, n: nat, ev: Event, tx: Hash, time: int, i: nat, k: TokenKey)
    requires Sound(d) && n < |d.transfers| && StatusOf(ev).Some? && Advances(d, e, n, ev, tx, time)
    requires !ev.TransferInit? && !ev.TransferDraft?
    requires var p := Positions(d.transfers, d.transfers[n].token); i < |p| && p[i] == n
    ensures TransfersOf(e, k) ==
      var ts := TransfersOf(d, k);
      if k == d.transfers[n].token then ts[i := Stamped(ts[i], ev, tx)] else ts
  {
    PositionsKept(d.transfers, e.transfers, k);
    var p := Positions(d.transfers, k);
    forall j | 0 <= j < |p| && p[j] != n ensures TransferOf(e, e.transfers[p[j]]) == TransferOf(d, d.transfers[p[j]]) {
      AdvancesOthers(d, e, n, ev, tx, time, p[j]);
    }
    AdvancesThis(d, e, n, ev, tx, time);
  }

  lemma FirstActivePosition(d: Db, n: nat) returns (i: nat)
    requires n < |d.transfers| && Active(TransferOf(d, d.transfers[n]))
    requires forall m :: 0 <= m < n && d.transfers[m].token == d.transfers[n].token ==>
      !Active(TransferOf(d, d.transfers[m]))
    ensures var p := Positions(d.transfers, d.transfers[n].token); i < |p| && p[i] == n
    ensures FirstActive(TransfersOf(d, d.transfers[n].token)) == Some(i)
  {
    var p := Positions(d.transfers, d.transfers[n].token);
    i := PositionFound(d.transfers, n);
    var ts := TransfersOf(d, d.transfers[n].token);
    forall j | 0 <= j < i ensures !Active(ts[j]) {
      assert p[j] < p[i];
    }
  }

  /** Advancing the first active transfer of a token is the ledger's Advance and changes
      nothing else. */
  lemma AdvancesView(d: Db, e: Db, n: nat, ev: Event, tx: Hash, time: int)
    requires Sound(d) && n < |d.transfers| && StatusOf(ev).Some? && Advances(d, e, n, ev, tx, time)
    requires !ev.TransferInit? && !ev.TransferDraft?
    requires Active(TransferOf(d, d.transfers[n]))
    requires forall m :: 0 <= m < n && d.transfers[m].token == d.transfers[n].token ==>
      !Active(TransferOf(d, d.transfers[m]))
    ensures Sound(e)
    ensures
      var k := d.transfers[n].token;
      var active := FirstActive(ViewOf(d)[k].transfers);
      && active.Some?
      && ViewOf(d)[k].transfers[active.value] == TransferOf(d, d.transfers[n])
      && ViewOf(e) == ViewOf(d)[k := Advance(ViewOf(d)[k], active.value, ev, tx)]
  {
    hide Keyed, Refers;
    var i := FirstActivePosition(d, n);
    var token := d.transfers[n].token;
    AdvancesTransfers(d, e, n, ev, tx, time, i, token);
    forall k | k != token ensures TransfersOf(e, k) == TransfersOf(d, k) {
      AdvancesTransfers(d, e, n, ev, tx, time, i, k);
    }
    ViewChangesAt(d, e, token);
    AdvancesSound(d, e, n, ev, tx, time);
  }

  lemma MintsView(d: Db, e: Db, k: TokenKey, owner: Address, tx: Hash)
    requires Sound(d) && k !in d.tokens && e == d.(tokens := d.tokens[k := TokenRow(owner, tx)])
    ensures Sound(e)
    ensures ViewOf(e) == ViewOf(d)[k := TokenLedger(owner, tx, [])]
  {
    NoPositions(d.transfers, k);
    forall q ensures TransfersOf(e, q) == TransfersOf(d, q) {
      MintsTransfers(d, e, q);
    }
    ViewChangesAt(d, e, k);
  }

  lemma {:induction false} NoPositions(rows: seq<TransferRow>, k: TokenKey)
    requires forall t :: t in rows ==> t.token != k
    ensures Positions(rows, k) == []
  {
    if rows != [] { NoPositions(rows[..|rows| - 1], k); }
  }

  lemma MintsTransfers(d: Db, e: Db, k: TokenKey)
    requires e == d.(tokens := e.tokens)
    ensures TransfersOf(e, k) == TransfersOf(d, k)
  {
    var p := Positions(d.transfers, k);
    assert forall i :: 0 <= i < |p| ==> TransferOf(e, d.transfers[p[i]]) == TransferOf(d, d.transfers[p[i]]);
  }
}
