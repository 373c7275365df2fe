/**
  The sales volume of a collection: the sum, over the Finished rows of order_statuses, of the price of
  the order each row belongs to (indexer/internal/repository/collections.go).
 */
module Sales {
  import opened Wrappers
  import opened Chain
  import opened Ledger
  import opened Tables
  import opened Effects
  import opened Refinement
  import opened Consistency
  import opened Runs
  import opened Exchange

  // ---------- The query ----------

  /** JOIN orders ON o.id = os.order_id. */
  function OrderById(orders: seq<OrderRow>, id: nat): (r: Option<OrderRow>)
    ensures r.Some? ==> r.value in orders && r.value.id == id
    ensures r.None? ==> forall o :: o in orders ==> o.id != id
  {
    if orders == [] then None
    else if orders[0].id == id then Some(orders[0])
    else OrderById(orders[1..], id)
  }

  /** JOIN transfers ON o.transfer_id = t.id. */
  function TransferById(rows: seq<TransferRow>, id: nat): (r: Option<TransferRow>)
    ensures r.Some? ==> r.value in rows && r.value.id == id
    ensures r.None? ==> forall t :: t in rows ==> t.id != id
  {
    if rows == [] then None
    else if rows[0].id == id then Some(rows[0])
    else TransferById(rows[1..], id)
  }

  /** Does a token belong to the collection's figures?  Rejected tokens do not. */
  predicate Included(k: TokenKey, c: Address, rejected: set<TokenKey>) { k.collection == c && k !in rejected }

  /** What one row of order_statuses adds to the volume of a collection. */
  function Amount(d: Db, c: Address, rejected: set<TokenKey>, row: StatusRow<OrderStatus>): nat {
    var o := OrderById(d.orders, row.parent);
    var t := if o.Some? then TransferById(d.transfers, o.value.transferId) else None;
    if row.status.Paid? && t.Some? && Included(t.value.token, c, rejected) then o.value.price else 0
  }

  function SalesUpto(d: Db, c: Address, rejected: set<TokenKey>, n: nat): nat
    requires n <= |d.orderStatuses|
  {
    if n == 0 then 0 else SalesUpto(d, c, rejected, n - 1) + Amount(d, c, rejected, d.orderStatuses[n - 1])
  }

  /** SELECT SUM(o.price) ... WHERE os.status = 'Finished' ... GROUP BY t.collection_address. */
  function SalesVolume(d: Db, c: Address, rejected: set<TokenKey>): nat {
    SalesUpto(d, c, rejected, |d.orderStatuses|)
  }

  // ---------- Totals over tokens ----------

  ghost function Total(m: map<TokenKey, int>): int
    decreases |m|
  {
    if m == map[] then 0
    else
      var k :| k in m;
      m[k] + Total(m - {k})
  }

  /** The total does not depend on the order of the tokens. */
  lemma {:induction false} TotalRemove(m: map<TokenKey, int>, k: TokenKey)
    requires k in m
    ensures Total(m) == m[k] + Total(m - {k})
    decreases |m|
  {
    var q :| q in m && Total(m) == m[q] + Total(m - {q});
    if q != k {
      TotalRemove(m - {q}, k);
      TotalRemove(m - {k}, q);
      assert m - {q} - {k} == m - {k} - {q};
    }
  }

  lemma TotalUpdate(m: map<TokenKey, int>, k: TokenKey, x: int)
    requires k in m
    ensures Total(m[k := x]) == Total(m) - m[k] + x
  {
    TotalRemove(m, k);
    TotalRemove(m[k := x], k);
    assert m[k := x] - {k} == m - {k};
  }

  lemma {:induction false} TotalZero(m: map<TokenKey, int>)
    requires forall k :: k in m ==> m[k] == 0
    ensures Total(m) == 0
    decreases |m|
  {
    if m != map[] {
      var k :| k in m;
      TotalRemove(m, k);
      TotalZero(m - {k});
    }
  }

  lemma {:induction false} TotalSum(a: map<TokenKey, int>, b: map<TokenKey, int>, sum: map<TokenKey, int>)
    requires a.Keys == b.Keys == sum.Keys && forall k :: k in sum ==> sum[k] == a[k] + b[k]
    ensures Total(sum) == Total(a) + Total(b)
    decreases |sum|
  {
    if sum != map[] {
      var k :| k in sum;
      TotalRemove(sum, k);
      TotalRemove(a, k);
      TotalRemove(b, k);
      TotalSum(a - {k}, b - {k}, sum - {k});
    }
  }

  // ---------- One more row ----------

  /** The volumes of the collection's tokens, by their ledgers. */
  function Volumes(d: Db, c: Address, rejected: set<TokenKey>): map<TokenKey, int> {
    map k | k in d.tokens && k.collection == c && k !in rejected :: Volume(TransfersOf(d, k))
  }

  lemma {:induction false} VolumeChanged(ts: seq<Transfer>, us: seq<Transfer>, i: nat, extra: nat)
    requires i < |ts| == |us| && forall j :: 0 <= j < |ts| && j != i ==> us[j] == ts[j]
    requires Volume([us[i]]) == Volume([ts[i]]) + extra
    ensures Volume(us) == Volume(ts) + extra
  {
    hide Volume;
    var n := |ts| - 1;
    VolumeSplit(ts[..n], ts[n]);
    VolumeSplit(us[..n], us[n]);
    assert ts == ts[..n] + [ts[n]] && us == us[..n] + [us[n]];
    if i < n {
      VolumeChanged(ts[..n], us[..n], i, extra);
    } else {
      assert ts[..n] == us[..n];
    }
  }

  lemma StampVolume(t: Transfer, u: Transfer, o: Order, s: Stamp<OrderStatus>)
    requires t.order == Some(o) && u.order == Some(o.(statuses := o.statuses + [s]))
    ensures Volume([u]) == Volume([t]) + if s.status.Paid? then o.price else 0
  {
    VolumeAppend([], t);
    VolumeAppend([], u);
    assert [] + [t] == [t] && [] + [u] == [u];
    PaidAppend(o.statuses, s);
    if s.status.Paid? { assert o.price * (PaidCount(o.statuses) + 1) == o.price * PaidCount(o.statuses) + o.price; }
  }

  /** The order row of an id and the transfer row behind it. */
  lemma RowsBehind(d: Db, id: nat) returns (o: OrderRow, n: nat)
    requires Sound(d) && HasOrder(d, id)
    ensures o in d.orders && o.id == id && OrderById(d.orders, id) == Some(o)
    ensures n < |d.transfers| && d.transfers[n].id == o.transferId && d.transfers[n].token in d.tokens
    ensures TransferById(d.transfers, o.transferId) == Some(d.transfers[n])
    ensures OrderRowOf(d.orders, d.transfers[n].id) == Some(o)
  {
    o := OrderById(d.orders, id).value;
    assert HasTransfer(d, o.transferId);
    var t := TransferById(d.transfers, o.transferId).value;
    n :| 0 <= n < |d.transfers| && d.transfers[n] == t;
    OneOrderPerTransfer(d, o, OrderRowOf(d.orders, t.id).value);
  }

  lemma SameOrder(d: Db, o: OrderRow, p: OrderRow)
    requires Sound(d) && o in d.orders && p in d.orders && o.id == p.id
    ensures o == p
  {
    var i :| 0 <= i < |d.orders| && d.orders[i] == o;
    var j :| 0 <= j < |d.orders| && d.orders[j] == p;
  }

  lemma DistinctIds(d: Db, m: nat, n: nat)
    requires Sound(d) && m < |d.transfers| && n < |d.transfers| && m != n
    ensures d.transfers[m].id != d.transfers[n].id
  {
    if m < n { assert d.transfers[m].id != d.transfers[n].id; } else { assert d.transfers[n].id != d.transfers[m].id; }
  }

  /** One more row of order_statuses shows on the one transfer behind its order. */
  lemma RowShows(d: Db, e: Db, row: StatusRow<OrderStatus>, o: OrderRow, n: nat, m: nat)
    requires Sound(d) && e == d.(orderStatuses := d.orderStatuses + [row])
    requires o in d.orders && o.id == row.parent && n < |d.transfers|
    requires OrderRowOf(d.orders, d.transfers[n].id) == Some(o)
    requires m < |d.transfers|
    ensures m != n ==> TransferOf(e, d.transfers[m]) == TransferOf(d, d.transfers[m])
    ensures m == n ==>
      var t := TransferOf(d, d.transfers[n]);
      t.order.Some? && t.order.value.price == o.price && TransferOf(e, d.transfers[n]) ==
        t.(order := Some(t.order.value.(statuses := t.order.value.statuses + [Stamp(row.status, row.tx)])))
  {
    var p := OrderRowOf(d.orders, d.transfers[m].id);
    if p.Some? {
      HistoryAppend(d.orderStatuses, row, p.value.id);
      if m != n { DistinctIds(d, m, n); }
      if p.value.id == row.parent {
        SameOrder(d, o, p.value);
      } else {
        assert History(e.orderStatuses, p.value.id) == History(d.orderStatuses, p.value.id);
      }
    }
  }

  lemma RowVolumes(d: Db, e: Db, row: StatusRow<OrderStatus>, c: Address, rejected: set<TokenKey>)
    requires Sound(d) && e == d.(orderStatuses := d.orderStatuses + [row]) && HasOrder(d, row.parent)
    ensures Total(Volumes(e, c, rejected)) == Total(Volumes(d, c, rejected)) + Amount(d, c, rejected, row)
  {
    hide Sound, Volume, Total, TransferOf;
    var o, n := RowsBehind(d, row.parent);
    var k := d.transfers[n].token;
    var extra := if row.status.Paid? then o.price else 0;
    forall q ensures Volume(TransfersOf(e, q)) == Volume(TransfersOf(d, q)) + if q == k then extra else 0 {
      TokenVolume(d, e, row, o, n, q);
    }
    var before, after := Volumes(d, c, rejected), Volumes(e, c, rejected);
    if Included(k, c, rejected) {
      assert after == before[k := before[k] + extra];
      TotalUpdate(before, k, before[k] + extra);
    } else {
      assert after == before;
    }
  }

  lemma TokenVolume(d: Db, e: Db, row: StatusRow<OrderStatus>, o: OrderRow, n: nat, q: TokenKey)
    requires Sound(d) && e == d.(orderStatuses := d.orderStatuses + [row])
    requires o in d.orders && o.id == row.parent && n < |d.transfers|
    requires OrderRowOf(d.orders, d.transfers[n].id) == Some(o)
    ensures Volume(TransfersOf(e, q)) ==
      Volume(TransfersOf(d, q)) + if q == d.transfers[n].token && row.status.Paid? then o.price else 0
  {
    hide Sound, Volume, TransferOf;
    var p := Tables.Positions(d.transfers, q);
    var ts, us := TransfersOf(d, q), TransfersOf(e, q);
    forall j | 0 <= j < |p| && p[j] != n ensures us[j] == ts[j] { RowShows(d, e, row, o, n, p[j]); }
    if q == d.transfers[n].token {
      var i := PositionFound(d.transfers, n);
      RowShows(d, e, row, o, n, n);
      StampVolume(ts[i], us[i], ts[i].order.value, Stamp(row.status, row.tx));
      VolumeChanged(ts, us, i, if row.status.Paid? then o.price else 0);
    } else {
      assert us == ts;
    }
  }

  // ---------- The volume ----------

  lemma {:induction false} NoneSold(ts: seq<Transfer>)
    requires forall i :: 0 <= i < |ts| && ts[i].order.Some? ==> ts[i].order.value.statuses == []
    ensures Volume(ts) == 0
  {
    if ts != [] { NoneSold(ts[..|ts| - 1]); }
  }

  lemma SameSales(d: Db, e: Db, c: Address, rejected: set<TokenKey>, n: nat)
    requires e.orders == d.orders && e.transfers == d.transfers && n <= |d.orderStatuses| && n <= |e.orderStatuses|
    requires forall i :: 0 <= i < n ==> e.orderStatuses[i] == d.orderStatuses[i]
    ensures SalesUpto(e, c, rejected, n) == SalesUpto(d, c, rejected, n)
  {
    if n > 0 { SameSales(d, e, c, rejected, n - 1); }
  }

  lemma StillSound(d: Db, n: nat)
    requires Sound(d) && n <= |d.orderStatuses|
    ensures Sound(d.(orderStatuses := d.orderStatuses[..n]))
  {
    var e := d.(orderStatuses := d.orderStatuses[..n]);
    assert forall id :: HasOrder(d, id) ==> HasOrder(e, id);
    assert forall id :: HasTransfer(d, id) ==> HasTransfer(e, id);
  }

  lemma {:induction false} SalesByRow(d: Db, c: Address, rejected: set<TokenKey>, n: nat)
    requires Sound(d) && n <= |d.orderStatuses|
    ensures SalesUpto(d, c, rejected, n) == Total(Volumes(d.(orderStatuses := d.orderStatuses[..n]), c, rejected))
  {
    hide Sound, Total, Volume, Amount;
    var e := d.(orderStatuses := d.orderStatuses[..n]);
    if n == 0 {
      forall k ensures Volume(TransfersOf(e, k)) == 0 { NoneSold(TransfersOf(e, k)); }
      TotalZero(Volumes(e, c, rejected));
    } else {
      SalesByRow(d, c, rejected, n - 1);
      var before := d.(orderStatuses := d.orderStatuses[..n - 1]);
      var row := d.orderStatuses[n - 1];
      assert d.orderStatuses[..n] == d.orderStatuses[..n - 1] + [row];
      StillSound(d, n - 1);
      ParentThere(d, n - 1);
      RowVolumes(before, e, row, c, rejected);
      SameAmount(d, before, c, rejected, row);
    }
  }

  lemma ParentThere(d: Db, i: nat)
    requires Sound(d) && i < |d.orderStatuses|
    ensures HasOrder(d.(orderStatuses := d.orderStatuses[..i]), d.orderStatuses[i].parent)
  {
    assert HasOrder(d, d.orderStatuses[i].parent);
  }

  lemma SameAmount(d: Db, e: Db, c: Address, rejected: set<TokenKey>, row: StatusRow<OrderStatus>)
    requires e.orders == d.orders && e.transfers == d.transfers
    ensures Amount(e, c, rejected, row) == Amount(d, c, rejected, row)
  {
  }

  /** The query over the rows of a whole collection is the sum of its tokens' volumes. */
  lemma VolumeByToken(d: Db, c: Address, rejected: set<TokenKey>)
    requires Sound(d)
    ensures SalesVolume(d, c, rejected) == Total(Volumes(d, c, rejected))
  {
    SalesByRow(d, c, rejected, |d.orderStatuses|);
    assert d.orderStatuses[..|d.orderStatuses|] == d.orderStatuses;
  }

  /** One more row of order_statuses adds the price of its order if it says Paid and the order's token is
      of the collection and not rejected, and otherwise nothing. */
  lemma RowAdds(d: Db, e: Db, c: Address, rejected: set<TokenKey>, row: StatusRow<OrderStatus>, o: OrderRow,
          t: TransferRow)
    requires Sound(d) && e == d.(orderStatuses := d.orderStatuses + [row])
    requires o in d.orders && o.id == row.parent && t in d.transfers && t.id == o.transferId
    ensures SalesVolume(e, c, rejected) == SalesVolume(d, c, rejected) +
      if row.status == Paid && t.token.collection == c && t.token !in rejected then o.price else 0
  {
    assert HasOrder(d, row.parent);
    var p, n := RowsBehind(d, row.parent);
    SameOrder(d, o, p);
    var m :| 0 <= m < |d.transfers| && d.transfers[m] == t;
    if m != n { DistinctIds(d, m, n); }
    SameSales(d, e, c, rejected, |d.orderStatuses|);
    SameAmount(d, e, c, rejected, row);
  }

  /** What the exchange answered, or paid out, for the sales of a token. */
  function AnsweredFor(logs: seq<Log>, k: TokenKey): nat {
    match StateAfter(logs, k)
    case Some(Held(_, _, _, _, answered)) => answered
    case _ => 0
  }

  function PaidFor(logs: seq<Log>, k: TokenKey): nat {
    match StateAfter(logs, k)
    case Some(Held(_, _, _, paid, _)) => paid
    case _ => 0
  }

  /** The same for each token of a collection, and what the answers overstate. */
  function AnsweredByToken(d: Db, c: Address, rejected: set<TokenKey>, logs: seq<Log>): map<TokenKey, int> {
    map k | k in d.tokens && k.collection == c && k !in rejected :: AnsweredFor(logs, k)
  }

  function PaidByToken(d: Db, c: Address, rejected: set<TokenKey>, logs: seq<Log>): map<TokenKey, int> {
    map k | k in d.tokens && k.collection == c && k !in rejected :: PaidFor(logs, k)
  }

  function ExcessByToken(d: Db, c: Address, rejected: set<TokenKey>, chain: seq<seq<Log>>, n: nat): map<TokenKey, int>
    requires n <= |chain|
  {
    map k | k in d.tokens && k.collection == c && k !in rejected :: OverstatedBy(chain, k, n)
  }

  /** The sales volume shown for a collection is the sum of the exchange's answers for the completed
      sales of its tokens. */
  lemma SalesAreAnswers(d: Db, clock: int, logs: seq<Log>, c: Address, rejected: set<TokenKey>)
    requires Valid(d, clock) && Faithful(ViewOf(d), logs)
    ensures SalesVolume(d, c, rejected) == Total(AnsweredByToken(d, c, rejected, logs))
    ensures forall k :: k in d.tokens <==> StateAfter(logs, k).Some? && StateAfter(logs, k).value.Held?
  {
    hide StateAt, Keyed, Refers, Timed, Mirrors, Volume, Total, SalesVolume;
    VolumeByToken(d, c, rejected);
    forall k ensures k in d.tokens <==> StateAfter(logs, k).Some? && StateAfter(logs, k).value.Held?
    {
      OwnersAndSales(ViewOf(d), logs, k);
    }
    forall k | k in d.tokens ensures Volume(TransfersOf(d, k)) == AnsweredFor(logs, k) {
      OwnersAndSales(ViewOf(d), logs, k);
    }
    assert Volumes(d, c, rejected) == AnsweredByToken(d, c, rejected, logs);
  }

  /** ... which exceeds what it paid out by what the transfers drafted and sold within one block account
      for, and not at all if there are none. */
  lemma SalesArePaidIff(d: Db, clock: int, chain: seq<seq<Log>>, n: nat, c: Address, rejected: set<TokenKey>)
    requires Valid(d, clock) && n <= |chain| && Faithful(ViewOf(d), Flat(chain, n))
    requires Possible(All(chain)) && EndOfBlock(chain)
    ensures
      var paid := Total(PaidByToken(d, c, rejected, Flat(chain, n)));
      var over := Total(ExcessByToken(d, c, rejected, chain, n));
      && SalesVolume(d, c, rejected) == paid + over
      && (SalesVolume(d, c, rejected) == paid <==> over == 0)
      && (NoFlashSale(chain) ==> over == 0)
  {
    hide StateAt, Keyed, Refers, Timed, Total, SalesVolume, Faithful, Flat, Possible, EndOfBlock, NoFlashSale,
         OverstatedBy;
    SalesAreAnswers(d, clock, Flat(chain, n), c, rejected);
    forall k ensures AnsweredFor(Flat(chain, n), k) == PaidFor(Flat(chain, n), k) + OverstatedBy(chain, k, n) {
      PaidAndAnswered(chain, k, n);
      FlatMonotone(chain, n, |chain|);
      var part := Flat(chain, n);
      assert forall i :: 0 <= i < |part| ==> part[i] == All(chain)[..|part|][i];
      SameState(All(chain), part, k, |part|);
    }
    var over := ExcessByToken(d, c, rejected, chain, n);
    TotalSum(PaidByToken(d, c, rejected, Flat(chain, n)), over, AnsweredByToken(d, c, rejected, Flat(chain, n)));
    if NoFlashSale(chain) {
      forall k ensures OverstatedBy(chain, k, n) == 0 { PaidIsAnswered(chain, k, n); }
      TotalZero(over);
    }
  }
}
