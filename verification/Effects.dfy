/**
  What one event handler does to the database, and that this is what Ledger.Handle says.
 */
module Effects {
  import opened Wrappers
  import opened Chain
  import opened Ledger
  import opened Tables

  /** What happens outside while one log is handled: how the calls answer and the two readings
      of the indexer's clock (only a draft reads it twice). */
  datatype Round = Round(weather: Weather, first: int, second: int)

  /** Integrity, and no timestamp later than `clock`. */
  ghost predicate Valid(d: Db, clock: int) {
    Sound(d) && Timed(d.transferStatuses, clock) && Timed(d.orderStatuses, clock)
  }

  /** The handler returns early, without an error. */
  predicate Skips(d: Db, l: Log, w: Weather) {
    match l.event
    case Unindexed => true
    case Mint(_) => w.LookupFails? || TokenKey(l.txTo, l.token) in d.tokens
    case _ => SeenRow(d, l.token, StatusOf(l.event).value, l.tx) || l.Key() !in d.tokens
  }

  predicate Opener(e: Event) { e.TransferInit? || e.TransferDraft? }

  /** TransferInit files the transfer under the transaction's recipient, a draft under the
      emitting contract. */
  function OpenedKey(l: Log): TokenKey {
    if l.event.TransferInit? then TokenKey(l.txTo, l.token) else l.Key()
  }

  /** Would a status insert hit the primary key? */
  predicate Collides(d: Db, n: nat, e: Event, time: int)
    requires n < |d.transfers|
  {
    var o := OrderRowOf(d.orders, d.transfers[n].id);
    || TakenKey(d.transferStatuses, d.transfers[n].id, time)
    || (o.Some? && OrderStatusOf(e).Some? && TakenKey(d.orderStatuses, o.value.id, time))
  }

  /** A handler that finds something to do and returns no error. */
  ghost predicate Succeeds(d: Db, e: Db, l: Log, r: Round) {
    if l.event.Mint? then
      !r.weather.CallFails? && e == d.(tokens := d.tokens[TokenKey(l.txTo, l.token) := TokenRow(l.event.owner, l.tx)])
    else if Opener(l.event) then
      && !r.weather.CallFails? && OpenedKey(l) in d.tokens && Answered(l.event)
      && Opens(d, e, OpenedKey(l), l.event, l.tx, if l.event.TransferInit? then r.first else r.second, r.first)
    else
      var n := ActiveTransferRow(d, l.Key());
      && StatusOf(l.event).Some? && !r.weather.CallFails? && n.Some? && n.value < |d.transfers|
      && (l.event.DraftCompletion? ==> OrderRowOf(d.orders, d.transfers[n.value].id).Some?)
      && !Collides(d, n.value, l.event, r.first)
      && Advances(d, e, n.value, l.event, l.tx, r.first)
  }

  /** Why a handler returns an error. */
  ghost predicate Blocked(d: Db, l: Log, r: Round) {
    if r.weather.CallFails? then true
    else if l.event.Mint? then false
    else if Opener(l.event) then
      || OpenedKey(l) !in d.tokens || !Answered(l.event)
      || TakenKey(d.transferStatuses, d.nextTransferId, if l.event.TransferInit? then r.first else r.second)
      || TakenKey(d.orderStatuses, d.nextOrderId, r.first)
    else
      var n := ActiveTransferRow(d, l.Key());
      || n.None? || n.value >= |d.transfers|
      || (l.event.DraftCompletion? && OrderRowOf(d.orders, d.transfers[n.value].id).None?)
      || Collides(d, n.value, l.event, r.first)
  }

  /** The contract of every handler, on the database before and after. */
  ghost predicate Done(d: Db, e: Db, l: Log, r: Round, ok: bool) {
    && d.nextTransferId <= e.nextTransferId && d.nextOrderId <= e.nextOrderId
    && (if Skips(d, l, r.weather) then ok && e == d
        else if ok then Succeeds(d, e, l, r)
        else Blocked(d, l, r))
  }

  // ---------- Lifting to the ledgers ----------

  lemma FreshParents(d: Db, clock: int, time: int, orderTime: int)
    requires Valid(d, clock)
    ensures !TakenKey(d.transferStatuses, d.nextTransferId, time)
    ensures !TakenKey(d.orderStatuses, d.nextOrderId, orderTime)
  {
    FreshKey(d.transferStatuses, clock, d.nextTransferId, time);
    FreshKey(d.orderStatuses, clock, d.nextOrderId, orderTime);
  }

  lemma OpeningHandled(d: Db, e: Db, clock: int, l: Log, time: int, orderTime: int, now: int)
    requires Valid(d, clock) && clock <= time <= now && clock <= orderTime <= now
    requires Opening(l.event) && OpenedKey(l) in d.tokens && l.Key() in d.tokens
    requires !SeenRow(d, l.token, StatusOf(l.event).value, l.tx)
    requires Opens(d, e, OpenedKey(l), l.event, l.tx, time, orderTime)
    ensures Valid(e, now)
    ensures Handle(ViewOf(d), l, Clear) == Some(ViewOf(e))
  {
    SeenRowIsSeen(d, l.token, StatusOf(l.event).value, l.tx);
    FreshParents(d, clock, time, orderTime);
    TimedAppend(d.transferStatuses, StatusRow(d.nextTransferId, time, StatusOf(l.event).value, l.tx), clock, now);
    TimedAppend(d.orderStatuses, StatusRow(d.nextOrderId, orderTime, Placed, l.tx), clock, now);
    OpensView(d, e, OpenedKey(l), l.event, l.tx, time, orderTime);
  }

  lemma AdvanceTimed(d: Db, e: Db, clock: int, l: Log, n: nat, time: int, now: int)
    requires Timed(d.transferStatuses, clock) && Timed(d.orderStatuses, clock) && clock <= time <= now
    requires StatusOf(l.event).Some? && n < |d.transfers| && Advances(d, e, n, l.event, l.tx, time)
    requires !Collides(d, n, l.event, time)
    ensures Timed(e.transferStatuses, now) && Timed(e.orderStatuses, now)
  {
    var row := d.transfers[n];
    TimedAppend(d.transferStatuses, StatusRow(row.id, time, StatusOf(l.event).value, l.tx), clock, now);
    var o := OrderRowOf(d.orders, row.id);
    if o.Some? && OrderStatusOf(l.event).Some? {
      TimedAppend(d.orderStatuses, StatusRow(o.value.id, time, OrderStatusOf(l.event).value, l.tx), clock, now);
    }
  }

  /** The query and the ledger agree on which transfer is active. */
  lemma ActiveAgrees(d: Db, clock: int, k: TokenKey)
    requires Valid(d, clock)
    ensures
      var row := ActiveTransferRow(d, k);
      var active := FirstActive(TransfersOf(d, k));
      && (row.None? <==> active.None?)
      && (row.Some? ==>
            && row.value < |d.transfers| && d.transfers[row.value].token == k
            && Active(TransferOf(d, d.transfers[row.value]))
            && TransfersOf(d, k)[active.value] == TransferOf(d, d.transfers[row.value])
            && forall m :: 0 <= m < row.value && d.transfers[m].token == k ==> !Active(TransferOf(d, d.transfers[m])))
  {
    forall m | 0 <= m < |d.transfers|
      ensures ActiveRow(d.transferStatuses, d.transfers[m].id) <==> Active(TransferOf(d, d.transfers[m]))
    {
      ActiveRowIsActive(d, clock, d.transfers[m]);
    }
    var row := ActiveTransferRow(d, k);
    if row.Some? {
      var i := FirstActivePosition(d, row.value);
    } else {
      var p := Positions(d.transfers, k);
      assert forall i :: 0 <= i < |p| ==> !Active(TransferOf(d, d.transfers[p[i]]));
    }
  }

  lemma AdvanceNew(d: Db, e: Db, clock: int, l: Log, n: nat, time: int)
    requires Valid(d, clock)
    requires StatusOf(l.event).Some? && !Opener(l.event) && l.Key() in d.tokens
    requires ActiveTransferRow(d, l.Key()) == Some(n)
    requires n < |d.transfers| && Advances(d, e, n, l.event, l.tx, time)
    requires l.event.DraftCompletion? ==> OrderRowOf(d.orders, d.transfers[n].id).Some?
    ensures Sound(e)
    ensures HandleNew(ViewOf(d), l) == Some(ViewOf(e))
  {
    ActiveAgrees(d, clock, l.Key());
    AdvancesView(d, e, n, l.event, l.tx, time);
    OrderAgrees(d, n);
  }

  lemma OrderAgrees(d: Db, n: nat)
    requires n < |d.transfers|
    ensures TransferOf(d, d.transfers[n]).order.None? <==> OrderRowOf(d.orders, d.transfers[n].id).None?
  {
  }

  lemma AdvanceHandled(d: Db, e: Db, clock: int, l: Log, r: Round)
    requires Valid(d, clock) && clock <= r.first <= r.second
    requires !l.event.Mint? && !Opener(l.event) && !Skips(d, l, r.weather) && Succeeds(d, e, l, r)
    ensures Valid(e, r.second)
    ensures Handle(ViewOf(d), l, r.weather) == Some(ViewOf(e))
  {
    var n := ActiveTransferRow(d, l.Key()).value;
    AdvanceNew(d, e, clock, l, n, r.first);
    AdvanceTimed(d, e, clock, l, n, r.first, r.second);
    SeenRowIsSeen(d, l.token, StatusOf(l.event).value, l.tx);
  }

  lemma OpeningSucceeds(d: Db, e: Db, clock: int, l: Log, r: Round)
    requires Valid(d, clock) && clock <= r.first <= r.second
    requires Opener(l.event) && !Skips(d, l, r.weather) && Succeeds(d, e, l, r)
    ensures Valid(e, r.second)
    ensures Handle(ViewOf(d), l, r.weather) == Some(ViewOf(e))
  {
    OpeningHandled(d, e, clock, l, if l.event.TransferInit? then r.first else r.second, r.first, r.second);
  }

  lemma MintSucceeds(d: Db, e: Db, clock: int, l: Log, r: Round)
    requires Valid(d, clock) && clock <= r.first <= r.second
    requires l.event.Mint? && !Skips(d, l, r.weather) && Succeeds(d, e, l, r)
    ensures Valid(e, r.second)
    ensures Handle(ViewOf(d), l, r.weather) == Some(ViewOf(e))
  {
    MintsView(d, e, TokenKey(l.txTo, l.token), l.event.owner, l.tx);
  }

  lemma SkipHandled(d: Db, l: Log, w: Weather)
    requires Sound(d) && Skips(d, l, w)
    ensures Handle(ViewOf(d), l, w) == Some(ViewOf(d))
  {
    if StatusOf(l.event).Some? { SeenRowIsSeen(d, l.token, StatusOf(l.event).value, l.tx); }
  }

  /** A handler that returns no error has moved the ledgers exactly as Handle says. */
  lemma SuccessHandled(d: Db, e: Db, clock: int, l: Log, r: Round)
    requires Valid(d, clock) && clock <= r.first <= r.second && Done(d, e, l, r, true)
    ensures Valid(e, r.second)
    ensures Handle(ViewOf(d), l, r.weather) == Some(ViewOf(e))
  {
    if Skips(d, l, r.weather) { SkipHandled(d, l, r.weather); }
    else if l.event.Mint? { MintSucceeds(d, e, clock, l, r); }
    else if Opener(l.event) { OpeningSucceeds(d, e, clock, l, r); }
    else { AdvanceHandled(d, e, clock, l, r); }
  }

  lemma NoCollision(d: Db, clock: int, n: nat, e: Event, time: int)
    requires Valid(d, clock) && clock < time && n < |d.transfers|
    ensures !Collides(d, n, e, time)
  {
    FreshKey(d.transferStatuses, clock, d.transfers[n].id, time);
    var o := OrderRowOf(d.orders, d.transfers[n].id);
    if o.Some? { FreshKey(d.orderStatuses, clock, o.value.id, time); }
  }

  /** Once the clock has moved on, a handler returns an error only where Handle has none to give. */
  lemma FailureHandled(d: Db, e: Db, clock: int, l: Log, r: Round)
    requires Valid(d, clock) && clock < r.first <= r.second && Done(d, e, l, r, false)
    ensures Handle(ViewOf(d), l, r.weather).None?
  {
    hide Keyed, Refers, TakenKey;
    if StatusOf(l.event).Some? { SeenRowIsSeen(d, l.token, StatusOf(l.event).value, l.tx); }
    FreshParents(d, clock, if l.event.TransferInit? then r.first else r.second, r.first);
    ActiveAgrees(d, clock, l.Key());
    var n := ActiveTransferRow(d, l.Key());
    if n.Some? {
      NoCollision(d, clock, n.value, l.event, r.first);
      OrderAgrees(d, n.value);
    }
  }
}
