/**
  On every legal history the ledgers mirror the contracts: the same owners, the same pending
  transfers with the same data, orders in lockstep with their transfers, and sales volumes
  equal to what the exchange paid out.
 */
module Refinement {
  import opened Wrappers
  import opened Chain
  import opened Ledger

  /** A history the contracts can produce, whose transactions never give one token id the same
      status twice, and whose mints and TransferInits are sent to the emitting collection. */
  ghost predicate Possible(logs: seq<Log>) {
    (forall k :: StateAfter(logs, k).Some?) && DistinctStamps(logs) && SentHome(logs)
  }

  /** Do two logs have the same deduplication key? */
  predicate SameStamp(a: Log, b: Log) {
    a.token == b.token && a.tx == b.tx && StatusOf(a.event).Some? && StatusOf(a.event) == StatusOf(b.event)
  }

  ghost predicate DistinctStamps(logs: seq<Log>) {
    forall i, j :: 0 <= i < j < |logs| ==> !SameStamp(logs[i], logs[j])
  }

  predicate SentHome(logs: seq<Log>) {
    forall i :: 0 <= i < |logs| && (logs[i].event.Mint? || logs[i].event.TransferInit?) ==>
      logs[i].txTo == logs[i].address
  }

  /** A step of the contracts that the indexer can follow: a draft has an order to ask for, and a
      completion belongs to a draft that had one.  The contracts also let an owner start a draft past
      the exchange, and complete a transfer that TransferInit started without a recipient. */
  predicate Follows(s: TokenState, e: Event) {
    Emit(s, e).Some? && Answered(e) && (e.DraftCompletion? ==> s.Held? && s.deal.Some? && s.deal.value.answer.Some?)
  }

  predicate FollowedAt(logs: seq<Log>, n: nat)
    requires n < |logs|
  {
    var s := StateAt(logs, logs[n].Key(), n);
    s.Some? && Follows(s.value, logs[n].event)
  }

  /** Every draft is answered, and every completion belongs to an answered draft. */
  ghost predicate Followable(logs: seq<Log>) {
    forall n: nat :: n < |logs| ==> FollowedAt(logs, n)
  }

  ghost predicate Legal(logs: seq<Log>) { Possible(logs) && Followable(logs) }

  lemma {:induction false} StateExists(logs: seq<Log>, k: TokenKey, n: nat, m: nat)
    requires n <= m <= |logs| && StateAt(logs, k, m).Some?
    ensures StateAt(logs, k, n).Some?
  {
    if n < m { StateExists(logs, k, n, m - 1); }
  }

  /** In a possible history every log is a step of its token's contract. */
  lemma Emitted(logs: seq<Log>, n: nat)
    requires Possible(logs) && n < |logs|
    ensures var s := StateAt(logs, logs[n].Key(), n); s.Some? && Emit(s.value, logs[n].event).Some?
    ensures var s := StateAt(logs, logs[n].Key(), n);
      StateAt(logs, logs[n].Key(), n + 1) == Emit(s.value, logs[n].event)
  {
    hide Emit;
    var k := logs[n].Key();
    assert StateAfter(logs, k).Some?;
    StateExists(logs, k, n + 1, |logs|);
  }

  lemma LegalPrefix(logs: seq<Log>, n: nat)
    requires Possible(logs) && n <= |logs|
    ensures Possible(logs[..n])
    ensures Followable(logs) ==> Followable(logs[..n])
  {
    hide StateAt, Follows;
    forall k ensures StateAfter(logs[..n], k).Some? {
      assert StateAfter(logs, k).Some?;
      StateExists(logs, k, n, |logs|);
      SameState(logs, logs[..n], k, n);
    }
    if Followable(logs) {
      forall m: nat | m < n ensures FollowedAt(logs[..n], m) {
        assert FollowedAt(logs, m);
        SameState(logs, logs[..n], logs[m].Key(), m);
      }
    }
  }

  // ---------- What mirrors what ----------

  function Latest(t: Transfer): Status
    requires t.statuses != []
  {
    t.statuses[|t.statuses| - 1].status
  }

  function Kinds<S>(stamps: seq<Stamp<S>>): (r: seq<S>)
    ensures |r| == |stamps| && forall i :: 0 <= i < |r| ==> r[i] == stamps[i].status
  {
    seq(|stamps|, i requires 0 <= i < |stamps| => stamps[i].status)
  }

  /** Where a pending transfer stands in the contract. */
  function Phase(d: Deal): Status {
    if d.reported then Reported
    else if d.password != "" then PasswordSaved
    else if d.key != "" then PublicKeySaved
    else if d.to != ZERO_ADDRESS || d.answer.None? then Created
    else Drafted
  }

  /** The order in which a deal's data can be filled in. */
  predicate Ordered(d: Deal) {
    && (d.to == ZERO_ADDRESS ==> d.key == "")
    && (d.key == "" ==> d.password == "")
    && (d.password == "" ==> !d.reported)
  }

  ghost predicate MirrorsDeal(t: Transfer, d: Deal) {
    && Ordered(d)
    && t.statuses != [] && Latest(t) == Phase(d)
    && t.from == d.from && t.to == d.to && t.number == d.number
    && t.key == d.key && t.password == d.password && !t.fraudApproved
    && (if t.order.Some? then Some(t.order.value.price) else None) == d.answer
  }

  /** The order histories that go with a transfer's latest status. */
  predicate FitsTransfer(kinds: seq<OrderStatus>, latest: Status, fraudApproved: bool) {
    match latest
    case Drafted => kinds == [Placed]
    case Finished => kinds == [Placed, Fulfilled, if fraudApproved then FraudApproved else Paid]
    case Cancelled => kinds == [Placed, Withdrawn] || kinds == [Placed, Fulfilled, Withdrawn]
    case _ => kinds == [Placed, Fulfilled]
  }

  /** An order's history follows its transfer's: placed, fulfilled once the draft is completed,
      and closed the way the transfer is. */
  ghost predicate Lockstep(t: Transfer) {
    && t.statuses != []
    && (t.fraudApproved ==> Latest(t).Finished?)
    && (t.order.Some? ==> FitsTransfer(Kinds(t.order.value.statuses), Latest(t), t.fraudApproved))
  }

  function PaidCount(stamps: seq<Stamp<OrderStatus>>): nat {
    if stamps == [] then 0
    else PaidCount(stamps[..|stamps| - 1]) + (if stamps[|stamps| - 1].status.Paid? then 1 else 0)
  }

  /** The sales-volume query for one token: the price of every order, once per Finished row. */
  function Volume(ts: seq<Transfer>): nat {
    if ts == [] then 0
    else
      var t := ts[|ts| - 1];
      Volume(ts[..|ts| - 1]) + (if t.order.Some? then t.order.value.price * PaidCount(t.order.value.statuses) else 0)
  }

  ghost predicate Mirrors(g: TokenLedger, s: TokenState) {
    && s.Held? && g.owner == s.owner && |g.transfers| == s.started && Volume(g.transfers) == s.answered
    && (forall i :: 0 <= i < |g.transfers| ==> Lockstep(g.transfers[i]) && g.transfers[i].number == i + 1)
    && (forall i :: 0 <= i < |g.transfers| - (if s.deal.Some? then 1 else 0) ==> !Active(g.transfers[i]))
    && (s.deal.Some? ==> |g.transfers| > 0 && MirrorsDeal(g.transfers[|g.transfers| - 1], s.deal.value))
  }

  ghost predicate Mirrored(v: View, logs: seq<Log>) {
    forall k :: MirrorsState(if k in v then Some(v[k]) else None, StateAfter(logs, k))
  }

  // ---------- One step ----------

  lemma VolumeAppend(ts: seq<Transfer>, t: Transfer)
    ensures Volume(ts + [t]) ==
      Volume(ts) + if t.order.Some? then t.order.value.price * PaidCount(t.order.value.statuses) else 0
  {
    assert (ts + [t])[..|ts|] == ts;
  }

  lemma PaidAppend(stamps: seq<Stamp<OrderStatus>>, s: Stamp<OrderStatus>)
    ensures PaidCount(stamps + [s]) == PaidCount(stamps) + (if s.status.Paid? then 1 else 0)
  {
    assert (stamps + [s])[..|stamps|] == stamps;
  }

  lemma {:induction false} NonePaid(stamps: seq<Stamp<OrderStatus>>)
    requires forall i :: 0 <= i < |stamps| ==> !stamps[i].status.Paid?
    ensures PaidCount(stamps) == 0
  {
    if stamps != [] { NonePaid(stamps[..|stamps| - 1]); }
  }

  lemma PendingIsFirstActive(g: TokenLedger, s: TokenState)
    requires Mirrors(g, s)
    ensures FirstActive(g.transfers) == if s.deal.Some? then Some(|g.transfers| - 1) else None
  {
    if s.deal.Some? {
      assert Active(g.transfers[|g.transfers| - 1]);
    }
  }

  lemma OpenMirrors(g: TokenLedger, s: TokenState, e: Event, tx: Hash)
    requires Mirrors(g, s) && (e.TransferInit? || e.TransferDraft?) && Follows(s, e)
    ensures Mirrors(g.(transfers := g.transfers + [Opened(e, tx)]), Emit(s, e).value)
  {
    hide Volume, PaidCount;
    var t := Opened(e, tx);
    VolumeAppend(g.transfers, t);
    if t.order.Some? {
      NonePaid(t.order.value.statuses);
      assert Kinds(t.order.value.statuses) == [Placed];
    }
  }

  /** One event on the pending transfer keeps data and lockstep. */
  lemma StampedInStep(t: Transfer, s: TokenState, e: Event, tx: Hash)
    requires s.Held? && s.deal.Some? && MirrorsDeal(t, s.deal.value) && Lockstep(t)
    requires Follows(s, e) && StatusOf(e).Some?
    ensures e.DraftCompletion? ==> t.order.Some?
    ensures Emit(s, e).value.owner == if HandsOver(e) then t.to else s.owner
    ensures var u := Stamped(t, e, tx); Lockstep(u) && u.number == t.number
    ensures var u := Stamped(t, e, tx); var after := Emit(s, e).value;
      if after.deal.Some? then MirrorsDeal(u, after.deal.value) else !Active(u)
  {
    var u := Stamped(t, e, tx);
    assert Latest(u) == StatusOf(e).value;
    if t.order.Some? {
      var kinds := Kinds(t.order.value.statuses);
      assert kinds == if Latest(t).Drafted? then [Placed] else [Placed, Fulfilled];
      if OrderStatusOf(e).Some? {
        assert Kinds(u.order.value.statuses) == kinds + [OrderStatusOf(e).value];
        assert kinds == [Placed] ==> e.DraftCompletion? || e.Cancellation?;
      } else {
        assert u.order == t.order && !Latest(t).Drafted?;
      }
    }
  }

  lemma StampedVolume(t: Transfer, s: TokenState, e: Event, tx: Hash)
    requires s.Held? && s.deal.Some? && MirrorsDeal(t, s.deal.value) && Lockstep(t)
    requires Follows(s, e) && StatusOf(e).Some?
    ensures Volume([t]) == 0
    ensures s.answered + Volume([Stamped(t, e, tx)]) == Emit(s, e).value.answered
  {
    VolumeAppend([], t);
    VolumeAppend([], Stamped(t, e, tx));
    assert [] + [t] == [t] && [] + [Stamped(t, e, tx)] == [Stamped(t, e, tx)];
    if t.order.Some? {
      var stamps := t.order.value.statuses;
      assert forall i :: 0 <= i < |stamps| ==> !Kinds(stamps)[i].Paid?;
      NonePaid(stamps);
      if OrderStatusOf(e).Some? { PaidAppend(stamps, Stamp(OrderStatusOf(e).value, tx)); }
    }
  }

  lemma VolumeSplit(ts: seq<Transfer>, t: Transfer)
    ensures Volume(ts + [t]) == Volume(ts) + Volume([t])
  {
    VolumeAppend(ts, t);
    VolumeAppend([], t);
    assert [] + [t] == [t];
  }

  lemma AdvanceMirrors(g: TokenLedger, s: TokenState, e: Event, tx: Hash)
    requires Mirrors(g, s) && s.deal.Some? && StatusOf(e).Some? && !e.TransferInit? && !e.TransferDraft?
    requires Follows(s, e)
    ensures Mirrors(Advance(g, |g.transfers| - 1, e, tx), Emit(s, e).value)
  {
    hide Lockstep, MirrorsDeal, Volume;
    var n := |g.transfers| - 1;
    var t := g.transfers[n];
    var u := Stamped(t, e, tx);
    StampedInStep(t, s, e, tx);
    StampedVolume(t, s, e, tx);
    assert g.transfers == g.transfers[..n] + [t];
    assert g.transfers[n := u] == g.transfers[..n] + [u];
    VolumeSplit(g.transfers[..n], t);
    VolumeSplit(g.transfers[..n], u);
  }

  /** What a status-bearing log makes of its token's ledger. */
  function Continue(g: TokenLedger, l: Log): TokenLedger
    requires StatusOf(l.event).Some? && Answered(l.event)
  {
    if l.event.TransferInit? || l.event.TransferDraft? then g.(transfers := g.transfers + [Opened(l.event, l.tx)])
    else if g.transfers == [] then g
    else Advance(g, |g.transfers| - 1, l.event, l.tx)
  }

  lemma ContinueMirrors(g: TokenLedger, s: TokenState, l: Log)
    requires Mirrors(g, s) && Follows(s, l.event) && StatusOf(l.event).Some?
    ensures Mirrors(Continue(g, l), Emit(s, l.event).value)
    ensures Answered(l.event) && (l.event.TransferInit? || l.event.TransferDraft? || g.transfers != [])
  {
    if l.event.TransferInit? || l.event.TransferDraft? {
      OpenMirrors(g, s, l.event, l.tx);
    } else {
      AdvanceMirrors(g, s, l.event, l.tx);
    }
  }

  /** A new log of a token whose ledger mirrors the contract is handled exactly if it can be
      followed, and then only its own token's ledger moves. */
  lemma FreshLogHandled(v: View, s: TokenState, l: Log, w: Weather)
    requires l.Key() in v && Mirrors(v[l.Key()], s) && Emit(s, l.event).Some? && StatusOf(l.event).Some?
    requires l.event.TransferInit? ==> l.txTo == l.address
    requires !Seen(v, l.token, StatusOf(l.event).value, l.tx)
    ensures Handle(v, l, w) ==
      if w.CallFails? || !Follows(s, l.event) then None else Some(v[l.Key() := Continue(v[l.Key()], l)])
  {
    hide Seen, Volume, Lockstep, Advance;
    if !l.event.TransferInit? && !l.event.TransferDraft? { PendingIsFirstActive(v[l.Key()], s); }
  }

  // ---------- The ledger of one token ----------

  /** The ledger of one token after a clean pass over the first n logs, as its own logs make it. */
  function PassAt(logs: seq<Log>, k: TokenKey, n: nat): Option<TokenLedger>
    requires n <= |logs|
  {
    if n == 0 then None
    else
      var before := PassAt(logs, k, n - 1);
      if logs[n - 1].Key() == k then Next(before, logs[n - 1]) else before
  }

  function Next(g: Option<TokenLedger>, l: Log): Option<TokenLedger> {
    if l.event.Mint? then (if g.Some? then g else Some(TokenLedger(l.event.owner, l.tx, [])))
    else if g.None? || StatusOf(l.event).None? || !Answered(l.event) then g
    else Some(Continue(g.value, l))
  }

  /** Can the first n logs of a token be followed? */
  ghost predicate FollowedUpto(logs: seq<Log>, k: TokenKey, n: nat)
    requires n <= |logs|
  {
    forall i: nat :: i < n && logs[i].Key() == k ==> FollowedAt(logs, i)
  }

  /** Does a ledger, or its absence, mirror a state? */
  ghost predicate MirrorsState(g: Option<TokenLedger>, s: Option<TokenState>) {
    s.Some? && if g.Some? then Mirrors(g.value, s.value) else s.value.Unminted?
  }

  lemma NextMirrors(g: Option<TokenLedger>, s: TokenState, l: Log)
    requires MirrorsState(g, Some(s)) && Follows(s, l.event)
    ensures MirrorsState(Next(g, l), Emit(s, l.event))
    ensures StatusOf(l.event).Some? ==> g.Some? && Next(g, l) == Some(Continue(g.value, l))
  {
    if StatusOf(l.event).Some? { ContinueMirrors(g.value, s, l); }
  }

  /** As long as its logs can be followed, a token's ledger mirrors its contract. */
  lemma {:induction false} PassMirrors(logs: seq<Log>, k: TokenKey, n: nat)
    requires Possible(logs) && n <= |logs| && FollowedUpto(logs, k, n)
    ensures MirrorsState(PassAt(logs, k, n), StateAt(logs, k, n))
  {
    hide Possible, Follows, Mirrors, Emit, Next;
    if n > 0 {
      PassMirrors(logs, k, n - 1);
      if logs[n - 1].Key() == k {
        assert FollowedAt(logs, n - 1);
        NextMirrors(PassAt(logs, k, n - 1), StateAt(logs, k, n - 1).value, logs[n - 1]);
      }
    }
  }

  /** Log i left this stamp in the ledger of k. */
  predicate LeftBy(logs: seq<Log>, i: int, k: TokenKey, stamp: Stamp<Status>) {
    && 0 <= i < |logs| && logs[i].Key() == k && logs[i].tx == stamp.tx
    && StatusOf(logs[i].event) == Some(stamp.status)
  }

  /** One of the first n logs left this stamp. */
  ghost predicate LeftUpto(logs: seq<Log>, k: TokenKey, stamp: Stamp<Status>, n: nat) {
    exists i :: i < n && LeftBy(logs, i, k, stamp)
  }

  lemma ContinueStamps(g: TokenLedger, l: Log, stamp: Stamp<Status>)
    requires StatusOf(l.event).Some? && Answered(l.event)
    requires (l.event.TransferInit? || l.event.TransferDraft? || g.transfers != [])
    ensures HasStamp(Continue(g, l), stamp) <==> HasStamp(g, stamp) || stamp == Stamp(StatusOf(l.event).value, l.tx)
  {
    var h := Continue(g, l);
    var mine := Stamp(StatusOf(l.event).value, l.tx);
    if l.event.TransferInit? || l.event.TransferDraft? {
      assert h.transfers[|g.transfers|].statuses == [mine];
      assert mine in h.transfers[|g.transfers|].statuses;
      if HasStamp(g, stamp) {
        var i :| 0 <= i < |g.transfers| && stamp in g.transfers[i].statuses;
        assert stamp in h.transfers[i].statuses;
      }
    } else {
      var n := |g.transfers| - 1;
      assert h.transfers[n].statuses == g.transfers[n].statuses + [mine];
      assert mine in h.transfers[n].statuses;
      if HasStamp(g, stamp) {
        var i :| 0 <= i < |g.transfers| && stamp in g.transfers[i].statuses;
        assert stamp in h.transfers[i].statuses;
      }
      if HasStamp(h, stamp) {
        var i :| 0 <= i < |h.transfers| && stamp in h.transfers[i].statuses;
        assert i == n || stamp in g.transfers[i].statuses;
        assert i == n && stamp != mine ==> stamp in g.transfers[n].statuses;
      }
    }
  }

  lemma LeftStep(logs: seq<Log>, k: TokenKey, stamp: Stamp<Status>, n: nat)
    requires 0 < n <= |logs|
    ensures LeftUpto(logs, k, stamp, n) <==> LeftUpto(logs, k, stamp, n - 1) || LeftBy(logs, n - 1, k, stamp)
  {
    if i :| i < n && LeftBy(logs, i, k, stamp) {
      assert i < n - 1 ==> LeftUpto(logs, k, stamp, n - 1);
    }
  }

  /** The stamps of a token's ledger are exactly those its logs leave. */
  lemma {:induction false} PassStamps(logs: seq<Log>, k: TokenKey, n: nat, stamp: Stamp<Status>)
    requires Possible(logs) && n <= |logs| && FollowedUpto(logs, k, n)
    ensures LeftUpto(logs, k, stamp, n) <==> PassAt(logs, k, n).Some? && HasStamp(PassAt(logs, k, n).value, stamp)
  {
    hide Possible, Follows, Mirrors, Emit, Continue, HasStamp, LeftUpto;
    if n == 0 {
      assert !LeftUpto(logs, k, stamp, 0) by { NothingLeft(logs, k, stamp); }
      return;
    }
    var l := logs[n - 1];
    LeftStep(logs, k, stamp, n);
    PassStamps(logs, k, n - 1, stamp);
    if l.Key() == k {
      assert FollowedAt(logs, n - 1);
      PassMirrors(logs, k, n - 1);
      var before := PassAt(logs, k, n - 1);
      NextMirrors(before, StateAt(logs, k, n - 1).value, l);
      if StatusOf(l.event).Some? {
        ContinueMirrors(before.value, StateAt(logs, k, n - 1).value, l);
        ContinueStamps(before.value, l, stamp);
      } else if l.event.Mint? {
        NoStamps(TokenLedger(l.event.owner, l.tx, []), stamp);
      }
    }
  }

  lemma NothingLeft(logs: seq<Log>, k: TokenKey, stamp: Stamp<Status>)
    ensures !LeftUpto(logs, k, stamp, 0)
  {
  }

  lemma NoStamps(g: TokenLedger, stamp: Stamp<Status>)
    requires g.transfers == []
    ensures !HasStamp(g, stamp)
  {
  }

  // ---------- Whole histories ----------

  /** Every stamp in the tables was left by a log other than p. */
  ghost predicate LeftElsewhere(v: View, logs: seq<Log>, p: nat) {
    forall k, stamp :: k in v && HasStamp(v[k], stamp) ==> exists i :: i != p && LeftBy(logs, i, k, stamp)
  }

  lemma OneStamp(logs: seq<Log>, p: nat, i: int)
    requires DistinctStamps(logs) && p < |logs| && 0 <= i < |logs| && i != p
    ensures !SameStamp(logs[i], logs[p]) && !SameStamp(logs[p], logs[i])
  {
    if i < p { assert !SameStamp(logs[i], logs[p]); } else { assert !SameStamp(logs[p], logs[i]); }
  }

  /** Deduplication never swallows a log that left nothing yet. */
  lemma NotSeenYet(v: View, logs: seq<Log>, p: nat)
    requires DistinctStamps(logs) && p < |logs| && StatusOf(logs[p].event).Some? && LeftElsewhere(v, logs, p)
    ensures !Seen(v, logs[p].token, StatusOf(logs[p].event).value, logs[p].tx)
  {
    var l := logs[p];
    var stamp := Stamp(StatusOf(l.event).value, l.tx);
    if Seen(v, l.token, stamp.status, l.tx) {
      var k :| k in v && k.id == l.token && HasStamp(v[k], stamp);
      var i :| i != p && LeftBy(logs, i, k, stamp);
      OneStamp(logs, p, i);
      assert false;
    }
  }

  /** Does every token stand where its own first n logs leave it? */
  ghost predicate PassedAt(v: View, logs: seq<Log>, n: nat)
    requires n <= |logs|
  {
    forall k :: PassAt(logs, k, n) == if k in v then Some(v[k]) else None
  }

  lemma PassedElsewhere(v: View, logs: seq<Log>, n: nat)
    requires Possible(logs) && n < |logs| && PassedAt(v, logs, n) && (forall i: nat :: i < n ==> FollowedAt(logs, i))
    ensures LeftElsewhere(v, logs, n)
  {
    hide Possible, PassAt, FollowedAt, HasStamp;
    forall k, stamp | k in v && HasStamp(v[k], stamp) ensures exists i :: i != n && LeftBy(logs, i, k, stamp) {
      PassStamps(logs, k, n, stamp);
    }
  }

  /** A clean pass that has followed every log so far handles the next one exactly if it can be
      followed. */
  lemma CleanStep(v: View, logs: seq<Log>, n: nat)
    requires Possible(logs) && n < |logs| && PassedAt(v, logs, n) && (forall i: nat :: i < n ==> FollowedAt(logs, i))
    ensures var w := Handle(v, logs[n], Clear);
      if FollowedAt(logs, n) then w.Some? && PassedAt(w.value, logs, n + 1) else w.None?
  {
    hide Possible, HasStamp, Mirrors, Emit, Continue, StateAt, Seen, Follows;
    var l := logs[n];
    var k := l.Key();
    Emitted(logs, n);
    PassMirrors(logs, k, n);
    var s := StateAt(logs, k, n).value;
    HomeLog(logs, n);
    assert PassAt(logs, k, n) == if k in v then Some(v[k]) else None;
    if StatusOf(l.event).Some? {
      EmittedHeld(s, l.event);
      PassedElsewhere(v, logs, n);
      PossibleParts(logs);
      NotSeenYet(v, logs, n);
      FreshLogHandled(v, s, l, Clear);
      FollowsAnswered(s, l.event);
    } else {
      SilentFollowed(s, l.event);
    }
  }

  lemma PossibleParts(logs: seq<Log>)
    requires Possible(logs)
    ensures DistinctStamps(logs) && SentHome(logs)
  {
  }

  lemma HomeLog(logs: seq<Log>, n: nat)
    requires Possible(logs) && n < |logs|
    ensures logs[n].event.Mint? || logs[n].event.TransferInit? ==> logs[n].txTo == logs[n].address
  {
  }

  lemma EmittedHeld(s: TokenState, e: Event)
    requires Emit(s, e).Some? && StatusOf(e).Some?
    ensures s.Held?
  {
  }

  lemma FollowsAnswered(s: TokenState, e: Event)
    ensures Follows(s, e) ==> Answered(e) && Emit(s, e).Some?
  {
  }

  lemma SilentFollowed(s: TokenState, e: Event)
    requires Emit(s, e).Some? && StatusOf(e).None?
    ensures Follows(s, e) && (e.Mint? ==> s.Unminted?)
  {
  }

  /** What one clean pass over a legal history has established. */
  ghost predicate Faithful(v: View, logs: seq<Log>) { PassedAt(v, logs, |logs|) && Mirrored(v, logs) }

  lemma {:induction false} CleanPass(logs: seq<Log>, n: nat)
    requires Possible(logs) && n <= |logs|
    ensures CleanAt(logs, n).Some? <==> forall i: nat :: i < n ==> FollowedAt(logs, i)
    ensures CleanAt(logs, n).Some? ==> PassedAt(CleanAt(logs, n).value, logs, n)
  {
    hide Possible, FollowedAt, Handle;
    if n > 0 {
      CleanPass(logs, n - 1);
      if CleanAt(logs, n - 1).Some? { CleanStep(CleanAt(logs, n - 1).value, logs, n - 1); }
    }
  }

  /** A clean pass over a legal history never fails, and what it leaves mirrors the contracts. */
  lemma CleanPassMirrors(logs: seq<Log>) returns (v: View)
    requires Legal(logs)
    ensures Clean(logs) == Some(v) && Faithful(v, logs)
  {
    hide Possible, FollowedAt, Mirrors;
    CleanPass(logs, |logs|);
    v := Clean(logs).value;
    forall k ensures MirrorsState(if k in v then Some(v[k]) else None, StateAfter(logs, k)) {
      PassMirrors(logs, k, |logs|);
    }
  }

  /** A clean pass over a history the contracts can produce succeeds if and only if every draft is
      answered and every completion belongs to an answered draft. */
  lemma CleanPassSucceedsIff(logs: seq<Log>)
    requires Possible(logs)
    ensures Clean(logs).Some? <==> Followable(logs)
  {
    CleanPass(logs, |logs|);
  }
}
