/**
  The token-id sequencer: a Redis set of free ids, a timer per lease, the last id of every
  wallet, and throttled expiry.  Operations are atomic and Redis commands succeed.
 */
module Sequencer {
  import opened Wrappers

  // A queue is one (collection, suffix) pair; wallets are opaque; times are in nanoseconds.
  type Queue = nat
  type Wallet = nat
  const SECOND := 1_000_000_000

  datatype Slot = Slot(queue: Queue, id: int)
  datatype Lease = Lease(queue: Queue, wallet: Wallet, id: int)
  datatype Holder = Holder(queue: Queue, wallet: Wallet)

  datatype Config = Config(ttl: int, checkInterval: nat, switchTimeout: int)

  /** What Redis holds.  Timer values are whole seconds; `lastCheck` is None before the first release. */
  datatype State = State(pool: set<Slot>, timers: map<Lease, int>, lastIds: map<Holder, int>, lastCheck: Option<nat>)

  /** Acquire's answer: a fresh lease, the lease the wallet still has, the id it remembers when
      the pool is empty, EmptySetErr, or the error of the branch marked "shouldn't happen". */
  datatype Answer = Leased(id: int) | Kept(id: int) | Remembered(id: int) | EmptySet | AlreadyLeased

  // ---------- What the operations do ----------

  function Age(timestamp: int, now: nat): int { now - timestamp * SECOND }

  function ExpiredLeases(cfg: Config, s: State, q: Queue, now: nat): set<Lease> {
    set l | l in s.timers && l.queue == q && Age(s.timers[l], now) > cfg.ttl
  }

  predicate Throttled(cfg: Config, s: State, now: nat) {
    s.lastCheck.Some? && now - s.lastCheck.value <= cfg.checkInterval
  }

  function SlotsOf(leases: set<Lease>): set<Slot> { set l | l in leases :: Slot(l.queue, l.id) }

  /** Unless throttled, every lease of the queue older than the TTL goes back to the pool. */
  function Release(cfg: Config, s: State, q: Queue, now: nat): State {
    if Throttled(cfg, s, now) then s
    else
      var expired := ExpiredLeases(cfg, s, q, now);
      State(s.pool + SlotsOf(expired), s.timers - expired, s.lastIds, Some(now))
  }

  predicate Empty(s: State, q: Queue) { forall slot :: slot in s.pool ==> slot.queue != q }

  /** The lease is stamped, the id remembered, and the wallet's other timers in the queue are set
      to 0 so that the next release expires them. */
  function Granted(s: State, q: Queue, w: Wallet, id: int, now: nat): State {
    var mine := Lease(q, w, id);
    State(s.pool - {Slot(q, id)},
          (map l | l in s.timers :: if l.queue == q && l.wallet == w then 0 else s.timers[l])[mine := now / SECOND],
          s.lastIds[Holder(q, w) := id], s.lastCheck)
  }

  ghost predicate Acquires(cfg: Config, s: State, q: Queue, w: Wallet, now: nat, a: Answer, t: State) {
    var r := Release(cfg, s, q, now);
    var h := Holder(q, w);
    if h in r.lastIds && Lease(q, w, r.lastIds[h]) in r.timers
       && Age(r.timers[Lease(q, w, r.lastIds[h])], now) < cfg.switchTimeout
    then a == Kept(r.lastIds[h]) && t == r
    else if Empty(r, q) then
      a == (if h in r.lastIds then Remembered(r.lastIds[h]) else EmptySet) && t == r
    else
      exists id ::
        && Slot(q, id) in r.pool
        && (if Lease(q, w, id) in r.timers
            then a == AlreadyLeased && t == r.(pool := r.pool - {Slot(q, id)})
            else a == Leased(id) && t == Granted(r, q, w, id, now))
  }

  ghost predicate Deletes(s: State, q: Queue, id: int, t: State) {
    var freed := s.(pool := s.pool - {Slot(q, id)});
    if forall l :: l in s.timers ==> l.queue != q || l.id != id then t == freed
    else
      exists l ::
        && l in s.timers && l.queue == q && l.id == id
        && t == freed.(timers := s.timers - {l},
                       lastIds := if Holder(q, l.wallet) in s.lastIds && s.lastIds[Holder(q, l.wallet)] == id
                                  then s.lastIds - {Holder(q, l.wallet)} else s.lastIds)
  }

  // ---------- The code ----------

  class Sequencer {
    const cfg: Config
    var pool: set<Slot>
    var timers: map<Lease, int>
    var lastIds: map<Holder, int>
    var lastCheck: Option<nat>

    constructor (cfg: Config, seeded: set<Slot>)
      ensures this.cfg == cfg && Redis() == State(seeded, map[], map[], None)
    {
      this.cfg := cfg;
      pool, timers, lastIds, lastCheck := seeded, map[], map[], None;
    }

    function Redis(): State
      reads this
    {
      State(pool, timers, lastIds, lastCheck)
    }

    method ReleaseTokens(q: Queue, now: nat)
      modifies this
      ensures Redis() == Release(cfg, old(Redis()), q, now)
    {
      if lastCheck.Some? && now - lastCheck.value <= cfg.checkInterval { return; }
      ghost var before := Redis();
      ghost var expired := ExpiredLeases(cfg, before, q, now);
      var keys := set l | l in timers && l.queue == q;
      ghost var done: set<Lease> := {};
      while keys != {}
        invariant done !! keys && done + keys == set l | l in before.timers && l.queue == q
        invariant timers == before.timers - (done * expired)
        invariant pool == before.pool + SlotsOf(done * expired)
        invariant lastIds == before.lastIds && lastCheck == before.lastCheck
        decreases keys
      {
        var key :| key in keys;
        keys, done := keys - {key}, done + {key};
        if Age(timers[key], now) > cfg.ttl {
          pool := pool + {Slot(q, key.id)};
          timers := timers - {key};
          assert done * expired == (done - {key}) * expired + {key};
        } else {
          assert done * expired == (done - {key}) * expired;
        }
      }
      assert done * expired == expired;
      lastCheck := Some(now);
    }

    method Count(q: Queue, now: nat) returns (n: nat)
      modifies this
      ensures Redis() == Release(cfg, old(Redis()), q, now)
      ensures n == |set slot | slot in pool && slot.queue == q|
    {
      ReleaseTokens(q, now);
      n := |set slot | slot in pool && slot.queue == q|;
    }

    method Acquire(q: Queue, w: Wallet, now: nat) returns (a: Answer)
      modifies this
      ensures Acquires(cfg, old(Redis()), q, w, now, a, Redis())
    {
      hide Release, Age;
      ReleaseTokens(q, now);
      var h := Holder(q, w);
      if h in lastIds && Lease(q, w, lastIds[h]) in timers {
        if Age(timers[Lease(q, w, lastIds[h])], now) < cfg.switchTimeout { return Kept(lastIds[h]); }
      }
      ghost var released := Redis();
      var count := Count(q, now);
      ReleaseTwice(cfg, old(Redis()), q, now);
      var free := set slot | slot in pool && slot.queue == q;
      if count == 0 {
        assert free == {};
        assert Empty(released, q) by {
          forall slot | slot in pool ensures slot.queue != q { assert slot.queue == q ==> slot in free; }
        }
        return if h in lastIds then Remembered(lastIds[h]) else EmptySet;
      }
      assert free != {};
      var popped :| popped in free;
      assert Slot(q, popped.id) in released.pool;
      pool := pool - {popped};
      var timer := Lease(q, w, popped.id);
      if timer in timers { return AlreadyLeased; }
      timers := timers[timer := now / SECOND];
      lastIds := lastIds[h := popped.id];
      // the wallet's other timers
      timers := map l | l in timers :: if l.queue == q && l.wallet == w && l != timer then 0 else timers[l];
      assert timers == Granted(released, q, w, popped.id, now).timers;
      return Leased(popped.id);
    }

    method DeleteTokenID(q: Queue, id: int)
      modifies this
      ensures Deletes(old(Redis()), q, id, Redis())
    {
      var keys := set l | l in timers && l.queue == q && l.id == id;
      if keys != {} {
        var key :| key in keys;
        timers := timers - {key};
        var h := Holder(q, key.wallet);
        if h in lastIds && lastIds[h] == id { lastIds := lastIds - {h}; }
      } else {
        assert forall l :: l in timers ==> l.queue != q || l.id != id by {
          forall l | l in timers ensures l.queue != q || l.id != id { assert l !in keys; }
        }
      }
      pool := pool - {Slot(q, id)};
    }
  }

  /** A second release at the same instant finds nothing new. */
  lemma ReleaseTwice(cfg: Config, s: State, q: Queue, now: nat)
    ensures Release(cfg, Release(cfg, s, q, now), q, now) == Release(cfg, s, q, now)
  {
  }

  // ---------- Safety ----------

  /** No id is both free and leased, and no id is leased twice. */
  ghost predicate Exclusive(s: State) {
    && (forall l :: l in s.timers ==> Slot(l.queue, l.id) !in s.pool)
    && (forall l, m :: l in s.timers && m in s.timers && l.queue == m.queue && l.id == m.id ==> l == m)
  }

  /** The ids a queue still hands out: free or leased. */
  function Known(s: State, q: Queue): set<int> {
    (set slot | slot in s.pool && slot.queue == q :: slot.id) + (set l | l in s.timers && l.queue == q :: l.id)
  }

  lemma ReleaseIsSafe(cfg: Config, s: State, q: Queue, now: nat)
    requires Exclusive(s)
    ensures Exclusive(Release(cfg, s, q, now))
    ensures forall p :: Known(Release(cfg, s, q, now), p) == Known(s, p)
  {
    var r := Release(cfg, s, q, now);
    if !Throttled(cfg, s, now) {
      var expired := ExpiredLeases(cfg, s, q, now);
      forall l | l in r.timers ensures Slot(l.queue, l.id) !in r.pool {
        assert forall m :: m in expired && m.queue == l.queue && m.id == l.id ==> m == l;
      }
      forall p ensures Known(r, p) == Known(s, p) { KnownAfterRelease(cfg, s, q, now, p); }
    }
  }

  lemma KnownAfterRelease(cfg: Config, s: State, q: Queue, now: nat, p: Queue)
    ensures Known(Release(cfg, s, q, now), p) == Known(s, p)
  {
    var r := Release(cfg, s, q, now);
    var expired := ExpiredLeases(cfg, s, q, now);
    forall id | id in Known(s, p) ensures id in Known(r, p) {
      if Slot(p, id) !in r.pool {
        var l :| l in s.timers && l.queue == p && l.id == id;
        assert l in expired ==> Slot(p, id) in SlotsOf(expired);
        assert l in r.timers;
      }
    }
    forall id | id in Known(r, p) ensures id in Known(s, p) {
      if Slot(p, id) in r.pool && Slot(p, id) !in s.pool {
        var l :| l in expired && Slot(l.queue, l.id) == Slot(p, id);
        assert l in s.timers;
      }
    }
  }

  lemma GrantIsSafe(s: State, q: Queue, w: Wallet, id: int, now: nat)
    requires Exclusive(s) && Slot(q, id) in s.pool
    ensures Exclusive(Granted(s, q, w, id, now))
    ensures forall p :: Known(Granted(s, q, w, id, now), p) == Known(s, p)
  {
    var t := Granted(s, q, w, id, now);
    assert t.timers.Keys == s.timers.Keys + {Lease(q, w, id)};
    forall p ensures Known(t, p) == Known(s, p) {
      forall x | x in Known(s, p) ensures x in Known(t, p) {
        if p == q && x == id {
          assert Lease(q, w, id) in t.timers;
        } else if Slot(p, x) in s.pool {
          assert Slot(p, x) in t.pool;
        } else {
          var l :| l in s.timers && l.queue == p && l.id == x;
          assert l in t.timers;
        }
      }
      forall x | x in Known(t, p) ensures x in Known(s, p) {
        if Slot(p, x) !in t.pool {
          var l :| l in t.timers && l.queue == p && l.id == x;
          assert l in s.timers || Slot(p, x) in s.pool;
        }
      }
    }
  }

  /** Acquire keeps ids exclusive and loses none, and its "shouldn't happen" branch is unreachable. */
  lemma AcquireIsSafe(cfg: Config, s: State, q: Queue, w: Wallet, now: nat, a: Answer, t: State)
    requires Exclusive(s) && Acquires(cfg, s, q, w, now, a, t)
    ensures Exclusive(t) && a != AlreadyLeased
    ensures forall p :: Known(t, p) == Known(s, p)
  {
    ReleaseIsSafe(cfg, s, q, now);
    var r := Release(cfg, s, q, now);
    if t != r || a.AlreadyLeased? {
      var id :| Slot(q, id) in r.pool
                && (if Lease(q, w, id) in r.timers
                    then a == AlreadyLeased && t == r.(pool := r.pool - {Slot(q, id)})
                    else a == Leased(id) && t == Granted(r, q, w, id, now));
      GrantIsSafe(r, q, w, id, now);
    }
  }

  /** Deleting removes the id from its queue - one lease is enough, there is at most one - and
      nothing else. */
  lemma DeleteIsSafe(s: State, q: Queue, id: int, t: State)
    requires Exclusive(s) && Deletes(s, q, id, t)
    ensures Exclusive(t)
    ensures Known(t, q) == Known(s, q) - {id}
    ensures forall p :: p != q ==> Known(t, p) == Known(s, p)
  {
    forall p, x ensures x in Known(t, p) <==> x in Known(s, p) && (p != q || x != id) {
      if x in Known(s, p) && (p != q || x != id) {
        if Slot(p, x) in s.pool {
          assert Slot(p, x) in t.pool;
        } else {
          var l :| l in s.timers && l.queue == p && l.id == x;
          assert l in t.timers;
        }
      }
      if x in Known(t, p) && Slot(p, x) !in t.pool {
        var l :| l in t.timers && l.queue == p && l.id == x;
        assert l in s.timers;
      }
    }
  }

  // ---------- Runs ----------

  datatype Op =
    | Acquire(queue: Queue, wallet: Wallet, answer: Answer)
    | Count(queue: Queue)
    | Delete(queue: Queue, id: int)

  datatype Call = Call(op: Op, now: nat)

  ghost predicate Does(cfg: Config, s: State, c: Call, t: State) {
    match c.op
    case Acquire(q, w, a) => Acquires(cfg, s, q, w, c.now, a, t)
    case Count(q) => t == Release(cfg, s, q, c.now)
    case Delete(q, id) => Deletes(s, q, id, t)
  }

  /** A history: states[i] is the state before calls[i]; time does not run backwards. */
  ghost predicate Behaves(cfg: Config, states: seq<State>, calls: seq<Call>) {
    && |states| == |calls| + 1
    && (forall i :: 0 <= i < |calls| ==> Does(cfg, states[i], calls[i], states[i + 1]))
    && (forall i, j :: 0 <= i <= j < |calls| ==> calls[i].now <= calls[j].now)
  }

  lemma StepIsSafe(cfg: Config, s: State, c: Call, t: State)
    requires Exclusive(s) && Does(cfg, s, c, t)
    ensures Exclusive(t) && (c.op.Acquire? ==> c.op.answer != AlreadyLeased)
    ensures forall q :: Known(t, q) == if c.op.Delete? && c.op.queue == q then Known(s, q) - {c.op.id} else Known(s, q)
  {
    match c.op
    case Acquire(q, w, a) => AcquireIsSafe(cfg, s, q, w, c.now, a, t);
    case Count(q) => ReleaseIsSafe(cfg, s, q, c.now);
    case Delete(q, id) => DeleteIsSafe(s, q, id, t);
  }

  /** From a seeded pool without timers: ids stay exclusive in every state of every history. */
  lemma {:induction false} AlwaysExclusive(cfg: Config, states: seq<State>, calls: seq<Call>, i: nat)
    requires Behaves(cfg, states, calls) && states[0].timers == map[] && i <= |calls|
    ensures Exclusive(states[i])
    ensures i < |calls| && calls[i].op.Acquire? ==> calls[i].op.answer != AlreadyLeased
  {
    if i > 0 { AlwaysExclusive(cfg, states, calls, i - 1); StepIsSafe(cfg, states[i - 1], calls[i - 1], states[i]); }
    if i < |calls| { StepIsSafe(cfg, states[i], calls[i], states[i + 1]); }
  }

  predicate DeletedBetween(calls: seq<Call>, i: nat, j: nat, q: Queue, id: int) {
    exists m :: i <= m < j && m < |calls| && calls[m].op == Delete(q, id)
  }

  lemma DeletedStep(calls: seq<Call>, i: nat, j: nat, q: Queue, id: int)
    requires i < j <= |calls|
    ensures DeletedBetween(calls, i, j, q, id) <==>
      DeletedBetween(calls, i, j - 1, q, id) || calls[j - 1].op == Delete(q, id)
  {
    if DeletedBetween(calls, i, j - 1, q, id) {
      var m :| i <= m < j - 1 && m < |calls| && calls[m].op == Delete(q, id);
      assert DeletedBetween(calls, i, j, q, id);
    }
  }

  lemma KnownStep(cfg: Config, states: seq<State>, calls: seq<Call>, i: nat, q: Queue)
    requires Behaves(cfg, states, calls) && states[0].timers == map[] && i < |calls|
    ensures Known(states[i + 1], q) ==
      if calls[i].op.Delete? && calls[i].op.queue == q
      then Known(states[i], q) - {calls[i].op.id} else Known(states[i], q)
  {
    AlwaysExclusive(cfg, states, calls, i);
    StepIsSafe(cfg, states[i], calls[i], states[i + 1]);
  }

  /** Conservation: between any two points of a history a queue keeps exactly the ids that were
      not deleted in between. */
  lemma {:induction false} Conservation(cfg: Config, states: seq<State>, calls: seq<Call>, i: nat, j: nat,
          q: Queue, id: int)
    requires Behaves(cfg, states, calls) && states[0].timers == map[] && i <= j <= |calls|
    ensures id in Known(states[j], q) <==> id in Known(states[i], q) && !DeletedBetween(calls, i, j, q, id)
  {
    if i < j {
      hide Known, Does, DeletedBetween;
      Conservation(cfg, states, calls, i, j - 1, q, id);
      KnownStep(cfg, states, calls, j - 1, q);
      DeletedStep(calls, i, j, q, id);
    }
  }

  lemma AnswerIsKnown(cfg: Config, s: State, q: Queue, w: Wallet, now: nat, a: Answer, t: State)
    requires Acquires(cfg, s, q, w, now, a, t) && (a.Leased? || a.Kept?)
    ensures a.id in Known(s, q)
  {
    KnownAfterRelease(cfg, s, q, now, q);
    var r := Release(cfg, s, q, now);
    if a.Kept? {
      assert Lease(q, w, a.id) in r.timers;
    } else {
      assert Slot(q, a.id) in r.pool;
    }
  }

  /** Deletion is permanent: later the id is neither free nor leased, and only the empty-pool
      fallback can still answer it. */
  lemma DeletedForGood(cfg: Config, states: seq<State>, calls: seq<Call>, i: nat, j: nat, q: Queue, id: int)
    requires Behaves(cfg, states, calls) && states[0].timers == map[]
    requires i < j <= |calls| && calls[i].op == Delete(q, id)
    ensures id !in Known(states[j], q)
    ensures j < |calls| && calls[j].op.Acquire? && calls[j].op.queue == q ==>
      calls[j].op.answer != Leased(id) && calls[j].op.answer != Kept(id)
  {
    assert DeletedBetween(calls, i, j, q, id);
    Conservation(cfg, states, calls, i, j, q, id);
    if j < |calls| && calls[j].op.Acquire? && (calls[j].op.answer.Leased? || calls[j].op.answer.Kept?) {
      var op := calls[j].op;
      AnswerIsKnown(cfg, states[j], op.queue, op.wallet, calls[j].now, op.answer, states[j + 1]);
    }
  }

  // ---------- Exclusivity over time ----------

  /** Does a call grant the wallet another id of the queue? */
  predicate Moves(op: Op, q: Queue, w: Wallet, id: int) {
    op.Acquire? && op.queue == q && op.wallet == w && op.answer.Leased? && op.answer.id != id
  }

  /** Has the wallet been granted another id of the queue by one of calls i to j - 1? */
  predicate MovedOn(calls: seq<Call>, i: nat, j: nat, q: Queue, w: Wallet, id: int) {
    exists m :: i <= m < j && m < |calls| && Moves(calls[m].op, q, w, id)
  }

  /** A lease keeps its stamp through a call that neither moves its wallet on, deletes its id, nor
      comes more than the TTL after the stamp; a call that grants its id comes later than that. */
  lemma LeaseSurvives(cfg: Config, s: State, c: Call, t: State, l: Lease, stamp: int)
    requires Exclusive(s) && Does(cfg, s, c, t) && l in s.timers && s.timers[l] == stamp
    requires c.op != Delete(l.queue, l.id)
    requires !Moves(c.op, l.queue, l.wallet, l.id)
    ensures (l in t.timers && t.timers[l] == stamp) || Age(stamp, c.now) > cfg.ttl
    ensures c.op.Acquire? && c.op.queue == l.queue && c.op.answer == Leased(l.id) ==> Age(stamp, c.now) > cfg.ttl
  {
    match c.op
    case Delete(q, id) =>
    case Count(q) =>
    case Acquire(q, w, a) =>
      if Age(stamp, c.now) <= cfg.ttl {
        var r := Release(cfg, s, q, c.now);
        ReleaseIsSafe(cfg, s, q, c.now);
        assert l in r.timers && r.timers[l] == stamp;
        assert Slot(l.queue, l.id) !in r.pool;
      }
  }

  lemma QuietBefore(calls: seq<Call>, i: nat, j: nat, q: Queue, w: Wallet, id: int)
    requires i < j <= |calls| && !MovedOn(calls, i, j, q, w, id) && !DeletedBetween(calls, i, j, q, id)
    ensures !MovedOn(calls, i, j - 1, q, w, id) && !DeletedBetween(calls, i, j - 1, q, id)
    ensures var op := calls[j - 1].op;
      op != Delete(q, id) && !Moves(op, q, w, id)
  {
    var op := calls[j - 1].op;
    assert Moves(op, q, w, id) ==> MovedOn(calls, i, j, q, w, id);
    assert op == Delete(q, id) ==> DeletedBetween(calls, i, j, q, id);
  }

  lemma FreshLease(cfg: Config, s: State, c: Call, t: State)
    requires Does(cfg, s, c, t) && c.op.Acquire? && c.op.answer.Leased?
    ensures var l := Lease(c.op.queue, c.op.wallet, c.op.answer.id); l in t.timers && t.timers[l] == c.now / SECOND
  {
  }

  lemma {:induction false} LeaseHolds(cfg: Config, states: seq<State>, calls: seq<Call>, i: nat, j: nat, q: Queue,
          w: Wallet, id: int)
    requires Behaves(cfg, states, calls) && states[0].timers == map[] && i < j <= |calls|
    requires calls[i].op == Acquire(q, w, Leased(id))
    requires !MovedOn(calls, i, j, q, w, id) && !DeletedBetween(calls, i, j, q, id)
    ensures
      var l := Lease(q, w, id);
      var stamp := calls[i].now / SECOND;
      || (l in states[j].timers && states[j].timers[l] == stamp)
      || Age(stamp, calls[j - 1].now) > cfg.ttl
  {
    hide Does, MovedOn, DeletedBetween, Exclusive;
    if i + 1 == j {
      FreshLease(cfg, states[i], calls[i], states[j]);
    } else {
      QuietBefore(calls, i, j, q, w, id);
      LeaseHolds(cfg, states, calls, i, j - 1, q, w, id);
      var l := Lease(q, w, id);
      var stamp := calls[i].now / SECOND;
      AlwaysExclusive(cfg, states, calls, j - 1);
      if l in states[j - 1].timers && states[j - 1].timers[l] == stamp {
        LeaseSurvives(cfg, states[j - 1], calls[j - 1], states[j], l, stamp);
      } else {
        assert calls[j - 2].now <= calls[j - 1].now;
      }
    }
  }

  /** Exclusivity: an id leased at some call is not handed out again, to anyone, until more than
      the TTL less one second has passed, unless its holder has been given another id meanwhile. */
  lemma ExclusiveUntilExpiry(cfg: Config, states: seq<State>, calls: seq<Call>, i: nat, j: nat, q: Queue,
          w: Wallet, id: int)
    requires Behaves(cfg, states, calls) && states[0].timers == map[] && i < j < |calls|
    requires calls[i].op == Acquire(q, w, Leased(id))
    requires calls[j].op.Acquire? && calls[j].op.queue == q && calls[j].op.answer == Leased(id)
    ensures MovedOn(calls, i, j, q, w, id) || calls[j].now - calls[i].now > cfg.ttl - SECOND
  {
    if !MovedOn(calls, i, j, q, w, id) {
      if DeletedBetween(calls, i, j, q, id) {
        var m :| i <= m < j && m < |calls| && calls[m].op == Delete(q, id);
        DeletedForGood(cfg, states, calls, m, j, q, id);
        assert false;
      }
      LeaseHolds(cfg, states, calls, i, j, q, w, id);
      AlwaysExclusive(cfg, states, calls, j);
      var l := Lease(q, w, id);
      var stamp := calls[i].now / SECOND;
      assert calls[j - 1].now <= calls[j].now;
      if l in states[j].timers && states[j].timers[l] == stamp {
        LeaseSurvives(cfg, states[j], calls[j], states[j + 1], l, stamp);
      }
    }
  }

  /** Does another wallet hold the lease of an id? */
  predicate HeldByOther(s: State, q: Queue, w: Wallet, id: int) {
    exists l :: l in s.timers && l.queue == q && l.id == id && l.wallet != w
  }

  /** When the id that Acquire answers is another wallet's: exactly if the pool is empty and the id the
      wallet remembers is leased to another. */
  lemma AnswerHeldByOtherIff(cfg: Config, s: State, q: Queue, w: Wallet, now: nat, a: Answer, t: State)
    requires Exclusive(s) && Acquires(cfg, s, q, w, now, a, t) && !a.EmptySet?
    ensures !a.AlreadyLeased?
    ensures
      var r := Release(cfg, s, q, now);
      HeldByOther(t, q, w, a.id) <==>
        Empty(r, q) && Holder(q, w) in r.lastIds && HeldByOther(r, q, w, r.lastIds[Holder(q, w)])
  {
    AcquireIsSafe(cfg, s, q, w, now, a, t);
    ReleaseIsSafe(cfg, s, q, now);
  }

  /** When the wallet holds the lease of the id it is answered: exactly if the pool is not empty or it
      still holds the id it remembers. */
  lemma AnswerHeldIff(cfg: Config, s: State, q: Queue, w: Wallet, now: nat, a: Answer, t: State)
    requires Exclusive(s) && Acquires(cfg, s, q, w, now, a, t) && !a.EmptySet?
    ensures !a.AlreadyLeased?
    ensures
      var r := Release(cfg, s, q, now);
      var h := Holder(q, w);
      Lease(q, w, a.id) in t.timers <==> !Empty(r, q) || (h in r.lastIds && Lease(q, w, r.lastIds[h]) in r.timers)
  {
    AcquireIsSafe(cfg, s, q, w, now, a, t);
    ReleaseIsSafe(cfg, s, q, now);
  }

  /** In every history: an answered id is another wallet's exactly if the pool was empty and another
      wallet held the remembered id, and the wallet's own exactly otherwise, unless nobody holds it. */
  lemma AnswersInHistory(cfg: Config, states: seq<State>, calls: seq<Call>, i: nat)
    requires Behaves(cfg, states, calls) && states[0].timers == map[] && i < |calls|
    requires calls[i].op.Acquire? && !calls[i].op.answer.EmptySet?
    ensures !calls[i].op.answer.AlreadyLeased?
    ensures
      var (q, w, id) := (calls[i].op.queue, calls[i].op.wallet, calls[i].op.answer.id);
      var r := Release(cfg, states[i], q, calls[i].now);
      var h := Holder(q, w);
      && (HeldByOther(states[i + 1], q, w, id) <==>
          Empty(r, q) && h in r.lastIds && HeldByOther(r, q, w, r.lastIds[h]))
      && (Lease(q, w, id) in states[i + 1].timers <==>
          !Empty(r, q) || (h in r.lastIds && Lease(q, w, r.lastIds[h]) in r.timers))
      && !(HeldByOther(states[i + 1], q, w, id) && Lease(q, w, id) in states[i + 1].timers)
  {
    hide Acquires, Release, Empty, Exclusive, HeldByOther;
    var op, now := calls[i].op, calls[i].now;
    AlwaysExclusive(cfg, states, calls, i);
    AlwaysExclusive(cfg, states, calls, i + 1);
    assert Does(cfg, states[i], calls[i], states[i + 1]);
    AnswerHeldByOtherIff(cfg, states[i], op.queue, op.wallet, now, op.answer, states[i + 1]);
    AnswerHeldIff(cfg, states[i], op.queue, op.wallet, now, op.answer, states[i + 1]);
    NotBoth(states[i + 1], op.queue, op.wallet, op.answer.id);
  }

  lemma NotBoth(s: State, q: Queue, w: Wallet, id: int)
    requires Exclusive(s)
    ensures !(HeldByOther(s, q, w, id) && Lease(q, w, id) in s.timers)
  {
  }

  lemma GrantStep(cfg: Config, s: State, q: Queue, w: Wallet, now: nat, id: int, r: State)
    requires r == Release(cfg, s, q, now) && Slot(q, id) in r.pool && Lease(q, w, id) !in r.timers
    requires Holder(q, w) in r.lastIds ==> Lease(q, w, r.lastIds[Holder(q, w)]) !in r.timers
    ensures Does(cfg, s, Call(Acquire(q, w, Leased(id)), now), Granted(r, q, w, id, now))
  {
  }

  /** The exception: with the pool empty a wallet is answered the id it remembers, even while
      another wallet holds the lease.  One id, two wallets, and a pause longer than the TTL. */
  lemma RememberedMayBeLeased() returns (cfg: Config, states: seq<State>, calls: seq<Call>)
    ensures Behaves(cfg, states, calls) && states[0].timers == map[] && |calls| == 3
    ensures calls[2].op == Acquire(1, 10, Remembered(5)) && Lease(1, 20, 5) in states[2].timers
  {
    cfg := Config(60 * SECOND, 0, 10 * SECOND);
    var t0, t1 := 100 * SECOND, 200 * SECOND;
    calls := [Call(Acquire(1, 10, Leased(5)), t0), Call(Acquire(1, 20, Leased(5)), t1),
              Call(Acquire(1, 10, Remembered(5)), t1)];
    var s0 := State({Slot(1, 5)}, map[], map[], None);
    var s1 := State({}, map[Lease(1, 10, 5) := 100], map[Holder(1, 10) := 5], Some(t0));
    var s2 := State({}, map[Lease(1, 20, 5) := 200], map[Holder(1, 10) := 5, Holder(1, 20) := 5], Some(t1));
    states := [s0, s1, s2, s2];
    hide Does, Acquires;
    var r0 := Release(cfg, s0, 1, t0);
    assert r0 == s0.(lastCheck := Some(t0));
    GrantStep(cfg, s0, 1, 10, t0, 5, r0);
    assert Granted(r0, 1, 10, 5, t0) == s1;
    var r1 := Release(cfg, s1, 1, t1);
    assert ExpiredLeases(cfg, s1, 1, t1) == {Lease(1, 10, 5)};
    assert Slot(1, 5) in SlotsOf({Lease(1, 10, 5)});
    assert r1 == State({Slot(1, 5)}, map[], map[Holder(1, 10) := 5], Some(t1));
    GrantStep(cfg, s1, 1, 20, t1, 5, r1);
    assert Granted(r1, 1, 20, 5, t1) == s2;
    EmptyStep(cfg, s2, 1, 10, t1);
    assert Does(cfg, s0, calls[0], s1) && Does(cfg, s1, calls[1], s2) && Does(cfg, s2, calls[2], s2);
  }

  lemma EmptyStep(cfg: Config, s: State, q: Queue, w: Wallet, now: nat)
    requires s.pool == {} && Holder(q, w) in s.lastIds && Lease(q, w, s.lastIds[Holder(q, w)]) !in s.timers
    requires Throttled(cfg, s, now) || (s.lastCheck == Some(now) && ExpiredLeases(cfg, s, q, now) == {})
    ensures Does(cfg, s, Call(Acquire(q, w, Remembered(s.lastIds[Holder(q, w)])), now), s)
  {
    assert Release(cfg, s, q, now) == s;
  }

  // ---------- Leases given back ----------

  /** Does a call look for old leases of the queue: an Acquire or Count there, more than the check
      interval after the last look? */
  predicate Looks(cfg: Config, s: State, c: Call, q: Queue) {
    !c.op.Delete? && c.op.queue == q && (s.lastCheck.None? || c.now - s.lastCheck.value > cfg.checkInterval)
  }

  /** Is the id free, or handed out by the call? */
  predicate Available(c: Call, t: State, q: Queue, id: int) {
    Slot(q, id) in t.pool || (c.op.Acquire? && c.op.queue == q && c.op.answer == Leased(id))
  }

  /** A call that looks frees every lease of its queue older than the TTL, or hands its id out. */
  lemma OldLeasesFreed(cfg: Config, s: State, c: Call, t: State, l: Lease)
    requires Exclusive(s) && Does(cfg, s, c, t) && l in s.timers && Looks(cfg, s, c, l.queue)
    requires c.now - s.timers[l] * 1_000_000_000 > cfg.ttl
    ensures Available(c, t, l.queue, l.id)
    ensures l in t.timers ==> c.op.Acquire? && c.op.wallet == l.wallet && c.op.answer == Leased(l.id)
  {
    var r := Release(cfg, s, l.queue, c.now);
    assert l in ExpiredLeases(cfg, s, l.queue, c.now);
    assert Slot(l.queue, l.id) in r.pool;
  }

  /** In every history: after a call that looks, no lease older than the TTL has a timer, unless the call
      has just leased that id to the same wallet again. */
  lemma NoOldLease(cfg: Config, states: seq<State>, calls: seq<Call>, i: nat, l: Lease)
    requires Behaves(cfg, states, calls) && states[0].timers == map[] && i < |calls|
    requires Looks(cfg, states[i], calls[i], l.queue) && l in states[i].timers
    requires calls[i].now - states[i].timers[l] * 1_000_000_000 > cfg.ttl
    ensures Available(calls[i], states[i + 1], l.queue, l.id)
    ensures l in states[i + 1].timers ==>
      calls[i].op.Acquire? && calls[i].op.wallet == l.wallet && calls[i].op.answer == Leased(l.id)
  {
    AlwaysExclusive(cfg, states, calls, i);
    OldLeasesFreed(cfg, states[i], calls[i], states[i + 1], l);
  }

  /** A wallet that is given another id of the queue has its other leases there marked, or freed at once. */
  lemma OthersMarked(cfg: Config, s: State, q: Queue, w: Wallet, now: nat, id: int, t: State, x: int)
    requires Acquires(cfg, s, q, w, now, Leased(id), t) && Lease(q, w, x) in s.timers && x != id
    ensures if Lease(q, w, x) in t.timers then t.timers[Lease(q, w, x)] == 0 else Slot(q, x) in t.pool
  {
    var r := Release(cfg, s, q, now);
    var l := Lease(q, w, x);
    if l !in r.timers {
      assert l in ExpiredLeases(cfg, s, q, now);
      assert Slot(q, x) in r.pool;
    }
  }

  /** A marked lease stays marked until a call looks, or its id is deleted. */
  lemma MarkStays(cfg: Config, s: State, c: Call, t: State, l: Lease)
    requires Exclusive(s) && Does(cfg, s, c, t) && l in s.timers && s.timers[l] == 0
    requires !Looks(cfg, s, c, l.queue) && c.op != Delete(l.queue, l.id)
    ensures l in t.timers && t.timers[l] == 0
  {
    match c.op
    case Delete(q, id) =>
    case Count(q) =>
    case Acquire(q, w, a) =>
      var r := Release(cfg, s, q, c.now);
      ReleaseIsSafe(cfg, s, q, c.now);
      assert l in r.timers && r.timers[l] == 0;
      assert Slot(l.queue, l.id) !in r.pool;
  }

  lemma {:induction false} StaysMarked(cfg: Config, states: seq<State>, calls: seq<Call>, i: nat, j: nat, l: Lease)
    requires Behaves(cfg, states, calls) && states[0].timers == map[] && i < j <= |calls|
    requires l in states[i + 1].timers && states[i + 1].timers[l] == 0
    requires forall m :: i < m < j ==> !Looks(cfg, states[m], calls[m], l.queue) && calls[m].op != Delete(l.queue, l.id)
    ensures l in states[j].timers && states[j].timers[l] == 0
  {
    hide Does, Exclusive, Looks;
    if i + 1 < j {
      StaysMarked(cfg, states, calls, i, j - 1, l);
      AlwaysExclusive(cfg, states, calls, j - 1);
      MarkStays(cfg, states[j - 1], calls[j - 1], states[j], l);
    }
  }

  /** Moving on gives the old ids back.  Once a wallet has been given an id, every other id of the queue
      it held is free at once, or at the latest after the next call that looks there (at a time beyond
      the TTL): free then, or handed out by that very call. */
  lemma MovingOnFrees(cfg: Config, states: seq<State>, calls: seq<Call>, i: nat, j: nat, q: Queue, w: Wallet,
          id: int, other: int)
    requires Behaves(cfg, states, calls) && states[0].timers == map[] && i < j < |calls|
    requires calls[i].op == Acquire(q, w, Leased(id)) && Lease(q, w, other) in states[i].timers && other != id
    requires Looks(cfg, states[j], calls[j], q) && calls[j].now > cfg.ttl
    requires forall m :: i < m < j ==> !Looks(cfg, states[m], calls[m], q) && calls[m].op != Delete(q, other)
    ensures Slot(q, other) in states[i + 1].pool || Available(calls[j], states[j + 1], q, other)
  {
    hide Acquires, Exclusive, Looks, Available;
    assert Does(cfg, states[i], calls[i], states[i + 1]);
    OthersMarked(cfg, states[i], q, w, calls[i].now, id, states[i + 1], other);
    var l := Lease(q, w, other);
    if l in states[i + 1].timers {
      StaysMarked(cfg, states, calls, i, j, l);
      NoOldLease(cfg, states, calls, j, l);
    }
  }

  /** The looks are throttled: the time of the last one is kept exactly by the calls that look, and a
      Count that does not look changes nothing. */
  lemma LooksAreKept(cfg: Config, s: State, c: Call, t: State)
    requires Does(cfg, s, c, t)
    ensures t.lastCheck == if Looks(cfg, s, c, c.op.queue) then Some(c.now) else s.lastCheck
    ensures c.op.Count? && !Looks(cfg, s, c, c.op.queue) ==> t == s
  {
  }

  /** A free id stays free until it is handed out or deleted. */
  lemma FreeStays(cfg: Config, s: State, c: Call, t: State, q: Queue, id: int)
    requires Exclusive(s) && Does(cfg, s, c, t) && Slot(q, id) in s.pool && c.op != Delete(q, id)
    ensures Available(c, t, q, id)
  {
    if c.op.Acquire? { AcquireIsSafe(cfg, s, c.op.queue, c.op.wallet, c.now, c.op.answer, t); }
  }

  /** A call on one queue leaves the others alone: their free ids, their leases and what is remembered. */
  lemma OtherQueues(cfg: Config, s: State, c: Call, t: State, q: Queue)
    requires Does(cfg, s, c, t) && q != c.op.queue
    ensures forall slot: Slot :: slot.queue == q ==> (slot in t.pool <==> slot in s.pool)
    ensures forall l: Lease :: l.queue == q ==>
      (l in t.timers <==> l in s.timers) && (l in s.timers ==> t.timers[l] == s.timers[l])
    ensures forall h: Holder :: h.queue == q ==>
      (h in t.lastIds <==> h in s.lastIds) && (h in s.lastIds ==> t.lastIds[h] == s.lastIds[h])
  {
  }

  /** An Acquire is answered an id while one is free, and EmptySet only to a wallet that remembers none. */
  lemma FreeIsFound(cfg: Config, s: State, q: Queue, w: Wallet, now: nat, a: Answer, t: State)
    requires Exclusive(s) && Acquires(cfg, s, q, w, now, a, t)
    ensures (exists id :: Slot(q, id) in s.pool) ==> a.Kept? || a.Leased?
    ensures a.EmptySet? ==> Holder(q, w) !in s.lastIds
    ensures a.Leased? && Slot(q, a.id) !in s.pool ==>
      exists l :: l in s.timers && l.queue == q && l.id == a.id && now - s.timers[l] * 1_000_000_000 > cfg.ttl
  {
    AcquireIsSafe(cfg, s, q, w, now, a, t);
  }

  // ---------- What a wallet is told again ----------

  /** Granted this id at call i and no other of the queue up to call j. */
  predicate LastGranted(calls: seq<Call>, i: nat, j: nat, q: Queue, w: Wallet, id: int) {
    i < j <= |calls| && calls[i].op == Acquire(q, w, Leased(id)) && !MovedOn(calls, i, j, q, w, id)
  }

  lemma LastGrantedStep(calls: seq<Call>, i: nat, j: nat, q: Queue, w: Wallet, id: int)
    requires LastGranted(calls, i, j, q, w, id) && j < |calls| && !Moves(calls[j].op, q, w, id)
    ensures LastGranted(calls, i, j + 1, q, w, id)
  {
  }

  /** What a call remembers: a grant is remembered, deleting a leased id makes its holder forget it, and
      nothing else changes what is remembered. */
  lemma MemoryAfter(cfg: Config, s: State, c: Call, t: State, h: Holder)
    requires Exclusive(s) && Does(cfg, s, c, t)
    ensures
      if c.op.Acquire? && c.op.answer.Leased? && h == Holder(c.op.queue, c.op.wallet)
      then h in t.lastIds && t.lastIds[h] == c.op.answer.id
      else if h in s.lastIds && c.op == Delete(h.queue, s.lastIds[h])
              && Lease(h.queue, h.wallet, s.lastIds[h]) in s.timers
      then h !in t.lastIds
      else (h in t.lastIds <==> h in s.lastIds) && (h in s.lastIds ==> t.lastIds[h] == s.lastIds[h])
  {
    if c.op.Acquire? { AcquireIsSafe(cfg, s, c.op.queue, c.op.wallet, c.now, c.op.answer, t); }
  }

  lemma {:induction false} MemoryIsGrant(cfg: Config, states: seq<State>, calls: seq<Call>, j: nat, h: Holder)
    returns (i: nat)
    requires Behaves(cfg, states, calls) && states[0].timers == map[] && states[0].lastIds == map[]
    requires j <= |calls| && h in states[j].lastIds
    ensures LastGranted(calls, i, j, h.queue, h.wallet, states[j].lastIds[h])
  {
    hide Does, Exclusive, MovedOn;
    var c := calls[j - 1];
    AlwaysExclusive(cfg, states, calls, j - 1);
    MemoryAfter(cfg, states[j - 1], c, states[j], h);
    if c.op.Acquire? && c.op.answer.Leased? && h == Holder(c.op.queue, c.op.wallet) {
      i := j - 1;
      assert !MovedOn(calls, i, j, h.queue, h.wallet, c.op.answer.id) by { NotMovedYet(calls, i, h, c.op.answer.id); }
    } else {
      i := MemoryIsGrant(cfg, states, calls, j - 1, h);
      LastGrantedStep(calls, i, j - 1, h.queue, h.wallet, states[j].lastIds[h]);
    }
  }

  lemma NotMovedYet(calls: seq<Call>, i: nat, h: Holder, id: int)
    requires i < |calls| && calls[i].op == Acquire(h.queue, h.wallet, Leased(id))
    ensures !MovedOn(calls, i, i + 1, h.queue, h.wallet, id)
  {
  }

  /** An id a wallet is told again - the one it keeps, or the one it remembers over an empty pool - is
      the last one it was granted in the queue. */
  lemma ToldAgain(cfg: Config, states: seq<State>, calls: seq<Call>, j: nat, q: Queue, w: Wallet) returns (i: nat)
    requires Behaves(cfg, states, calls) && states[0].timers == map[] && states[0].lastIds == map[]
    requires j < |calls| && calls[j].op.Acquire? && calls[j].op.queue == q && calls[j].op.wallet == w
    requires calls[j].op.answer.Kept? || calls[j].op.answer.Remembered?
    ensures LastGranted(calls, i, j, q, w, calls[j].op.answer.id)
  {
    hide LastGranted, Exclusive;
    assert Does(cfg, states[j], calls[j], states[j + 1]);
    i := MemoryIsGrant(cfg, states, calls, j, Holder(q, w));
  }

  lemma {:induction false} StillRemembered(cfg: Config, states: seq<State>, calls: seq<Call>, i: nat, j: nat,
          q: Queue, w: Wallet, id: int)
    requires Behaves(cfg, states, calls) && states[0].timers == map[] && i < j <= |calls|
    requires LastGranted(calls, i, j, q, w, id) && !DeletedBetween(calls, i, j, q, id)
    ensures Holder(q, w) in states[j].lastIds && states[j].lastIds[Holder(q, w)] == id
  {
    hide Does, Exclusive, MovedOn, DeletedBetween;
    AlwaysExclusive(cfg, states, calls, j - 1);
    MemoryAfter(cfg, states[j - 1], calls[j - 1], states[j], Holder(q, w));
    if i + 1 < j {
      QuietBefore(calls, i, j, q, w, id);
      StillRemembered(cfg, states, calls, i, j - 1, q, w, id);
    }
  }

  /** Within the TTL a wallet that asks again keeps its id exactly while the switch timeout has not
      passed since the second in which it was granted. */
  lemma KeptIff(cfg: Config, states: seq<State>, calls: seq<Call>, i: nat, j: nat, q: Queue, w: Wallet, id: int)
    requires Behaves(cfg, states, calls) && states[0].timers == map[] && i < j < |calls|
    requires LastGranted(calls, i, j, q, w, id) && !DeletedBetween(calls, i, j, q, id)
    requires calls[j].op.Acquire? && calls[j].op.queue == q && calls[j].op.wallet == w
    requires calls[j].now - calls[i].now / 1_000_000_000 * 1_000_000_000 <= cfg.ttl
    ensures calls[j].op.answer.Kept? <==>
      calls[j].now - calls[i].now / 1_000_000_000 * 1_000_000_000 < cfg.switchTimeout
    ensures calls[j].op.answer.Kept? ==> calls[j].op.answer.id == id
  {
    hide MovedOn, DeletedBetween, Exclusive;
    assert calls[j - 1].now <= calls[j].now;
    LeaseHolds(cfg, states, calls, i, j, q, w, id);
    StillRemembered(cfg, states, calls, i, j, q, w, id);
    KeptStep(cfg, states[j], q, w, calls[j].now, calls[j].op.answer, states[j + 1], id, calls[i].now / SECOND);
  }

  lemma KeptStep(cfg: Config, s: State, q: Queue, w: Wallet, now: nat, a: Answer, t: State, id: int, stamp: int)
    requires Acquires(cfg, s, q, w, now, a, t) && Age(stamp, now) <= cfg.ttl
    requires Holder(q, w) in s.lastIds && s.lastIds[Holder(q, w)] == id
    requires Lease(q, w, id) in s.timers && s.timers[Lease(q, w, id)] == stamp
    ensures a.Kept? <==> Age(stamp, now) < cfg.switchTimeout
    ensures a.Kept? ==> a.id == id
  {
  }
}
