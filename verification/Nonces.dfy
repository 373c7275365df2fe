/**
  The autoseller's transaction nonces: up to four workers at a time, each taking the next nonce
  under a mutex it holds until the node has answered.
 */
module Nonces {
  import opened Wrappers

  const LIMIT := 4

  /** One round approves transfers, the other finalizes them. */
  datatype Kind = Approving | Finalizing

  /** The node's answer to a sent transaction.  Settled: the contract says the step is already
      done (approving) or there is nothing to do (finalizing). */
  datatype Reply = Sent | Settled | InMpool | Failed

  datatype Phase = Waiting | Queued | Calling(nonce: int) | Ending | Finished

  /** A nonce offered to the node, and the answer. */
  datatype Offer = Offer(nonce: int, reply: Reply)

  datatype State = State(nonce: int, holder: Option<nat>, slots: int, launched: nat, workers: seq<Phase>,
                         offers: seq<Offer>)

  /** What happens next: the round launches its next worker, or worker w moves. */
  datatype Step = Launch | GiveUp(w: nat) | Lock(w: nat) | Answer(w: nat, reply: Reply) | Finish(w: nat)

  function Start(nonce: nat, workers: nat): State {
    State(nonce, None, 0, 0, seq(workers, i => Waiting), [])
  }

  /** Does the code keep the counter advanced after this answer? */
  predicate Keeps(kind: Kind, r: Reply) { r.Sent? || (kind.Approving? && r.InMpool?) }

  /** Is a transaction with that nonce on its way after this answer? */
  predicate Occupies(r: Reply) { r.Sent? || r.InMpool? }

  predicate Enabled(s: State, step: Step) {
    match step
    case Launch => s.launched < |s.workers| && s.slots < LIMIT
    case GiveUp(w) => w < |s.workers| && s.workers[w].Queued?
    case Lock(w) => w < |s.workers| && s.workers[w].Queued? && s.holder.None?
    case Answer(w, _) => w < |s.workers| && s.workers[w].Calling?
    case Finish(w) => w < |s.workers| && s.workers[w].Ending?
  }

  function Do(kind: Kind, s: State, step: Step): State
    requires Enabled(s, step)
  {
    match step
    case Launch => s.(slots := s.slots + 1, launched := s.launched + 1,
                      workers := s.workers[s.launched := Queued])
    case GiveUp(w) => s.(workers := s.workers[w := Ending])
    case Lock(w) => s.(nonce := s.nonce + 1, holder := Some(w), workers := s.workers[w := Calling(s.nonce)])
    case Answer(w, r) => s.(nonce := if Keeps(kind, r) then s.nonce else s.nonce - 1, holder := None,
                            workers := s.workers[w := Ending],
                            offers := s.offers + [Offer(s.workers[w].nonce, r)])
    case Finish(w) => s.(slots := s.slots - 1, workers := s.workers[w := Finished])
  }

  /** The state after the first m steps, if each of them was possible. */
  function After(kind: Kind, start: State, steps: seq<Step>, m: nat): Option<State>
    requires m <= |steps|
  {
    if m == 0 then Some(start)
    else
      var s := After(kind, start, steps, m - 1);
      if s.Some? && Enabled(s.value, steps[m - 1]) then Some(Do(kind, s.value, steps[m - 1])) else None
  }

  // ---------- The code ----------

  class Autoseller {
    var nonce: int
    var nonceMu: Option<nat>
    var slots: int
    var launched: nat
    var workers: seq<Phase>
    ghost var offers: seq<Offer>

    ghost function View(): State
      reads this
    {
      State(nonce, nonceMu, slots, launched, workers, offers)
    }

    /** The round has fetched the account's pending nonce and its jobs. */
    constructor (pending: nat, jobs: nat)
      ensures View() == Start(pending, jobs)
    {
      nonce, nonceMu, slots, launched := pending, None, 0, 0;
      workers := seq(jobs, i => Waiting);
      offers := [];
    }

    method LaunchNext()
      requires Enabled(View(), Launch)
      modifies this
      ensures forall kind :: View() == Do(kind, old(View()), Launch)
    {
      workers := workers[launched := Queued];
      slots, launched := slots + 1, launched + 1;
    }

    method TakeNonce(w: nat) returns (mine: int)
      requires Enabled(View(), Lock(w))
      modifies this
      ensures mine == old(nonce)
      ensures forall kind :: View() == Do(kind, old(View()), Lock(w))
    {
      nonceMu := Some(w);
      mine := nonce;
      nonce := nonce + 1;
      workers := workers[w := Calling(mine)];
    }

    /** approve, from the node's answer to the release of the mutex; err is what it returns. */
    method Approve(w: nat, reply: Reply) returns (err: bool)
      requires Enabled(View(), Answer(w, reply))
      modifies this
      ensures View() == Do(Approving, old(View()), Answer(w, reply)) && nonceMu.None?
      ensures err == reply.Failed?
    {
      offers := offers + [Offer(workers[w].nonce, reply)];
      workers := workers[w := Ending];
      err := false;
      if !reply.Sent? {
        nonce := nonce - 1;
        if reply.Settled? {
          nonceMu := None;
          return;
        } else if reply.InMpool? {
          nonce := nonce + 1;
          nonceMu := None;
          return;
        }
        err := true;
      }
      nonceMu := None;
    }

    /** finalize: its second test repeats the first, so the branch that would keep the counter
        advanced is never taken, and a transaction already in the pool counts as any other error. */
    method Finalize(w: nat, reply: Reply) returns (err: bool)
      requires Enabled(View(), Answer(w, reply))
      modifies this
      ensures View() == Do(Finalizing, old(View()), Answer(w, reply)) && nonceMu.None?
      ensures err == (reply.Failed? || reply.InMpool?)
    {
      offers := offers + [Offer(workers[w].nonce, reply)];
      workers := workers[w := Ending];
      err := false;
      if !reply.Sent? {
        nonce := nonce - 1;
        if reply.Settled? {
          nonceMu := None;
          return;
        }
        err := true;
      }
      nonceMu := None;
    }

    method Leave(w: nat)
      requires Enabled(View(), Finish(w))
      modifies this
      ensures forall kind :: View() == Do(kind, old(View()), Finish(w))
    {
      workers := workers[w := Finished];
      slots := slots - 1;
    }
  }

  // ---------- What every interleaving keeps ----------

  predicate InFlight(p: Phase) { !p.Waiting? && !p.Finished? }

  function Busy(s: State): set<nat> { set w: nat | w < |s.workers| && InFlight(s.workers[w]) }

  /** Offers among the first m after which the counter stayed advanced. */
  function Kept(kind: Kind, offers: seq<Offer>, m: nat): nat
    requires m <= |offers|
  {
    if m == 0 then 0 else Kept(kind, offers, m - 1) + (if Keeps(kind, offers[m - 1].reply) then 1 else 0)
  }

  /** The nonces of the transactions on their way after the first m offers, in order. */
  function Used(offers: seq<Offer>, m: nat): seq<int>
    requires m <= |offers|
  {
    if m == 0 then []
    else Used(offers, m - 1) + (if Occupies(offers[m - 1].reply) then [offers[m - 1].nonce] else [])
  }

  /** start, start + 1, start + 2 and so on: no repetition and no gap. */
  predicate Consecutive(start: int, s: seq<int>) { forall i :: 0 <= i < |s| ==> s[i] == start + i }

  /** At most four workers are in flight, and the mutex is held exactly by the one worker that
      waits for an answer. */
  ghost predicate Disciplined(s: State) {
    && s.launched <= |s.workers|
    && (forall w: nat :: w < |s.workers| ==> (s.workers[w].Waiting? <==> s.launched <= w))
    && s.slots == |Busy(s)| <= LIMIT
    && (forall w: nat :: w < |s.workers| ==> (s.workers[w].Calling? <==> s.holder == Some(w)))
    && (s.holder.Some? ==> s.holder.value < |s.workers|)
  }

  /** Each offer carried the first nonce not yet given away, and so does the one being made. */
  ghost predicate Counted(kind: Kind, start: int, s: State) {
    && (forall i: nat :: i < |s.offers| ==> s.offers[i].nonce == start + Kept(kind, s.offers, i))
    && (forall w: nat :: w < |s.workers| && s.workers[w].Calling? ==>
          s.workers[w].nonce == start + Kept(kind, s.offers, |s.offers|))
    && s.nonce == start + Kept(kind, s.offers, |s.offers|) + if s.holder.Some? then 1 else 0
  }

  lemma BusyAfter(kind: Kind, s: State, step: Step)
    requires Disciplined(s) && Enabled(s, step)
    ensures var t := Do(kind, s, step); t.slots == |Busy(t)|
  {
    var t := Do(kind, s, step);
    match step
    case Launch => assert Busy(t) == Busy(s) + {s.launched};
    case GiveUp(w) => assert Busy(t) == Busy(s);
    case Lock(w) => assert Busy(t) == Busy(s);
    case Answer(w, _) => assert Busy(t) == Busy(s);
    case Finish(w) => assert w in Busy(s) && Busy(t) == Busy(s) - {w};
  }

  lemma StaysDisciplined(kind: Kind, s: State, step: Step)
    requires Disciplined(s) && Enabled(s, step)
    ensures Disciplined(Do(kind, s, step))
  {
    BusyAfter(kind, s, step);
  }

  lemma {:induction false} SamePrefix(kind: Kind, offers: seq<Offer>, o: Offer, m: nat)
    requires m <= |offers|
    ensures Kept(kind, offers + [o], m) == Kept(kind, offers, m)
  {
    if m > 0 { SamePrefix(kind, offers, o, m - 1); }
  }

  lemma NextOffer(kind: Kind, offers: seq<Offer>, m: nat)
    requires 0 < m <= |offers|
    ensures Used(offers, m) == Used(offers, m - 1) + if Occupies(offers[m - 1].reply) then [offers[m - 1].nonce] else []
    ensures Kept(kind, offers, m) == Kept(kind, offers, m - 1) + if Keeps(kind, offers[m - 1].reply) then 1 else 0
  {
  }

  lemma AnswerStaysCounted(kind: Kind, start: int, s: State, w: nat, r: Reply)
    requires Disciplined(s) && Counted(kind, start, s) && Enabled(s, Answer(w, r))
    ensures Counted(kind, start, Do(kind, s, Answer(w, r)))
  {
    hide Kept, Keeps;
    var o := Offer(s.workers[w].nonce, r);
    var n := |s.offers|;
    var t := Do(kind, s, Answer(w, r));
    assert t.offers == s.offers + [o] && s.holder == Some(w);
    SamePrefix(kind, s.offers, o, n);
    NextOffer(kind, t.offers, n + 1);
    forall i: nat | i < |t.offers| ensures t.offers[i].nonce == start + Kept(kind, t.offers, i) {
      SamePrefix(kind, s.offers, o, i);
    }
  }

  lemma StaysCounted(kind: Kind, start: int, s: State, step: Step)
    requires Disciplined(s) && Counted(kind, start, s) && Enabled(s, step)
    ensures Counted(kind, start, Do(kind, s, step))
  {
    hide Kept;
    if step.Answer? { AnswerStaysCounted(kind, start, s, step.w, step.reply); }
  }

  lemma SameJobs(kind: Kind, s: State, step: Step)
    requires Disciplined(s) && Enabled(s, step)
    ensures |Do(kind, s, step).workers| == |s.workers|
  {
  }

  lemma StartsWell(kind: Kind, start: nat, jobs: nat)
    ensures Disciplined(Start(start, jobs)) && Counted(kind, start, Start(start, jobs))
    ensures |Start(start, jobs).workers| == jobs
  {
    assert Busy(Start(start, jobs)) == {};
  }

  lemma {:induction false} EveryRun(kind: Kind, start: nat, jobs: nat, steps: seq<Step>, m: nat)
    requires m <= |steps| && After(kind, Start(start, jobs), steps, m).Some?
    ensures var s := After(kind, Start(start, jobs), steps, m).value;
      Disciplined(s) && Counted(kind, start, s) && |s.workers| == jobs
  {
    hide Disciplined, Counted, Do, Start, Enabled;
    if m == 0 {
      StartsWell(kind, start, jobs);
    } else {
      EveryRun(kind, start, jobs, steps, m - 1);
      var s := After(kind, Start(start, jobs), steps, m - 1).value;
      SameJobs(kind, s, steps[m - 1]);
      StaysDisciplined(kind, s, steps[m - 1]);
      StaysCounted(kind, start, s, steps[m - 1]);
    }
  }

  /** At most four workers are in flight at any moment of any run, and while there are fewer the next
      one can be launched; at most one of them holds the mutex, and nobody holds it when no worker
      waits for an answer. */
  lemma FewInFlight(kind: Kind, start: nat, jobs: nat, steps: seq<Step>, m: nat)
    requires m <= |steps| && After(kind, Start(start, jobs), steps, m).Some?
    ensures var s := After(kind, Start(start, jobs), steps, m).value;
      && |Busy(s)| <= 4 && (Enabled(s, Launch) <==> s.launched < jobs && |Busy(s)| < 4)
      && (forall v: nat, w: nat | v < |s.workers| && w < |s.workers| ::
            s.workers[v].Calling? && s.workers[w].Calling? ==> v == w)
      && ((forall w: nat :: w < |s.workers| ==> !s.workers[w].Calling?) <==> s.holder.None?)
  {
    hide Busy, After, Counted;
    EveryRun(kind, start, jobs, steps, m);
  }

  /** No run gets stuck: until every worker is finished some step is possible. */
  lemma NeverStuck(kind: Kind, start: nat, jobs: nat, steps: seq<Step>) returns (step: Step)
    requires After(kind, Start(start, jobs), steps, |steps|).Some?
    ensures var s := After(kind, Start(start, jobs), steps, |steps|).value;
      (forall w: nat :: w < |s.workers| ==> s.workers[w].Finished?) || Enabled(s, step)
  {
    EveryRun(kind, start, jobs, steps, |steps|);
    var s := After(kind, Start(start, jobs), steps, |steps|).value;
    if w: nat :| w < |s.workers| && s.workers[w].Ending? { return Finish(w); }
    if s.holder.Some? { return Answer(s.holder.value, Failed); }
    if w: nat :| w < |s.workers| && s.workers[w].Queued? { return Lock(w); }
    assert Busy(s) == {};
    return Launch;
  }

  // ---------- The nonces of a round ----------

  /** No transaction is on its way after one that was already in the pool. */
  predicate PoolLast(offers: seq<Offer>, m: nat)
    requires m <= |offers|
  {
    forall i, j :: 0 <= i < j < m ==> !(offers[i].reply.InMpool? && Occupies(offers[j].reply))
  }

  predicate PoolFree(offers: seq<Offer>, m: nat)
    requires m <= |offers|
  {
    forall i :: 0 <= i < m ==> !offers[i].reply.InMpool?
  }

  predicate Numbered(kind: Kind, start: int, offers: seq<Offer>) {
    forall i: nat :: i < |offers| ==> offers[i].nonce == start + Kept(kind, offers, i)
  }

  lemma {:induction false} NoGap(kind: Kind, start: int, offers: seq<Offer>, m: nat)
    requires m <= |offers| && Numbered(kind, start, offers)
    requires kind.Approving? || PoolLast(offers, m)
    ensures Consecutive(start, Used(offers, m))
    ensures kind.Approving? || PoolFree(offers, m) ==> |Used(offers, m)| == Kept(kind, offers, m)
  {
    if m == 0 { return; }
    hide Used, Kept;
    NoGap(kind, start, offers, m - 1);
    NextOffer(kind, offers, m);
    if Occupies(offers[m - 1].reply) {
      assert kind.Approving? || PoolFree(offers, m - 1);
    }
  }

  lemma {:induction false} UsedAtLeastKept(kind: Kind, offers: seq<Offer>, m: nat)
    requires m <= |offers|
    ensures |Used(offers, m)| >= Kept(kind, offers, m)
    ensures kind.Finalizing? && !PoolFree(offers, m) ==> |Used(offers, m)| > Kept(kind, offers, m)
  {
    if m > 0 { UsedAtLeastKept(kind, offers, m - 1); }
  }

  lemma {:induction false} UsedAt(offers: seq<Offer>, j: nat, m: nat)
    requires j < m <= |offers| && Occupies(offers[j].reply)
    ensures |Used(offers, j)| < |Used(offers, m)| && Used(offers, m)[|Used(offers, j)|] == offers[j].nonce
  {
    if j + 1 < m { UsedAt(offers, j, m - 1); }
  }

  /** The nonces of the transactions on their way are start, start + 1 and so on, without
      repetition or gap, in every interleaving of an approving round; in a finalizing round exactly
      if none follows an answer that the transaction is already in the pool. */
  lemma ConsecutiveIff(kind: Kind, start: nat, jobs: nat, steps: seq<Step>)
    requires After(kind, Start(start, jobs), steps, |steps|).Some?
    ensures var offers := After(kind, Start(start, jobs), steps, |steps|).value.offers;
      Consecutive(start, Used(offers, |offers|)) <==> kind.Approving? || PoolLast(offers, |offers|)
  {
    EveryRun(kind, start, jobs, steps, |steps|);
    var offers := After(kind, Start(start, jobs), steps, |steps|).value.offers;
    var n := |offers|;
    if kind.Approving? || PoolLast(offers, n) {
      NoGap(kind, start, offers, n);
    } else {
      var i, j :| 0 <= i < j < n && offers[i].reply.InMpool? && Occupies(offers[j].reply);
      UsedAtLeastKept(kind, offers, j);
      UsedAt(offers, j, n);
    }
  }

  /** The first offer carries the pending nonce; the next one carries the next nonce if the transaction was
      sent - or, approving, was already in the pool - and otherwise the same nonce again. */
  lemma NextNonce(kind: Kind, start: nat, jobs: nat, steps: seq<Step>, i: nat)
    requires After(kind, Start(start, jobs), steps, |steps|).Some?
    ensures var offers := After(kind, Start(start, jobs), steps, |steps|).value.offers;
      && (offers != [] ==> offers[0].nonce == start)
      && (i + 1 < |offers| ==>
            var kept := offers[i].reply == Sent || (kind == Approving && offers[i].reply == InMpool);
            offers[i + 1].nonce == offers[i].nonce + if kept then 1 else 0)
  {
    hide After;
    EveryRun(kind, start, jobs, steps, |steps|);
    var offers := After(kind, Start(start, jobs), steps, |steps|).value.offers;
    if i + 1 < |offers| { NextOffer(kind, offers, i + 1); }
  }

  /** One finalizing worker is told its transaction is already in the pool; the next one sends
      its own with the same nonce. */
  lemma NonceReused()
    ensures exists steps, s ::
      After(Finalizing, Start(7, 2), steps, |steps|) == Some(s) && Used(s.offers, |s.offers|) == [7, 7]
  {
    hide After, Used;
    var steps := [Launch, Lock(0), Answer(0, InMpool), Launch, Lock(1), Answer(1, Sent)];
    var s0 := Start(7, 2);
    var s1 := State(7, None, 1, 1, [Queued, Waiting], []);
    var s2 := State(8, Some(0), 1, 1, [Calling(7), Waiting], []);
    var s3 := State(7, None, 1, 1, [Ending, Waiting], [Offer(7, InMpool)]);
    var s4 := State(7, None, 2, 2, [Ending, Queued], [Offer(7, InMpool)]);
    var s5 := State(8, Some(1), 2, 2, [Ending, Calling(7)], [Offer(7, InMpool)]);
    var s6 := State(8, None, 2, 2, [Ending, Ending], [Offer(7, InMpool), Offer(7, Sent)]);
    NoStep(Finalizing, s0, steps);
    OneStep(Finalizing, s0, steps, 1, s0, s1);
    OneStep(Finalizing, s0, steps, 2, s1, s2);
    OneStep(Finalizing, s0, steps, 3, s2, s3);
    OneStep(Finalizing, s0, steps, 4, s3, s4);
    OneStep(Finalizing, s0, steps, 5, s4, s5);
    OneStep(Finalizing, s0, steps, 6, s5, s6);
    TwoUsed(Offer(7, InMpool), Offer(7, Sent));
  }

  lemma NoStep(kind: Kind, start: State, steps: seq<Step>)
    ensures After(kind, start, steps, 0) == Some(start)
  {
  }

  lemma TwoUsed(a: Offer, b: Offer)
    requires Occupies(a.reply) && Occupies(b.reply)
    ensures Used([a, b], 2) == [a.nonce, b.nonce]
  {
    assert Used([a, b], 1) == [a.nonce];
  }

  lemma OneStep(kind: Kind, start: State, steps: seq<Step>, m: nat, s: State, t: State)
    requires 0 < m <= |steps| && After(kind, start, steps, m - 1) == Some(s)
    requires Enabled(s, steps[m - 1]) && Do(kind, s, steps[m - 1]) == t
    ensures After(kind, start, steps, m) == Some(t)
  {
  }

  // ---------- Every round ends ----------

  /** The steps a worker still has to take. */
  function Rank(p: Phase): nat {
    match p
    case Waiting => 4
    case Queued => 3
    case Calling(_) => 2
    case Ending => 1
    case Finished => 0
  }

  function Remaining(workers: seq<Phase>): nat {
    if workers == [] then 0 else Rank(workers[0]) + Remaining(workers[1..])
  }

  lemma {:induction false} RemainingAfter(workers: seq<Phase>, w: nat, p: Phase)
    requires w < |workers|
    ensures Remaining(workers[w := p]) == Remaining(workers) - Rank(workers[w]) + Rank(p)
  {
    if w == 0 {
      assert workers[w := p][1..] == workers[1..];
    } else {
      RemainingAfter(workers[1..], w - 1, p);
      assert workers[w := p][1..] == workers[1..][w - 1 := p];
    }
  }

  lemma {:induction false} RemainingAtStart(nonce: nat, jobs: nat)
    ensures Remaining(Start(nonce, jobs).workers) == 4 * jobs
  {
    if jobs > 0 {
      RemainingAtStart(nonce, jobs - 1);
      assert Start(nonce, jobs).workers[1..] == Start(nonce, jobs - 1).workers;
    }
  }

  lemma StepCounts(kind: Kind, s: State, step: Step)
    requires Disciplined(s) && Enabled(s, step)
    ensures Remaining(Do(kind, s, step).workers) < Remaining(s.workers)
  {
    hide Remaining, Busy;
    var w := if step.Launch? then s.launched else step.w;
    RemainingAfter(s.workers, w, Do(kind, s, step).workers[w]);
  }

  /** However the workers interleave and whatever the node answers, a round of so many jobs ends
      within four times as many steps. */
  lemma {:induction false} RoundsEnd(kind: Kind, start: nat, jobs: nat, steps: seq<Step>, m: nat)
    requires m <= |steps| && After(kind, Start(start, jobs), steps, m).Some?
    ensures m + Remaining(After(kind, Start(start, jobs), steps, m).value.workers) <= 4 * jobs
    ensures m <= 4 * jobs
  {
    hide Disciplined, Counted, Do, Start, Enabled, Remaining;
    if m == 0 {
      RemainingAtStart(start, jobs);
    } else {
      RoundsEnd(kind, start, jobs, steps, m - 1);
      EveryRun(kind, start, jobs, steps, m - 1);
      StepCounts(kind, After(kind, Start(start, jobs), steps, m - 1).value, steps[m - 1]);
    }
  }
}
