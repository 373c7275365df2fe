/**
  The block follower: the chain head it polls, the single-block step and the catch-up loop.
 */
module Follower {
  import opened Wrappers
  import opened Chain
  import opened Ledger
  import opened Tables
  import opened Effects
  import opened Indexer
  import opened Refinement
  import opened Runs
  import opened Replay
  import opened Delivery

  // ---------- The chain head ----------

  const BREAK_THRESHOLD := 1

  /** An answer of one node is dropped when it lags behind the last accepted head. */
  predicate InSync(latest: Option<nat>, reply: nat) {
    latest.None? || latest.value - reply < BREAK_THRESHOLD
  }

  /** The greatest answer that is not below the last accepted head. */
  function Head(latest: Option<nat>, replies: seq<Option<nat>>): (h: Option<nat>)
    ensures h.Some? <==> exists r :: r in replies && r.Some? && (latest.None? || latest.value <= r.value)
    ensures h.Some? ==> h in replies && (latest.None? || latest.value <= h.value)
    ensures forall r :: r in replies && r.Some? && (latest.None? || latest.value <= r.value) ==>
      h.Some? && r.value <= h.value
  {
    if replies == [] then None
    else
      var h := Head(latest, replies[..|replies| - 1]);
      var r := replies[|replies| - 1];
      if r.Some? && InSync(latest, r.value) && (h.None? || r.value > h.value) then r else h
  }

  class EthClient {
    var latestFetched: Option<nat>

    constructor ()
      ensures latestFetched == None
    {
      latestFetched := None;
    }

    /** `replies` holds one entry per node, None where the call failed or the breaker is open. */
    method GetLatestBlockNumber(replies: seq<Option<nat>>) returns (head: Option<nat>)
      modifies this
      ensures head == Head(old(latestFetched), replies)
      ensures latestFetched == if head.Some? then head else old(latestFetched)
    {
      var maxNum: Option<nat> := None;
      for i := 0 to |replies|
        invariant maxNum == Head(latestFetched, replies[..i])
        invariant latestFetched == old(latestFetched)
      {
        assert replies[..i + 1][..i] == replies[..i];
        var reply := replies[i];
        if reply.None? || !InSync(latestFetched, reply.value) { continue; }
        if maxNum.None? || reply.value > maxNum.value { maxNum := reply; }
      }
      assert replies[..|replies|] == replies;
      if maxNum.Some? { latestFetched := maxNum; }
      return maxNum;
    }
  }

  /** latestFetched after one more poll. */
  function Polled1(latest: Option<nat>, replies: seq<Option<nat>>): Option<nat> {
    var h := Head(latest, replies);
    if h.Some? then h else latest
  }

  /** latestFetched after a list of polls of one process. */
  function Polled(polls: seq<seq<Option<nat>>>): Option<nat> {
    if polls == [] then None else Polled1(Polled(polls[..|polls| - 1]), polls[|polls| - 1])
  }

  /** The heads one process is given never decrease. */
  lemma {:induction false} HeadsNeverDecrease(polls: seq<seq<Option<nat>>>, i: nat, j: nat)
    requires i <= j <= |polls| && Polled(polls[..i]).Some?
    ensures Polled(polls[..j]).Some? && Polled(polls[..i]).value <= Polled(polls[..j]).value
  {
    if i < j {
      HeadsNeverDecrease(polls, i, j - 1);
      assert polls[..j][..j - 1] == polls[..j - 1];
    }
  }

  /** A poll without anything new repeats the head. */
  lemma HeadRepeats(head: nat, replies: seq<Option<nat>>)
    requires Some(head) in replies && forall r: Option<nat> :: r in replies && r.Some? ==> r.value <= head
    ensures Head(Some(head), replies) == Some(head) && Polled1(Some(head), replies) == Some(head)
  {
    assert Some(head).Some?;
  }

  // ---------- Following blocks ----------

  /** How the node answers for one block number. */
  datatype Fetch = Served | Unservable | Unavailable

  /** What the outside does while one block is checked. */
  datatype Env = Env(fetch: Fetch, weather: nat -> Weather, ticks: nat -> Tick, commit: Commit, recordOk: bool)

  /** What it does while the head is polled and blocks are checked: one answer per node, and an
      environment for each block. */
  datatype Poll = Poll(replies: seq<Option<nat>>, envs: nat -> Env)

  function Weathers(env: Env, n: nat): (ws: seq<Weather>)
    ensures |ws| == n && forall i :: 0 <= i < n ==> ws[i] == env.weather(i)
  {
    seq(n, i requires 0 <= i < n => env.weather(i))
  }

  function Ticks(env: Env, n: nat): (ts: seq<Tick>)
    ensures |ts| == n && forall i :: 0 <= i < n ==> ts[i] == env.ticks(i)
  {
    seq(n, i requires 0 <= i < n => env.ticks(i))
  }

  class Follower {
    const service: Service
    const client: EthClient
    var recorded: Option<nat>

    constructor (service: Service, client: EthClient, recorded: Option<nat>)
      ensures this.service == service && this.client == client && this.recorded == recorded
    {
      this.service, this.client, this.recorded := service, client, recorded;
    }

    ghost function At(latest: nat, tip: nat): Node
      reads service.repository, this
    {
      Node(ViewOf(service.repository.Rows()), latest, recorded, tip)
    }

    ghost predicate Healthy()
      reads service, service.repository, service.clock
    {
      service.Healthy()
    }

    /** The block after `latest`; a block that does not exist yet is unavailable.  Whatever happens is
        one step of a run: `next` moves only past a block that committed or a round the node says it
        cannot serve. */
    method CheckSingleBlock(chain: seq<seq<Log>>, latest: nat, env: Env, ghost tip: nat)
      returns (next: nat, ok: bool, ghost step: Step, ghost after: Node)
      requires Healthy()
      modifies this, service.repository, service.clock
      ensures Healthy()
      ensures Take(chain, old(At(latest, tip)), step) == Some(after) && after == At(next, after.tip)
      ensures next == latest || (next == latest + 1 <= |chain| && (step.Committed? || step.Skipped?))
      ensures step.Skipped? ==> env.fetch.Unservable?
      ensures ok <==> step.Committed?
      ensures ok ==> next == latest + 1
      ensures !step.Restarted?
    {
      if latest >= |chain| || env.fetch.Unavailable? {
        return latest, false, Step.Failed, At(latest, tip);
      }
      if env.fetch.Unservable? {
        if env.recordOk { recorded := Some(latest + 1); }
        return latest + 1, false, Skipped(env.recordOk), At(latest + 1, Max(tip, latest + 1));
      }
      var block := chain[latest];
      var ws := Weathers(env, |block|);
      ghost var before := service.repository.Rows();
      ok := service.ProcessBlock(block, ws, Ticks(env, |block|), env.commit);
      if !ok {
        next := latest;
        if SameRows(before, service.repository.Rows()) {
          SameView(before, service.repository.Rows());
          step, after := Step.Failed, At(latest, tip);
        } else {
          step, after := Unacknowledged(ws), At(latest, Max(tip, latest + 1));
        }
        return;
      }
      if env.recordOk { recorded := Some(latest + 1); }
      return latest + 1, true, Committed(ws, env.recordOk), At(latest + 1, Max(tip, latest + 1));
    }

    /** Catch up with the polled head.  The loop ends; its steps form a run without restarts over
        consecutive blocks; it reports success exactly if it gets to the head by committed blocks, and
        starting at or below the head it never gets past it; at the head there is nothing to do. */
    method CheckBlock(chain: seq<seq<Log>>, latest: nat, poll: Poll, ghost tip: nat)
      returns (next: nat, ok: bool, ghost steps: seq<Step>, ghost after: Node)
      requires Healthy()
      modifies this, client, service.repository, service.clock
      ensures Healthy()
      ensures client.latestFetched == Polled1(old(client.latestFetched), poll.replies)
      ensures Run(chain, old(At(latest, tip)), steps) == Some(after) && after == At(next, after.tip)
      ensures latest <= next && next - latest <= |steps| <= next - latest + 1
      ensures forall i :: 0 <= i < |steps| - 1 ==> steps[i].Committed?
      ensures forall i :: 0 <= i < |steps| && steps[i].Skipped? ==> poll.envs(latest + i).fetch.Unservable?
      ensures forall i :: 0 <= i < |steps| ==> !steps[i].Restarted?
      ensures
        var head := Head(old(client.latestFetched), poll.replies);
        && (ok <==> head == Some(next) && forall i :: 0 <= i < |steps| ==> steps[i].Committed?)
        && (head.Some? && latest <= head.value ==> next <= head.value)
        && (head == Some(latest) ==> ok && steps == [])
    {
      next, ok, steps, after := latest, false, [], At(latest, tip);
      var head := client.GetLatestBlockNumber(poll.replies);
      if head.None? { return; }
      while next != head.value
        invariant Healthy() && latest <= next <= Max(|chain|, latest) && |steps| == next - latest
        invariant latest <= head.value ==> next <= head.value
        invariant Run(chain, old(At(latest, tip)), steps) == Some(after) && after == At(next, after.tip)
        invariant forall i :: 0 <= i < |steps| ==> steps[i].Committed?
        invariant client.latestFetched == Polled1(old(client.latestFetched), poll.replies)
        decreases Max(|chain|, latest) - next
      {
        ghost var step;
        ghost var n := |steps|;
        var good;
        next, good, step, after := CheckSingleBlock(chain, next, poll.envs(next), after.tip);
        OneMoreStep(chain, old(At(latest, tip)), steps, step);
        steps := steps + [step];
        if !good { return; }
      }
      ok := true;
    }

    /** One process: start from the recorded block, or from the polled head if there is none, and check
        blocks poll after poll.  `past` is the run of the processes before, and the process continues it.
        So after any number of processes, the tables - when the follower is as far as it ever was, and no
        restart went back over a lost round - are those of one clean pass, if and only if every log so
        far was taken in. */
    method ListenBlockchain(chain: seq<seq<Log>>, first: seq<Option<nat>>, polls: seq<Poll>,
                            ghost past: seq<Step>, ghost latest: nat, ghost tip: nat)
      returns (next: Option<nat>, ghost steps: seq<Step>, ghost after: Node)
      requires Healthy() && (recorded.Some? ==> Run(chain, START, past) == Some(At(latest, tip)))
      modifies this, client, service.repository, service.clock
      ensures Healthy()
      ensures next.None? <==> old(recorded).None? && Head(old(client.latestFetched), first).None?
      ensures old(recorded).Some? ==>
        && past + [Restarted] <= steps && Run(chain, START, steps) == Some(after)
        && next == Some(after.latest) && after == At(after.latest, after.tip) && after.latest <= |chain|
      ensures old(recorded).None? && next.Some? ==>
        && past <= steps
        && Run(chain, old(At(Head(client.latestFetched, first).value, tip)), steps[|past|..]) == Some(after)
        && next == Some(after.latest) && after == At(after.latest, after.tip)
      ensures old(recorded).Some? && Possible(All(chain)) && NeverBack(chain, steps) && after.latest == after.tip ==>
        && Base(chain, after.latest) <= |All(chain)|
        && (Clean(Flat(chain, after.latest)) == Some(ViewOf(service.repository.Rows())) <==>
            AllTaken(All(chain), Taken(chain, steps), Base(chain, after.latest)))
    {
      hide Possible, NeverBack, RunAt, Take, Flat, AllTaken, TakenAt, ViewOf, Clean, Head;
      steps, after := past, At(latest, tip);
      var last: nat;
      if recorded.None? {
        var head := client.GetLatestBlockNumber(first);
        if head.None? { return None, steps, after; }
        last := head.value;
        after := At(last, tip);
        assert steps[|past|..] == [];
        EmptyRun(chain, after);
      } else {
        last := recorded.value;
        RestartStep(chain, after);
        OneMoreStep(chain, START, past, Restarted);
        steps, after := past + [Restarted], At(last, tip);
      }
      ghost var start := after;
      for i := 0 to |polls|
        invariant Healthy()
        invariant old(recorded).Some? ==>
          past + [Restarted] <= steps && Run(chain, START, steps) == Some(after) && after == At(last, after.tip)
        invariant old(recorded).None? ==>
          past <= steps && Run(chain, start, steps[|past|..]) == Some(after) && after == At(last, after.tip)
      {
        ghost var more, later;
        var ok;
        last, ok, more, later := CheckBlock(chain, last, polls[i], after.tip);
        if old(recorded).Some? {
          RunConcat(chain, START, steps, more, |more|);
        } else {
          RunConcat(chain, start, steps[|past|..], more, |more|);
          assert (steps + more)[|past|..] == steps[|past|..] + more;
        }
        steps, after := steps + more, later;
      }
      next := Some(last);
      if old(recorded).Some? {
        RunBounds(chain, steps, |steps|);
        if Possible(All(chain)) && NeverBack(chain, steps) && after.latest == after.tip { ExactlyOnce(chain, steps); }
      }
    }
  }

  lemma EmptyRun(chain: seq<seq<Log>>, n: Node)
    ensures Run(chain, n, []) == Some(n)
  {
  }

  lemma RestartStep(chain: seq<seq<Log>>, n: Node)
    requires n.recorded.Some?
    ensures Take(chain, n, Restarted) == Some(n.(latest := n.recorded.value))
  {
  }
}
