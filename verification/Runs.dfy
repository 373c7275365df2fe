/**
  Runs of the block follower: blocks that commit, fail, or commit without being acknowledged, rounds
  that are stepped over, and restarts that process committed blocks again.
 */
module Runs {
  import opened Wrappers
  import opened Chain
  import opened Ledger

  // ---------- Blocks of logs ----------

  /** The logs of the first n blocks. */
  function Flat(chain: seq<seq<Log>>, n: nat): seq<Log>
    requires n <= |chain|
  {
    if n == 0 then [] else Flat(chain, n - 1) + chain[n - 1]
  }

  function All(chain: seq<seq<Log>>): seq<Log> { Flat(chain, |chain|) }

  /** The position of a block's first log. */
  function Base(chain: seq<seq<Log>>, n: nat): nat
    requires n <= |chain|
  {
    |Flat(chain, n)|
  }

  predicate Indexed(l: Log) { !l.event.Unindexed? }

  /** A round without anything to index. */
  predicate Silent(block: seq<Log>) { forall i :: 0 <= i < |block| ==> !Indexed(block[i]) }

  function Max(a: nat, b: nat): nat { if a < b then b else a }

  lemma {:induction false} FlatMonotone(chain: seq<seq<Log>>, m: nat, n: nat)
    requires m <= n <= |chain|
    ensures Base(chain, m) <= Base(chain, n) && Flat(chain, n)[..Base(chain, m)] == Flat(chain, m)
  {
    if m < n {
      FlatMonotone(chain, m, n - 1);
      var k := Base(chain, m);
      assert Flat(chain, n)[..k] == Flat(chain, n - 1)[..k];
    }
  }

  lemma BlockHere(chain: seq<seq<Log>>, n: nat)
    requires n < |chain|
    ensures Base(chain, n) + |chain[n]| == Base(chain, n + 1) <= |All(chain)|
    ensures forall i :: 0 <= i < |chain[n]| ==> All(chain)[Base(chain, n) + i] == chain[n][i]
  {
    FlatMonotone(chain, n + 1, |chain|);
    var upto := Flat(chain, n + 1);
    assert upto == Flat(chain, n) + chain[n];
    forall i | 0 <= i < |chain[n]| ensures All(chain)[Base(chain, n) + i] == chain[n][i] {
      assert All(chain)[..|upto|][Base(chain, n) + i] == upto[Base(chain, n) + i];
    }
  }

  // ---------- Steps ----------

  /** The follower: the tables, the last block in memory, the recorded last block, and (for the
      statement only) the highest block it ever got past. */
  datatype Node = Node(view: View, latest: nat, recorded: Option<nat>, tip: nat)

  const START: Node := Node(map[], 0, Some(0), 0)

  datatype Step =
    | Committed(ws: seq<Weather>, recorded: bool)  // the block commits; recording it may fail
    | Unacknowledged(ws: seq<Weather>)             // the block commits but the follower does not learn it
    | Failed                                       // the block's transaction rolls back
    | Skipped(recorded: bool)                      // a round the node cannot serve is stepped over
    | Restarted                                    // the process starts again from the recorded block
  {
    predicate Commits() { Committed? || Unacknowledged? }
  }

  ghost function Take(chain: seq<seq<Log>>, n: Node, s: Step): Option<Node> {
    match s
    case Failed => Some(n)
    case Restarted =>
      if n.recorded.None? then None else Some(n.(latest := n.recorded.value))
    case Skipped(recorded) =>
      if n.latest >= |chain| then None else Some(Advanced(n, n.view, recorded))
    case Committed(ws, recorded) =>
      var v := Attempt(chain, n, ws);
      if v.None? then None else Some(Advanced(n, v.value, recorded))
    case Unacknowledged(ws) =>
      var v := Attempt(chain, n, ws);
      if v.None? then None else Some(n.(view := v.value, tip := Max(n.tip, n.latest + 1)))
  }

  ghost function Attempt(chain: seq<seq<Log>>, n: Node, ws: seq<Weather>): Option<View> {
    if n.latest >= |chain| || |ws| != |chain[n.latest]| then None
    else HandleAll(n.view, chain[n.latest], ws)
  }

  function Advanced(n: Node, v: View, recorded: bool): Node {
    Node(v, n.latest + 1, if recorded then Some(n.latest + 1) else n.recorded, Max(n.tip, n.latest + 1))
  }

  /** The follower after the first m steps; None if one of them was not possible. */
  ghost function RunAt(chain: seq<seq<Log>>, start: Node, steps: seq<Step>, m: nat): Option<Node>
    requires m <= |steps|
  {
    if m == 0 then Some(start)
    else
      var n := RunAt(chain, start, steps, m - 1);
      if n.None? then None else Take(chain, n.value, steps[m - 1])
  }

  ghost function Run(chain: seq<seq<Log>>, start: Node, steps: seq<Step>): Option<Node> {
    RunAt(chain, start, steps, |steps|)
  }

  lemma {:induction false} RunPrefix(chain: seq<seq<Log>>, start: Node, steps: seq<Step>, more: seq<Step>, m: nat)
    requires m <= |steps|
    ensures RunAt(chain, start, steps + more, m) == RunAt(chain, start, steps, m)
  {
    if m > 0 { RunPrefix(chain, start, steps, more, m - 1); }
  }

  /** A run and a run from where it ends make one run. */
  lemma {:induction false} RunConcat(chain: seq<seq<Log>>, start: Node, a: seq<Step>, b: seq<Step>, m: nat)
    requires m <= |b| && Run(chain, start, a).Some?
    ensures RunAt(chain, start, a + b, |a| + m) == RunAt(chain, Run(chain, start, a).value, b, m)
  {
    if m == 0 {
      RunPrefix(chain, start, a, b, |a|);
    } else {
      RunConcat(chain, start, a, b, m - 1);
      assert (a + b)[|a| + m - 1] == b[m - 1];
    }
  }

  /** Does the step get past a block or round and record that? */
  predicate Records(s: Step) { (s.Committed? || s.Skipped?) && s.recorded }

  /** After a recorded step the record says how far the follower is, and it stays until the next
      recorded step; so a restart goes back exactly to where the last recorded step had got, and if
      every step that gets on records and every commit is acknowledged, a restart goes back nowhere. */
  lemma {:induction false} RestartsWhereRecorded(chain: seq<seq<Log>>, start: Node, steps: seq<Step>, i: nat, m: nat)
    requires i < m <= |steps| && RunAt(chain, start, steps, m).Some? && Records(steps[i])
    requires forall j :: i < j < m ==> !Records(steps[j])
    ensures RunAt(chain, start, steps, i + 1).Some?
    ensures RunAt(chain, start, steps, m).value.recorded == Some(RunAt(chain, start, steps, i + 1).value.latest)
    ensures RunAt(chain, start, steps, i).Some?
    ensures RunAt(chain, start, steps, i + 1).value.latest == RunAt(chain, start, steps, i).value.latest + 1
    decreases m
  {
    hide Attempt;
    if i + 1 < m { RestartsWhereRecorded(chain, start, steps, i, m - 1); }
  }

  lemma {:induction false} AllRecorded(chain: seq<seq<Log>>, start: Node, steps: seq<Step>, m: nat)
    requires m <= |steps| && RunAt(chain, start, steps, m).Some? && start.recorded == Some(start.latest)
    requires forall j :: 0 <= j < m && (steps[j].Committed? || steps[j].Skipped?) ==> steps[j].recorded
    ensures var n := RunAt(chain, start, steps, m).value; n.recorded == Some(n.latest)
  {
    hide Attempt;
    if m > 0 { AllRecorded(chain, start, steps, m - 1); }
  }

  lemma OneMoreStep(chain: seq<seq<Log>>, start: Node, steps: seq<Step>, s: Step)
    requires Run(chain, start, steps).Some?
    ensures Run(chain, start, steps + [s]) == Take(chain, Run(chain, start, steps).value, s)
  {
    hide Take;
    RunConcat(chain, start, steps, [s], 1);
  }

  lemma {:induction false} RunExists(chain: seq<seq<Log>>, start: Node, steps: seq<Step>, m: nat, n: nat)
    requires m <= n <= |steps| && RunAt(chain, start, steps, n).Some?
    ensures RunAt(chain, start, steps, m).Some?
  {
    if m < n { RunExists(chain, start, steps, m, n - 1); }
  }

  // ---------- What a run does with each log ----------

  /** Does handling a log take it in?  A mint is taken in when its block lookup answers, any other
      log when its token is in the tables. */
  predicate Takes(v: View, l: Log, w: Weather) {
    Indexed(l) && if l.event.Mint? then !w.LookupFails? else l.Key() in v
  }

  /** Positions taken in by the first n logs of a block. */
  ghost function TakenFirst(v: View, logs: seq<Log>, ws: seq<Weather>, base: nat, n: nat): set<nat>
    requires n <= |logs| == |ws|
  {
    if n == 0 then {}
    else
      var before := HandleFirst(v, logs, ws, n - 1);
      TakenFirst(v, logs, ws, base, n - 1)
      + if before.Some? && Takes(before.value, logs[n - 1], ws[n - 1]) then {base + n - 1} else {}
  }

  /** Positions a step takes in for good. */
  ghost function TakenBy(chain: seq<seq<Log>>, n: Node, s: Step): set<nat> {
    if s.Commits() && Attempt(chain, n, s.ws).Some?
    then TakenFirst(n.view, chain[n.latest], s.ws, Base(chain, n.latest), |s.ws|)
    else {}
  }

  /** The positions of the logs that the committed attempts among the first m steps have taken in. */
  ghost function TakenAt(chain: seq<seq<Log>>, steps: seq<Step>, m: nat): set<nat>
    requires m <= |steps|
  {
    if m == 0 then {}
    else
      var n := RunAt(chain, START, steps, m - 1);
      TakenAt(chain, steps, m - 1) + if n.Some? then TakenBy(chain, n.value, steps[m - 1]) else {}
  }

  ghost function Taken(chain: seq<seq<Log>>, steps: seq<Step>): set<nat> { TakenAt(chain, steps, |steps|) }

  /** Every indexed log before a position has been taken in. */
  ghost predicate AllTaken(logs: seq<Log>, taken: set<nat>, n: nat)
    requires n <= |logs|
  {
    forall p: nat :: p < n && Indexed(logs[p]) ==> p in taken
  }

  /** Rounds with something to index that the first m steps have stepped over. */
  ghost function SkippedAt(chain: seq<seq<Log>>, steps: seq<Step>, m: nat): set<nat>
    requires m <= |steps|
  {
    if m == 0 then {}
    else
      var n := RunAt(chain, START, steps, m - 1);
      SkippedAt(chain, steps, m - 1)
      + if n.Some? && steps[m - 1].Skipped? && n.value.latest < |chain| && !Silent(chain[n.value.latest])
        then {n.value.latest} else {}
  }

  ghost predicate SkipsSilent(chain: seq<seq<Log>>, steps: seq<Step>) { SkippedAt(chain, steps, |steps|) == {} }

  /** No restart goes back over a round with something to index that was stepped over. */
  ghost predicate NeverBack(chain: seq<seq<Log>>, steps: seq<Step>) {
    forall m: nat :: m <= |steps| && RunAt(chain, START, steps, m).Some? ==>
      forall b :: b in SkippedAt(chain, steps, m) ==> b < RunAt(chain, START, steps, m).value.latest
  }

  predicate SameToken(logs: seq<Log>, p: nat, q: nat) {
    p < |logs| && q < |logs| && logs[p].Key() == logs[q].Key()
  }

  /** Whatever step m takes in for the first time comes after all that was taken in of its token. */
  ghost predicate TakesOnwards(chain: seq<seq<Log>>, steps: seq<Step>, m: nat)
    requires m < |steps|
  {
    var before, after := TakenAt(chain, steps, m), TakenAt(chain, steps, m + 1);
    forall p, q | p in before && q in after && q !in before :: SameToken(All(chain), p, q) ==> p < q
  }

  /** The logs of each token are taken in in their own order, possibly with gaps. */
  ghost predicate InOrder(chain: seq<seq<Log>>, steps: seq<Step>) {
    forall m: nat :: m < |steps| ==> TakesOnwards(chain, steps, m)
  }
}
