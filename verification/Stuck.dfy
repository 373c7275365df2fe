/**
  Blocks that no attempt gets past.
 */
module Stuck {
  import opened Wrappers
  import opened Chain
  import opened Ledger
  import opened Refinement
  import opened Runs
  import opened Replay
  import opened Delivery

  /** With the calls answering, the next block of a reachable follower fails exactly if it takes in a
      log that cannot be followed: a draft without an answer, or a completion without such a draft. */
  lemma NextBlockFailsIff(chain: seq<seq<Log>>, steps: seq<Step>, ws: seq<Weather>)
    requires Possible(All(chain)) && Run(chain, START, steps).Some? && SkipsSilent(chain, steps)
    requires var n := Run(chain, START, steps).value; n.latest < |chain| && |ws| == |chain[n.latest]|
    requires forall i :: 0 <= i < |ws| ==> !ws[i].CallFails?
    ensures
      var n := Run(chain, START, steps).value;
      && IsBlockAt(chain[n.latest], All(chain), Base(chain, n.latest))
      && (Attempt(chain, n, ws).None? <==>
          Unfollowed(n.view, All(chain), Base(chain, n.latest), chain[n.latest], ws, |ws|))
  {
    hide Possible, Flat, RunAt, TakenAt, SkippedAt, Tracks, Complete, Sourced, SentHome, ReadyFirst, Unfollowed;
    var n := Run(chain, START, steps).value;
    var taken := Taken(chain, steps);
    BlockAtBase(chain, n.latest);
    SilentTracked(chain, steps, |steps|);
    PossibleParts(All(chain));
    RunSourced(chain, steps, |steps|);
    BlockComplete(n.view, All(chain), taken, Base(chain, n.latest), chain[n.latest], ws, |ws|);
    BlockTracked(n.view, All(chain), taken, Base(chain, n.latest), chain[n.latest], ws, |ws|);
  }

  /** So over a legal history no follower is ever blocked for want of a row. */
  lemma NextBlockCommits(chain: seq<seq<Log>>, steps: seq<Step>, ws: seq<Weather>)
    requires Legal(All(chain)) && Run(chain, START, steps).Some? && SkipsSilent(chain, steps)
    requires var n := Run(chain, START, steps).value; n.latest < |chain| && |ws| == |chain[n.latest]|
    requires forall i :: 0 <= i < |ws| ==> !ws[i].CallFails?
    ensures Attempt(chain, Run(chain, START, steps).value, ws).Some?
  {
    hide Possible, Flat, RunAt, SkippedAt, FollowedAt;
    NextBlockFailsIff(chain, steps, ws);
  }

  lemma {:induction false} KeysFromMints(v: View, block: seq<Log>, ws: seq<Weather>, i: nat, n: nat)
    requires i <= n <= |block| == |ws|
    requires SentHome(block)
    ensures
      var r := HandleFirst(v, block, ws, n);
      r.Some? ==>
        && HandleFirst(v, block, ws, i).Some?
        && forall k :: k in r.value && k !in HandleFirst(v, block, ws, i).value ==>
             exists j :: i <= j < n && block[j].event.Mint? && block[j].Key() == k
  {
    hide Handle, Takes;
    if i < n {
      KeysFromMints(v, block, ws, i, n - 1);
      var before := HandleFirst(v, block, ws, n - 1);
      if before.Some? { HandleEffect(before.value, block[n - 1], ws[n - 1]); }
    }
  }

  /** A log that cannot be followed is taken in by no attempt that commits. */
  lemma UnfollowedNotTaken(v: View, logs: seq<Log>, taken: set<nat>, base: nat, block: seq<Log>, ws: seq<Weather>,
          i: nat)
    requires Possible(logs) && Tracks(v, logs, taken) && i < |block| == |ws| && IsBlockAt(block, logs, base)
    requires ReadyFirst(v, logs, taken, base, block, ws, |block|) && !FollowedAt(logs, base + i)
    requires HandleFirst(v, block, ws, i + 1).Some?
    ensures !TakesAt(v, block, ws, i)
  {
    hide Possible, Tracks, Ready, Handle, FollowedAt, Takes;
    assert ReadyAt(v, logs, taken, base, block, ws, i);
    BlockTracked(v, logs, taken, base, block, ws, i);
    LogTracked(HandleFirst(v, block, ws, i).value, logs, taken + TakenFirst(v, block, ws, base, i), base + i, ws[i]);
  }

  lemma BlockIsHome(logs: seq<Log>, base: nat, block: seq<Log>)
    requires SentHome(logs) && IsBlockAt(block, logs, base)
    ensures SentHome(block)
  {
    forall i | 0 <= i < |block| && (block[i].event.Mint? || block[i].event.TransferInit?)
      ensures block[i].txTo == block[i].address
    {
      assert logs[base + i] == block[i];
    }
  }

  /** ... so the log's token is missing from the tables, before and after. */
  lemma UnfollowedAbsent(v: View, logs: seq<Log>, taken: set<nat>, base: nat, block: seq<Log>, ws: seq<Weather>, i: nat)
    requires Possible(logs) && Tracks(v, logs, taken) && i < |block| == |ws| && IsBlockAt(block, logs, base)
    requires ReadyFirst(v, logs, taken, base, block, ws, |block|) && !FollowedAt(logs, base + i)
    requires HandleAll(v, block, ws).Some?
    ensures block[i].Key() !in v && block[i].Key() !in HandleAll(v, block, ws).value
  {
    hide Possible, Tracks, FollowedAt, Handle, SentHome, ReadyFirst, HandleFirst, TakenFirst;
    var k := block[i].Key();
    if HandleFirst(v, block, ws, i + 1).None? { StuckStays(v, block, ws, i + 1, |block|); }
    if HandleFirst(v, block, ws, i).None? { StuckStays(v, block, ws, i, |block|); }
    UnfollowedNotTaken(v, logs, taken, base, block, ws, i);
    UnfollowedKind(logs, base + i);
    PossibleParts(logs);
    BlockIsHome(logs, base, block);
    BlockPresent(v, block, ws, base, i);
    KeysFromMints(v, block, ws, i, |block|);
    assert k !in HandleFirst(v, block, ws, i).value;
    if k in HandleAll(v, block, ws).value {
      var j :| i <= j < |block| && block[j].event.Mint? && block[j].Key() == k;
      MintFirst(logs, base + j, base + i);
    }
  }

  ghost predicate Unfollowable(chain: seq<seq<Log>>, b: nat, i: nat) {
    && b < |chain| && i < |chain[b]| && Base(chain, b) + i < |All(chain)|
    && !FollowedAt(All(chain), Base(chain, b) + i)
  }

  /** No attempt at a block with a log that cannot be followed commits while the log's token is in the
      tables: an attempt that commits leaves the token out. */
  lemma {:induction false} NoAttemptCommits(chain: seq<seq<Log>>, steps: seq<Step>, m: nat, ws: seq<Weather>, i: nat)
    requires Possible(All(chain)) && m <= |steps| && RunAt(chain, START, steps, m).Some?
    requires SkippedAt(chain, steps, m) == {}
    requires Unfollowable(chain, RunAt(chain, START, steps, m).value.latest, i)
    ensures
      var n := RunAt(chain, START, steps, m).value;
      var v := Attempt(chain, n, ws);
      v.Some? ==> chain[n.latest][i].Key() !in v.value && chain[n.latest][i].Key() !in n.view
  {
    hide Possible, Flat, RunAt, TakenAt, SkippedAt, Tracks, Complete, Sourced, SentHome, ReadyFirst, FollowedAt;
    hide HandleAll;
    var n := RunAt(chain, START, steps, m).value;
    if Attempt(chain, n, ws).Some? {
      var base, block := Base(chain, n.latest), chain[n.latest];
      BlockAtBase(chain, n.latest);
      SilentTracked(chain, steps, m);
      PossibleParts(All(chain));
      RunSourced(chain, steps, m);
      BlockComplete(n.view, All(chain), TakenAt(chain, steps, m), base, block, ws, |block|);
      UnfollowedAbsent(n.view, All(chain), TakenAt(chain, steps, m), base, block, ws, i);
    }
  }

  lemma UnfollowedKind(logs: seq<Log>, p: nat)
    requires Possible(logs) && p < |logs| && !FollowedAt(logs, p)
    ensures Indexed(logs[p]) && !logs[p].event.Mint?
  {
    hide Possible, StateAt;
    Emitted(logs, p);
  }

  /** A follower that holds the token when it comes to such a block stays before that block for good,
      whatever it does. */
  lemma {:induction false} StuckForever(chain: seq<seq<Log>>, steps: seq<Step>, start: nat, m: nat, b: nat, i: nat)
    requires Possible(All(chain)) && start <= m <= |steps| && RunAt(chain, START, steps, m).Some?
    requires SkippedAt(chain, steps, m) == {}
    requires Unfollowable(chain, b, i)
    requires RunAt(chain, START, steps, start).Some?
    requires var n := RunAt(chain, START, steps, start).value; n.latest <= b && chain[b][i].Key() in n.view
    ensures var n := RunAt(chain, START, steps, m).value; n.latest <= b && chain[b][i].Key() in n.view
  {
    hide Possible, Flat, FollowedAt, RunAt, SkippedAt;
    if start < m {
      SkippedGrows(chain, steps, m - 1, m);
      RunExists(chain, START, steps, m - 1, m);
      StuckForever(chain, steps, start, m - 1, b, i);
      StuckStep(chain, steps, m - 1, b, i);
    }
  }

  lemma StuckStep(chain: seq<seq<Log>>, steps: seq<Step>, m: nat, b: nat, i: nat)
    requires Possible(All(chain)) && m < |steps| && RunAt(chain, START, steps, m + 1).Some?
    requires SkippedAt(chain, steps, m + 1) == {}
    requires RunAt(chain, START, steps, m).Some? && SkippedAt(chain, steps, m) == {}
    requires Unfollowable(chain, b, i)
    requires var n := RunAt(chain, START, steps, m).value; n.latest <= b && chain[b][i].Key() in n.view
    ensures var n := RunAt(chain, START, steps, m + 1).value; n.latest <= b && chain[b][i].Key() in n.view
  {
    hide Possible, Flat, FollowedAt, HandleFirst, TakenAt, SentHome;
    RunBounds(chain, steps, m);
    var n := RunAt(chain, START, steps, m).value;
    match steps[m]
    case Failed =>
    case Restarted =>
    case Skipped(_) =>
      BlockHere(chain, b);
      UnfollowedKind(All(chain), Base(chain, b) + i);
    case Committed(ws, _) => StuckCommit(chain, steps, m, ws, b, i);
    case Unacknowledged(ws) => StuckCommit(chain, steps, m, ws, b, i);
  }

  lemma StuckCommit(chain: seq<seq<Log>>, steps: seq<Step>, m: nat, ws: seq<Weather>, b: nat, i: nat)
    requires Possible(All(chain)) && m <= |steps| && RunAt(chain, START, steps, m).Some?
    requires SkippedAt(chain, steps, m) == {}
    requires Unfollowable(chain, b, i)
    requires var n := RunAt(chain, START, steps, m).value; n.latest <= b && chain[b][i].Key() in n.view
    requires Attempt(chain, RunAt(chain, START, steps, m).value, ws).Some?
    ensures var n := RunAt(chain, START, steps, m).value;
      n.latest < b && chain[b][i].Key() in Attempt(chain, n, ws).value
  {
    hide Possible, Flat, FollowedAt, HandleFirst, TakenFirst, SentHome, RunAt, SkippedAt;
    var n := RunAt(chain, START, steps, m).value;
    PossibleParts(All(chain));
    BlockHome(chain, n.latest);
    BlockPresent(n.view, chain[n.latest], ws, Base(chain, n.latest), |ws|);
    if n.latest == b { NoAttemptCommits(chain, steps, m, ws, i); }
  }
}
