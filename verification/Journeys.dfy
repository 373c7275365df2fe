/**
  The courses a transfer can take through its statuses.
 */
module Journeys {
  import opened Wrappers
  import opened Chain
  import opened Ledger
  import opened Refinement

  /** The statuses on the way to one that does not end the transfer; `drafted` if it began as a draft. */
  function Path(drafted: bool, s: Status): seq<Status> {
    match s
    case Drafted => [Drafted]
    case Created => if drafted then [Drafted, Created] else [Created]
    case PublicKeySaved => if drafted then [Drafted, Created, PublicKeySaved] else [Created, PublicKeySaved]
    case PasswordSaved =>
      if drafted then [Drafted, Created, PublicKeySaved, PasswordSaved] else [Created, PublicKeySaved, PasswordSaved]
    case _ =>
      if drafted then [Drafted, Created, PublicKeySaved, PasswordSaved, Reported]
      else [Created, PublicKeySaved, PasswordSaved, Reported]
  }

  /** A transfer finishes after its password or after a decided fraud, and can be cancelled until a
      fraud is reported. */
  predicate EndedPath(drafted: bool, fraudApproved: bool, kinds: seq<Status>) {
    || (!fraudApproved && kinds == Path(drafted, PasswordSaved) + [Finished])
    || kinds == Path(drafted, Reported) + [Finished]
    || (!fraudApproved
        && exists s :: s in {Drafted, Created, PublicKeySaved, PasswordSaved} && (s.Drafted? ==> drafted)
                       && kinds == Path(drafted, s) + [Cancelled])
  }

  /** The last of a token's transfers may be pending, the others have ended. */
  ghost predicate Journeyed(g: TokenLedger, s: TokenState) {
    s.Held? && forall i :: 0 <= i < |g.transfers| ==>
      var t := g.transfers[i];
      if i == |g.transfers| - 1 && s.deal.Some?
      then !t.fraudApproved && Kinds(t.statuses) == Path(t.order.Some?, Phase(s.deal.value))
      else EndedPath(t.order.Some?, t.fraudApproved, Kinds(t.statuses))
  }

  lemma StampedJourney(t: Transfer, s: TokenState, e: Event, tx: Hash)
    requires s.Held? && s.deal.Some? && MirrorsDeal(t, s.deal.value)
    requires Kinds(t.statuses) == Path(t.order.Some?, Phase(s.deal.value))
    requires Follows(s, e) && StatusOf(e).Some?
    ensures
      var u := Stamped(t, e, tx);
      var after := Emit(s, e).value;
      if after.deal.Some? then !u.fraudApproved && Kinds(u.statuses) == Path(u.order.Some?, Phase(after.deal.value))
      else EndedPath(u.order.Some?, u.fraudApproved, Kinds(u.statuses))
  {
    var u := Stamped(t, e, tx);
    assert Kinds(u.statuses) == Kinds(t.statuses) + [StatusOf(e).value];
    if e.Cancellation? {
      var at := Phase(s.deal.value);
      assert at in {Drafted, Created, PublicKeySaved, PasswordSaved};
    }
  }

  lemma NextJourney(g: Option<TokenLedger>, s: TokenState, l: Log)
    requires MirrorsState(g, Some(s)) && Follows(s, l.event) && (g.Some? ==> Journeyed(g.value, s))
    ensures Next(g, l).Some? ==> Journeyed(Next(g, l).value, Emit(s, l.event).value)
  {
    hide Volume, Lockstep, EndedPath;
    if StatusOf(l.event).Some? && !l.event.TransferInit? && !l.event.TransferDraft? {
      StampedJourney(g.value.transfers[|g.value.transfers| - 1], s, l.event, l.tx);
    } else if StatusOf(l.event).Some? {
      assert Kinds(Opened(l.event, l.tx).statuses) == [StatusOf(l.event).value];
    }
  }

  /** As long as its logs can be followed, every transfer of a token has one of these histories. */
  lemma {:induction false} PassJourney(logs: seq<Log>, k: TokenKey, n: nat)
    requires Possible(logs) && n <= |logs| && FollowedUpto(logs, k, n)
    ensures PassAt(logs, k, n).Some? ==>
      StateAt(logs, k, n).Some? && Journeyed(PassAt(logs, k, n).value, StateAt(logs, k, n).value)
  {
    hide Possible, Follows, Mirrors, Emit, Next, Journeyed;
    if n > 0 {
      PassJourney(logs, k, n - 1);
      PassMirrors(logs, k, n - 1);
      if logs[n - 1].Key() == k {
        assert FollowedAt(logs, n - 1);
        NextJourney(PassAt(logs, k, n - 1), StateAt(logs, k, n - 1).value, logs[n - 1]);
      }
      PassMirrors(logs, k, n);
    }
  }

  /** Every transfer in the tables either has gone through one of the histories that end it, or is the
      token's last one and on its way. */
  lemma StatusHistories(v: View, logs: seq<Log>, k: TokenKey, i: nat)
    requires Legal(logs) && Faithful(v, logs) && k in v && i < |v[k].transfers|
    ensures
      var t := v[k].transfers[i];
      || EndedPath(t.order.Some?, t.fraudApproved, Kinds(t.statuses))
      || (i == |v[k].transfers| - 1 && !t.fraudApproved
          && exists s :: s in {Drafted, Created, PublicKeySaved, PasswordSaved, Reported}
                         && Kinds(t.statuses) == Path(t.order.Some?, s))
  {
    hide Possible, FollowedAt, PassAt, StateAt;
    assert PassAt(logs, k, |logs|) == if k in v then Some(v[k]) else None;
    PassJourney(logs, k, |logs|);
    var s := StateAt(logs, k, |logs|).value;
    if s.deal.Some? {
      var at := Phase(s.deal.value);
      assert at in {Drafted, Created, PublicKeySaved, PasswordSaved, Reported};
    }
  }
}
