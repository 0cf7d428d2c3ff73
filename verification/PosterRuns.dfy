/** What every run of the client against an adversarial network and chain guarantees. */
module PosterRuns {
  import opened Types
  import opened PricePoster

  // ---------- one transaction ----------

  /** The transactions of the client: at most one vote, always followed by one prevote. */
  ghost predicate WellShaped(msgs: seq<Msg>, validator: string) {
    || (|msgs| == 1 && msgs[0].PrevoteMsg?)
    || (|msgs| == 2 && msgs[0].VoteMsg? && msgs[0].validator == validator && msgs[1].PrevoteMsg?)
  }

  function AddPrevote(c: Chain, hash: VoteHash): Chain {
    c.(stored := Some(|c.prevotes|), prevotes := c.prevotes + [hash])
  }

  lemma DeliverPrevote(c: Chain, hash: VoteHash)
    ensures Deliver(c, [PrevoteMsg(hash)]) == AddPrevote(c, hash)
  {
    assert ExecuteAll(AddPrevote(c, hash), [PrevoteMsg(hash)][1..]) == Some(AddPrevote(c, hash));
  }

  lemma DeliverVote(c: Chain, v: Msg, hash: VoteHash)
    requires v.VoteMsg?
    ensures ExecuteAll(c, [v, PrevoteMsg(hash)]).Some? <==> StoredHash(c) == Some(VoteHash(v.salt, v.vote, v.validator))
    ensures Deliver(c, [v, PrevoteMsg(hash)]) ==
              if StoredHash(c) == Some(VoteHash(v.salt, v.vote, v.validator))
              then AddPrevote(c.(accepted := c.accepted + [AcceptedVote(c.stored.value, v.salt, v.vote)]), hash)
              else c
  {
    assert [v, PrevoteMsg(hash)][1..] == [PrevoteMsg(hash)];
    if Execute(c, v).Some? {
      DeliverPrevote(Execute(c, v).value, hash);
      assert [PrevoteMsg(hash)][1..] == [];
    }
  }

  /** Reveal before commit: against an unchanged chain the client's transaction is always accepted, and it leaves
      the new prevote stored; it reveals exactly when the remembered prevote is the stored one. */
  lemma RevealThenCommitAccepted(c: Chain, previous: Option<Prevote>, next: Prevote, validator: string)
    requires previous.Some? ==> previous.value == MakePrevote(previous.value.salt, previous.value.vote, validator)
    ensures var msgs := Transaction(next, previous, StoredHash(c), validator);
            && ExecuteAll(c, msgs).Some?
            && StoredHash(Deliver(c, msgs)) == Some(next.hash)
            && Deliver(c, msgs).prevotes == c.prevotes + [next.hash]
            && Deliver(c, msgs).accepted == c.accepted +
                 if previous.Some? && StoredHash(c) == Some(previous.value.hash)
                 then [AcceptedVote(c.stored.value, previous.value.salt, previous.value.vote)] else []
  {
    DeliverPrevote(c, next.hash);
    assert [PrevoteMsg(next.hash)][1..] == [];
    var msgs := Transaction(next, previous, StoredHash(c), validator);
    if previous.Some? && StoredHash(c) == Some(previous.value.hash) {
      var v := VoteMsg(previous.value.salt, previous.value.vote, validator);
      assert msgs == [v, PrevoteMsg(next.hash)];
      DeliverVote(c, v, next.hash);
    } else {
      assert msgs == [PrevoteMsg(next.hash)];
    }
  }

  /** The other order is rejected whenever the new prevote differs from the one to be revealed. */
  lemma CommitThenRevealRejected(c: Chain, v: Msg, hash: VoteHash)
    requires v.VoteMsg?
    ensures ExecuteAll(c, [PrevoteMsg(hash), v]).Some? <==> hash == VoteHash(v.salt, v.vote, v.validator)
  {
    assert [PrevoteMsg(hash), v][1..] == [v];
    var d := AddPrevote(c, hash);
    assert Execute(c, PrevoteMsg(hash)) == Some(d);
    assert StoredHash(d) == Some(hash);
    assert [v][1..] == [];
    assert ExecuteAll(d, [v]).Some? <==> Execute(d, v).Some?;
  }

  // ---------- safety over every run ----------

  /** A call of the run committed to this content. */
  ghost predicate Committed(events: seq<Event>, salt: string, vote: Vote) {
    exists j :: 0 <= j < |events| && events[j].Call? && events[j].salt == salt && events[j].vote == vote
  }

  ghost predicate VoteCommitted(events: seq<Event>, m: Msg) {
    m.VoteMsg? ==> Committed(events, m.salt, m.vote)
  }

  /** Only the latest landed prevote can be stored, and every accepted vote opened an earlier one, each its own. */
  ghost predicate ChainOk(c: Chain, validator: string) {
    && (c.stored.Some? ==> c.stored.value == |c.prevotes| - 1)
    && (forall k :: 0 <= k < |c.accepted| ==>
          c.accepted[k].target < |c.prevotes| - 1
          && c.prevotes[c.accepted[k].target] == VoteHash(c.accepted[k].salt, c.accepted[k].vote, validator))
    && (forall i, j :: 0 <= i < j < |c.accepted| ==> c.accepted[i].target < c.accepted[j].target)
  }

  ghost predicate PendingOk(pending: seq<seq<Msg>>, events: seq<Event>, validator: string) {
    forall i :: 0 <= i < |pending| ==> WellShaped(pending[i], validator) && VoteCommitted(events, pending[i][0])
  }

  ghost predicate PreviousOk(previous: Option<Prevote>, events: seq<Event>, validator: string) {
    previous.Some? ==>
      && previous.value == MakePrevote(previous.value.salt, previous.value.vote, validator)
      && Committed(events, previous.value.salt, previous.value.vote)
  }

  ghost predicate RevealsCommitted(c: Chain, events: seq<Event>) {
    forall k :: 0 <= k < |c.accepted| ==> Committed(events, c.accepted[k].salt, c.accepted[k].vote)
  }

  ghost predicate Inv(s: System, events: seq<Event>, validator: string) {
    && ChainOk(s.chain, validator)
    && PendingOk(s.pending, events, validator)
    && PreviousOk(s.previous, events, validator)
    && RevealsCommitted(s.chain, events)
  }

  /** A freshly started client. The chain and the transactions still in the network may stem from earlier lives. */
  ghost predicate Start(s: System, earlier: seq<Event>, validator: string) {
    && s.previous == None
    && ChainOk(s.chain, validator)
    && PendingOk(s.pending, earlier, validator)
    && RevealsCommitted(s.chain, earlier)
  }

  /** Before any life: nothing landed, nothing under way. */
  const GENESIS: System := System(Chain(None, [], []), [], None)

  /** From c to d at most one vote was accepted, and it opened the prevote that landed last before it. */
  ghost predicate OpensOnlyLatest(c: Chain, d: Chain) {
    || d.accepted == c.accepted
    || (|d.accepted| == |c.accepted| + 1 && c.accepted <= d.accepted
        && d.accepted[|c.accepted|].target == |c.prevotes| - 1)
  }

  /** The vote, if any, that a transaction makes the chain accept opens the prevote that landed last before it. */
  lemma DeliverKeeps(c: Chain, msgs: seq<Msg>, events: seq<Event>, validator: string)
    requires ChainOk(c, validator) && RevealsCommitted(c, events)
    requires WellShaped(msgs, validator) && VoteCommitted(events, msgs[0])
    ensures var d := Deliver(c, msgs);
            && ChainOk(d, validator) && RevealsCommitted(d, events)
            && OpensOnlyLatest(c, d)
  {
    if |msgs| == 1 {
      assert msgs == [PrevoteMsg(msgs[0].hash)];
      DeliverPrevote(c, msgs[0].hash);
    } else {
      assert msgs == [msgs[0], PrevoteMsg(msgs[1].hash)];
      DeliverVote(c, msgs[0], msgs[1].hash);
    }
  }

  lemma CommittedGrows(events: seq<Event>, e: Event, salt: string, vote: Vote)
    ensures Committed(events, salt, vote) ==> Committed(events + [e], salt, vote)
    ensures e.Call? && e.salt == salt && e.vote == vote ==> Committed(events + [e], salt, vote)
  {
    if Committed(events, salt, vote) {
      var j :| 0 <= j < |events| && events[j].Call? && events[j].salt == salt && events[j].vote == vote;
      assert (events + [e])[j] == events[j];
    }
    assert (events + [e])[|events|] == e;
  }

  lemma InvGrows(s: System, events: seq<Event>, e: Event, validator: string)
    requires Inv(s, events, validator)
    ensures Inv(s, events + [e], validator)
  {
    forall salt, vote | Committed(events, salt, vote) ensures Committed(events + [e], salt, vote) {
      CommittedGrows(events, e, salt, vote);
    }
  }

  lemma StepKeepsInv(s: System, e: Event, events: seq<Event>, validator: string)
    requires Inv(s, events, validator)
    ensures Inv(Apply(s, e, validator), events + [e], validator)
    ensures var c, d := s.chain, Apply(s, e, validator).chain;
            OpensOnlyLatest(c, d)
  {
    InvGrows(s, events, e, validator);
    var after := events + [e];
    match e {
      case Expire =>
      case LateLanding(i) =>
        if i < |s.pending| {
          DeliverKeeps(s.chain, s.pending[i], after, validator);
        }
      case Call(salt, vote, reply, outcome) =>
        CommittedGrows(events, e, salt, vote);
        var msgs := Transaction(MakePrevote(salt, vote, validator), s.previous, Answer(s.chain, reply), validator);
        assert WellShaped(msgs, validator) && VoteCommitted(after, msgs[0]);
        DeliverKeeps(s.chain, msgs, after, validator);
    }
  }

  lemma {:induction false} RunKeepsInv(s: System, earlier: seq<Event>, events: seq<Event>, validator: string)
    requires Start(s, earlier, validator)
    ensures Inv(Run(s, events, validator), earlier + events, validator)
  {
    if events == [] {
      assert earlier + events == earlier;
    } else {
      var init, e := events[..|events| - 1], events[|events| - 1];
      RunKeepsInv(s, earlier, init, validator);
      StepKeepsInv(Run(s, init, validator), e, earlier + init, validator);
      assert earlier + events == earlier + init + [e];
    }
  }

  /** A client restarted at any moment forgets its prevote and finds a start state again. */
  lemma RestartIsStart(s: System, earlier: seq<Event>, events: seq<Event>, validator: string)
    ensures Start(GENESIS, [], validator)
    ensures Start(s, earlier, validator) ==> Start(Run(s, events, validator).(previous := None), earlier + events, validator)
  {
    if Start(s, earlier, validator) {
      RunKeepsInv(s, earlier, events, validator);
    }
  }

  /** Whatever fails, lands late, expires or is misreported: every accepted vote opens exactly the content of a
      prevote that had landed, namely content a client of the validator committed to, and none is opened twice. */
  lemma RevealsAreFaithful(s: System, earlier: seq<Event>, events: seq<Event>, validator: string)
    requires Start(s, earlier, validator)
    ensures var c := Run(s, events, validator).chain;
            && (forall k :: 0 <= k < |c.accepted| ==>
                  && c.accepted[k].target < |c.prevotes|
                  && c.prevotes[c.accepted[k].target] == VoteHash(c.accepted[k].salt, c.accepted[k].vote, validator)
                  && Committed(earlier + events, c.accepted[k].salt, c.accepted[k].vote))
            && (forall i, j :: 0 <= i < j < |c.accepted| ==> c.accepted[i].target < c.accepted[j].target)
  {
    RunKeepsInv(s, earlier, events, validator);
  }

  lemma AcceptedCommitted(s: System, earlier: seq<Event>, events: seq<Event>, validator: string, v: AcceptedVote)
    requires Start(s, earlier, validator) && v in Run(s, events, validator).chain.accepted
    ensures Committed(earlier + events, v.salt, v.vote)
  {
    RevealsAreFaithful(s, earlier, events, validator);
    var c := Run(s, events, validator).chain;
    var k :| 0 <= k < |c.accepted| && c.accepted[k] == v;
  }

  /** At the moment a vote is accepted, the prevote it opens is the latest one that has landed. */
  lemma RevealOpensLatest(s: System, earlier: seq<Event>, events: seq<Event>, e: Event, validator: string)
    requires Start(s, earlier, validator)
    ensures var c, d := Run(s, events, validator).chain, Run(s, events + [e], validator).chain;
            OpensOnlyLatest(c, d)
  {
    RunKeepsInv(s, earlier, events, validator);
    StepKeepsInv(Run(s, events, validator), e, earlier + events, validator);
    assert (events + [e])[..|events|] == events;
  }

  // ---------- recovery and loss ----------

  /** The remembered prevote is the one the chain stores. */
  predicate Synced(s: System) {
    s.previous.Some? && StoredHash(s.chain) == Some(s.previous.value.hash)
  }

  predicate FaultFree(e: Event) {
    e.Call? && e.reply == Honest && e.outcome == Outcome(true, true)
  }

  ghost predicate RemembersOwn(s: System, validator: string) {
    s.previous.Some? ==> s.previous.value == MakePrevote(s.previous.value.salt, s.previous.value.vote, validator)
  }

  /** A fault-free call synchronises from any state, and reveals the remembered prices exactly if it started
      synchronised. */
  lemma FaultFreeCall(s: System, e: Event, validator: string)
    requires FaultFree(e) && RemembersOwn(s, validator)
    ensures var t := Apply(s, e, validator);
            && Synced(t) && t.previous == Some(MakePrevote(e.salt, e.vote, validator)) && t.pending == s.pending
            && t.chain.prevotes == s.chain.prevotes + [VoteHash(e.salt, e.vote, validator)]
            && t.chain.accepted == s.chain.accepted +
                 if Synced(s) then [AcceptedVote(s.chain.stored.value, s.previous.value.salt, s.previous.value.vote)] else []
  {
    RevealThenCommitAccepted(s.chain, s.previous, MakePrevote(e.salt, e.vote, validator), validator);
  }

  /** The query claims that the chain stores the remembered prevote although it does not. */
  ghost predicate Misled(s: System, e: Event)
    requires e.Call?
  {
    && s.previous.Some?
    && Answer(s.chain, e.reply) == Some(s.previous.value.hash)
    && StoredHash(s.chain) != Some(s.previous.value.hash)
  }

  /** One delivered and acknowledged call makes the client and the chain agree from any disagreement, even if its
      query failed or returned another hash. The one exception is a query that vouches for the remembered prevote
      falsely: then the chain rejects the whole transaction, and they only agree if it already stored the new hash. */
  lemma DeliveredCallSynchronises(s: System, e: Event, validator: string)
    requires e.Call? && e.outcome == Outcome(true, true) && RemembersOwn(s, validator)
    ensures var next := VoteHash(e.salt, e.vote, validator);
            Synced(Apply(s, e, validator)) <==> (!Misled(s, e) || StoredHash(s.chain) == Some(next))
    ensures Misled(s, e) ==> Apply(s, e, validator).chain == s.chain
  {
    LandedEffect(s, e, validator);
  }

  /** Such a query is possible: the prevote of a landed call has expired, and the query still reports it. */
  lemma MisledClient(s: System, a: Event, b: Event, validator: string)
    requires FaultFree(a) && RemembersOwn(s, validator)
    requires b.Call? && b.outcome == Outcome(true, true) && b.reply == Stale(VoteHash(a.salt, a.vote, validator))
    ensures var t := Run(s, [a] + [Expire], validator);
            Misled(t, b) && !Synced(Apply(t, b, validator))
  {
    FaultFreeCall(s, a, validator);
    RunOfTwo(s, a, Expire, validator);
    LandedEffect(Run(s, [a] + [Expire], validator), b, validator);
  }

  lemma RunOfTwo(s: System, a: Event, b: Event, validator: string)
    ensures Run(s, [a] + [b], validator) == Apply(Apply(s, a, validator), b, validator)
  {
    assert [a][..0] == [];
    assert Run(s, [a], validator) == Apply(s, a, validator);
    RunSnoc(s, [a], b, validator);
  }

  /** A broadcast that lands late, with nothing in between, has the effect of one that lands at once. */
  lemma LateLandingIsLanding(s: System, e: Event, validator: string)
    requires e.Call? && !e.outcome.landed
    ensures Run(s, [e] + [LateLanding(|s.pending|)], validator)
         == Apply(s, e.(outcome := Outcome(e.outcome.acknowledged, true)), validator)
  {
    RunOfTwo(s, e, LateLanding(|s.pending|), validator);
    var pending := Apply(s, e, validator).pending;
    assert pending[..|s.pending|] + pending[|s.pending| + 1..] == s.pending;
  }

  /** Self-healing: after any state, two fault-free calls in a row end with the first call's prices revealed. */
  lemma SelfHealing(s: System, first: Event, second: Event, validator: string)
    requires FaultFree(first) && FaultFree(second) && RemembersOwn(s, validator)
    ensures var mid := Apply(s, first, validator);
            Apply(mid, second, validator).chain.accepted ==
              mid.chain.accepted + [AcceptedVote(|s.chain.prevotes|, first.salt, first.vote)]
  {
    FaultFreeCall(s, first, validator);
    FaultFreeCall(Apply(s, first, validator), second, validator);
    FirstStored(s, first, validator);
  }

  lemma FirstStored(s: System, e: Event, validator: string)
    requires FaultFree(e) && RemembersOwn(s, validator)
    ensures Apply(s, e, validator).chain.stored == Some(|s.chain.prevotes|)
  {
    var next := MakePrevote(e.salt, e.vote, validator);
    var msgs := Transaction(next, s.previous, StoredHash(s.chain), validator);
    DeliverPrevote(s.chain, next.hash);
    if Synced(s) {
      var v := VoteMsg(s.previous.value.salt, s.previous.value.vote, validator);
      assert msgs == [v, PrevoteMsg(next.hash)];
      DeliverVote(s.chain, v, next.hash);
    } else {
      assert msgs == [PrevoteMsg(next.hash)];
    }
  }

  function Contents(votes: seq<AcceptedVote>): seq<(string, Vote)> {
    seq(|votes|, i requires 0 <= i < |votes| => (votes[i].salt, votes[i].vote))
  }

  ghost predicate AllFaultFree(events: seq<Event>) {
    forall i :: 0 <= i < |events| ==> events[i].Call? && FaultFree(events[i])
  }

  ghost function Commitments(events: seq<Event>): seq<(string, Vote)>
    requires AllFaultFree(events)
  {
    seq(|events|, i requires 0 <= i < |events| => (events[i].salt, events[i].vote))
  }

  /** A stretch of fault-free calls after any history reveals, in order and without a gap, the commitments of all of
      its calls but the last. */
  lemma {:induction false} FaultFreeStretch(s: System, events: seq<Event>, validator: string)
    requires events != [] && AllFaultFree(events) && RemembersOwn(s, validator)
    ensures var first, last := Apply(s, events[0], validator), Run(s, events, validator);
            && Synced(last)
            && last.previous == Some(MakePrevote(events[|events| - 1].salt, events[|events| - 1].vote, validator))
            && Contents(last.chain.accepted) == Contents(first.chain.accepted) + Commitments(events[..|events| - 1])
  {
    var init, e := events[..|events| - 1], events[|events| - 1];
    if init == [] {
      assert Run(s, init, validator) == s;
      FaultFreeCall(s, e, validator);
    } else {
      FaultFreeStretch(s, init, validator);
      var t, p := Run(s, init, validator), init[|init| - 1];
      FaultFreeCall(t, e, validator);
      assert Run(s, events, validator) == Apply(t, e, validator);
      assert Contents(Apply(t, e, validator).chain.accepted) == Contents(t.chain.accepted) + [(p.salt, p.vote)];
      assert Commitments(init) == Commitments(init[..|init| - 1]) + [(p.salt, p.vote)];
    }
  }

  function Calls(events: seq<Event>): nat {
    if events == [] then 0
    else Calls(events[..|events| - 1]) + if events[|events| - 1].Call? then 1 else 0
  }

  /** How many reveals an event can cost: a call whose query does not answer truthfully costs its own; so do a
      broadcast that is refused for good and one that lands unacknowledged; an acknowledged broadcast that does not
      land costs the next one too; an expiry or a late landing costs one. */
  function Cost(e: Event): nat {
    match e
    case Call(_, _, reply, outcome) =>
      (if reply.Honest? then 0 else 1)
      + if outcome.acknowledged == outcome.landed then (if outcome.landed then 0 else 1)
        else if outcome.acknowledged then 2 else 1
    case Expire => 1
    case LateLanding(_) => 1
  }

  function Costs(events: seq<Event>): nat {
    if events == [] then 0 else Costs(events[..|events| - 1]) + Cost(events[|events| - 1])
  }

  function Debt(s: System): nat { if Synced(s) then 0 else 1 }

  /** One call moves the balance of reveals and synchrony by no more than its cost. */
  lemma CallBalance(s: System, e: Event, events: seq<Event>, validator: string)
    requires Inv(s, events, validator) && e.Call?
    ensures var t := Apply(s, e, validator);
            1 + Debt(t) + |s.chain.accepted| <= |t.chain.accepted| + Debt(s) + Cost(e)
  {
    StepKeepsInv(s, e, events, validator);
    if e.outcome.landed {
      LandedEffect(s, e, validator);
    }
  }

  /** What the chain makes of a landed call. */
  lemma LandedEffect(s: System, e: Event, validator: string)
    requires e.Call? && e.outcome.landed && RemembersOwn(s, validator)
    ensures var t := Apply(s, e, validator);
            if Misled(s, e) then t.chain == s.chain
            else StoredHash(t.chain) == Some(VoteHash(e.salt, e.vote, validator))
                 && (e.reply == Honest && Synced(s) ==> |t.chain.accepted| == |s.chain.accepted| + 1)
  {
    var next := MakePrevote(e.salt, e.vote, validator);
    var msgs := Transaction(next, s.previous, Answer(s.chain, e.reply), validator);
    DeliverPrevote(s.chain, next.hash);
    if s.previous.Some? && Answer(s.chain, e.reply) == Some(s.previous.value.hash) {
      var v := VoteMsg(s.previous.value.salt, s.previous.value.vote, validator);
      assert msgs == [v, PrevoteMsg(next.hash)];
      DeliverVote(s.chain, v, next.hash);
    } else {
      assert msgs == [PrevoteMsg(next.hash)];
    }
  }

  lemma {:induction false} LossInvariant(s: System, earlier: seq<Event>, events: seq<Event>, validator: string)
    requires Start(s, earlier, validator)
    ensures var t := Run(s, events, validator);
            Calls(events) + Debt(t) + |s.chain.accepted| <= |t.chain.accepted| + 1 + Costs(events)
  {
    if events == [] {
    } else {
      var init, e := events[..|events| - 1], events[|events| - 1];
      var t := Run(s, init, validator);
      LossInvariant(s, earlier, init, validator);
      RunKeepsInv(s, earlier, init, validator);
      StepKeepsInv(t, e, earlier + init, validator);
      if e.Call? {
        CallBalance(t, e, earlier + init, validator);
      }
    }
  }

  /** Bounded loss: over every run all calls but the first are answered by an accepted vote, except for what the
      faults cost: at most two for a broadcast that was acknowledged and did not land, and one for any other fault. */
  lemma BoundedLoss(s: System, earlier: seq<Event>, events: seq<Event>, validator: string)
    requires Start(s, earlier, validator)
    ensures |Run(s, events, validator).chain.accepted| - |s.chain.accepted| >= Calls(events) - 1 - Costs(events)
  {
    LossInvariant(s, earlier, events, validator);
  }

  lemma LostBroadcast(s: System, e: Event, validator: string)
    requires e.Call? && e.outcome == Outcome(true, false)
    requires Synced(s) && s.previous.value.hash.salt != e.salt
    ensures var t := Apply(s, e, validator);
            && !Synced(t) && RemembersOwn(t, validator)
            && t.chain == s.chain
  {}

  lemma AcceptedAfterLoss(s: System, a: Event, b: Event, c: Event, d: Event, validator: string)
    requires s.previous == None && FaultFree(a) && FaultFree(c) && FaultFree(d)
    requires b.Call? && b.reply == Honest && b.outcome == Outcome(true, false) && a.salt != b.salt
    ensures var t := Apply(Apply(Apply(Apply(s, a, validator), b, validator), c, validator), d, validator);
            |t.chain.accepted| == |s.chain.accepted| + 1
  {
    var s1 := Apply(s, a, validator);
    FaultFreeCall(s, a, validator);
    LostBroadcast(s1, b, validator);
    var s2 := Apply(s1, b, validator);
    FaultFreeCall(s2, c, validator);
    FaultFreeCall(Apply(s2, c, validator), d, validator);
  }

  lemma RunOfFour(s: System, a: Event, b: Event, c: Event, d: Event, validator: string)
    ensures Run(s, [a] + [b] + [c] + [d], validator)
         == Apply(Apply(Apply(Apply(s, a, validator), b, validator), c, validator), d, validator)
  {
    RunOfTwo(s, a, b, validator);
    RunSnoc(s, [a] + [b], c, validator);
    RunSnoc(s, [a] + [b] + [c], d, validator);
  }

  lemma CountsOfFour(s: System, a: Event, b: Event, c: Event, d: Event, validator: string)
    requires FaultFree(a) && b.Call? && FaultFree(c) && FaultFree(d)
    ensures Calls([a] + [b] + [c] + [d]) == 4 && Costs([a] + [b] + [c] + [d]) == Cost(b)
  {
    assert [a][..0] == [];
    RunSnoc(s, [a], b, validator);
    RunSnoc(s, [a] + [b], c, validator);
    RunSnoc(s, [a] + [b] + [c], d, validator);
  }

  /** The bound is tight: an acknowledged broadcast that never lands does cost two reveals. */
  lemma BoundedLossIsTight(s: System, a: Event, b: Event, c: Event, d: Event, validator: string)
    requires s.previous == None && FaultFree(a) && FaultFree(c) && FaultFree(d)
    requires b.Call? && b.reply == Honest && b.outcome == Outcome(true, false) && a.salt != b.salt
    ensures var events := [a] + [b] + [c] + [d];
            |Run(s, events, validator).chain.accepted| - |s.chain.accepted| == Calls(events) - 1 - Costs(events)
  {
    AcceptedAfterLoss(s, a, b, c, d, validator);
    RunOfFour(s, a, b, c, d, validator);
    CountsOfFour(s, a, b, c, d, validator);
  }

  lemma RunSnoc(s: System, events: seq<Event>, e: Event, validator: string)
    ensures Run(s, events + [e], validator) == Apply(Run(s, events, validator), e, validator)
    ensures Calls(events + [e]) == Calls(events) + if e.Call? then 1 else 0
    ensures Costs(events + [e]) == Costs(events) + Cost(e)
  {
    assert (events + [e])[..|events|] == events;
  }
}
