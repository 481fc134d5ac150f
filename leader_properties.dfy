/**
 * What the election code guarantees, and what it does not, stated over the
 * functions of `Leader`: how one value read is decided, what a round
 * writes, and how leadership is kept and lost.
 */
module LeaderProperties {
  import opened Wrappers
  import opened CString
  import opened VoteCodec
  import opened EtcdStore
  import opened Leader

  /** A name that can stand as field 1 of a vote. */
  predicate Nominable(n: string) { n != [] && CommaFree(n) }

  // ------------------------------------------------------ one value read

  /** How a vote this code wrote itself is decided: Decide on the fields EncodeVote put in. */
  lemma DecideEncoded(n: string, state: int, fitness: int, me: string, myFitness: int)
    requires Nominable(n) && IsLong(state)
    ensures var v := EncodeVote(n, state, fitness);
            Decide(Some(v), me, myFitness) ==
              if state == CONFIRMED then Settle(n == me)
              else if state >= TENTATIVE && n != me then Wait
              else Cast(EncodeVote(me, state + 1, myFitness), Some(v))
  {
    var v := EncodeVote(n, state, fitness);
    DecodeEncode(n, state, fitness);
    DecideOnReading(Some(v), me, myFitness, false, Some(n), state, Clamp(fitness));
  }

  /** A CONFIRMED vote ends the search: this node leads exactly when it is the nominee. */
  lemma ConfirmedVoteSettles(n: string, fitness: int, me: string, myFitness: int)
    requires Nominable(n)
    ensures Decide(Some(EncodeVote(n, CONFIRMED, fitness)), me, myFitness) == Settle(n == me)
  {
    DecideEncoded(n, CONFIRMED, fitness, me, myFitness);
  }

  /** Another node's vote at TENTATIVE or above (but not CONFIRMED) makes this node wait without writing. */
  lemma RivalBidWaits(n: string, state: int, fitness: int, me: string, myFitness: int)
    requires Nominable(n) && IsLong(state) && TENTATIVE <= state && state != CONFIRMED && n != me
    ensures Decide(Some(EncodeVote(n, state, fitness)), me, myFitness) == Wait
  {
    DecideEncoded(n, state, fitness, me, myFitness);
  }

  /**
   * Otherwise the node writes its own vote one state further, conditional on
   * the exact text it read.
   */
  lemma BidAdvances(n: string, state: int, fitness: int, me: string, myFitness: int)
    requires Nominable(n) && IsLong(state) && state != CONFIRMED && (state < TENTATIVE || n == me)
    ensures var v := EncodeVote(n, state, fitness);
            Decide(Some(v), me, myFitness) == Cast(EncodeVote(me, state + 1, myFitness), Some(v))
  {
    DecideEncoded(n, state, fitness, me, myFitness);
  }

  /** A decision with the precondition of its write left out. */
  function Verdict(d: Decision): Decision
  {
    if d.Cast? then d.(precond := None) else d
  }

  /**
   * The fitness stored in the vote read plays no part in the decision: only
   * the precondition of the write, which is the text read, differs.
   */
  lemma StoredFitnessIgnored(n: string, state: int, f1: int, f2: int, me: string, myFitness: int)
    requires Nominable(n) && IsLong(state)
    ensures Verdict(Decide(Some(EncodeVote(n, state, f1)), me, myFitness))
         == Verdict(Decide(Some(EncodeVote(n, state, f2)), me, myFitness))
  {
    DecideEncoded(n, state, f1, me, myFitness);
    DecideEncoded(n, state, f2, me, myFitness);
  }

  /** This node's own fitness only travels in the vote it writes; it never changes what it does. */
  lemma OwnFitnessIgnored(text: Option<string>, me: string, g1: int, g2: int)
    ensures var d1, d2 := Decide(text, me, g1), Decide(text, me, g2);
            && d1.Cast? == d2.Cast?
            && (!d1.Cast? ==> d1 == d2)
            && (d1.Cast? ==> d1.precond == d2.precond == text)
  {
  }

  // ------------------------------------------------------------- a round

  /** A value the pattern does not match ends the round with EXIT_FAILURE and no write. */
  lemma MalformedVoteFailsRound(cell: Option<string>, me: string, myFitness: int, env: seq<EnvStep>)
    requires env != []
    requires DecodeVote(Read(Affect(cell, env[0]), !env[0].Outage?)).Malformed?
    ensures var r := Round(cell, me, myFitness, env);
            r.end == Failed && r.sent == [] && Status(r.end) == Returned(EXIT_FAILURE)
  {
  }

  /**
   * A write whose precondition the store rejects (another client got there
   * first) fails the round, and main then leaves its loop with EXIT_SUCCESS.
   */
  lemma LostRaceEndsProcess(cell: Option<string>, me: string, myFitness: int, leader: bool, env: seq<EnvStep>)
    requires |env| >= 2
    requires var seen := Affect(cell, env[0]);
             var d := Decide(Read(seen, !env[0].Outage?), me, myFitness);
             d.Cast? && SetResult(Affect(seen, env[1]), !env[1].Outage?, d.precond) != EtcdOk
    ensures var seen := Affect(cell, env[0]);
            var d := Decide(Read(seen, !env[0].Outage?), me, myFitness);
            var r := Round(cell, me, myFitness, env);
            && r.end == Failed && r.sent == [Request(d.vote, d.precond, LEADER_TTL)]
            && Lifecycle(cell, me, myFitness, leader, env) == Life(Returned(EXIT_SUCCESS), r.cell, r.sent, leader)
  {
    LifePass(cell, me, myFitness, leader, env);
  }

  /**
   * Nothing read (key absent or the cluster out of reach): the vote is
   * written without a precondition, so whatever the key held by then is
   * replaced and the round goes on from the node's own TENTATIVE vote.
   */
  lemma NothingReadWritesUnconditionally(cell: Option<string>, me: string, myFitness: int, env: seq<EnvStep>)
    requires |env| >= 2 && Read(Affect(cell, env[0]), !env[0].Outage?) == None && !env[1].Outage?
    ensures var v1 := EncodeVote(me, TENTATIVE, myFitness);
            Round(cell, me, myFitness, env) ==
              Prepend([Request(v1, None, LEADER_TTL)], Round(Some(v1), me, myFitness, env[2..]))
  {
  }

  /** A write of this client's own vote: "me,state,fitness" for some state, with the lease TTL. */
  ghost predicate OwnVote(q: Request, me: string, myFitness: int)
  {
    q.ttl == LEADER_TTL && exists state :: q.value == EncodeVote(me, state, myFitness)
  }

  /** Whoever reads this client's own vote sees it as the nominee, with its fitness. */
  lemma OwnVoteNamesNode(q: Request, me: string, myFitness: int)
    requires Nominable(me) && OwnVote(q, me, myFitness)
    ensures var b := DecodeVote(Some(q.value));
            b.Ballot? && b.nominee == Some(me) && b.fitness == Clamp(myFitness)
  {
    var state :| q.value == EncodeVote(me, state, myFitness);
    DecodeEncode(me, state, myFitness);
  }

  /** The vote a decision casts is this node's, at the state after the one read. */
  lemma CastIsOwnVote(text: Option<string>, me: string, myFitness: int)
    ensures var d := Decide(text, me, myFitness);
            d.Cast? ==> OwnVote(Request(d.vote, d.precond, LEADER_TTL), me, myFitness)
  {
    var d := Decide(text, me, myFitness);
    if d.Cast? {
      assert d.vote == EncodeVote(me, DecodeVote(text).state + 1, myFitness);
    }
  }

  /** The rest of a pass writes at most once: the vote cast, with the text read as precondition. */
  lemma FinishSends(d: Decision, seen: Option<string>, env: seq<EnvStep>)
    ensures var p := Finish(d, seen, env);
            p.sent == [] || (d.Cast? && p.sent == [Request(d.vote, d.precond, LEADER_TTL)])
  {
  }

  /** The one write of a pass, when there is one, is this node's vote. */
  lemma PassWritesOwnVote(cell: Option<string>, me: string, myFitness: int, env: seq<EnvStep>)
    requires env != []
    ensures forall q :: q in OnePass(cell, me, myFitness, env).sent ==> OwnVote(q, me, myFitness)
  {
    var seen := Affect(cell, env[0]);
    var text := Read(seen, !env[0].Outage?);
    FinishSends(Decide(text, me, myFitness), seen, env[1..]);
    CastIsOwnVote(text, me, myFitness);
  }

  lemma {:induction false} RoundWritesOwnVotes(cell: Option<string>, me: string, myFitness: int, env: seq<EnvStep>)
    ensures forall q :: q in Round(cell, me, myFitness, env).sent ==> OwnVote(q, me, myFitness)
    decreases |env|
  {
    if env != [] {
      var p := OnePass(cell, me, myFitness, env);
      PassWritesOwnVote(cell, me, myFitness, env);
      if !p.over {
        RoundWritesOwnVotes(p.cell, me, myFitness, p.rest);
      }
    }
  }

  /** While a rival's bid stands and nothing else happens, the node keeps re-reading and never writes. */
  lemma {:induction false} WaitsWhileRivalBids(v: string, me: string, myFitness: int, env: seq<EnvStep>)
    requires DecodeVote(Some(v)).Ballot?
    requires var b := DecodeVote(Some(v));
             TENTATIVE <= b.state && b.state != CONFIRMED && b.nominee.value != me
    requires forall i :: 0 <= i < |env| ==> env[i] == Quiet
    ensures Round(Some(v), me, myFitness, env) == RoundRun(Unfinished, Some(v), [], [])
    decreases |env|
  {
    if env != [] {
      WaitsWhileRivalBids(v, me, myFitness, env[1..]);
    }
  }

  /** The node reads its own CONFIRMED vote: it is leader, and the round ends without a write. */
  lemma OwnConfirmedVoteElects(me: string, myFitness: int, env: seq<EnvStep>)
    requires Nominable(me) && env != [] && env[0] == Quiet
    ensures var v2 := EncodeVote(me, CONFIRMED, myFitness);
            Round(Some(v2), me, myFitness, env) == RoundRun(Elected(true), Some(v2), [], env[1..])
  {
    DecideEncoded(me, CONFIRMED, myFitness, me, myFitness);
  }

  /** The node reads its own TENTATIVE vote: it writes its CONFIRMED vote, conditional on the tentative one, and is elected. */
  lemma OwnTentativeVoteConfirms(me: string, myFitness: int)
    requires Nominable(me)
    ensures var v1, v2 := EncodeVote(me, TENTATIVE, myFitness), EncodeVote(me, CONFIRMED, myFitness);
            Round(Some(v1), me, myFitness, [Quiet, Quiet, Quiet]) ==
              RoundRun(Elected(true), Some(v2), [Request(v2, Some(v1), LEADER_TTL)], [])
  {
    var v1 := EncodeVote(me, TENTATIVE, myFitness);
    DecideEncoded(me, TENTATIVE, myFitness, me, myFitness);
    OwnConfirmedVoteElects(me, myFitness, [Quiet]);
    assert [Quiet, Quiet, Quiet][2..] == [Quiet];
  }

  /**
   * A first read that finds nothing, then nobody else about: the node
   * writes "me,1,f" unconditionally, then "me,2,f" conditional on "me,1,f",
   * reads its own CONFIRMED vote and becomes leader.
   */
  lemma NothingReadElects(cell: Option<string>, e: EnvStep, me: string, myFitness: int)
    requires Nominable(me) && Read(Affect(cell, e), !e.Outage?) == None
    ensures var v1, v2 := EncodeVote(me, TENTATIVE, myFitness), EncodeVote(me, CONFIRMED, myFitness);
            Round(cell, me, myFitness, [e, Quiet, Quiet, Quiet, Quiet]) ==
              RoundRun(Elected(true), Some(v2),
                       [Request(v1, None, LEADER_TTL), Request(v2, Some(v1), LEADER_TTL)], [])
  {
    var env := [e, Quiet, Quiet, Quiet, Quiet];
    assert env[2..] == [Quiet, Quiet, Quiet];
    NothingReadWritesUnconditionally(cell, me, myFitness, env);
    OwnTentativeVoteConfirms(me, myFitness);
  }

  /** The uncontested election: from an absent key, with nobody else about, the node becomes leader in one round. */
  lemma UncontestedElection(me: string, myFitness: int)
    requires Nominable(me)
    ensures var v1, v2 := EncodeVote(me, TENTATIVE, myFitness), EncodeVote(me, CONFIRMED, myFitness);
            Round(None, me, myFitness, [Quiet, Quiet, Quiet, Quiet, Quiet]) ==
              RoundRun(Elected(true), Some(v2),
                       [Request(v1, None, LEADER_TTL), Request(v2, Some(v1), LEADER_TTL)], [])
  {
    NothingReadElects(None, Quiet, me, myFitness);
  }

  /**
   * Under the model's assumption that a failed etcd_get returns NULL (the
   * header does not say what a failed read returns, and leader.c:89-93 reads NULL as "no
   * leader"), a read that does not reach the cluster looks like an absent
   * key, so the node writes without a precondition and overwrites whatever the key
   * holds, a confirmed leader's vote included (ConfirmedVoteSettles: that
   * vote would have made it a follower); with nobody else about it then
   * confirms itself, while the old leader still believes it leads until its
   * next Confirm.
   */
  lemma ReadOutageDisplacesLeader(held: string, me: string, myFitness: int)
    requires Nominable(me)
    ensures var v1, v2 := EncodeVote(me, TENTATIVE, myFitness), EncodeVote(me, CONFIRMED, myFitness);
            Round(Some(held), me, myFitness, [Outage, Quiet, Quiet, Quiet, Quiet]) ==
              RoundRun(Elected(true), Some(v2),
                       [Request(v1, None, LEADER_TTL), Request(v2, Some(v1), LEADER_TTL)], [])
  {
    NothingReadElects(Some(held), Outage, me, myFitness);
  }

  // ------------------------------------------------- keeping leadership

  /** The vote Confirm writes (leader.c:152) reads back as this node, CONFIRMED, with its fitness. */
  lemma ConfirmedVoteReadsBack(me: string, myFitness: int)
    requires Nominable(me)
    ensures DecodeVote(Some(ConfirmedVote(me, myFitness))) == Ballot(Some(me), CONFIRMED, Clamp(myFitness))
  {
    DecodeEncode(me, CONFIRMED, myFitness);
  }

  /** While nothing disturbs the key, the leader re-confirms once per step and keeps the lease. */
  lemma {:induction false} QuietKeepsLease(me: string, myFitness: int, env: seq<EnvStep>)
    requires forall i :: 0 <= i < |env| ==> env[i] == Quiet
    ensures var vote := ConfirmedVote(me, myFitness);
            var r := Renew(Some(vote), me, myFitness, env);
            && !r.lost && r.cell == Some(vote) && |r.sent| == |env|
            && forall q :: q in r.sent ==> q == Request(vote, Some(vote), LEADER_TTL)
    decreases |env|
  {
    if env != [] {
      QuietKeepsLease(me, myFitness, env[1..]);
    }
  }

  /** Any change to the key, or an unreachable cluster, ends the lease at that step. */
  lemma DisturbanceEndsLease(me: string, myFitness: int, e: EnvStep, env: seq<EnvStep>)
    requires e == Expire || e == Outage || (e.Overwrite? && e.value != ConfirmedVote(me, myFitness))
    ensures var vote := ConfirmedVote(me, myFitness);
            var r := Renew(Some(vote), me, myFitness, [e] + env);
            r.lost && r.sent == [Request(vote, Some(vote), LEADER_TTL)] && r.rest == env
  {
    assert ([e] + env)[1..] == env;
  }

  /**
   * A leader that refreshes once and then finds the key expired goes back
   * to GetCurrentLeader with i_am_leader still set, whatever the schedule
   * holds next: the flag is only written when a round sees a CONFIRMED vote.
   */
  lemma LapseRestartsRound(me: string, myFitness: int, after: seq<EnvStep>)
    requires Nominable(me)
    ensures var vote := ConfirmedVote(me, myFitness);
            var req := Request(vote, Some(vote), LEADER_TTL);
            Lifecycle(Some(vote), me, myFitness, false, [Quiet, Quiet, Expire] + after)
              == PrependLife([req, req], Lifecycle(None, me, myFitness, true, after))
  {
    var tail := [Quiet, Expire] + after;
    var env := [Quiet] + tail;
    assert env == [Quiet, Quiet, Expire] + after && env[1..] == tail;
    var vote := ConfirmedVote(me, myFitness);
    var req := Request(vote, Some(vote), LEADER_TTL);
    var g := Round(Some(vote), me, myFitness, env);
    assert g == RoundRun(Elected(true), Some(vote), [], tail) by {
      OwnConfirmedVoteElects(me, myFitness, env);
    }
    var c := Renew(g.cell, me, myFitness, g.rest);
    assert c == Renewal(true, None, [req, req], after) by {
      LeaseLapses(me, myFitness, after);
    }
    var n := Lifecycle(None, me, myFitness, true, after);
    calc {
      Lifecycle(Some(vote), me, myFitness, false, env);
      { LifePass(Some(vote), me, myFitness, false, env); }
      n.(sent := g.sent + c.sent + n.sent);
      { assert g.sent + c.sent + n.sent == [req, req] + n.sent; }
      PrependLife([req, req], n);
    }
  }

  /**
   * A leader whose lease lapses starts a new round, and keeps i_am_leader
   * set meanwhile. Here a rival's bid appears once the key has expired; the
   * new round reads it twice and waits, and the flag is still set.
   */
  lemma LeaseLossRestartsRound(me: string, myFitness: int, rival: string, rivalFitness: int)
    requires Nominable(me) && Nominable(rival) && rival != me
    ensures var vote := ConfirmedVote(me, myFitness);
            var req := Request(vote, Some(vote), LEADER_TTL);
            var r := EncodeVote(rival, TENTATIVE, rivalFitness);
            Lifecycle(Some(vote), me, myFitness, false, [Quiet, Quiet, Expire, Overwrite(r), Quiet])
              == Life(Pending, Some(r), [req, req], true)
  {
    var r := EncodeVote(rival, TENTATIVE, rivalFitness);
    var after := [Overwrite(r), Quiet];
    assert [Quiet, Quiet, Expire, Overwrite(r), Quiet] == [Quiet, Quiet, Expire] + after;
    LapseRestartsRound(me, myFitness, after);
    RivalRoundWaits(me, myFitness, rival, rivalFitness);
    LifePass(None, me, myFitness, true, after);
  }

  /** A pass that reads a value on which the node waits leaves the key as it found it and writes nothing. */
  lemma WaitingPass(cell: Option<string>, me: string, myFitness: int, e: EnvStep, env: seq<EnvStep>)
    requires Decide(Read(Affect(cell, e), !e.Outage?), me, myFitness) == Wait
    ensures Round(cell, me, myFitness, [e] + env) == Round(Affect(cell, e), me, myFitness, env)
  {
    assert ([e] + env)[1..] == env;
    assert OnePass(cell, me, myFitness, [e] + env) == PassRun(false, Unfinished, Affect(cell, e), [], env);
  }

  /** From an absent key, a rival's bid that appears and stays makes the round wait. */
  lemma RivalRoundWaits(me: string, myFitness: int, rival: string, rivalFitness: int)
    requires Nominable(rival) && rival != me
    ensures var r := EncodeVote(rival, TENTATIVE, rivalFitness);
            Round(None, me, myFitness, [Overwrite(r), Quiet]) == RoundRun(Unfinished, Some(r), [], [])
  {
    var r := EncodeVote(rival, TENTATIVE, rivalFitness);
    assert [Overwrite(r), Quiet] == [Overwrite(r)] + [Quiet];
    assert Read(Affect(None, Overwrite(r)), true) == Some(r);
    assert Round(None, me, myFitness, [Overwrite(r)] + [Quiet]) == Round(Some(r), me, myFitness, [Quiet]) by {
      RivalBidWaits(rival, TENTATIVE, rivalFitness, me, myFitness);
      WaitingPass(None, me, myFitness, Overwrite(r), [Quiet]);
    }
    assert Round(Some(r), me, myFitness, [Quiet]) == RoundRun(Unfinished, Some(r), [], []) by {
      DecodeEncode(rival, TENTATIVE, rivalFitness);
      WaitsWhileRivalBids(r, me, myFitness, [Quiet]);
    }
  }

  /** One quiet refresh, then the key expires: the second Confirm fails. */
  lemma LeaseLapses(me: string, myFitness: int, rest: seq<EnvStep>)
    ensures var vote := ConfirmedVote(me, myFitness);
            var req := Request(vote, Some(vote), LEADER_TTL);
            Renew(Some(vote), me, myFitness, [Quiet, Expire] + rest) == Renewal(true, None, [req, req], rest)
  {
    DisturbanceEndsLease(me, myFitness, Expire, rest);
    assert ([Quiet, Expire] + rest)[1..] == [Expire] + rest;
  }

  /** The uncontested election, run by the imperative code against a store. */
  method ElectAlone(me: string, myFitness: int) returns (retval: Exit, leader: bool, cell: Option<string>, sent: seq<Request>)
    requires Nominable(me) && IsCString(me)
    ensures var v1, v2 := EncodeVote(me, TENTATIVE, myFitness), EncodeVote(me, CONFIRMED, myFitness);
            && retval == Returned(EXIT_SUCCESS) && leader && cell == Some(v2)
            && sent == [Request(v1, None, LEADER_TTL), Request(v2, Some(v1), LEADER_TTL)]
  {
    var env := [Quiet, Quiet, Quiet, Quiet, Quiet];
    var etcd := new Store(None);
    var node := new Elector(me, myFitness);
    var rest;
    retval, rest := node.GetCurrentLeader(etcd, env);
    UncontestedElection(me, myFitness);
    leader, cell, sent := node.iAmLeader, etcd.cell, etcd.sent;
  }
}
