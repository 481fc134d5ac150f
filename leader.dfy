/**
 * leader.c: one election round (GetCurrentLeader), the lease refresh
 * (Confirm) and the process's leader/follower loop (main, lines 274-302).
 *
 * The round repeats read -> decide -> conditional write on the election
 * key. The functions below say what a round does for every schedule of the
 * rest of the world (`EnvStep`s, one before each request to the store);
 * the methods of `Elector` run the same steps the way the C code does,
 * including its in-place edits of the text buffer, and are proved to agree
 * with them. A method returns `Pending` when the schedule runs out: the
 * C loops need not terminate (a node can wait on a rival's vote forever).
 */
module Leader {
  import opened Wrappers
  import opened CString
  import opened VoteCodec
  import opened EtcdStore

  const EXIT_SUCCESS: int := 0
  const EXIT_FAILURE: int := 1
  const LEADER_TTL: nat := 5

  /** What one pass of the round does after reading the key. */
  datatype Decision =
    | Abort                                       // malformed vote: leave the round
    | Settle(iAmLeader: bool)                     // CONFIRMED vote seen
    | Wait                                        // a rival holds a tentative-or-higher vote
    | Cast(vote: string, precond: Option<string>) // etcd_set(vote, precond, LEADER_TTL)

  /**
   * leader.c:76-128 for one value read. The nominee is only compared with
   * `me` when the state is TENTATIVE or more, which an absent key never is;
   * fitness is never looked at.
   */
  function Decide(text: Option<string>, me: string, myFitness: int): (d: Decision)
    ensures d.Abort? <==> DecodeVote(text).Malformed?
    ensures d.Cast? ==> d.precond == text
    ensures text.None? ==> d == Cast(EncodeVote(me, TENTATIVE, myFitness), None)
  {
    match DecodeVote(text)
    case Malformed => Abort
    case Ballot(nominee, state, _) =>
      if state == CONFIRMED then Settle(nominee.value == me)
      else if state >= TENTATIVE && nominee.value != me then Wait
      else Cast(EncodeVote(me, state + 1, myFitness), text)
  }

  /** How a round ends: GetCurrentLeader's return value and i_am_leader. */
  datatype RoundEnd = Elected(iAmLeader: bool) | Failed | Unfinished

  /**
   * One pass of GetCurrentLeader's loop: whether it ends the round (and
   * how), the key afterwards, the write it issued and the schedule left.
   */
  datatype PassRun = PassRun(over: bool, end: RoundEnd, cell: Option<string>, sent: seq<Request>, rest: seq<EnvStep>)

  /**
   * The rest of a pass once `seen` was read and `d` decided
   * (leader.c:89-135); `env` is the schedule after the read, whose first
   * step comes before the write when the pass casts a vote.
   */
  function Finish(d: Decision, seen: Option<string>, env: seq<EnvStep>): (p: PassRun)
    ensures |p.rest| <= |env| && |p.sent| <= 1
    ensures !p.over ==> p.end.Unfinished?
    ensures p.end.Unfinished? && p.over ==> p.rest == []
  {
    match d
    case Abort => PassRun(true, Failed, seen, [], env)
    case Settle(leader) => PassRun(true, Elected(leader), seen, [], env)
    case Wait => PassRun(false, Unfinished, seen, [], env)
    case Cast(vote, precond) =>
      if env == [] then PassRun(true, Unfinished, seen, [], [])
      else
        var before := Affect(seen, env[0]);
        var request := Request(vote, precond, LEADER_TTL);
        if SetResult(before, !env[0].Outage?, precond) != EtcdOk then
          PassRun(true, Failed, before, [request], env[1..])
        else
          PassRun(false, Unfinished, Some(vote), [request], env[1..])
  }

  /** leader.c:70-135 against the schedule `env`: one step before the read, then the rest of the pass. */
  function OnePass(cell: Option<string>, me: string, myFitness: int, env: seq<EnvStep>): (p: PassRun)
    requires env != []
    ensures |p.rest| < |env|
  {
    var seen := Affect(cell, env[0]);
    Finish(Decide(Read(seen, !env[0].Outage?), me, myFitness), seen, env[1..])
  }

  /** A round's end, the key afterwards, the writes it issued and the schedule left. */
  datatype RoundRun = RoundRun(end: RoundEnd, cell: Option<string>, sent: seq<Request>, rest: seq<EnvStep>)

  /** A round that began with the writes `done` already issued. */
  function Prepend(done: seq<Request>, r: RoundRun): RoundRun
  {
    r.(sent := done + r.sent)
  }

  /** GetCurrentLeader (leader.c:56-145): passes until one ends the round, or the schedule runs out. */
  function Round(cell: Option<string>, me: string, myFitness: int, env: seq<EnvStep>): (r: RoundRun)
    ensures |r.rest| <= |env|
    ensures r.end.Unfinished? ==> r.rest == []
    ensures !r.end.Unfinished? ==> |r.rest| < |env|
    decreases |env|
  {
    if env == [] then RoundRun(Unfinished, cell, [], [])
    else
      var p := OnePass(cell, me, myFitness, env);
      if p.over then RoundRun(p.end, p.cell, p.sent, p.rest)
      else
        Prepend(p.sent, Round(p.cell, me, myFitness, p.rest))
  }

  /** GetCurrentLeader's return value for a round that ended so. */
  function Status(end: RoundEnd): (e: Exit)
    ensures e.Pending? <==> end.Unfinished?
    ensures e == Returned(EXIT_SUCCESS) <==> end.Elected?
    ensures e == Returned(EXIT_FAILURE) <==> end.Failed?
  {
    match end
    case Elected(_) => Returned(EXIT_SUCCESS)
    case Failed => Returned(EXIT_FAILURE)
    case Unfinished => Pending
  }

  lemma Concat<T>(a: seq<T>, b: seq<T>, c: seq<T>)
    ensures a + b + c == a + (b + c)
  {
  }

  lemma PrependTwice(a: seq<Request>, b: seq<Request>, r: RoundRun)
    ensures Prepend(a, Prepend(b, r)) == Prepend(a + b, r)
  {
    Concat(a, b, r.sent);
  }

  /** The vote Confirm writes, which is also its precondition. */
  function ConfirmedVote(me: string, myFitness: int): string
  {
    EncodeVote(me, CONFIRMED, myFitness)
  }

  /**
   * Confirm (leader.c:147-166): did it succeed, and the key afterwards. The
   * write presents its own value as the precondition, so it succeeds exactly
   * when the key already holds this node's confirmed vote, and it never
   * changes the value.
   */
  datatype Confirmation = Confirmation(ok: bool, cell: Option<string>)

  function ConfirmStep(cell: Option<string>, me: string, myFitness: int, e: EnvStep): (c: Confirmation)
    ensures c.ok <==> !e.Outage? && Affect(cell, e) == Some(ConfirmedVote(me, myFitness))
    ensures c.cell == Affect(cell, e)
  {
    var vote := ConfirmedVote(me, myFitness);
    var before := Affect(cell, e);
    var up := !e.Outage?;
    Confirmation(SetResult(before, up, Some(vote)) == EtcdOk, SetCell(before, up, vote, Some(vote)))
  }

  /** The leader's refresh loop `do sleep(1); while (Confirm(...) == EXIT_SUCCESS)`. */
  datatype Renewal = Renewal(lost: bool, cell: Option<string>, sent: seq<Request>, rest: seq<EnvStep>)

  function Renew(cell: Option<string>, me: string, myFitness: int, env: seq<EnvStep>): (r: Renewal)
    ensures |r.rest| <= |env|
    ensures r.lost ==> |r.rest| < |env|
    ensures !r.lost ==> r.rest == []
    decreases |env|
  {
    if env == [] then Renewal(false, cell, [], [])
    else
      var vote := ConfirmedVote(me, myFitness);
      var request := Request(vote, Some(vote), LEADER_TTL);
      var c := ConfirmStep(cell, me, myFitness, env[0]);
      if c.ok then
        var r := Renew(c.cell, me, myFitness, env[1..]);
        r.(sent := [request] + r.sent)
      else
        Renewal(true, c.cell, [request], env[1..])
  }

  /** How main ends: still running when the schedule ran out, or its exit status. */
  datatype Exit = Pending | Returned(code: int)

  datatype Life = Life(exit: Exit, cell: Option<string>, sent: seq<Request>, iAmLeader: bool)

  /**
   * main's loop (leader.c:274-302): run a round; a failed round ends the
   * process, whose status is then EXIT_SUCCESS (leader.c:305); a leader
   * refreshes until a Confirm fails and then runs a new round; a follower
   * calls WatchLeaderChanges, which does nothing, and runs a new round.
   */
  function Lifecycle(cell: Option<string>, me: string, myFitness: int, iAmLeader: bool, env: seq<EnvStep>): (l: Life)
    ensures l.exit == Pending || l.exit == Returned(EXIT_SUCCESS)
    decreases |env|
  {
    var g := Round(cell, me, myFitness, env);
    match g.end
    case Unfinished => Life(Pending, g.cell, g.sent, iAmLeader)
    case Failed => Life(Returned(EXIT_SUCCESS), g.cell, g.sent, iAmLeader)
    case Elected(leader) =>
      if !leader then
        var l := Lifecycle(g.cell, me, myFitness, false, g.rest);
        l.(sent := g.sent + l.sent)
      else
        var c := Renew(g.cell, me, myFitness, g.rest);
        if !c.lost then Life(Pending, c.cell, g.sent + c.sent, true)
        else
          var l := Lifecycle(c.cell, me, myFitness, true, c.rest);
          l.(sent := g.sent + c.sent + l.sent)
  }

  /** A run of main that began with the writes `done` already issued. */
  function PrependLife(done: seq<Request>, l: Life): Life
  {
    l.(sent := done + l.sent)
  }

  lemma PrependLifeTwice(a: seq<Request>, b: seq<Request>, l: Life)
    ensures PrependLife(a, PrependLife(b, l)) == PrependLife(a + b, l)
  {
    Concat(a, b, l.sent);
  }

  /** One round of main's loop, read from Lifecycle's definition. */
  lemma LifePass(cell: Option<string>, me: string, myFitness: int, iAmLeader: bool, env: seq<EnvStep>)
    ensures var g := Round(cell, me, myFitness, env);
            var l := Lifecycle(cell, me, myFitness, iAmLeader, env);
            && (g.end.Unfinished? ==> l == Life(Pending, g.cell, g.sent, iAmLeader))
            && (g.end.Failed? ==> l == Life(Returned(EXIT_SUCCESS), g.cell, g.sent, iAmLeader))
            && (g.end == Elected(false) ==>
                  var n := Lifecycle(g.cell, me, myFitness, false, g.rest);
                  l == n.(sent := g.sent + n.sent))
            && (g.end == Elected(true) ==>
                  var c := Renew(g.cell, me, myFitness, g.rest);
                  && (!c.lost ==> l == Life(Pending, c.cell, g.sent + c.sent, true))
                  && (c.lost ==>
                        var n := Lifecycle(c.cell, me, myFitness, true, c.rest);
                        l == n.(sent := g.sent + c.sent + n.sent)))
  {
  }

  /**
   * A buffer that holds the C string `v`, except for NULs written over two
   * of its commas (leader.c:83-84), and a C string in it that starts at `i`
   * and runs up to one of those NULs or to the terminator at |v|.
   */
  lemma FieldOfBuffer(v: string, buf: seq<char>, e1: nat, e2: nat, i: nat, j: nat)
    requires IsCString(v) && |buf| == |v| + 1 && e1 < |v| && e2 < |v|
    requires buf[|v|] == '\0' && buf[e1] == '\0' && buf[e2] == '\0'
    requires forall k :: 0 <= k < |v| && k != e1 && k != e2 ==> buf[k] == v[k]
    requires i <= j <= |v| && (j == e1 || j == e2 || j == |v|)
    requires !(i <= e1 < j) && !(i <= e2 < j)
    ensures CStr(buf, i) == v[i..j]
  {
    assert buf[i..j] == v[i..j];
    CStrUpTo(buf, i, j);
  }

  /** A buffer that holds a C string and its terminator denotes that string. */
  lemma WholeBuffer(v: string)
    requires IsCString(v)
    ensures CStr(v + ['\0'], 0) == v
  {
    assert (v + ['\0'])[0..|v|] == v;
    CStrUpTo(v + ['\0'], 0, |v|);
  }

  /** The branches of leader.c:95-128 on the fields read compute Decide. */
  lemma DecideOnReading(text: Option<string>, me: string, myFitness: int,
                        malformed: bool, nominee: Option<string>, state: int, fitness: int)
    requires malformed <==> DecodeVote(text).Malformed?
    requires !malformed ==> DecodeVote(text) == Ballot(nominee, state, fitness)
    ensures Decide(text, me, myFitness) ==
              if malformed then Abort
              else if state == CONFIRMED then Settle(nominee.value == me)
              else if state >= TENTATIVE && nominee.value != me then Wait
              else Cast(EncodeVote(me, state + 1, myFitness), text)
  {
  }

  /** The text buffer after leader.c:83-84 wrote NULs over the ends of fields 1 and 2. */
  function Cut(v: string, m: Match): seq<char>
    requires m.eo1 < |v| && m.eo2 < |v|
  {
    (v + ['\0'])[m.eo1 := '\0'][m.eo2 := '\0']
  }

  /** Each field, and the rest of the value after field 2, ends at a NUL of the cut buffer. */
  lemma FieldOfCut(v: string, m: Match, i: nat, j: nat)
    requires IsCString(v) && FindVote(v, 0) == Some(m)
    requires (i, j) == (m.so1, m.eo1) || (i, j) == (m.so2(), m.eo2) || (i, j) == (m.so3(), |v|)
    ensures CStr(Cut(v, m), i) == v[i..j]
  {
    CutBuffer(v, m);
    FieldOfBuffer(v, Cut(v, m), m.eo1, m.eo2, i, j);
  }

  lemma CutBuffer(v: string, m: Match)
    requires m.eo1 < |v| && m.eo2 < |v|
    ensures var buf := Cut(v, m);
            && |buf| == |v| + 1 && buf[|v|] == '\0' && buf[m.eo1] == '\0' && buf[m.eo2] == '\0'
            && forall k :: 0 <= k < |v| && k != m.eo1 && k != m.eo2 ==> buf[k] == v[k]
  {
  }

  /**
   * leader.c:76-93 on a buffer holding the value `v`: match the vote
   * pattern, cut the text at the ends of fields 1 and 2 and read the three
   * fields off the buffer.
   */
  method ParseVote(text: array<char>, ghost v: string)
    returns (matches: Match, malformed: bool, nominee: Option<string>, state: int, fitness: int)
    requires IsCString(v) && text[..] == v + ['\0']
    modifies text
    ensures malformed <==> DecodeVote(Some(v)).Malformed?
    ensures !malformed ==> DecodeVote(Some(v)) == Ballot(nominee, state, fitness)
    ensures !malformed ==> FindVote(v, 0) == Some(matches) && text[..] == Cut(v, matches)
  {
    WholeBuffer(v);
    var found := FindVote(CStr(text[..], 0), 0);
    if found.None? {
      return Match(0, 0, 0, 0), true, None, NO_LEADER, 0;
    }
    matches := found.value;
    malformed := false;
    CutCommas(text, matches, v);
    FieldOfCut(v, matches, matches.so1, matches.eo1);
    FieldOfCut(v, matches, matches.so2(), matches.eo2);
    FieldOfCut(v, matches, matches.so3(), |v|);
    DecodeMatch(v, matches);
    nominee := Some(CStr(text[..], matches.so1));
    state := Strtol(CStr(text[..], matches.so2()));
    fitness := Strtol(CStr(text[..], matches.so3()));
  }

  /** leader.c:75-93: fetch the value and parse it; NULL reads as no leader. */
  method ReadVote(etcd: Store)
    returns (text: array?<char>, matches: Match, malformed: bool, nominee: Option<string>, state: int, fitness: int)
    requires etcd.Valid()
    ensures var read := Read(etcd.cell, etcd.up);
            && (text == null <==> read.None?)
            && (text != null ==> fresh(text))
            && (malformed <==> DecodeVote(read).Malformed?)
            && (!malformed ==> DecodeVote(read) == Ballot(nominee, state, fitness))
            && (text != null && !malformed ==> FindVote(read.value, 0) == Some(matches) && text[..] == Cut(read.value, matches))
  {
    text := etcd.Get();
    if text != null {
      matches, malformed, nominee, state, fitness := ParseVote(text, etcd.cell.value);
    } else {
      matches, malformed, nominee, state, fitness := Match(0, 0, 0, 0), false, None, NO_LEADER, 0;
    }
  }

  /** leader.c:82-84: the text may be edited in place, so the commas after fields 1 and 2 become NULs. */
  method CutCommas(text: array<char>, matches: Match, ghost v: string)
    requires FindVote(v, 0) == Some(matches)
    requires text[..] == v + ['\0']
    modifies text
    ensures text[..] == Cut(v, matches)
  {
    text[matches.eo1] := '\0';
    text[matches.eo2] := '\0';
  }

  /** leader.c:124-127: put the commas back, so the buffer holds the value read again. */
  method RestoreCommas(text: array<char>, matches: Match, ghost v: string)
    requires FindVote(v, 0) == Some(matches)
    requires text[..] == Cut(v, matches)
    modifies text
    ensures text[..] == v + ['\0']
  {
    text[matches.eo1] := ',';
    text[matches.eo2] := ',';
  }

  /** The process globals of leader.c: the node's name and fitness, and the leadership flag. */
  class Elector {
    const me: string
    const myFitness: int
    var iAmLeader: bool

    constructor (me: string, myFitness: int)
      ensures this.me == me && this.myFitness == myFitness && !iAmLeader
    {
      this.me, this.myFitness, iAmLeader := me, myFitness, false;
    }

    /** GetCurrentLeader (leader.c:56-145): passes of the `for (;;)` loop until one ends the round. */
    method GetCurrentLeader(etcd: Store, env: seq<EnvStep>) returns (retval: Exit, rest: seq<EnvStep>)
      requires etcd.Valid() && ValidSchedule(env) && IsCString(me)
      modifies this`iAmLeader, etcd`cell, etcd`up, etcd`sent
      ensures etcd.Valid() && ValidSchedule(rest)
      ensures var r := Round(old(etcd.cell), me, myFitness, env);
              && etcd.cell == r.cell && etcd.sent == old(etcd.sent) + r.sent && rest == r.rest
              && retval == Status(r.end)
              && iAmLeader == (if r.end.Elected? then r.end.iAmLeader else old(iAmLeader))
    {
      ghost var r0 := Round(etcd.cell, me, myFitness, env);
      ghost var done: seq<Request> := [];
      var todo := env;
      while true
        invariant etcd.Valid() && ValidSchedule(todo)
        invariant iAmLeader == old(iAmLeader)
        invariant etcd.sent == old(etcd.sent) + done
        invariant r0 == Prepend(done, Round(etcd.cell, me, myFitness, todo))
        decreases |todo|
      {
        if todo == [] {
          return Pending, [];
        }
        ghost var r := Round(etcd.cell, me, myFitness, todo);
        ghost var p := OnePass(etcd.cell, me, myFitness, todo);
        ghost var issued;
        var over;
        over, retval, todo, issued := Pass(etcd, todo);
        Concat(old(etcd.sent), done, issued);
        if over {
          assert r0 == Prepend(done, r);
          done := done + issued;
          return retval, todo;
        }
        PrependTwice(done, issued, Round(etcd.cell, me, myFitness, todo));
        done := done + issued;
      }
    }

    /**
     * One pass of GetCurrentLeader's loop (leader.c:70-141): read and parse
     * the vote, then leave the round (malformed vote, CONFIRMED vote, failed
     * write), wait for a rival, or cast this node's vote. `over` is false
     * when the loop goes round again; `issued` are the writes of this pass.
     */
    method Pass(etcd: Store, todo: seq<EnvStep>)
      returns (over: bool, retval: Exit, rest: seq<EnvStep>, ghost issued: seq<Request>)
      requires etcd.Valid() && ValidSchedule(todo) && IsCString(me) && todo != []
      modifies this`iAmLeader, etcd`cell, etcd`up, etcd`sent
      ensures etcd.Valid() && ValidSchedule(rest) && |rest| < |todo|
      ensures etcd.sent == old(etcd.sent) + issued
      ensures var p := OnePass(old(etcd.cell), me, myFitness, todo);
              && over == p.over && etcd.cell == p.cell && issued == p.sent && rest == p.rest
              && retval == Status(p.end)
              && iAmLeader == (if p.end.Elected? then p.end.iAmLeader else old(iAmLeader))
    {
      etcd.Between(todo[0]);
      ghost var read := Read(etcd.cell, etcd.up);
      var text, matches, malformed, nominee, state := Look(etcd);
      over, retval, rest, issued := Act(etcd, text, matches, malformed, nominee, state, read, Decide(read, me, myFitness), todo[1..]);
    }

    /**
     * The branches of a pass on the vote read (leader.c:89-135): leave the
     * round on a malformed or CONFIRMED vote, wait for a rival, or bid.
     */
    method Act(etcd: Store, text: array?<char>, matches: Match, malformed: bool, nominee: Option<string>, state: int,
               ghost read: Option<string>, ghost d: Decision, todo: seq<EnvStep>)
      returns (over: bool, retval: Exit, rest: seq<EnvStep>, ghost issued: seq<Request>)
      requires etcd.Valid() && ValidSchedule(todo) && IsCString(me)
      requires text == null <==> read.None?
      requires text != null && !malformed ==> IsCString(read.value) && FindVote(read.value, 0) == Some(matches) && text[..] == Cut(read.value, matches)
      requires malformed <==> d.Abort?
      requires !malformed && state >= TENTATIVE ==> nominee.Some?
      requires !malformed && state == CONFIRMED ==> d == Settle(nominee.value == me)
      requires !malformed && state != CONFIRMED && state >= TENTATIVE && nominee.value != me ==> d == Wait
      requires !malformed && state != CONFIRMED && !(state >= TENTATIVE && nominee.value != me) ==>
                 d == Cast(EncodeVote(me, state + 1, myFitness), read)
      modifies this`iAmLeader, text, etcd`cell, etcd`up, etcd`sent
      ensures etcd.Valid() && ValidSchedule(rest)
      ensures etcd.sent == old(etcd.sent) + issued
      ensures var p := Finish(d, old(etcd.cell), todo);
              && over == p.over && etcd.cell == p.cell && issued == p.sent && rest == p.rest
              && retval == Status(p.end)
              && iAmLeader == (if p.end.Elected? then p.end.iAmLeader else old(iAmLeader))
    {
      if malformed {
        return true, Returned(EXIT_FAILURE), todo, [];
      }

      if state == CONFIRMED {
        iAmLeader := nominee.value == me;
        return true, Returned(EXIT_SUCCESS), todo, [];
      }

      // fitness is never compared (leader.c:108)
      if state >= TENTATIVE && nominee.value != me {
        return false, Pending, todo, [];
      }

      over, retval, rest, issued := Bid(etcd, text, matches, state, read, todo);
    }

    /**
     * The read and the tests of one pass (leader.c:75-112): the fields read,
     * and which decision the branches on them take.
     */
    method Look(etcd: Store) returns (text: array?<char>, matches: Match, malformed: bool, nominee: Option<string>, state: int)
      requires etcd.Valid()
      ensures var read := Read(etcd.cell, etcd.up);
              var d := Decide(read, me, myFitness);
              && (text == null <==> read.None?)
              && (text != null ==> fresh(text))
              && (text != null && !malformed ==> IsCString(read.value) && FindVote(read.value, 0) == Some(matches) && text[..] == Cut(read.value, matches))
              && (malformed <==> d.Abort?)
              && (!malformed && state >= TENTATIVE ==> nominee.Some?)
              && (!malformed && state == CONFIRMED ==> d == Settle(nominee.value == me))
              && (!malformed && state != CONFIRMED && state >= TENTATIVE && nominee.value != me ==> d == Wait)
              && (!malformed && state != CONFIRMED && !(state >= TENTATIVE && nominee.value != me) ==>
                    d == Cast(EncodeVote(me, state + 1, myFitness), read))
    {
      ghost var read := Read(etcd.cell, etcd.up);
      var fitness;
      text, matches, malformed, nominee, state, fitness := ReadVote(etcd);
      DecideOnReading(read, me, myFitness, malformed, nominee, state, fitness);
    }

    /**
     * The end of a pass that casts a vote (leader.c:114-135): the write
     * either fails the round or is followed by the next pass.
     */
    method Bid(etcd: Store, text: array?<char>, matches: Match, state: int, ghost read: Option<string>, todo: seq<EnvStep>)
      returns (over: bool, retval: Exit, rest: seq<EnvStep>, ghost issued: seq<Request>)
      requires etcd.Valid() && ValidSchedule(todo) && IsCString(me)
      requires text == null <==> read.None?
      requires text != null ==> IsCString(read.value) && FindVote(read.value, 0) == Some(matches) && text[..] == Cut(read.value, matches)
      modifies text, etcd`cell, etcd`up, etcd`sent
      ensures etcd.Valid() && ValidSchedule(rest) && etcd.sent == old(etcd.sent) + issued
      ensures todo == [] ==> over && retval == Pending && rest == [] && issued == [] && etcd.cell == old(etcd.cell)
      ensures todo != [] ==>
                var vote := EncodeVote(me, state + 1, myFitness);
                var before := Affect(old(etcd.cell), todo[0]);
                && rest == todo[1..] && issued == [Request(vote, read, LEADER_TTL)]
                && (over <==> SetResult(before, !todo[0].Outage?, read) != EtcdOk)
                && retval == (if over then Returned(EXIT_FAILURE) else Pending)
                && etcd.cell == (if over then before else Some(vote))
    {
      if todo == [] {
        return true, Pending, [], [];
      }
      var res := CastVote(etcd, text, matches, state, read, todo[0]);
      issued := [Request(EncodeVote(me, state + 1, myFitness), read, LEADER_TTL)];
      rest := todo[1..];
      over := res != EtcdOk;
      retval := if over then Returned(EXIT_FAILURE) else Pending;
    }

    /**
     * leader.c:117-133: build the vote for state+1, put the commas back so
     * that `text` denotes the value read again, and write the vote with that
     * value as the precondition (none when nothing was read).
     */
    method CastVote(etcd: Store, text: array?<char>, matches: Match, state: int, ghost read: Option<string>, e: EnvStep)
      returns (res: EtcdResult)
      requires etcd.Valid() && ValidStep(e) && IsCString(me)
      requires text == null <==> read.None?
      requires text != null ==> IsCString(read.value) && FindVote(read.value, 0) == Some(matches) && text[..] == Cut(read.value, matches)
      modifies text, etcd`cell, etcd`up, etcd`sent
      ensures etcd.Valid()
      ensures var vote := EncodeVote(me, state + 1, myFitness);
              var before := Affect(old(etcd.cell), e);
              && res == SetResult(before, !e.Outage?, read)
              && etcd.cell == SetCell(before, !e.Outage?, vote, read)
              && etcd.sent == old(etcd.sent) + [Request(vote, read, LEADER_TTL)]
    {
      var vote := EncodeVote(me, state + 1, myFitness);
      var precond: Option<string> := None;
      if text != null {
        RestoreCommas(text, matches, read.value);
        WholeBuffer(read.value);
        precond := Some(CStr(text[..], 0));
      }
      etcd.Between(e);
      res := etcd.Set(vote, precond, LEADER_TTL);
    }

    /** Confirm (leader.c:147-166): rewrite this node's confirmed vote, conditional on itself. */
    method Confirm(etcd: Store, e: EnvStep) returns (retval: int)
      requires etcd.Valid() && ValidStep(e) && IsCString(me)
      modifies etcd`cell, etcd`up, etcd`sent
      ensures etcd.Valid()
      ensures var c := ConfirmStep(old(etcd.cell), me, myFitness, e);
              && retval == (if c.ok then EXIT_SUCCESS else EXIT_FAILURE)
              && etcd.cell == c.cell
      ensures var vote := ConfirmedVote(me, myFitness);
              etcd.sent == old(etcd.sent) + [Request(vote, Some(vote), LEADER_TTL)]
    {
      var vote := EncodeVote(me, CONFIRMED, myFitness);
      etcd.Between(e);
      var res := etcd.Set(vote, Some(vote), LEADER_TTL);
      if res != EtcdOk {
        return EXIT_FAILURE;
      }
      return EXIT_SUCCESS;
    }

    /**
     * The leader's refresh loop (leader.c:278-282): Confirm once per
     * schedule step until a Confirm fails.
     */
    method HoldLeadership(etcd: Store, todo: seq<EnvStep>) returns (lost: bool, rest: seq<EnvStep>, ghost issued: seq<Request>)
      requires etcd.Valid() && ValidSchedule(todo) && IsCString(me)
      modifies etcd`cell, etcd`up, etcd`sent
      ensures etcd.Valid() && ValidSchedule(rest)
      ensures var c := Renew(old(etcd.cell), me, myFitness, todo);
              && lost == c.lost && etcd.cell == c.cell && rest == c.rest && issued == c.sent
              && etcd.sent == old(etcd.sent) + issued
    {
      ghost var c0 := Renew(etcd.cell, me, myFitness, todo);
      issued := [];
      rest := todo;
      var vote := ConfirmedVote(me, myFitness);
      while true
        invariant etcd.Valid() && ValidSchedule(rest)
        invariant etcd.sent == old(etcd.sent) + issued
        invariant var c := Renew(etcd.cell, me, myFitness, rest);
                  c0 == c.(sent := issued + c.sent)
        decreases |rest|
      {
        if rest == [] {
          return false, [], issued;
        }
        // sleep(1)
        var confirmed := Confirm(etcd, rest[0]);
        Concat(old(etcd.sent), issued, [Request(vote, Some(vote), LEADER_TTL)]);
        Concat(issued, [Request(vote, Some(vote), LEADER_TTL)], Renew(etcd.cell, me, myFitness, rest[1..]).sent);
        issued := issued + [Request(vote, Some(vote), LEADER_TTL)];
        rest := rest[1..];
        if confirmed != EXIT_SUCCESS {
          return true, rest, issued;
        }
      }
    }

    /** main's election loop (leader.c:274-302) and its return value (leader.c:305). */
    method Run(etcd: Store, env: seq<EnvStep>) returns (exit: Exit)
      requires etcd.Valid() && ValidSchedule(env) && IsCString(me)
      modifies this`iAmLeader, etcd`cell, etcd`up, etcd`sent
      ensures etcd.Valid()
      ensures var l := Lifecycle(old(etcd.cell), me, myFitness, old(iAmLeader), env);
              && exit == l.exit && etcd.cell == l.cell && etcd.sent == old(etcd.sent) + l.sent
              && iAmLeader == l.iAmLeader
    {
      ghost var l0 := Lifecycle(etcd.cell, me, myFitness, iAmLeader, env);
      ghost var done: seq<Request> := [];
      var todo := env;
      while true
        invariant etcd.Valid() && ValidSchedule(todo)
        invariant etcd.sent == old(etcd.sent) + done
        invariant l0 == PrependLife(done, Lifecycle(etcd.cell, me, myFitness, iAmLeader, todo))
        decreases |todo|
      {
        ghost var l := Lifecycle(etcd.cell, me, myFitness, iAmLeader, todo);
        var over;
        ghost var issued;
        over, exit, todo, issued := Term(etcd, todo);
        Concat(old(etcd.sent), done, issued);
        if over {
          assert l0 == PrependLife(done, l);
          done := done + issued;
          return;
        }
        PrependLifeTwice(done, issued, Lifecycle(etcd.cell, me, myFitness, iAmLeader, todo));
        done := done + issued;
      }
    }

    /**
     * One turn of main's loop: a round, then either the end of the process
     * (the round failed), the leader's refresh loop, or the follower's
     * WatchLeaderChanges, which is an empty placeholder that returns
     * EXIT_SUCCESS (leader.c:168-191), so the loop simply starts over.
     */
    method Term(etcd: Store, todo: seq<EnvStep>)
      returns (over: bool, exit: Exit, rest: seq<EnvStep>, ghost issued: seq<Request>)
      requires etcd.Valid() && ValidSchedule(todo) && IsCString(me)
      modifies this`iAmLeader, etcd`cell, etcd`up, etcd`sent
      ensures etcd.Valid() && ValidSchedule(rest)
      ensures etcd.sent == old(etcd.sent) + issued
      ensures var l := Lifecycle(old(etcd.cell), me, myFitness, old(iAmLeader), todo);
              if over then l == Life(exit, etcd.cell, issued, iAmLeader)
              else |rest| < |todo| && l == PrependLife(issued, Lifecycle(etcd.cell, me, myFitness, iAmLeader, rest))
    {
      LifePass(etcd.cell, me, myFitness, iAmLeader, todo);
      ghost var g := Round(etcd.cell, me, myFitness, todo);
      var retval;
      retval, rest := GetCurrentLeader(etcd, todo);
      if retval != Returned(EXIT_SUCCESS) {
        if retval == Pending {
          return true, Pending, rest, g.sent;
        }
        return true, Returned(EXIT_SUCCESS), rest, g.sent;
      }
      if iAmLeader {
        var lost;
        ghost var kept;
        lost, rest, kept := HoldLeadership(etcd, rest);
        Concat(old(etcd.sent), g.sent, kept);
        if !lost {
          return true, Pending, rest, g.sent + kept;
        }
        return false, Pending, rest, g.sent + kept;
      }
      return false, Pending, rest, g.sent;
    }
  }
}
