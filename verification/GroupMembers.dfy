/**
 Who is in a group, since when and with what: each member's session, the generation, the phase and the leader over whole
 runs, each against a reference of its own, and what every reply says.
 */
module GroupMembers {
  import opened ConsumerGroups
  import opened Options
  import opened GroupRuns

  // ---- One member's session ----

  /** What the coordinator knows of one member. */
  datatype Session = Gone | Session(lastMs: int, timeoutMs: int, protocols: seq<Protocol>)

  function SessionOf(g: Group, k: string): Session
  {
    if k in g.members then Session(g.members[k].lastHeartbeatMs, g.members[k].sessionTimeoutMs, g.members[k].protocols) else Gone
  }

  /** Nothing has been heard for longer than the timeout. */
  predicate Late(s: Session, now: int)
  {
    s.Session? && s.lastMs > 0 && now - s.lastMs > s.timeoutMs
  }

  /** A join with an id that a group with members does not know. */
  predicate Refused(g: Group, req: JoinRequest)
  {
    req.memberId != "" && g.members != map[] && req.memberId !in g.members
  }

  /** A member of a stable group that joins again changes nothing but its own entry. */
  predicate Rejoins(g: Group, req: JoinRequest)
  {
    req.memberId != "" && g.state == Stable && req.memberId in g.members
  }

  predicate Matches(g: Group, req: HeartbeatRequest)
  {
    req.memberId in g.members && req.generation == g.generation
  }

  /** The session of `k` after a request to its group. */
  function SessionAfter(s: Session, g: Group, e: Event, k: string): Session
  {
    match e
    case JoinEvent(r, now, suffix, _) =>
      if IdOf(r, suffix) != k || Refused(g, r) then s
      else Session(now, if Rejoins(g, r) && s.Session? then s.timeoutMs else r.sessionTimeoutMs, r.protocols)
    case HeartbeatEvent(r, now1, now2, _) =>
      if !Matches(g, r) then s
      else
        var t := if r.memberId == k && s.Session? then s.(lastMs := now1) else s;
        if Late(t, now2) then Gone else t
    case LeaveEvent(r, _) => if r.memberId == k then Gone else s
    case _ => s
  }

  lemma JoinSession(g: Group, r: JoinRequest, now: int, suffix: string, order: seq<string>, k: string)
    requires WellFormed(g) && JoinOrder(g, r, suffix, order)
    ensures SessionOf(Join(g, r, now, suffix, order).0, k) == SessionAfter(SessionOf(g, k), g, JoinEvent(r, now, suffix, order), k)
  {}

  lemma HeartbeatSession(g: Group, r: HeartbeatRequest, now1: int, now2: int, order: seq<string>, k: string)
    ensures SessionOf(Heartbeat(g, r, now1, now2, order).0, k) == SessionAfter(SessionOf(g, k), g, HeartbeatEvent(r, now1, now2, order), k)
  {}

  lemma LeaveSession(g: Group, r: LeaveRequest, order: seq<string>, k: string)
    ensures SessionOf(Leave(g, r, order).0, k) == SessionAfter(SessionOf(g, k), g, LeaveEvent(r, order), k)
  {}

  lemma RespondSession(g: Group, e: Event, k: string)
    requires WellFormed(g) && PossibleFor(g, e)
    ensures SessionOf(Respond(g, e).0, k) == SessionAfter(SessionOf(g, k), g, e, k)
  {
    match e
    case JoinEvent(r, now, suffix, order) => JoinSession(g, r, now, suffix, order, k);
    case SyncEvent(_) =>
    case HeartbeatEvent(r, now1, now2, order) => HeartbeatSession(g, r, now1, now2, order, k);
    case LeaveEvent(r, order) => LeaveSession(g, r, order, k);
    case CommitEvent(r) => CommitKeeps(g, r.partitions);
  }

  /** What a step does to a group: the request if it is for it, and nothing to a group that does not exist yet. */
  lemma StepOf(run: seq<Groups>, es: seq<Event>, id: string, n: nat)
    requires IsRun(run, es) && n < |es|
    ensures PossibleFor(Get(run[n], GroupIdOf(es[n])), es[n])
    ensures Get(run[n + 1], id)
         == if GroupIdOf(es[n]) == id && (id in run[n] || es[n].JoinEvent? || es[n].CommitEvent?)
            then Respond(Get(run[n], id), es[n]).0 else Get(run[n], id)
  {}

  /** The session of `k` by the requests to its group alone. */
  ghost function SessionAt(run: seq<Groups>, es: seq<Event>, id: string, k: string, n: nat): Session
    requires IsRun(run, es) && n <= |es|
  {
    if n == 0 then Gone
    else
      var before := SessionAt(run, es, id, k, n - 1);
      if GroupIdOf(es[n - 1]) == id then SessionAfter(before, Get(run[n - 1], id), es[n - 1], k) else before
  }

  /**
   In every reachable state, `k` is a member exactly if its session says so: it joined, has not left since, and was not
   late at any heartbeat of its group; with the clock reading, timeout and protocols of its last requests.
   */
  lemma {:induction false} SessionIs(run: seq<Groups>, es: seq<Event>, id: string, k: string, n: nat)
    requires IsRun(run, es) && n <= |es|
    ensures SessionOf(Get(run[n], id), k) == SessionAt(run, es, id, k, n)
  {
    if n > 0 {
      SessionIs(run, es, id, k, n - 1);
      RunWellFormed(run, es, id, n - 1);
      StepOf(run, es, id, n - 1);
      if GroupIdOf(es[n - 1]) == id {
        RespondSession(Get(run[n - 1], id), es[n - 1], k);
      }
    }
  }

  /** The request is a join of `k` to the group. */
  predicate JoinOf(e: Event, id: string, k: string)
  {
    e.JoinEvent? && e.join.groupId == id && IdOf(e.join, e.suffix) == k
  }

  /** The request is a leave of `k` from the group. */
  predicate LeaveOf(e: Event, id: string, k: string)
  {
    e.LeaveEvent? && e.leave == LeaveRequest(id, k)
  }

  /** Only a join that is let in begins a session, and a leave ends it. */
  lemma SessionStep(run: seq<Groups>, es: seq<Event>, id: string, k: string, n: nat)
    requires IsRun(run, es) && n < |es|
    ensures SessionAt(run, es, id, k, n + 1).Session? ==>
              && !LeaveOf(es[n], id, k)
              && (SessionAt(run, es, id, k, n).Session? || (JoinOf(es[n], id, k) && !Refused(Get(run[n], id), es[n].join)))
    ensures LeaveOf(es[n], id, k) ==> SessionAt(run, es, id, k, n + 1).Gone?
  {}

  /** The sessions of `k` one after another. */
  ghost function Sessions(run: seq<Groups>, es: seq<Event>, id: string, k: string): (ss: seq<Session>)
    requires IsRun(run, es)
    ensures |ss| == |es| + 1
  {
    seq(|es| + 1, j requires 0 <= j <= |es| && IsRun(run, es) => SessionAt(run, es, id, k, j))
  }

  ghost predicate Goes(ss: seq<Session>, es: seq<Event>, id: string, k: string, j: nat)
    requires |ss| == |es| + 1 && j < |es|
  {
    ss[j + 1].Session? ==> !LeaveOf(es[j], id, k) && (ss[j].Session? || JoinOf(es[j], id, k))
  }

  /** No session without a join, none after a leave. */
  ghost predicate Go(ss: seq<Session>, es: seq<Event>, id: string, k: string)
  {
    |ss| == |es| + 1 && ss[0].Gone? && forall j: nat | j < |es| :: Goes(ss, es, id, k, j)
  }

  lemma SessionsGo(run: seq<Groups>, es: seq<Event>, id: string, k: string)
    requires IsRun(run, es)
    ensures Go(Sessions(run, es, id, k), es, id, k)
  {
    forall j: nat | j < |es| ensures Goes(Sessions(run, es, id, k), es, id, k, j) {
      SessionStep(run, es, id, k, j);
    }
  }

  lemma {:induction false} NoneSince(ss: seq<Session>, es: seq<Event>, id: string, k: string, i: nat, n: nat)
    requires Go(ss, es, id, k) && i < n <= |es| && LeaveOf(es[i], id, k) && forall j | i < j < n :: !JoinOf(es[j], id, k)
    ensures ss[n].Gone?
  {
    assert Goes(ss, es, id, k, n - 1);
    if i < n - 1 {
      NoneSince(ss, es, id, k, i, n - 1);
    }
  }

  /** Who has left stays out until it joins again. */
  lemma LeftStaysOut(run: seq<Groups>, es: seq<Event>, id: string, k: string, i: nat, n: nat)
    requires IsRun(run, es) && i < n <= |es| && LeaveOf(es[i], id, k) && forall j | i < j < n :: !JoinOf(es[j], id, k)
    ensures k !in Get(run[n], id).members
  {
    SessionsGo(run, es, id, k);
    NoneSince(Sessions(run, es, id, k), es, id, k, i, n);
    SessionIs(run, es, id, k, n);
  }

  lemma {:induction false} Began(ss: seq<Session>, es: seq<Event>, id: string, k: string, n: nat) returns (i: nat)
    requires Go(ss, es, id, k) && n <= |es| && ss[n].Session?
    ensures i < n && ss[i].Gone? && (forall j | i < j <= n :: ss[j].Session?) && forall j | i <= j < n :: !LeaveOf(es[j], id, k)
  {
    assert Goes(ss, es, id, k, n - 1);
    if ss[n - 1].Session? {
      i := Began(ss, es, id, k, n - 1);
    } else {
      i := n - 1;
    }
  }

  ghost predicate IsMember(run: seq<Groups>, id: string, k: string, j: nat)
  {
    j < |run| && k in Get(run[j], id).members
  }

  /** Whoever is a member joined, was let in, and has been a member and not left since. */
  lemma MemberJoined(run: seq<Groups>, es: seq<Event>, id: string, k: string, n: nat) returns (i: nat)
    requires IsRun(run, es) && n <= |es| && k in Get(run[n], id).members
    ensures i < n && JoinOf(es[i], id, k) && !Refused(Get(run[i], id), es[i].join) && !IsMember(run, id, k, i)
    ensures (forall j: nat | i < j <= n :: IsMember(run, id, k, j)) && forall j | i <= j < n :: !LeaveOf(es[j], id, k)
  {
    var ss := Sessions(run, es, id, k);
    SessionIs(run, es, id, k, n);
    SessionsGo(run, es, id, k);
    i := Began(ss, es, id, k, n);
    assert ss[i] == SessionAt(run, es, id, k, i) && ss[i + 1] == SessionAt(run, es, id, k, i + 1);
    SessionStep(run, es, id, k, i);
    SessionIs(run, es, id, k, i);
    forall j: nat | i < j <= n ensures IsMember(run, id, k, j) {
      assert ss[j] == SessionAt(run, es, id, k, j);
      SessionIs(run, es, id, k, j);
    }
  }

  /** A heartbeat that matches throws out exactly the members that are late, its caller's clock set first. */
  lemma HeartbeatThrowsOutLate(run: seq<Groups>, es: seq<Event>, id: string, n: nat, k: string)
    requires IsRun(run, es) && n < |es| && es[n].HeartbeatEvent? && es[n].beat.groupId == id && Matches(Get(run[n], id), es[n].beat)
    requires k in Get(run[n], id).members
    ensures var s := SessionAt(run, es, id, k, n);
            && s.Session?
            && var t := if k == es[n].beat.memberId then s.(lastMs := es[n].now1) else s;
            (k in Get(run[n + 1], id).members <==> !Late(t, es[n].now2))
  {
    SessionIs(run, es, id, k, n);
    SessionIs(run, es, id, k, n + 1);
  }

  // ---- The generation ----

  predicate SomeLate(g: Group, req: HeartbeatRequest, now1: int, now2: int)
  {
    exists k | k in g.members :: Expired(Beaten(g, req, now1)[k], now2)
  }

  function Beaten(g: Group, req: HeartbeatRequest, now1: int): (ms: map<string, Member>)
    ensures ms.Keys == g.members.Keys
  {
    if req.memberId in g.members then g.members[req.memberId := g.members[req.memberId].(lastHeartbeatMs := now1)] else g.members
  }

  /** The request starts a new generation: a join let in, a member leaving, or some members but not all late. */
  ghost predicate Rebalances(g: Group, e: Event)
  {
    match e
    case JoinEvent(r, _, _, _) => !Refused(g, r) && !Rejoins(g, r)
    case HeartbeatEvent(r, now1, now2, _) => Matches(g, r) && SomeLate(g, r, now1, now2) && !AllExpire(g, r, now1, now2)
    case LeaveEvent(r, _) => r.memberId in g.members
    case _ => false
  }

  /** And the phase it leaves a group with members in. */
  function PhaseAfter(e: Event): GroupState
  {
    if e.JoinEvent? then CompletingRebalance else PreparingRebalance
  }

  ghost predicate Turns(g: Group, e: Event, g': Group)
  {
    && g'.generation == g.generation + (if Rebalances(g, e) then 1 else 0)
    && (Rebalances(g, e) && g'.members != map[] ==> g'.state == PhaseAfter(e))
    && (!Rebalances(g, e) && g'.members != map[] ==> g'.state == if e.SyncEvent? && Applies(g, e.sync) then Stable else g.state)
  }

  lemma JoinTurns(g: Group, r: JoinRequest, now: int, suffix: string, order: seq<string>)
    requires WellFormed(g) && JoinOrder(g, r, suffix, order)
    ensures Turns(g, JoinEvent(r, now, suffix, order), Join(g, r, now, suffix, order).0)
  {}

  lemma NoneLate(g: Group, req: HeartbeatRequest, now1: int, now2: int)
    requires req.memberId in g.members
    ensures Survivors(Beaten(g, req, now1), now2) == Beaten(g, req, now1) <==> !SomeLate(g, req, now1, now2)
  {
    var ms := Beaten(g, req, now1);
    if !SomeLate(g, req, now1, now2) {
      assert forall k | k in ms :: !Expired(ms[k], now2);
    } else {
      var k :| k in g.members && Expired(ms[k], now2);
      assert k in ms && k !in Survivors(ms, now2);
    }
  }

  lemma HeartbeatTurns(g: Group, r: HeartbeatRequest, now1: int, now2: int, order: seq<string>)
    requires WellFormed(g)
    ensures Turns(g, HeartbeatEvent(r, now1, now2, order), Heartbeat(g, r, now1, now2, order).0)
  {
    if Matches(g, r) {
      NoneLate(g, r, now1, now2);
      EverybodyGone(g, r, now1, now2, order);
    }
  }

  lemma RespondTurns(g: Group, e: Event)
    requires WellFormed(g) && PossibleFor(g, e)
    ensures Turns(g, e, Respond(g, e).0)
  {
    match e
    case JoinEvent(r, now, suffix, order) => JoinTurns(g, r, now, suffix, order);
    case SyncEvent(_) =>
    case HeartbeatEvent(r, now1, now2, order) => HeartbeatTurns(g, r, now1, now2, order);
    case LeaveEvent(_, _) =>
    case CommitEvent(r) => CommitKeeps(g, r.partitions);
  }

  ghost predicate RebalancesAt(run: seq<Groups>, es: seq<Event>, id: string, n: nat)
    requires IsRun(run, es) && n < |es|
  {
    GroupIdOf(es[n]) == id && Rebalances(Get(run[n], id), es[n])
  }

  ghost function CountRebalances(run: seq<Groups>, es: seq<Event>, id: string, n: nat): nat
    requires IsRun(run, es) && n <= |es|
  {
    if n == 0 then 0 else CountRebalances(run, es, id, n - 1) + if RebalancesAt(run, es, id, n - 1) then 1 else 0
  }

  lemma StepTurns(run: seq<Groups>, es: seq<Event>, id: string, n: nat)
    requires IsRun(run, es) && n < |es|
    ensures if GroupIdOf(es[n]) == id then Turns(Get(run[n], id), es[n], Get(run[n + 1], id))
            else Get(run[n + 1], id) == Get(run[n], id)
  {
    RunWellFormed(run, es, id, n);
    StepOf(run, es, id, n);
    if GroupIdOf(es[n]) == id {
      RespondTurns(Get(run[n], id), es[n]);
    }
  }

  /** In every run the generation is the number of rebalances so far. */
  lemma {:induction false} GenerationCountsRebalances(run: seq<Groups>, es: seq<Event>, id: string, n: nat)
    requires IsRun(run, es) && n <= |es|
    ensures Get(run[n], id).generation == CountRebalances(run, es, id, n)
  {
    if n > 0 {
      GenerationCountsRebalances(run, es, id, n - 1);
      StepTurns(run, es, id, n - 1);
    }
  }

  /** The last request that started a generation. */
  ghost function LastRebalance(run: seq<Groups>, es: seq<Event>, id: string, n: nat): Option<nat>
    requires IsRun(run, es) && n <= |es|
  {
    if n == 0 then None else if RebalancesAt(run, es, id, n - 1) then Some(n - 1) else LastRebalance(run, es, id, n - 1)
  }

  /** A group with members that is not stable is waiting for syncs if the last rebalance was a join, for joins if not. */
  lemma {:induction false} PhaseIs(run: seq<Groups>, es: seq<Event>, id: string, n: nat)
    requires IsRun(run, es) && n <= |es| && Get(run[n], id).members != map[]
    ensures var last := LastRebalance(run, es, id, n);
            last.Some? && last.value < n && (Get(run[n], id).state == Stable || Get(run[n], id).state == PhaseAfter(es[last.value]))
  {
    StepTurns(run, es, id, n - 1);
    if !RebalancesAt(run, es, id, n - 1) {
      RunWellFormed(run, es, id, n - 1);
      StepMoves(run[n - 1], es[n - 1], id);
      PhaseIs(run, es, id, n - 1);
    }
  }

  // ---- The leader ----

  lemma RespondKeepsLeader(g: Group, e: Event)
    requires WellFormed(g) && PossibleFor(g, e) && g.leader in Respond(g, e).0.members
    ensures Respond(g, e).0.leader == g.leader
  {
    match e
    case CommitEvent(r) => CommitKeeps(g, r.partitions);
    case _ =>
  }

  /** The leader leads as long as it is a member, whatever generations pass. */
  lemma StepKeepsLeader(run: seq<Groups>, es: seq<Event>, id: string, n: nat)
    requires IsRun(run, es) && n < |es| && Get(run[n], id).leader in Get(run[n + 1], id).members
    ensures Get(run[n + 1], id).leader == Get(run[n], id).leader
  {
    RunWellFormed(run, es, id, n);
    StepOf(run, es, id, n);
    if GroupIdOf(es[n]) == id && (id in run[n] || es[n].JoinEvent? || es[n].CommitEvent?) {
      RespondKeepsLeader(Get(run[n], id), es[n]);
    }
  }

  lemma {:induction false} LeaderLeads(run: seq<Groups>, es: seq<Event>, id: string, i: nat, n: nat)
    requires IsRun(run, es) && i <= n <= |es| && forall j: nat | i <= j <= n :: IsMember(run, id, Get(run[i], id).leader, j)
    ensures Get(run[n], id).leader == Get(run[i], id).leader
  {
    if i < n {
      LeaderLeads(run, es, id, i, n - 1);
      assert IsMember(run, id, Get(run[i], id).leader, n);
      StepKeepsLeader(run, es, id, n - 1);
    }
  }

  // ---- What replies say ----

  /** The first entry of that name. */
  lemma {:induction false} MetadataIsFirst(ps: seq<Protocol>, name: string, i: nat)
    requires i < |ps| && ps[i].name == name && forall j | 0 <= j < i :: ps[j].name != name
    ensures MetadataFor(ps, name) == ps[i].metadata
  {
    if i > 0 {
      MetadataIsFirst(ps[1..], name, i - 1);
    }
  }

  lemma {:induction false} ListCarriesMetadata(order: seq<string>, ms: map<string, Member>, name: string, i: nat)
    requires (forall k | k in order :: k in ms) && i < |order|
    ensures MemberList(order, ms, name)[i] == JoinMember(order[i], MetadataFor(ms[order[i]].protocols, name))
  {
    if i < |order| - 1 {
      ListCarriesMetadata(order[..|order| - 1], ms, name, i);
    }
  }

  /**
   What a join is answered. It is refused exactly if it names an id that a group with members does not know. Otherwise it
   is told the generation, protocol and leader of the group it is then a member of; the generation is a new one unless it
   rejoined a stable group.
   */
  lemma JoinAnswers(run: seq<Groups>, es: seq<Event>, n: nat)
    requires IsRun(run, es) && n < |es| && es[n].JoinEvent?
    ensures var id, k := es[n].join.groupId, IdOf(es[n].join, es[n].suffix);
            var g, g', resp := Get(run[n], id), Get(run[n + 1], id), Handle(run[n], es[n]).1.join;
            && resp.memberId == k && (resp.error == if Refused(g, es[n].join) then UNKNOWN_MEMBER_ID else NONE)
            && (resp.error == NONE ==>
                  && k in g'.members && resp.generation == g'.generation && resp.leader == g'.leader && resp.protocolName == g'.protocolName
                  && resp.generation == g.generation + (if Rejoins(g, es[n].join) then 0 else 1)
                  && (k != g'.leader ==> resp.members == []))
            && (resp.error != NONE ==> g'.members == g.members && g'.generation == g.generation && g'.state == g.state)
  {
    RunWellFormed(run, es, es[n].join.groupId, n);
    StepOf(run, es, es[n].join.groupId, n);
  }

  lemma JoinLists(g: Group, r: JoinRequest, now: int, suffix: string, order: seq<string>)
    requires WellFormed(g) && JoinOrder(g, r, suffix, order) && !Refused(g, r)
    ensures var (g', resp) := Join(g, r, now, suffix, order);
            && Enumerates(order, g'.members.Keys) && (forall k | k in order :: k in g'.members)
            && (resp.leader == resp.memberId ==> resp.members == MemberList(order, g'.members, g'.protocolName))
            && (!Rejoins(g, r) ==> g'.protocolName == ChooseProtocol(order, g'.members))
  {
    var g' := Join(g, r, now, suffix, order).0;
    assert g'.members.Keys == g.members.Keys + {IdOf(r, suffix)};
    assert forall k | k in order :: k in (set x | x in order);
  }

  /** The leader is given, for each member of the list, what that member said last of the protocol chosen. */
  lemma LeaderListCarries(run: seq<Groups>, es: seq<Event>, n: nat, i: nat)
    requires IsRun(run, es) && n < |es| && es[n].JoinEvent?
    requires var resp := Handle(run[n], es[n]).1.join; resp.error == NONE && resp.leader == resp.memberId && i < |resp.members|
    ensures var resp, id := Handle(run[n], es[n]).1.join, es[n].join.groupId; var k := resp.members[i].memberId;
            && SessionAt(run, es, id, k, n + 1).Session?
            && resp.members[i].metadata == MetadataFor(SessionAt(run, es, id, k, n + 1).protocols, resp.protocolName)
  {
    var resp, id := Handle(run[n], es[n]).1.join, es[n].join.groupId;
    var g' := Get(run[n + 1], id);
    RunWellFormed(run, es, id, n);
    StepOf(run, es, id, n);
    JoinLists(Get(run[n], id), es[n].join, es[n].now, es[n].suffix, es[n].order);
    ListCarriesMetadata(es[n].order, g'.members, g'.protocolName, i);
    SessionIs(run, es, id, resp.members[i].memberId, n + 1);
  }

  /** A join that starts a generation settles on a protocol all members support, if there is one. */
  lemma JoinChoosesCommon(run: seq<Groups>, es: seq<Event>, n: nat, name: string)
    requires IsRun(run, es) && n < |es| && es[n].JoinEvent? && Rebalances(Get(run[n], es[n].join.groupId), es[n])
    requires var ms := Get(run[n + 1], es[n].join.groupId).members; SupportedByAll(ms, name) && forall k | k in ms :: DistinctNames(ms[k])
    ensures SupportedByAll(Get(run[n + 1], es[n].join.groupId).members, Handle(run[n], es[n]).1.join.protocolName)
  {
    var id := es[n].join.groupId;
    RunWellFormed(run, es, id, n);
    StepOf(run, es, id, n);
    JoinLists(Get(run[n], id), es[n].join, es[n].now, es[n].suffix, es[n].order);
    ChosenIsCommon(es[n].order, Get(run[n + 1], id).members, name);
  }

  /** Which error a sync gets: 25 from a stranger, 22 for another generation, else none. */
  lemma SyncAnswersError(run: seq<Groups>, es: seq<Event>, n: nat)
    requires IsRun(run, es) && n < |es| && es[n].SyncEvent?
    ensures var g, req := Get(run[n], es[n].sync.groupId), es[n].sync;
            Handle(run[n], es[n]).1.sync.error
            == if SessionAt(run, es, req.groupId, req.memberId, n).Gone? then UNKNOWN_MEMBER_ID
               else if req.generation != CountRebalances(run, es, req.groupId, n) then ILLEGAL_GENERATION
               else NONE
  {
    SessionIs(run, es, es[n].sync.groupId, es[n].sync.memberId, n);
    GenerationCountsRebalances(run, es, es[n].sync.groupId, n);
  }

  /** Which error a heartbeat gets: the same, or 27 if members are left and the group is not stable. */
  lemma HeartbeatAnswersError(run: seq<Groups>, es: seq<Event>, n: nat)
    requires IsRun(run, es) && n < |es| && es[n].HeartbeatEvent?
    ensures var req := es[n].beat; var g' := Get(run[n + 1], req.groupId);
            Handle(run[n], es[n]).1.error
            == if SessionAt(run, es, req.groupId, req.memberId, n).Gone? then UNKNOWN_MEMBER_ID
               else if req.generation != CountRebalances(run, es, req.groupId, n) then ILLEGAL_GENERATION
               else if g'.members != map[] && g'.state != Stable then REBALANCE_IN_PROGRESS
               else NONE
  {
    var id := es[n].beat.groupId;
    SessionIs(run, es, id, es[n].beat.memberId, n);
    GenerationCountsRebalances(run, es, id, n);
    RunWellFormed(run, es, id, n);
    RunWellFormed(run, es, id, n + 1);
    StepOf(run, es, id, n);
  }

  /** A leave of a member: it alone goes, in a new generation, and another leads only if it was the leader. */
  lemma LeaveAnswers(run: seq<Groups>, es: seq<Event>, n: nat)
    requires IsRun(run, es) && n < |es| && es[n].LeaveEvent?
    ensures var id, k := es[n].leave.groupId, es[n].leave.memberId; var g, g' := Get(run[n], id), Get(run[n + 1], id);
            && (Handle(run[n], es[n]).1 == ErrorReply(if id in run[n] && k !in g.members then UNKNOWN_MEMBER_ID else NONE))
            && (k !in g.members ==> run[n + 1] == run[n])
            && (k in g.members ==>
                  && g'.members == g.members - {k} && g'.generation == g.generation + 1
                  && (g'.members != map[] ==> g'.leader in g'.members && (k != g.leader ==> g'.leader == g.leader))
                  && g'.offsets == g.offsets && g'.metadata == g.metadata)
  {
    var id := es[n].leave.groupId;
    RunWellFormed(run, es, id, n);
    RunWellFormed(run, es, id, n + 1);
    StepOf(run, es, id, n);
  }
}
