/** What holds of every group over every run of the coordinator. */
module GroupRuns {
  import opened ConsumerGroups
  import opened Options

  // ---- Well-formed groups ----

  ghost predicate WellFormed(g: Group)
  {
    && (g.state == Empty <==> g.members == map[])
    && g.state != Dead
    && (g.members != map[] ==> g.leader in g.members)
    && (g.members == map[] ==> g.leader == "")
    && "" !in g.members
    && (forall id | id in g.members :: g.members[id].memberId == id)
    && g.offsets.Keys == g.metadata.Keys
    && g.generation >= 0
  }

  /**
   What one request may do to a group: the generation never falls, and while it stays and members
   remain, the membership and the leader stay.
   */
  ghost predicate Moves(g: Group, g': Group)
  {
    && g.generation <= g'.generation
    && (g'.generation == g.generation && g'.members != map[] ==>
          g.members != map[] && g'.members.Keys == g.members.Keys && g'.leader == g.leader)
  }

  lemma JoinMoves(g: Group, req: JoinRequest, now: int, suffix: string, order: seq<string>)
    requires WellFormed(g) && JoinOrder(g, req, suffix, order)
    ensures WellFormed(Join(g, req, now, suffix, order).0) && Moves(g, Join(g, req, now, suffix, order).0)
  {
    assert IdOf(req, suffix) != "";
    var g' := Join(g, req, now, suffix, order).0;
    if g'.generation == g.generation {
      assert g'.members.Keys == g.members.Keys;
    } else {
      assert IdOf(req, suffix) in g'.members;
    }
  }

  lemma SyncMoves(g: Group, req: SyncRequest)
    requires WellFormed(g)
    ensures WellFormed(Sync(g, req).0) && Moves(g, Sync(g, req).0)
  {
    if Applies(g, req) {
      assert Assigned(g.members, req.assignments).Keys == g.members.Keys;
    }
  }

  lemma FirstSurvives<V>(order: seq<string>, ms: map<string, V>, alive: map<string, V>)
    requires Enumerates(order, ms.Keys) && alive.Keys <= ms.Keys && alive != map[]
    ensures First(order, alive) in alive
  {
    var k :| k in alive;
    assert k in order;
    FirstIsKey(order, alive);
  }

  lemma PurgeMoves(g: Group, now: int, order: seq<string>)
    requires WellFormed(g) && Enumerates(order, g.members.Keys)
    ensures WellFormed(Purge(g, now, order)) && Moves(g, Purge(g, now, order))
  {
    var alive := Survivors(g.members, now);
    assert alive.Keys <= g.members.Keys;
    if alive != map[] {
      FirstSurvives(order, g.members, alive);
    }
  }

  lemma HeartbeatMoves(g: Group, req: HeartbeatRequest, now1: int, now2: int, order: seq<string>)
    requires WellFormed(g) && Enumerates(order, g.members.Keys)
    ensures WellFormed(Heartbeat(g, req, now1, now2, order).0) && Moves(g, Heartbeat(g, req, now1, now2, order).0)
  {
    if req.memberId in g.members && req.generation == g.generation {
      var ms := g.members[req.memberId := g.members[req.memberId].(lastHeartbeatMs := now1)];
      assert ms.Keys == g.members.Keys;
      PurgeMoves(g.(members := ms), now2, order);
    }
  }

  lemma LeaveMoves(g: Group, req: LeaveRequest, order: seq<string>)
    requires WellFormed(g) && Enumerates(order, g.members.Keys)
    ensures WellFormed(Leave(g, req, order).0) && Moves(g, Leave(g, req, order).0)
  {
    var ms := g.members - {req.memberId};
    if ms != map[] {
      FirstSurvives(order, g.members, ms);
    }
  }

  lemma {:induction false} CommitKeeps(g: Group, ps: seq<CommitPartition>)
    ensures Commit(g, ps) == g.(offsets := Commit(g, ps).offsets, metadata := Commit(g, ps).metadata)
    ensures g.offsets.Keys == g.metadata.Keys ==> Commit(g, ps).offsets.Keys == Commit(g, ps).metadata.Keys
  {
    if ps != [] {
      CommitKeeps(g, ps[..|ps| - 1]);
    }
  }

  /** Every request keeps its group well-formed and moves it as allowed. */
  lemma RespondMoves(g: Group, e: Event)
    requires WellFormed(g) && PossibleFor(g, e)
    ensures WellFormed(Respond(g, e).0) && Moves(g, Respond(g, e).0)
  {
    match e {
      case JoinEvent(r, now, suffix, order) => JoinMoves(g, r, now, suffix, order);
      case SyncEvent(r) => SyncMoves(g, r);
      case HeartbeatEvent(r, now1, now2, order) => HeartbeatMoves(g, r, now1, now2, order);
      case LeaveEvent(r, order) => LeaveMoves(g, r, order);
      case CommitEvent(r) => CommitKeeps(g, r.partitions);
    }
  }

  // ---- Runs ----

  /** `run[i]` is the coordinator before event `i`; it starts with no groups. */
  ghost predicate IsRun(run: seq<Groups>, es: seq<Event>)
  {
    && |run| == |es| + 1 && run[0] == map[]
    && forall i | 0 <= i < |es| :: Possible(run[i], es[i]) && run[i + 1] == Handle(run[i], es[i]).0
  }

  /** The states one group goes through. */
  ghost function Trail(run: seq<Groups>, id: string): seq<Group>
  {
    seq(|run|, i requires 0 <= i < |run| => Get(run[i], id))
  }

  ghost predicate IsTrail(t: seq<Group>)
  {
    && (forall i | 0 <= i < |t| :: WellFormed(t[i]))
    && (forall i, j | 0 <= i && j == i + 1 < |t| :: Moves(t[i], t[j]))
  }

  lemma StepMoves(gs: Groups, e: Event, id: string)
    requires Possible(gs, e) && WellFormed(Get(gs, id))
    ensures WellFormed(Get(Handle(gs, e).0, id)) && Moves(Get(gs, id), Get(Handle(gs, e).0, id))
    ensures id != GroupIdOf(e) ==> Get(Handle(gs, e).0, id) == Get(gs, id)
  {
    if id == GroupIdOf(e) {
      RespondMoves(Get(gs, id), e);
    }
  }

  /** In every reachable state every group is well-formed. */
  lemma {:induction false} RunWellFormed(run: seq<Groups>, es: seq<Event>, id: string, n: nat)
    requires IsRun(run, es) && n <= |es|
    ensures WellFormed(Get(run[n], id))
  {
    if n > 0 {
      RunWellFormed(run, es, id, n - 1);
      StepMoves(run[n - 1], es[n - 1], id);
    }
  }

  /** Every run takes each group along a trail. */
  lemma RunIsTrail(run: seq<Groups>, es: seq<Event>, id: string)
    requires IsRun(run, es)
    ensures IsTrail(Trail(run, id))
  {
    var t := Trail(run, id);
    forall i | 0 <= i < |t| ensures WellFormed(t[i]) {
      RunWellFormed(run, es, id, i);
    }
    forall i, j | 0 <= i && j == i + 1 < |t| ensures Moves(t[i], t[j]) {
      RunWellFormed(run, es, id, i);
      StepMoves(run[i], es[i], id);
    }
  }

  /** Along a trail generations never decrease. */
  lemma {:induction false} GenerationsGrow(t: seq<Group>, i: nat, j: nat)
    requires IsTrail(t) && i <= j < |t|
    ensures t[i].generation <= t[j].generation
  {
    if i < j {
      GenerationsGrow(t, i, j - 1);
      assert Moves(t[j - 1], t[j]);
    }
  }

  /** As long as a generation lasts with members present, membership and leader are fixed. */
  lemma {:induction false} MembershipFixed(t: seq<Group>, i: nat, j: nat)
    requires IsTrail(t) && i <= j < |t|
    requires t[i].generation == t[j].generation && t[j].members != map[]
    ensures t[i].members.Keys == t[j].members.Keys && t[i].leader == t[j].leader
  {
    if i < j {
      GenerationsGrow(t, i, j - 1);
      assert Moves(t[j - 1], t[j]);
      MembershipFixed(t, i, j - 1);
    }
  }

  /** The request at step `n` is a SyncGroup whose assignments are taken over. */
  ghost predicate AppliedAt(run: seq<Groups>, es: seq<Event>, n: nat, id: string)
    requires IsRun(run, es) && n < |es|
  {
    es[n].SyncEvent? && es[n].sync.groupId == id && id in run[n] && Applies(run[n][id], es[n].sync)
  }

  /** All assignment-carrying syncs taken over in one generation come from one member. */
  lemma OneAssignerPerGeneration(run: seq<Groups>, es: seq<Event>, id: string, i: nat, j: nat)
    requires IsRun(run, es) && i <= j < |es| && AppliedAt(run, es, i, id) && AppliedAt(run, es, j, id)
    requires es[i].sync.generation == es[j].sync.generation
    ensures es[i].sync.memberId == es[j].sync.memberId
  {
    RunIsTrail(run, es, id);
    MembershipFixed(Trail(run, id), i, j);
  }

  /**
   When the leader's SyncGroup of generation g is taken over, the member list any JoinGroup reply of
   generation g gave its leader is exactly the membership, each member once, and the leader is the same.
   */
  lemma LeaderKnowsMembership(run: seq<Groups>, es: seq<Event>, id: string, i: nat, j: nat)
    requires IsRun(run, es) && i < j < |es| && AppliedAt(run, es, j, id)
    requires es[i].JoinEvent? && es[i].join.groupId == id
    requires var resp := Handle(run[i], es[i]).1.join;
             resp.error == NONE && resp.generation == es[j].sync.generation && resp.leader == resp.memberId
    ensures var resp := Handle(run[i], es[i]).1.join;
            && resp.memberId == es[j].sync.memberId
            && |resp.members| == |run[j][id].members|
            && (set m | m in resp.members :: m.memberId) == run[j][id].members.Keys
  {
    var resp, g' := Handle(run[i], es[i]).1.join, Get(run[i + 1], id);
    assert g' == Join(Get(run[i], id), es[i].join, es[i].now, es[i].suffix, es[i].order).0;
    RunIsTrail(run, es, id);
    ListIsMembership(Get(run[i], id), es[i].join, es[i].now, es[i].suffix, es[i].order);
    MembershipFixed(Trail(run, id), i + 1, j);
  }

  lemma {:induction false} EnumSize(order: seq<string>, keys: set<string>)
    requires Enumerates(order, keys)
    ensures |order| == |keys|
  {
    if order == [] {
      assert keys == {};
    } else {
      var k := order[|order| - 1];
      var rest := order[..|order| - 1];
      assert Enumerates(rest, keys - {k}) by {
        forall x ensures x in rest <==> x in keys - {k} {
          if x in keys - {k} { assert x in order; }
        }
        assert (set x | x in rest) == keys - {k};
      }
      EnumSize(rest, keys - {k});
    }
  }

  /** The ids of a member list are the ids it was built from. */
  lemma ListIds(order: seq<string>, ms: map<string, Member>, name: string)
    requires forall k | k in order :: k in ms
    ensures (set m | m in MemberList(order, ms, name) :: m.memberId) == (set k | k in order)
  {
    var r := MemberList(order, ms, name);
    forall k | k in order ensures k in (set m | m in r :: m.memberId) {
      var i :| 0 <= i < |order| && order[i] == k;
      assert r[i] in r && r[i].memberId == k;
    }
  }

  lemma JoinedLists(g: Group, id: string, order: seq<string>)
    requires Enumerates(order, g.members.Keys) && (forall k | k in order :: k in g.members) && g.leader == id
    ensures var resp := Joined(g, id, order);
            |resp.members| == |g.members| && (set m | m in resp.members :: m.memberId) == g.members.Keys
  {
    EnumSize(order, g.members.Keys);
    ListIds(order, g.members, g.protocolName);
  }

  lemma ListIsMembership(g: Group, req: JoinRequest, now: int, suffix: string, order: seq<string>)
    requires JoinOrder(g, req, suffix, order)
    requires var (g', resp) := Join(g, req, now, suffix, order); resp.error == NONE && resp.leader == resp.memberId
    ensures var (g', resp) := Join(g, req, now, suffix, order);
            && resp.leader == g'.leader && resp.generation == g'.generation
            && |resp.members| == |g'.members|
            && (set m | m in resp.members :: m.memberId) == g'.members.Keys
  {
    var (g', resp) := Join(g, req, now, suffix, order);
    var id := IdOf(req, suffix);
    assert g'.members.Keys == g.members.Keys + {id};
    assert forall k | k in order :: k in g.members.Keys + {id};
    JoinedLists(g', id, order);
  }

  // ---- Fencing ----

  /** A request of another generation is refused and changes nothing. */
  lemma StaleIsRefused(g: Group, e: Event)
    requires PossibleFor(g, e)
    requires e.SyncEvent? || e.HeartbeatEvent?
    requires (if e.SyncEvent? then e.sync.generation else e.beat.generation) != g.generation
    ensures Respond(g, e).0 == g
    ensures Respond(g, e).1 == if e.SyncEvent? then SyncReply(SyncResponse(Respond(g, e).1.sync.error, []))
                               else ErrorReply(Respond(g, e).1.error)
    ensures (if e.SyncEvent? then Respond(g, e).1.sync.error else Respond(g, e).1.error) in {ILLEGAL_GENERATION, UNKNOWN_MEMBER_ID}
  {}

  /** Once a group's generation has passed g, no later sync or heartbeat carrying g succeeds or changes anything. */
  lemma Fenced(run: seq<Groups>, es: seq<Event>, id: string, i: nat, j: nat)
    requires IsRun(run, es) && i <= j < |es| && GroupIdOf(es[j]) == id
    requires es[j].SyncEvent? || es[j].HeartbeatEvent?
    requires (if es[j].SyncEvent? then es[j].sync.generation else es[j].beat.generation) < Get(run[i], id).generation
    ensures run[j + 1] == run[j]
    ensures (if es[j].SyncEvent? then Handle(run[j], es[j]).1.sync.error else Handle(run[j], es[j]).1.error) != NONE
  {
    RunIsTrail(run, es, id);
    GenerationsGrow(Trail(run, id), i, j);
    StaleIsRefused(Get(run[j], id), es[j]);
  }

  // ---- What a stable group has behind it ----

  /** A sync of this generation was taken over at step `i`. */
  ghost predicate TakenOver(run: seq<Groups>, es: seq<Event>, id: string, i: nat, generation: int)
    requires IsRun(run, es)
  {
    i < |es| && AppliedAt(run, es, i, id) && es[i].sync.generation == generation
  }

  /** Step `i` took over assignments of this generation: a member they name holds what they give it, any other what it had. */
  ghost predicate AssignedBy(run: seq<Groups>, es: seq<Event>, id: string, i: nat, g: Group)
    requires IsRun(run, es)
  {
    && TakenOver(run, es, id, i, g.generation) && es[i].sync.memberId == g.leader && run[i][id].members.Keys == g.members.Keys
    && forall k | k in g.members :: g.members[k].assignment == GivenBy(run, es, id, i, k)
  }

  /** What member `k` has from the sync taken over at step `i`. */
  ghost function GivenBy(run: seq<Groups>, es: seq<Event>, id: string, i: nat, k: string): Blob
    requires IsRun(run, es) && i < |es| && AppliedAt(run, es, i, id) && k in run[i][id].members
  {
    if LastFor(es[i].sync.assignments, k).Some? then LastFor(es[i].sync.assignments, k).value
    else run[i][id].members[k].assignment
  }

  /** A request that is not a taken-over sync leaves a stable group's assignments alone. */
  lemma StableKeepsAssignments(g: Group, e: Event)
    requires WellFormed(g) && PossibleFor(g, e)
    requires Respond(g, e).0.state == Stable && !(e.SyncEvent? && Applies(g, e.sync))
    ensures g.state == Stable && Respond(g, e).0.generation == g.generation && Respond(g, e).0.leader == g.leader
    ensures Respond(g, e).0.members.Keys == g.members.Keys
    ensures forall k | k in g.members :: Respond(g, e).0.members[k].assignment == g.members[k].assignment
  {
    match e {
      case JoinEvent(r, now, suffix, order) => StableJoin(g, r, now, suffix, order);
      case HeartbeatEvent(r, now1, now2, order) => StableHeartbeat(g, r, now1, now2, order);
      case CommitEvent(r) => CommitKeeps(g, r.partitions);
      case _ =>
    }
  }

  lemma StableJoin(g: Group, req: JoinRequest, now: int, suffix: string, order: seq<string>)
    requires WellFormed(g) && JoinOrder(g, req, suffix, order)
    requires Join(g, req, now, suffix, order).0.state == Stable
    ensures var g' := Join(g, req, now, suffix, order).0;
            && g.state == Stable && g'.generation == g.generation && g'.leader == g.leader
            && g'.members.Keys == g.members.Keys
            && forall k | k in g.members :: g'.members[k].assignment == g.members[k].assignment
  {}

  lemma StableHeartbeat(g: Group, req: HeartbeatRequest, now1: int, now2: int, order: seq<string>)
    requires WellFormed(g)
    requires Heartbeat(g, req, now1, now2, order).0.state == Stable
    ensures var g' := Heartbeat(g, req, now1, now2, order).0;
            && g.state == Stable && g'.generation == g.generation && g'.leader == g.leader
            && g'.members.Keys == g.members.Keys
            && forall k | k in g.members :: g'.members[k].assignment == g.members[k].assignment
  {}

  /**
   A Stable group has had its leader's sync taken over at exactly its current generation, and each
   member has what the last such sync gave it, or, left out there, what it had before.
   */
  lemma {:induction false} StableIsAssigned(run: seq<Groups>, es: seq<Event>, id: string, n: nat) returns (i: nat)
    requires IsRun(run, es) && n <= |es| && Get(run[n], id).state == Stable
    ensures i < n && AssignedBy(run, es, id, i, Get(run[n], id))
  {
    if AppliedAt(run, es, n - 1, id) {
      i := n - 1;
      assert Get(run[n], id) == Sync(run[i][id], es[i].sync).0;
    } else {
      RunWellFormed(run, es, id, n - 1);
      if GroupIdOf(es[n - 1]) == id && id in run[n] {
        StableStep(run[n - 1], es[n - 1], id);
      }
      i := StableIsAssigned(run, es, id, n - 1);
    }
  }

  /** Within a generation with members present a stable group stays stable. */
  ghost predicate Calm(g: Group, g': Group)
  {
    g'.generation == g.generation && g'.members != map[] && g.state == Stable ==> g'.state == Stable
  }

  lemma JoinCalm(g: Group, req: JoinRequest, now: int, suffix: string, order: seq<string>)
    requires JoinOrder(g, req, suffix, order)
    ensures Calm(g, Join(g, req, now, suffix, order).0)
  {}

  lemma HeartbeatCalm(g: Group, req: HeartbeatRequest, now1: int, now2: int, order: seq<string>)
    ensures Calm(g, Heartbeat(g, req, now1, now2, order).0)
  {}

  lemma RespondCalm(g: Group, e: Event)
    requires PossibleFor(g, e)
    ensures Calm(g, Respond(g, e).0)
  {
    match e
    case JoinEvent(r, now, suffix, order) => JoinCalm(g, r, now, suffix, order);
    case SyncEvent(_) =>
    case HeartbeatEvent(r, now1, now2, order) => HeartbeatCalm(g, r, now1, now2, order);
    case LeaveEvent(_, _) =>
    case CommitEvent(r) => CommitKeeps(g, r.partitions);
  }

  ghost predicate IsCalm(t: seq<Group>)
  {
    forall i, j | 0 <= i && j == i + 1 < |t| :: Calm(t[i], t[j])
  }

  lemma RunIsCalm(run: seq<Groups>, es: seq<Event>, id: string)
    requires IsRun(run, es)
    ensures IsTrail(Trail(run, id)) && IsCalm(Trail(run, id))
  {
    RunIsTrail(run, es, id);
    var t := Trail(run, id);
    forall i, j | 0 <= i && j == i + 1 < |t| ensures Calm(t[i], t[j]) {
      if GroupIdOf(es[i]) == id {
        RespondCalm(t[i], es[i]);
      }
    }
  }

  lemma {:induction false} CalmStable(t: seq<Group>, i: nat, n: nat)
    requires IsTrail(t) && IsCalm(t) && i <= n < |t|
    requires t[i].state == Stable && t[i].generation == t[n].generation && t[n].members != map[]
    ensures t[n].state == Stable
  {
    if i < n {
      GenerationsGrow(t, i, n - 1);
      GenerationsGrow(t, n - 1, n);
      assert Moves(t[n - 1], t[n]) && Calm(t[n - 1], t[n]);
      CalmStable(t, i, n - 1);
    }
  }

  /** The converse: while members remain, a sync taken over at the current generation means Stable. */
  lemma AssignedIsStable(run: seq<Groups>, es: seq<Event>, id: string, i: nat, n: nat)
    requires IsRun(run, es) && i < n <= |es|
    requires var g := Get(run[n], id); TakenOver(run, es, id, i, g.generation) && g.members != map[]
    ensures Get(run[n], id).state == Stable
  {
    RunIsCalm(run, es, id);
    assert Get(run[i + 1], id) == Sync(run[i][id], es[i].sync).0;
    CalmStable(Trail(run, id), i + 1, n);
  }

  // ---- Where an assignment comes from ----

  /** What a member has after a request: what a sync taken over gives it, else what it had, else nothing. */
  ghost predicate Holds(g: Group, e: Event, g': Group)
  {
    forall k | k in g'.members :: g'.members[k].assignment == HeldAfter(g, e, k)
  }

  ghost function HeldAfter(g: Group, e: Event, k: string): Blob
  {
    if e.SyncEvent? && Applies(g, e.sync) && LastFor(e.sync.assignments, k).Some? then LastFor(e.sync.assignments, k).value
    else if k in g.members then g.members[k].assignment
    else []
  }

  lemma JoinHolds(g: Group, req: JoinRequest, now: int, suffix: string, order: seq<string>)
    requires JoinOrder(g, req, suffix, order)
    ensures Holds(g, JoinEvent(req, now, suffix, order), Join(g, req, now, suffix, order).0)
  {}

  lemma HeartbeatHolds(g: Group, req: HeartbeatRequest, now1: int, now2: int, order: seq<string>)
    ensures Holds(g, HeartbeatEvent(req, now1, now2, order), Heartbeat(g, req, now1, now2, order).0)
  {}

  lemma LeaveHolds(g: Group, req: LeaveRequest, order: seq<string>)
    ensures Holds(g, LeaveEvent(req, order), Leave(g, req, order).0)
  {}

  lemma RespondHolds(g: Group, e: Event)
    requires PossibleFor(g, e)
    ensures Holds(g, e, Respond(g, e).0)
  {
    match e
    case JoinEvent(r, now, suffix, order) => JoinHolds(g, r, now, suffix, order);
    case SyncEvent(_) =>
    case HeartbeatEvent(r, now1, now2, order) => HeartbeatHolds(g, r, now1, now2, order);
    case LeaveEvent(r, order) => LeaveHolds(g, r, order);
    case CommitEvent(r) => CommitKeeps(g, r.partitions);
  }

  /** The sync taken over at step `i` names member `k`. */
  ghost predicate Gives(run: seq<Groups>, es: seq<Event>, id: string, i: nat, k: string)
    requires IsRun(run, es)
  {
    i < |es| && AppliedAt(run, es, i, id) && LastFor(es[i].sync.assignments, k).Some?
  }

  /** The last step that gave member `k` an assignment, since it last became a member. */
  ghost function Source(run: seq<Groups>, es: seq<Event>, id: string, k: string, n: nat): (r: Option<nat>)
    requires IsRun(run, es) && n <= |es|
    ensures r.Some? ==> r.value < n && Gives(run, es, id, r.value, k)
  {
    if n == 0 || k !in Get(run[n], id).members then None
    else if Gives(run, es, id, n - 1, k) then Some(n - 1)
    else Source(run, es, id, k, n - 1)
  }

  /** What that step gave; nothing if there was none. */
  ghost function From(run: seq<Groups>, es: seq<Event>, id: string, k: string, n: nat): Blob
    requires IsRun(run, es) && n <= |es|
  {
    var source := Source(run, es, id, k, n);
    if source.Some? then LastFor(es[source.value].sync.assignments, k).value else []
  }

  lemma StepHolds(run: seq<Groups>, es: seq<Event>, id: string, k: string, n: nat)
    requires IsRun(run, es) && n < |es| && k in Get(run[n + 1], id).members
    ensures var g := Get(run[n], id);
            Get(run[n + 1], id).members[k].assignment
            == if Gives(run, es, id, n, k) then LastFor(es[n].sync.assignments, k).value
               else if k in g.members then g.members[k].assignment else []
  {
    if GroupIdOf(es[n]) == id {
      RespondHolds(Get(run[n], id), es[n]);
    }
  }

  lemma SourceStep(run: seq<Groups>, es: seq<Event>, id: string, k: string, n: nat)
    requires IsRun(run, es) && n < |es| && k in Get(run[n + 1], id).members
    ensures Source(run, es, id, k, n + 1) == if Gives(run, es, id, n, k) then Some(n) else Source(run, es, id, k, n)
    ensures k !in Get(run[n], id).members ==> Source(run, es, id, k, n) == None
  {}

  /** In every reachable state every member holds what the last sync that named it gave it, of whatever generation. */
  lemma {:induction false} MemberHolds(run: seq<Groups>, es: seq<Event>, id: string, k: string, n: nat)
    requires IsRun(run, es) && n <= |es| && k in Get(run[n], id).members
    ensures Get(run[n], id).members[k].assignment == From(run, es, id, k, n)
  {
    StepHolds(run, es, id, k, n - 1);
    SourceStep(run, es, id, k, n - 1);
    if k in Get(run[n - 1], id).members {
      MemberHolds(run, es, id, k, n - 1);
    }
  }

  /** Within a generation the states in between have the same generation and members. */
  lemma WasMember(run: seq<Groups>, es: seq<Event>, id: string, k: string, j: nat, n: nat)
    requires IsRun(run, es) && j < n <= |es| && k in Get(run[n], id).members
    requires Get(run[j], id).generation == Get(run[n], id).generation
    ensures k in Get(run[n - 1], id).members && Get(run[n - 1], id).generation == Get(run[n], id).generation
  {
    Grown(run, es, id, j, n - 1);
    RunWellFormed(run, es, id, n - 1);
    StepMoves(run[n - 1], es[n - 1], id);
  }

  lemma Grown(run: seq<Groups>, es: seq<Event>, id: string, i: nat, j: nat)
    requires IsRun(run, es) && i <= j <= |es|
    ensures Get(run[i], id).generation <= Get(run[j], id).generation
  {
    RunIsTrail(run, es, id);
    GenerationsGrow(Trail(run, id), i, j);
  }

  ghost predicate NoEarlier(now: Option<nat>, before: Option<nat>, j: nat)
  {
    now == before || (now.Some? && j <= now.value)
  }

  /** Within a generation the source changes only to a later step of it. */
  lemma {:induction false} SourceSince(run: seq<Groups>, es: seq<Event>, id: string, k: string, j: nat, n: nat)
    requires IsRun(run, es) && j <= n <= |es| && k in Get(run[n], id).members
    requires Get(run[j], id).generation == Get(run[n], id).generation
    ensures k in Get(run[j], id).members
    ensures NoEarlier(Source(run, es, id, k, n), Source(run, es, id, k, j), j)
  {
    if j < n {
      WasMember(run, es, id, k, j, n);
      SourceSince(run, es, id, k, j, n - 1);
      SourceStep(run, es, id, k, n - 1);
    }
  }

  /**
   What a successful sync answers, over every run. The answer was given at the generation of the request exactly if a
   sync of that generation taken over so far, the request itself included, names the member; it is then what the last of
   these gave. Otherwise it is what the member has held throughout the generation, be the group Stable or not.
   */
  lemma SyncAnswersCurrentIff(run: seq<Groups>, es: seq<Event>, id: string, n: nat)
    requires IsRun(run, es) && n < |es| && es[n].SyncEvent? && es[n].sync.groupId == id
    requires Handle(run[n], es[n]).1.sync.error == NONE
    ensures var me, generation, answer := es[n].sync.memberId, es[n].sync.generation, Handle(run[n], es[n]).1.sync.assignment;
            var source := Source(run, es, id, me, n + 1);
            var named := exists i: nat :: i <= n && TakenOver(run, es, id, i, generation) && Gives(run, es, id, i, me);
            && answer == From(run, es, id, me, n + 1)
            && (source.Some? && es[source.value].sync.generation == generation <==> named)
            && (named ==> forall i: nat | i <= n && TakenOver(run, es, id, i, generation) && Gives(run, es, id, i, me) :: i <= source.value)
            && (!named ==> forall j: nat | j <= n && Get(run[j], id).generation == generation ::
                  me in Get(run[j], id).members && answer == Get(run[j], id).members[me].assignment)
  {
    var g, me, generation := Get(run[n + 1], id), es[n].sync.memberId, es[n].sync.generation;
    var source := Source(run, es, id, me, n + 1);
    assert g == Sync(Get(run[n], id), es[n].sync).0 && me in g.members && g.generation == generation;
    MemberHolds(run, es, id, me, n + 1);
    if source.Some? && es[source.value].sync.generation == generation {
      assert TakenOver(run, es, id, source.value, generation) && Gives(run, es, id, source.value, me);
    }
    forall i: nat | i <= n && TakenOver(run, es, id, i, generation) && Gives(run, es, id, i, me)
      ensures source.Some? && es[source.value].sync.generation == generation && i <= source.value
    {
      GivenSince(run, es, id, me, i, n + 1);
    }
    if source.None? || es[source.value].sync.generation != generation {
      forall j: nat | j <= n && Get(run[j], id).generation == generation
        ensures me in Get(run[j], id).members && g.members[me].assignment == Get(run[j], id).members[me].assignment
      {
        HeldSince(run, es, id, me, j, n + 1);
      }
    }
  }

  lemma GivenSince(run: seq<Groups>, es: seq<Event>, id: string, k: string, i: nat, n: nat)
    requires IsRun(run, es) && i < n <= |es| && k in Get(run[n], id).members
    requires TakenOver(run, es, id, i, Get(run[n], id).generation) && Gives(run, es, id, i, k)
    ensures var source := Source(run, es, id, k, n);
            source.Some? && i <= source.value && es[source.value].sync.generation == Get(run[n], id).generation
  {
    assert Get(run[i + 1], id) == Sync(run[i][id], es[i].sync).0;
    SourceSince(run, es, id, k, i + 1, n);
    var at := Source(run, es, id, k, n).value;
    Grown(run, es, id, i, at);
    Grown(run, es, id, at, n);
  }

  lemma HeldSince(run: seq<Groups>, es: seq<Event>, id: string, k: string, j: nat, n: nat)
    requires IsRun(run, es) && j <= n <= |es| && k in Get(run[n], id).members
    requires Get(run[j], id).generation == Get(run[n], id).generation
    requires var source := Source(run, es, id, k, n); source.None? || es[source.value].sync.generation != Get(run[n], id).generation
    ensures k in Get(run[j], id).members && Get(run[j], id).members[k].assignment == Get(run[n], id).members[k].assignment
  {
    SourceSince(run, es, id, k, j, n);
    var source := Source(run, es, id, k, n);
    if source.Some? && j <= source.value {
      Grown(run, es, id, j, source.value);
      Grown(run, es, id, source.value, n);
      assert false;
    }
    MemberHolds(run, es, id, k, j);
    MemberHolds(run, es, id, k, n);
  }

  /** After a successful sync the group is Stable exactly if some sync of the generation has been taken over. */
  lemma SyncedIsStableIff(run: seq<Groups>, es: seq<Event>, id: string, n: nat)
    requires IsRun(run, es) && n < |es| && es[n].SyncEvent? && es[n].sync.groupId == id
    requires Handle(run[n], es[n]).1.sync.error == NONE
    ensures Get(run[n + 1], id).state == Stable <==> exists i: nat :: i <= n && TakenOver(run, es, id, i, es[n].sync.generation)
  {
    var g := Get(run[n + 1], id);
    assert g == Sync(Get(run[n], id), es[n].sync).0 && es[n].sync.memberId in g.members;
    if g.state == Stable {
      var i := StableIsAssigned(run, es, id, n + 1);
    }
    forall i: nat | i <= n && TakenOver(run, es, id, i, es[n].sync.generation) ensures g.state == Stable {
      AssignedIsStable(run, es, id, i, n + 1);
    }
  }

  lemma StableStep(gs: Groups, e: Event, id: string)
    requires Possible(gs, e) && GroupIdOf(e) == id && WellFormed(Get(gs, id))
    requires Get(Handle(gs, e).0, id).state == Stable
    requires !(e.SyncEvent? && id in gs && Applies(gs[id], e.sync))
    ensures var g, g' := Get(gs, id), Get(Handle(gs, e).0, id);
            && g.state == Stable && g'.generation == g.generation && g'.leader == g.leader
            && g'.members.Keys == g.members.Keys
            && forall k | k in g.members :: g'.members[k].assignment == g.members[k].assignment
  {
    if id in gs || e.JoinEvent? || e.CommitEvent? {
      StableKeepsAssignments(Get(gs, id), e);
    }
  }

  // ---- Runs, built ----

  lemma Extend(run: seq<Groups>, es: seq<Event>, e: Event) returns (run': seq<Groups>, es': seq<Event>)
    requires IsRun(run, es) && Possible(run[|es|], e)
    ensures es' == es + [e] && |run'| == |run| + 1 && run <= run' && run'[|es'|] == Handle(run[|es|], e).0 && IsRun(run', es')
  {
    run', es' := run + [Handle(run[|es|], e).0], es + [e];
  }

  /** A consumer without an id asks to join. */
  function Newcomer(client: string, timeout: int): JoinRequest
  {
    JoinRequest("g", "", client, "consumer", [], timeout, 300000)
  }

  const A := "a-1"
  const B := "b-1"
  const C := "c-1"

  lemma Names()
    ensures A != B && A != C && B != C
    ensures IdOf(Newcomer("a", 0), "1") == A && IdOf(Newcomer("b", 0), "1") == B && IdOf(Newcomer("c", 0), "1") == C
  {
    assert A[0] != B[0] && A[0] != C[0] && B[0] != C[0];
  }

  /** A newcomer starts a new generation; the others keep their assignments. */
  lemma NewcomerJoins(gs: Groups, client: string, timeout: int, now: int, order: seq<string>)
    requires var id := IdOf(Newcomer(client, timeout), "1");
             id !in Get(gs, "g").members && Enumerates(order, Get(gs, "g").members.Keys + {id})
    ensures var e, id := JoinEvent(Newcomer(client, timeout), now, "1", order), IdOf(Newcomer(client, timeout), "1");
            && Possible(gs, e)
            && var g, g' := Get(gs, "g"), Get(Handle(gs, e).0, "g");
            && "g" in Handle(gs, e).0 && g'.members.Keys == g.members.Keys + {id} && g'.generation == g.generation + 1
            && g'.state == CompletingRebalance && (g.leader in g.members && g.leader != "" ==> g'.leader == g.leader)
            && (g.leader == "" ==> g'.leader == id)
            && g'.members[id].sessionTimeoutMs == timeout && (forall k | k in g.members :: g'.members[k] == g.members[k])
  {}

  /** Member A alone at generation 1. */
  lemma OneJoined() returns (run: seq<Groups>, es: seq<Event>)
    ensures IsRun(run, es) && |es| == 1 && "g" in run[1]
    ensures var g := run[1]["g"]; g.members.Keys == {A} && g.leader == A && g.generation == 1 && g.state == CompletingRebalance
    ensures run[1]["g"].members[A].sessionTimeoutMs == 10000
  {
    Names();
    run, es := [map[]], [];
    NewcomerJoins(run[0], "a", 10000, 1, [A]);
    run, es := Extend(run, es, JoinEvent(Newcomer("a", 10000), 1, "1", [A]));
  }

  /** Members A, the leader, and B at generation 2, before any sync. */
  lemma TwoJoined() returns (run: seq<Groups>, es: seq<Event>)
    ensures IsRun(run, es) && |es| == 2 && "g" in run[2]
    ensures var g := run[2]["g"]; g.members.Keys == {A, B} && g.leader == A && g.generation == 2 && g.state == CompletingRebalance
  {
    Names();
    run, es := OneJoined();
    NewcomerJoins(run[1], "b", 10000, 2, [A, B]);
    run, es := Extend(run, es, JoinEvent(Newcomer("b", 10000), 2, "1", [A, B]));
  }

  /** A gives B the assignment [1] at generation 2. */
  lemma TwoSynced() returns (run: seq<Groups>, es: seq<Event>)
    ensures IsRun(run, es) && |es| == 3 && TakenOver(run, es, "g", 2, 2) && LastFor(es[2].sync.assignments, B) == Some([1])
    ensures "g" in run[3]
    ensures var g := run[3]["g"]; g.members.Keys == {A, B} && g.leader == A && g.generation == 2 && g.members[B].assignment == [1]
  {
    Names();
    run, es := TwoJoined();
    var given := SyncRequest("g", 2, A, [Assignment(B, [1])]);
    assert LastFor(given.assignments, B) == Some([1]);
    run, es := Extend(run, es, SyncEvent(given));
  }

  lemma KeptTaken(run: seq<Groups>, es: seq<Event>, run': seq<Groups>, es': seq<Event>, id: string, i: nat, generation: int)
    requires IsRun(run, es) && IsRun(run', es') && es <= es' && run <= run' && TakenOver(run, es, id, i, generation)
    ensures TakenOver(run', es', id, i, generation)
  {}

  lemma ListsThree()
    ensures Enumerates([A, B, C], {A, B, C})
  {
    Names();
  }

  /** C joins as well: generation 3, B still with its assignment of generation 2. */
  lemma ThreeJoined() returns (run: seq<Groups>, es: seq<Event>)
    ensures IsRun(run, es) && |es| == 4 && TakenOver(run, es, "g", 2, 2) && LastFor(es[2].sync.assignments, B) == Some([1])
    ensures "g" in run[4]
    ensures var g := run[4]["g"]; g.members.Keys == {A, B, C} && g.leader == A && g.generation == 3 && g.members[B].assignment == [1]
  {
    Names();
    var run3, es3 := TwoSynced();
    ListsThree();
    NewcomerJoins(run3[3], "c", 10000, 3, [A, B, C]);
    run, es := Extend(run3, es3, JoinEvent(Newcomer("c", 10000), 3, "1", [A, B, C]));
    KeptTaken(run3, es3, run, es, "g", 2, 2);
  }

  /**
   A run in which a follower's sync at generation 3 is answered without error and with the assignment it got at
   generation 2, because the leader has not synced yet.
   */
  lemma OldAssignmentAnswered() returns (run: seq<Groups>, es: seq<Event>)
    ensures IsRun(run, es) && |es| == 5 && TakenOver(run, es, "g", 2, 2) && LastFor(es[2].sync.assignments, B) == Some([1])
    ensures es[4] == SyncEvent(SyncRequest("g", 3, B, [])) && Handle(run[4], es[4]).1 == SyncReply(SyncResponse(NONE, [1]))
  {
    var run4, es4 := ThreeJoined();
    run, es := Extend(run4, es4, SyncEvent(SyncRequest("g", 3, B, [])));
    KeptTaken(run4, es4, run, es, "g", 2, 2);
  }

  /**
   And a run in which the leader has synced and the group is Stable, but the leader's list leaves the follower out: it is
   answered the same.
   */
  lemma LeftOutAnswered() returns (run: seq<Groups>, es: seq<Event>)
    ensures IsRun(run, es) && |es| == 6 && TakenOver(run, es, "g", 2, 2) && LastFor(es[2].sync.assignments, B) == Some([1])
    ensures TakenOver(run, es, "g", 4, 3) && LastFor(es[4].sync.assignments, B) == None && "g" in run[5] && run[5]["g"].state == Stable
    ensures es[5] == SyncEvent(SyncRequest("g", 3, B, [])) && Handle(run[5], es[5]).1 == SyncReply(SyncResponse(NONE, [1]))
  {
    Names();
    var run4, es4 := ThreeJoined();
    var given := SyncRequest("g", 3, A, [Assignment(C, [2])]);
    assert LastFor(given.assignments, B) == None;
    var run5, es5 := Extend(run4, es4, SyncEvent(given));
    KeptTaken(run4, es4, run5, es5, "g", 2, 2);
    run, es := Extend(run5, es5, SyncEvent(SyncRequest("g", 3, B, [])));
    KeptTaken(run5, es5, run, es, "g", 2, 2);
    KeptTaken(run5, es5, run, es, "g", 4, 3);
  }

  // ---- Heartbeat ----

  /** Heartbeat answers 0 exactly when member and generation match and, after the purge, the group is Stable or everybody is gone. */
  lemma HeartbeatOk(g: Group, req: HeartbeatRequest, now1: int, now2: int, order: seq<string>)
    requires WellFormed(g) && Enumerates(order, g.members.Keys)
    ensures var (g', err) := Heartbeat(g, req, now1, now2, order);
            err == NONE <==>
              && req.memberId in g.members && req.generation == g.generation
              && (g'.state == Stable || g'.members == map[])
  {
    HeartbeatMoves(g, req, now1, now2, order);
  }

  /** The caller is a member of this generation, and at the second clock reading everybody has expired, the caller included. */
  predicate AllExpire(g: Group, req: HeartbeatRequest, now1: int, now2: int)
  {
    && req.memberId in g.members && req.generation == g.generation
    && var ms := g.members[req.memberId := g.members[req.memberId].(lastHeartbeatMs := now1)];
    forall k | k in ms :: Expired(ms[k], now2)
  }

  /** The answer 0 means that member and generation match and the group is Stable, exactly unless everybody expires. */
  lemma HeartbeatOkMeansStableIff(g: Group, req: HeartbeatRequest, now1: int, now2: int, order: seq<string>)
    requires WellFormed(g) && Enumerates(order, g.members.Keys)
    ensures var (g', err) := Heartbeat(g, req, now1, now2, order);
            (err == NONE <==> req.memberId in g.members && req.generation == g.generation && g'.state == Stable)
            <==> !AllExpire(g, req, now1, now2)
  {
    HeartbeatOk(g, req, now1, now2, order);
    HeartbeatMoves(g, req, now1, now2, order);
    if req.memberId in g.members && req.generation == g.generation {
      EverybodyGone(g, req, now1, now2, order);
    }
  }

  lemma EverybodyGone(g: Group, req: HeartbeatRequest, now1: int, now2: int, order: seq<string>)
    requires req.memberId in g.members && req.generation == g.generation
    ensures Heartbeat(g, req, now1, now2, order).0.members == map[] <==> AllExpire(g, req, now1, now2)
  {
    var ms := g.members[req.memberId := g.members[req.memberId].(lastHeartbeatMs := now1)];
    var g' := Heartbeat(g, req, now1, now2, order).0;
    assert g'.members == Survivors(ms, now2);
    if AllExpire(g, req, now1, now2) {
      assert Survivors(ms, now2) == map[];
    } else {
      var k :| k in ms && !Expired(ms[k], now2);
      assert k in Survivors(ms, now2);
    }
  }

  /** Not if the caller's session timeout covers the gap between the two clock readings. */
  lemma HeartbeatOkIffStable(g: Group, req: HeartbeatRequest, now1: int, now2: int, order: seq<string>)
    requires WellFormed(g) && Enumerates(order, g.members.Keys)
    requires req.memberId in g.members ==> now1 <= 0 || now2 - now1 <= g.members[req.memberId].sessionTimeoutMs
    ensures var (g', err) := Heartbeat(g, req, now1, now2, order);
            err == NONE <==> req.memberId in g.members && req.generation == g.generation && g'.state == Stable
  {
    HeartbeatOkMeansStableIff(g, req, now1, now2, order);
    if req.memberId in g.members {
      var ms := g.members[req.memberId := g.members[req.memberId].(lastHeartbeatMs := now1)];
      assert req.memberId in ms && !Expired(ms[req.memberId], now2);
    }
  }

  /** A run in which a heartbeat that expires its own caller, the last member, answers 0 and keeps the generation. */
  lemma HeartbeatOkToNobody() returns (run: seq<Groups>, es: seq<Event>)
    ensures IsRun(run, es) && |es| == 2 && es[1].HeartbeatEvent? && Handle(run[1], es[1]).1 == ErrorReply(NONE)
    ensures "g" in run[1] && "g" in run[2] && A in run[1]["g"].members && run[1]["g"].members[A].sessionTimeoutMs == 10000
    ensures run[2]["g"].members == map[] && run[2]["g"].generation == run[1]["g"].generation
  {
    run, es := OneJoined();
    var g, req := run[1]["g"], HeartbeatRequest("g", 1, A);
    EverybodyGone(g, req, 1, 10002, [A]);
    assert A in g.members;
    run, es := Extend(run, es, HeartbeatEvent(req, 1, 10002, [A]));
  }

  // ---- choose_protocol ----

  lemma {:induction false} OneVoteEach(ps: seq<Protocol>, name: string)
    requires forall i, j | 0 <= i < j < |ps| :: ps[i].name != ps[j].name
    ensures VotesOf(ps, name) == if exists p | p in ps :: p.name == name then 1 else 0
  {
    if ps != [] {
      var rest, last := ps[..|ps| - 1], ps[|ps| - 1];
      OneVoteEach(rest, name);
      assert forall p :: p in ps <==> p in rest || p == last;
      assert last in ps;
    }
  }

  /** With no name listed twice by a member, a protocol has a full vote exactly when all list it. */
  lemma {:induction false} FullVoteIsUnanimous(order: seq<string>, ms: map<string, Member>, name: string)
    requires forall k | k in order :: k in ms && DistinctNames(ms[k])
    ensures Votes(order, ms, name) <= |order|
    ensures Votes(order, ms, name) == |order| <==> forall k | k in order :: Lists(ms[k], name)
  {
    if order != [] {
      var rest, last := order[..|order| - 1], order[|order| - 1];
      FullVoteIsUnanimous(rest, ms, name);
      OneVoteEach(ms[last].protocols, name);
      assert forall k :: k in order <==> k in rest || k == last;
    }
  }

  lemma {:induction false} FullProtocolFound(ps: seq<Protocol>, order: seq<string>, ms: map<string, Member>, name: string)
    requires forall k | k in order :: k in ms
    ensures FullProtocol(ps, order, ms).Some? ==> Votes(order, ms, FullProtocol(ps, order, ms).value) == |order|
    ensures (exists p | p in ps :: p.name == name) && Votes(order, ms, name) == |order| ==> FullProtocol(ps, order, ms).Some?
  {
    if ps != [] && Votes(order, ms, ps[0].name) != |order| {
      FullProtocolFound(ps[1..], order, ms, name);
      assert forall p :: p in ps && p != ps[0] ==> p in ps[1..];
    }
  }

  lemma {:induction false} FullAmongFound(todo: seq<string>, order: seq<string>, ms: map<string, Member>, name: string)
    requires (forall k | k in order :: k in ms) && (forall k | k in todo :: k in ms)
    ensures FullAmong(todo, order, ms).Some? ==> Votes(order, ms, FullAmong(todo, order, ms).value) == |order|
    ensures (exists k | k in todo :: Lists(ms[k], name)) && Votes(order, ms, name) == |order| ==> FullAmong(todo, order, ms).Some?
  {
    if todo != [] {
      FullProtocolFound(ms[todo[0]].protocols, order, ms, name);
      FullAmongFound(todo[1..], order, ms, name);
      assert forall k :: k in todo && k != todo[0] ==> k in todo[1..];
    }
  }

  /** If the members have a protocol in common, the one chosen is common to all, whatever the walk. */
  lemma ChosenIsCommon(order: seq<string>, ms: map<string, Member>, name: string)
    requires Enumerates(order, ms.Keys) && ms != map[]
    requires forall k | k in ms :: DistinctNames(ms[k])
    requires SupportedByAll(ms, name)
    ensures SupportedByAll(ms, ChooseProtocol(order, ms))
  {
    assert forall k :: k in order <==> k in ms.Keys;
    FullVoteIsUnanimous(order, ms, name);
    FullAmongFound(order, order, ms, name);
    FullVoteIsUnanimous(order, ms, ChooseProtocol(order, ms));
    assert exists k | k in order :: Lists(ms[k], name) by {
      var k :| k in ms;
      assert k in order;
    }
  }

  // ---- Offsets ----

  /** The last entry of a request for a partition. */
  function LastIn(ps: seq<CommitPartition>, tp: TopicPartition): Option<CommitPartition>
  {
    if ps == [] then None
    else if ps[|ps| - 1].tp == tp then Some(ps[|ps| - 1])
    else LastIn(ps[..|ps| - 1], tp)
  }

  /** The last commit for a partition of a group among these requests. */
  function LastCommit(es: seq<Event>, id: string, tp: TopicPartition): Option<CommitPartition>
  {
    if es == [] then None
    else
      var e := es[|es| - 1];
      if e.CommitEvent? && e.commit.groupId == id && LastIn(e.commit.partitions, tp).Some? then LastIn(e.commit.partitions, tp)
      else LastCommit(es[..|es| - 1], id, tp)
  }

  function Answer(c: Option<CommitPartition>, tp: TopicPartition): FetchedOffset
  {
    if c.Some? then FetchedOffset(tp, c.value.offset, c.value.metadata) else FetchedOffset(tp, -1, "")
  }

  lemma {:induction false} CommitAnswers(g: Group, ps: seq<CommitPartition>, tp: TopicPartition)
    requires g.offsets.Keys == g.metadata.Keys
    ensures FetchOne(Commit(g, ps), tp) == if LastIn(ps, tp).Some? then Answer(LastIn(ps, tp), tp) else FetchOne(g, tp)
  {
    if ps != [] {
      CommitAnswers(g, ps[..|ps| - 1], tp);
      CommitKeeps(g, ps[..|ps| - 1]);
    }
  }

  /** Only commits change what is fetched. */
  lemma OthersKeepOffsets(g: Group, e: Event)
    requires PossibleFor(g, e) && !e.CommitEvent?
    ensures Respond(g, e).0.offsets == g.offsets && Respond(g, e).0.metadata == g.metadata
  {
    match e
    case JoinEvent(r, now, suffix, order) =>
    case SyncEvent(r) =>
    case HeartbeatEvent(r, now1, now2, order) =>
    case LeaveEvent(r, order) =>
  }

  lemma FetchStep(gs: Groups, e: Event, id: string, tp: TopicPartition)
    requires Possible(gs, e) && WellFormed(Get(gs, id))
    ensures var c := if e.CommitEvent? && e.commit.groupId == id then LastIn(e.commit.partitions, tp) else None;
            FetchOne(Get(Handle(gs, e).0, id), tp) == if c.Some? then Answer(c, tp) else FetchOne(Get(gs, id), tp)
  {
    if GroupIdOf(e) == id {
      if e.CommitEvent? {
        CommitAnswers(Get(gs, id), e.commit.partitions, tp);
      } else {
        OthersKeepOffsets(Get(gs, id), e);
      }
    }
  }

  /** Over every run: a fetch answers the last commit of the partition in the group, whatever came after, and -1 if there was none. */
  lemma {:induction false} FetchAnswersLastOfRun(run: seq<Groups>, es: seq<Event>, id: string, tp: TopicPartition, n: nat)
    requires IsRun(run, es) && n <= |es|
    ensures FetchOne(Get(run[n], id), tp) == Answer(LastCommit(es[..n], id, tp), tp)
  {
    if n > 0 {
      FetchAnswersLastOfRun(run, es, id, tp, n - 1);
      RunWellFormed(run, es, id, n - 1);
      FetchStep(run[n - 1], es[n - 1], id, tp);
      assert es[..n][..n - 1] == es[..n - 1];
    }
  }
}
