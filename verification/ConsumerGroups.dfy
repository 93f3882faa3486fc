/**
 The consumer-group coordinator. `Join`, `Sync`, `Heartbeat`, `Leave` say what one request does to
 one group; `GroupManager` is the coordinator object whose methods are proved against them.

 Clock readings, the random part of a generated member id, and the order in which an unordered_map
 is iterated are inputs.
 */
module ConsumerGroups {
  import opened Options

  type Blob = seq<bv8>
  type TopicPartition = (string, int)

  datatype GroupState = Empty | PreparingRebalance | CompletingRebalance | Stable | Dead

  datatype Protocol = Protocol(name: string, metadata: Blob)

  datatype Member = Member(
    memberId: string, clientId: string, protocolType: string, protocols: seq<Protocol>, assignment: Blob,
    sessionTimeoutMs: int, rebalanceTimeoutMs: int, lastHeartbeatMs: int)

  datatype Group = Group(
    groupId: string, state: GroupState, generation: int, protocolType: string, protocolName: string, leader: string,
    members: map<string, Member>, offsets: map<TopicPartition, int>, metadata: map<TopicPartition, string>)

  const NEW_GROUP: Group := Group("", Empty, 0, "", "", "", map[], map[], map[])

  datatype JoinRequest = JoinRequest(
    groupId: string, memberId: string, clientId: string, protocolType: string, protocols: seq<Protocol>,
    sessionTimeoutMs: int, rebalanceTimeoutMs: int)
  datatype JoinMember = JoinMember(memberId: string, metadata: Blob)
  datatype JoinResponse = JoinResponse(
    error: int, generation: int, protocolName: string, leader: string, memberId: string, members: seq<JoinMember>)

  datatype Assignment = Assignment(memberId: string, assignment: Blob)
  datatype SyncRequest = SyncRequest(groupId: string, generation: int, memberId: string, assignments: seq<Assignment>)
  datatype SyncResponse = SyncResponse(error: int, assignment: Blob)

  datatype HeartbeatRequest = HeartbeatRequest(groupId: string, generation: int, memberId: string)
  datatype LeaveRequest = LeaveRequest(groupId: string, memberId: string)

  datatype CommitPartition = CommitPartition(tp: TopicPartition, offset: int, metadata: string)
  datatype CommitRequest = CommitRequest(groupId: string, partitions: seq<CommitPartition>)
  datatype FetchedOffset = FetchedOffset(tp: TopicPartition, offset: int, metadata: string)

  const NONE: int := 0
  const ILLEGAL_GENERATION: int := 22
  const UNKNOWN_MEMBER_ID: int := 25
  const REBALANCE_IN_PROGRESS: int := 27

  // ---- Iteration order ----

  /** `order` lists the keys once each: one way an unordered_map may be walked. */
  ghost predicate Enumerates(order: seq<string>, keys: set<string>)
  {
    && (forall i, j | 0 <= i < j < |order| :: order[i] != order[j])
    && (set x | x in order) == keys
  }

  /** The first listed id that is still a key; `begin()` after some were erased. */
  function First<V>(order: seq<string>, m: map<string, V>): string
  {
    if order == [] then "" else if order[0] in m then order[0] else First(order[1..], m)
  }

  lemma {:induction false} FirstIsKey<V>(order: seq<string>, m: map<string, V>)
    requires exists k :: k in order && k in m
    ensures First(order, m) in m && First(order, m) in order
  {
    if order[0] !in m {
      assert forall k :: k in order && k in m ==> k in order[1..];
      FirstIsKey(order[1..], m);
    }
  }

  // ---- choose_protocol ----

  /** How often one member lists a protocol. */
  function VotesOf(ps: seq<Protocol>, name: string): nat
  {
    if ps == [] then 0 else VotesOf(ps[..|ps| - 1], name) + if ps[|ps| - 1].name == name then 1 else 0
  }

  /** How often the members listed in `order` list it. */
  function Votes(order: seq<string>, ms: map<string, Member>, name: string): nat
    requires forall k | k in order :: k in ms
  {
    if order == [] then 0
    else Votes(order[..|order| - 1], ms, name) + VotesOf(ms[order[|order| - 1]].protocols, name)
  }

  predicate Lists(m: Member, name: string)
  {
    exists p | p in m.protocols :: p.name == name
  }

  predicate SupportedByAll(ms: map<string, Member>, name: string)
  {
    forall k | k in ms :: Lists(ms[k], name)
  }

  predicate DistinctNames(m: Member)
  {
    forall i, j | 0 <= i < j < |m.protocols| :: m.protocols[i].name != m.protocols[j].name
  }

  /** The first of these protocols that has a vote from every walked member. */
  function FullProtocol(ps: seq<Protocol>, order: seq<string>, ms: map<string, Member>): Option<string>
    requires forall k | k in order :: k in ms
  {
    if ps == [] then None
    else if Votes(order, ms, ps[0].name) == |order| then Some(ps[0].name)
    else FullProtocol(ps[1..], order, ms)
  }

  function FullAmong(todo: seq<string>, order: seq<string>, ms: map<string, Member>): Option<string>
    requires forall k | k in order :: k in ms
    requires forall k | k in todo :: k in ms
  {
    if todo == [] then None
    else
      var here := FullProtocol(ms[todo[0]].protocols, order, ms);
      if here.Some? then here else FullAmong(todo[1..], order, ms)
  }

  /** The first protocol of the walk with as many votes as there are members, else the first one met, else "". */
  function ChooseProtocol(order: seq<string>, ms: map<string, Member>): string
    requires forall k | k in order :: k in ms
  {
    var full := FullAmong(order, order, ms);
    if full.Some? then full.value
    else if order != [] && ms[order[0]].protocols != [] then ms[order[0]].protocols[0].name
    else ""
  }

  // ---- JoinGroup ----

  /** The metadata a member gave for a protocol, its first entry of that name. */
  function MetadataFor(ps: seq<Protocol>, name: string): Blob
  {
    if ps == [] then [] else if ps[0].name == name then ps[0].metadata else MetadataFor(ps[1..], name)
  }

  function MemberList(order: seq<string>, ms: map<string, Member>, name: string): (r: seq<JoinMember>)
    requires forall k | k in order :: k in ms
    ensures |r| == |order|
    ensures forall i | 0 <= i < |r| :: r[i].memberId == order[i]
  {
    if order == [] then []
    else MemberList(order[..|order| - 1], ms, name)
         + [JoinMember(order[|order| - 1], MetadataFor(ms[order[|order| - 1]].protocols, name))]
  }

  function IdOf(req: JoinRequest, suffix: string): string
  {
    if req.memberId == "" then req.clientId + "-" + suffix else req.memberId
  }

  function Joined(g: Group, id: string, order: seq<string>): JoinResponse
    requires forall k | k in order :: k in g.members
  {
    JoinResponse(NONE, g.generation, g.protocolName, g.leader, id,
                 if id == g.leader then MemberList(order, g.members, g.protocolName) else [])
  }

  ghost predicate JoinOrder(g: Group, req: JoinRequest, suffix: string, order: seq<string>)
  {
    Enumerates(order, g.members.Keys + {IdOf(req, suffix)})
  }

  function Join(g0: Group, req: JoinRequest, now: int, suffix: string, order: seq<string>): (Group, JoinResponse)
    requires JoinOrder(g0, req, suffix, order)
  {
    var g, id := g0.(groupId := req.groupId), IdOf(req, suffix);
    assert forall k | k in order :: k in g.members.Keys + {id};
    if req.memberId != "" && g.state == Stable && id in g.members then
      var g' := g.(members := g.members[id := g.members[id].(lastHeartbeatMs := now, protocols := req.protocols)]);
      (g', Joined(g', id, order))
    else if req.memberId != "" && g.members != map[] && g.state != Empty && id !in g.members then
      (g, JoinResponse(UNKNOWN_MEMBER_ID, -1, "", "", id, []))
    else
      var kept := if id in g.members then g.members[id].assignment else [];
      var m := Member(id, req.clientId, req.protocolType, req.protocols, kept,
                      req.sessionTimeoutMs, req.rebalanceTimeoutMs, now);
      var ms := g.members[id := m];
      var g' := g.(members := ms,
                   protocolType := if g.protocolType == "" then req.protocolType else g.protocolType,
                   generation := g.generation + 1,
                   protocolName := ChooseProtocol(order, ms),
                   leader := if g.leader == "" || g.leader !in ms then id else g.leader,
                   state := CompletingRebalance);
      (g', Joined(g', id, order))
  }

  // ---- SyncGroup ----

  /** The last assignment the list gives a member. */
  function LastFor(xs: seq<Assignment>, id: string): Option<Blob>
  {
    if xs == [] then None
    else if xs[|xs| - 1].memberId == id then Some(xs[|xs| - 1].assignment)
    else LastFor(xs[..|xs| - 1], id)
  }

  function Assigned(ms: map<string, Member>, xs: seq<Assignment>): map<string, Member>
  {
    map id | id in ms :: if LastFor(xs, id).Some? then ms[id].(assignment := LastFor(xs, id).value) else ms[id]
  }

  /** The request is one whose assignments the coordinator takes over. */
  predicate Applies(g: Group, req: SyncRequest)
  {
    && req.memberId in g.members && req.generation == g.generation
    && req.memberId == g.leader && req.assignments != []
  }

  function Sync(g: Group, req: SyncRequest): (Group, SyncResponse)
  {
    if req.memberId !in g.members then (g, SyncResponse(UNKNOWN_MEMBER_ID, []))
    else if req.generation != g.generation then (g, SyncResponse(ILLEGAL_GENERATION, []))
    else
      var g' := if Applies(g, req) then g.(members := Assigned(g.members, req.assignments), state := Stable) else g;
      (g', SyncResponse(NONE, g'.members[req.memberId].assignment))
  }

  // ---- Session timeouts, Heartbeat, LeaveGroup ----

  predicate Expired(m: Member, now: int)
  {
    m.lastHeartbeatMs > 0 && now - m.lastHeartbeatMs > m.sessionTimeoutMs
  }

  function Survivors(ms: map<string, Member>, now: int): map<string, Member>
  {
    map id | id in ms && !Expired(ms[id], now) :: ms[id]
  }

  function Purge(g: Group, now: int, order: seq<string>): Group
  {
    var alive := Survivors(g.members, now);
    if alive == g.members then g
    else if alive == map[] then g.(members := alive, state := Empty, leader := "")
    else g.(members := alive, leader := if g.leader in alive then g.leader else First(order, alive),
            generation := g.generation + 1, state := PreparingRebalance)
  }

  function Heartbeat(g: Group, req: HeartbeatRequest, now1: int, now2: int, order: seq<string>): (Group, int)
  {
    if req.memberId !in g.members then (g, UNKNOWN_MEMBER_ID)
    else if req.generation != g.generation then (g, ILLEGAL_GENERATION)
    else
      var ms := g.members[req.memberId := g.members[req.memberId].(lastHeartbeatMs := now1)];
      var g' := Purge(g.(members := ms), now2, order);
      (g', if g'.state == PreparingRebalance || g'.state == CompletingRebalance then REBALANCE_IN_PROGRESS else NONE)
  }

  function Leave(g: Group, req: LeaveRequest, order: seq<string>): (Group, int)
  {
    if req.memberId !in g.members then (g, UNKNOWN_MEMBER_ID)
    else
      var ms := g.members - {req.memberId};
      if ms == map[] then
        (g.(members := ms, state := Empty, generation := g.generation + 1, leader := ""), NONE)
      else
        (g.(members := ms, leader := if req.memberId == g.leader then First(order, ms) else g.leader,
            generation := g.generation + 1, state := PreparingRebalance), NONE)
  }

  // ---- Offsets ----

  function Commit(g: Group, ps: seq<CommitPartition>): Group
  {
    if ps == [] then g
    else
      var g', p := Commit(g, ps[..|ps| - 1]), ps[|ps| - 1];
      g'.(offsets := g'.offsets[p.tp := p.offset], metadata := g'.metadata[p.tp := p.metadata])
  }

  function FetchOne(g: Group, tp: TopicPartition): FetchedOffset
  {
    if tp in g.offsets then FetchedOffset(tp, g.offsets[tp], if tp in g.metadata then g.metadata[tp] else "")
    else FetchedOffset(tp, -1, "")
  }

  // ---- The coordinator ----

  type Groups = map<string, Group>

  datatype Event =
    | JoinEvent(join: JoinRequest, now: int, suffix: string, order: seq<string>)
    | SyncEvent(sync: SyncRequest)
    | HeartbeatEvent(beat: HeartbeatRequest, now1: int, now2: int, order: seq<string>)
    | LeaveEvent(leave: LeaveRequest, order: seq<string>)
    | CommitEvent(commit: CommitRequest)

  datatype Reply = JoinReply(join: JoinResponse) | SyncReply(sync: SyncResponse) | ErrorReply(error: int) | CommitReply

  function Get(gs: Groups, id: string): Group
  {
    if id in gs then gs[id] else NEW_GROUP
  }

  function GroupIdOf(e: Event): string
  {
    match e
    case JoinEvent(r, _, _, _) => r.groupId
    case SyncEvent(r) => r.groupId
    case HeartbeatEvent(r, _, _, _) => r.groupId
    case LeaveEvent(r, _) => r.groupId
    case CommitEvent(r) => r.groupId
  }

  /** The iteration orders in an event are possible ones for the addressed group. */
  ghost predicate PossibleFor(g: Group, e: Event)
  {
    match e
    case JoinEvent(r, _, suffix, order) => JoinOrder(g, r, suffix, order)
    case HeartbeatEvent(_, _, _, order) => Enumerates(order, g.members.Keys)
    case LeaveEvent(_, order) => Enumerates(order, g.members.Keys)
    case _ => true
  }

  ghost predicate Possible(gs: Groups, e: Event)
  {
    PossibleFor(Get(gs, GroupIdOf(e)), e)
  }

  /** What a request does to the group it addresses. */
  function Respond(g: Group, e: Event): (Group, Reply)
    requires PossibleFor(g, e)
  {
    match e
    case JoinEvent(r, now, suffix, order) => var (g', resp) := Join(g, r, now, suffix, order); (g', JoinReply(resp))
    case SyncEvent(r) => var (g', resp) := Sync(g, r); (g', SyncReply(resp))
    case HeartbeatEvent(r, now1, now2, order) => var (g', err) := Heartbeat(g, r, now1, now2, order); (g', ErrorReply(err))
    case LeaveEvent(r, order) => var (g', err) := Leave(g, r, order); (g', ErrorReply(err))
    case CommitEvent(r) => (Commit(g, r.partitions), CommitReply)
  }

  function UnknownGroup(e: Event): Reply
  {
    match e
    case SyncEvent(_) => SyncReply(SyncResponse(UNKNOWN_MEMBER_ID, []))
    case HeartbeatEvent(_, _, _, _) => ErrorReply(UNKNOWN_MEMBER_ID)
    case _ => ErrorReply(NONE)
  }

  /** One request; only join and commit create a group. */
  function Handle(gs: Groups, e: Event): (Groups, Reply)
    requires Possible(gs, e)
  {
    var id := GroupIdOf(e);
    if id !in gs && !e.JoinEvent? && !e.CommitEvent? then (gs, UnknownGroup(e))
    else var (g', reply) := Respond(Get(gs, id), e); (gs[id := g'], reply)
  }
}
