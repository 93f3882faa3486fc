/** The coordinator object: its methods update the map of groups in place, loop by loop as the broker does. */
module GroupManager {
  import opened ConsumerGroups
  import opened Options
  import GroupRuns

  lemma EnumExtend(order: seq<string>, keys: set<string>, k: string)
    requires Enumerates(order, keys) && k !in keys
    ensures Enumerates(order + [k], keys + {k})
  {
    assert forall x :: x in order <==> x in keys;
    assert forall x :: x in order + [k] <==> x in keys + {k};
  }

  /** Walks an unordered_map: some enumeration of its keys. */
  method Walk<V>(m: map<string, V>) returns (order: seq<string>)
    ensures Enumerates(order, m.Keys)
  {
    order := [];
    var done, rest := {}, m.Keys;
    while rest != {}
      invariant done + rest == m.Keys && done !! rest && Enumerates(order, done)
      decreases rest
    {
      var k :| k in rest;
      EnumExtend(order, done, k);
      order, done, rest := order + [k], done + {k}, rest - {k};
    }
    assert done == m.Keys;
  }

  function Count(votes: map<string, nat>, name: string): nat
  {
    if name in votes then votes[name] else 0
  }

  method CountVotes(order: seq<string>, ms: map<string, Member>) returns (votes: map<string, nat>)
    requires forall k | k in order :: k in ms
    ensures forall n :: Count(votes, n) == Votes(order, ms, n)
  {
    votes := map[];
    for i := 0 to |order|
      invariant forall n :: Count(votes, n) == Votes(order[..i], ms, n)
    {
      var ps := ms[order[i]].protocols;
      for j := 0 to |ps|
        invariant forall n :: Count(votes, n) == Votes(order[..i], ms, n) + VotesOf(ps[..j], n)
      {
        assert ps[..j + 1][..j] == ps[..j];
        votes := votes[ps[j].name := Count(votes, ps[j].name) + 1];
      }
      assert ps[..|ps|] == ps && order[..i + 1][..i] == order[..i];
    }
    assert order[..|order|] == order;
  }

  /** The first protocol of one member with as many votes as there are members. */
  method FindFull(ps: seq<Protocol>, votes: map<string, nat>, n: nat, ghost order: seq<string>, ghost ms: map<string, Member>)
    returns (name: Option<string>)
    requires (forall k | k in order :: k in ms) && n == |order| && forall x :: Count(votes, x) == Votes(order, ms, x)
    ensures name == FullProtocol(ps, order, ms)
  {
    for j := 0 to |ps|
      invariant FullProtocol(ps, order, ms) == FullProtocol(ps[j..], order, ms)
    {
      assert ps[j..][1..] == ps[j + 1..];
      if Count(votes, ps[j].name) == n {
        return Some(ps[j].name);
      }
    }
    name := None;
  }

  method ChooseByVotes(order: seq<string>, ms: map<string, Member>) returns (name: string)
    requires Enumerates(order, ms.Keys)
    ensures (forall k | k in order :: k in ms) && name == ChooseProtocol(order, ms)
  {
    assert forall k | k in order :: k in ms.Keys;
    GroupRuns.EnumSize(order, ms.Keys);
    var votes := CountVotes(order, ms);
    for i := 0 to |order|
      invariant FullAmong(order, order, ms) == FullAmong(order[i..], order, ms)
    {
      var full := FindFull(ms[order[i]].protocols, votes, |ms|, order, ms);
      if full.Some? {
        return full.value;
      }
      assert order[i..][1..] == order[i + 1..];
    }
    if order != [] && ms[order[0]].protocols != [] {
      return ms[order[0]].protocols[0].name;
    }
    name := "";
  }

  method FindMetadata(ps: seq<Protocol>, name: string) returns (data: Blob)
    ensures data == MetadataFor(ps, name)
  {
    for i := 0 to |ps|
      invariant MetadataFor(ps, name) == MetadataFor(ps[i..], name)
    {
      if ps[i].name == name {
        return ps[i].metadata;
      }
      assert ps[i..][1..] == ps[i + 1..];
    }
    data := [];
  }

  method ListMembers(order: seq<string>, ms: map<string, Member>, name: string) returns (r: seq<JoinMember>)
    requires forall k | k in order :: k in ms
    ensures r == MemberList(order, ms, name)
  {
    r := [];
    for i := 0 to |order|
      invariant r == MemberList(order[..i], ms, name)
    {
      var data := FindMetadata(ms[order[i]].protocols, name);
      r := r + [JoinMember(order[i], data)];
      assert order[..i + 1][..i] == order[..i];
    }
    assert order[..|order|] == order;
  }

  method AssignEach(ms: map<string, Member>, xs: seq<Assignment>) returns (r: map<string, Member>)
    ensures r == Assigned(ms, xs)
  {
    r := ms;
    for i := 0 to |xs|
      invariant r == Assigned(ms, xs[..i])
    {
      if xs[i].memberId in r {
        r := r[xs[i].memberId := r[xs[i].memberId].(assignment := xs[i].assignment)];
      }
      assert xs[..i + 1][..i] == xs[..i];
      assert r == Assigned(ms, xs[..i + 1]);
    }
    assert xs[..|xs|] == xs;
  }

  /** Collects the expired ids along the walk, then erases them one by one. */
  method EraseExpired(order: seq<string>, ms: map<string, Member>, now: int) returns (r: map<string, Member>, any: bool)
    requires Enumerates(order, ms.Keys)
    ensures r == Survivors(ms, now) && (any <==> r != ms)
  {
    assert forall k | k in order :: k in ms.Keys;
    var expired: seq<string> := [];
    for i := 0 to |order|
      invariant forall k :: k in expired <==> k in order[..i] && Expired(ms[k], now)
    {
      if Expired(ms[order[i]], now) {
        expired := expired + [order[i]];
      }
      assert forall k :: k in order[..i + 1] <==> k in order[..i] || k == order[i];
    }
    assert order[..|order|] == order;
    assert forall k :: k in expired <==> k in ms.Keys && Expired(ms[k], now);
    r := ms;
    for i := 0 to |expired|
      invariant r == map k | k in ms && k !in expired[..i] :: ms[k]
    {
      r := r - {expired[i]};
      assert forall k :: k in expired[..i + 1] <==> k in expired[..i] || k == expired[i];
    }
    assert expired[..|expired|] == expired;
    any := expired != [];
    if any {
      assert expired[0] in expired;
      assert expired[0] in ms && expired[0] !in r;
    }
  }

  method FirstOf(order: seq<string>, ms: map<string, Member>) returns (k: string)
    ensures k == First(order, ms)
  {
    for i := 0 to |order|
      invariant First(order, ms) == First(order[i..], ms)
    {
      if order[i] in ms {
        return order[i];
      }
      assert order[i..][1..] == order[i + 1..];
    }
    k := "";
  }

  class GroupManager {
    var groups: Groups

    constructor ()
      ensures groups == map[]
    {
      groups := map[];
    }

    /** The successful reply, with the member list if it goes to the leader. */
    method Answer(group: Group, id: string, walk: seq<string>) returns (resp: JoinResponse)
      requires forall k | k in walk :: k in group.members
      ensures resp == Joined(group, id, walk)
    {
      resp := JoinResponse(NONE, group.generation, group.protocolName, group.leader, id, []);
      if id == group.leader {
        var list := ListMembers(walk, group.members, group.protocolName);
        resp := resp.(members := list);
      }
    }

    /** Adds or updates the member and starts a new generation. */
    method Rebalance(group0: Group, id: string, req: JoinRequest, now: int)
      returns (group: Group, resp: JoinResponse, ghost order: seq<string>)
      ensures group.members.Keys == group0.members.Keys + {id} == (set k | k in order)
      ensures Enumerates(order, group0.members.Keys + {id})
      ensures group == group0.(
                members := group0.members[id := Member(id, req.clientId, req.protocolType, req.protocols,
                                                       if id in group0.members then group0.members[id].assignment else [],
                                                       req.sessionTimeoutMs, req.rebalanceTimeoutMs, now)],
                protocolType := if group0.protocolType == "" then req.protocolType else group0.protocolType,
                generation := group0.generation + 1,
                protocolName := ChooseProtocol(order, group.members),
                leader := if group0.leader == "" || group0.leader !in group.members then id else group0.leader,
                state := CompletingRebalance)
      ensures resp == Joined(group, id, order)
    {
      var kept := if id in group0.members then group0.members[id].assignment else [];
      var m := Member(id, req.clientId, req.protocolType, req.protocols, kept,
                      req.sessionTimeoutMs, req.rebalanceTimeoutMs, now);
      var ms := group0.members[id := m];
      assert ms.Keys == group0.members.Keys + {id};
      var walk := Walk(ms);
      order := walk;
      var name := ChooseByVotes(walk, ms);
      group := group0.(members := ms,
                       protocolType := if group0.protocolType == "" then req.protocolType else group0.protocolType,
                       generation := group0.generation + 1, protocolName := name);
      if group.leader == "" || group.leader !in group.members {
        group := group.(leader := id);
      }
      group := group.(state := CompletingRebalance);
      resp := Answer(group, id, walk);
    }

    /** The join of one group. */
    method JoinOne(group0: Group, req: JoinRequest, now: int, suffix: string)
      returns (group: Group, resp: JoinResponse, ghost order: seq<string>)
      ensures JoinOrder(group0, req, suffix, order) && (group, resp) == Join(group0, req, now, suffix, order)
    {
      group := group0.(groupId := req.groupId);
      var id := req.memberId;
      if id == "" {
        id := req.clientId + "-" + suffix;
      } else if group.state == Stable && id in group.members {
        group := group.(members := group.members[id := group.members[id].(lastHeartbeatMs := now, protocols := req.protocols)]);
        assert group.members.Keys == group0.members.Keys + {id};
        var walk := Walk(group.members);
        assert forall k :: k in walk <==> k in group.members.Keys;
        resp := Answer(group, id, walk);
        return group, resp, walk;
      } else if group.members != map[] && group.state != Empty && id !in group.members {
        var walk := Walk(group.members);
        EnumExtend(walk, group.members.Keys, id);
        return group, JoinResponse(UNKNOWN_MEMBER_ID, -1, "", "", id, []), walk + [id];
      }
      group, resp, order := Rebalance(group, id, req, now);
    }

    method JoinGroup(req: JoinRequest, now: int, suffix: string) returns (resp: JoinResponse, ghost order: seq<string>)
      modifies this
      ensures var e := JoinEvent(req, now, suffix, order);
              Possible(old(groups), e) && Handle(old(groups), e) == (groups, JoinReply(resp))
    {
      var group;
      group, resp, order := JoinOne(Get(groups, req.groupId), req, now, suffix);
      groups := groups[req.groupId := group];
    }

    method SyncGroup(req: SyncRequest) returns (resp: SyncResponse)
      modifies this
      ensures Handle(old(groups), SyncEvent(req)) == (groups, SyncReply(resp))
    {
      if req.groupId !in groups {
        return SyncResponse(UNKNOWN_MEMBER_ID, []);
      }
      var group := groups[req.groupId];
      assert groups == groups[req.groupId := group];
      if req.memberId !in group.members {
        return SyncResponse(UNKNOWN_MEMBER_ID, []);
      }
      if req.generation != group.generation {
        return SyncResponse(ILLEGAL_GENERATION, []);
      }
      if req.memberId == group.leader && req.assignments != [] {
        var ms := AssignEach(group.members, req.assignments);
        group := group.(members := ms, state := Stable);
      }
      groups := groups[req.groupId := group];
      resp := SyncResponse(NONE, group.members[req.memberId].assignment);
    }

    method CheckSessionTimeouts(group: Group, now: int) returns (group': Group, ghost order: seq<string>)
      ensures Enumerates(order, group.members.Keys) && group' == Purge(group, now, order)
    {
      var walk := Walk(group.members);
      order := walk;
      var alive, any := EraseExpired(walk, group.members, now);
      group' := group.(members := alive);
      if any {
        if alive == map[] {
          group' := group'.(state := Empty, leader := "");
        } else {
          if group.leader !in alive {
            var first := FirstOf(walk, alive);
            group' := group'.(leader := first);
          }
          group' := group'.(generation := group.generation + 1, state := PreparingRebalance);
        }
      }
    }

    method HeartbeatGroup(req: HeartbeatRequest, now1: int, now2: int) returns (error: int, ghost order: seq<string>)
      modifies this
      ensures var e := HeartbeatEvent(req, now1, now2, order);
              Possible(old(groups), e) && Handle(old(groups), e) == (groups, ErrorReply(error))
    {
      var group := Get(groups, req.groupId);
      var walk := Walk(group.members);
      order := walk;
      if req.groupId !in groups {
        return UNKNOWN_MEMBER_ID, walk;
      }
      assert groups == groups[req.groupId := group];
      if req.memberId !in group.members {
        return UNKNOWN_MEMBER_ID, walk;
      }
      if req.generation != group.generation {
        return ILLEGAL_GENERATION, walk;
      }
      group := group.(members := group.members[req.memberId := group.members[req.memberId].(lastHeartbeatMs := now1)]);
      assert group.members.Keys == groups[req.groupId].members.Keys;
      group, order := CheckSessionTimeouts(group, now2);
      groups := groups[req.groupId := group];
      error := if group.state == PreparingRebalance || group.state == CompletingRebalance then REBALANCE_IN_PROGRESS else NONE;
    }

    method LeaveGroup(req: LeaveRequest) returns (error: int, ghost order: seq<string>)
      modifies this
      ensures var e := LeaveEvent(req, order);
              Possible(old(groups), e) && Handle(old(groups), e) == (groups, ErrorReply(error))
    {
      var group := Get(groups, req.groupId);
      var walk := Walk(group.members);
      order := walk;
      if req.groupId !in groups {
        return NONE, walk;
      }
      assert groups == groups[req.groupId := group];
      if req.memberId !in group.members {
        return UNKNOWN_MEMBER_ID, walk;
      }
      group := group.(members := group.members - {req.memberId});
      if group.members == map[] {
        group := group.(state := Empty, generation := group.generation + 1, leader := "");
      } else {
        if req.memberId == group.leader {
          var first := FirstOf(walk, group.members);
          group := group.(leader := first);
        }
        group := group.(generation := group.generation + 1, state := PreparingRebalance);
      }
      groups := groups[req.groupId := group];
      error := NONE;
    }

    method OffsetCommit(req: CommitRequest) returns (acked: seq<TopicPartition>)
      modifies this
      ensures Handle(old(groups), CommitEvent(req)) == (groups, CommitReply)
      ensures |acked| == |req.partitions| && forall i | 0 <= i < |acked| :: acked[i] == req.partitions[i].tp
    {
      var group := Get(groups, req.groupId);
      acked := [];
      for i := 0 to |req.partitions|
        invariant group == Commit(Get(groups, req.groupId), req.partitions[..i]) && groups == old(groups)
        invariant |acked| == i && forall j | 0 <= j < i :: acked[j] == req.partitions[j].tp
      {
        var p := req.partitions[i];
        group := group.(offsets := group.offsets[p.tp := p.offset], metadata := group.metadata[p.tp := p.metadata]);
        acked := acked + [p.tp];
        assert req.partitions[..i + 1][..i] == req.partitions[..i];
      }
      assert req.partitions[..|req.partitions|] == req.partitions;
      groups := groups[req.groupId := group];
    }

    method OffsetFetch(groupId: string, tps: seq<TopicPartition>) returns (r: seq<FetchedOffset>)
      ensures |r| == |tps| && forall i | 0 <= i < |r| :: r[i] == FetchOne(Get(groups, groupId), tps[i])
    {
      r := [];
      for i := 0 to |tps|
        invariant |r| == i && forall j | 0 <= j < i :: r[j] == FetchOne(Get(groups, groupId), tps[j])
      {
        var out := FetchedOffset(tps[i], -1, "");
        if groupId in groups && tps[i] in groups[groupId].offsets {
          out := out.(offset := groups[groupId].offsets[tps[i]]);
          if tps[i] in groups[groupId].metadata {
            out := out.(metadata := groups[groupId].metadata[tps[i]]);
          }
        }
        r := r + [out];
      }
    }
  }
}
