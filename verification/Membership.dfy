/** One server's member table: merging, heartbeats and failure detection (src/kvsrv/membership.go, src/kvsrv/rpc/memberInfo.go). */
module Membership {
  import opened Base

  datatype Status = Alive | Suspect | Dead

  datatype MemberInfo = MemberInfo(serverID: Str, heartbeat: nat, status: Status)

  type Table = map<Str, MemberInfo>

  /** What the coordinator asks of a table: each member's status. */
  type View = map<Str, Status>

  function ViewOf(t: Table): View { map id | id in t :: t[id].status }

  function Rank(s: Status): nat {
    match s case Alive => 0 case Suspect => 1 case Dead => 2
  }

  /** IsWorse. */
  predicate Worse(a: MemberInfo, b: MemberInfo) { Rank(a.status) > Rank(b.status) }

  /** The order of news about a member: heartbeat first, then the worse status. */
  predicate AtMost(a: MemberInfo, b: MemberInfo) {
    a.heartbeat < b.heartbeat || (a.heartbeat == b.heartbeat && !Worse(a, b))
  }

  /** The later of two pieces of news about one member. */
  function Later(a: MemberInfo, b: MemberInfo): MemberInfo { if AtMost(a, b) then b else a }

  predicate Keyed(t: Table) { forall id | id in t :: t[id].serverID == id }

  /** Every entry of the first table is known, or surpassed, in the second. */
  predicate Raises(a: Table, b: Table) { forall id | id in a :: id in b && AtMost(a[id], b[id]) }

  function Join(a: Table, b: Table): Table {
    map id | id in a.Keys + b.Keys :: if id !in b then a[id] else if id !in a then b[id] else Later(a[id], b[id])
  }

  // ----- the operations on tables

  /** A Go map read of a missing member gives the zero value. */
  function Entry(t: Table, id: Str): MemberInfo { if id in t then t[id] else MemberInfo([], 0, Alive) }

  /** UpdateMemberInfo. */
  function WithEntry(t: Table, id: Str, heartbeat: nat, status: Status): Table {
    t[id := Entry(t, id).(heartbeat := heartbeat, status := status)]
  }

  /** One round of mergeMembers. */
  function Accept(t: Table, m: MemberInfo): Table {
    if m.serverID !in t then t[m.serverID := m]
    else if m.heartbeat > t[m.serverID].heartbeat || (m.heartbeat == t[m.serverID].heartbeat && Worse(m, t[m.serverID]))
    then WithEntry(t, m.serverID, m.heartbeat, m.status) else t
  }

  function AcceptAll(t: Table, infos: seq<MemberInfo>): Table
    decreases infos
  {
    if infos == [] then t else AcceptAll(Accept(t, infos[0]), infos[1..])
  }

  /** Times at which entries were last refreshed. */
  type Times = map<Str, int>

  datatype Timeouts = Timeouts(cleanup: int, failure: int)

  /** detectMemberFailures' verdict on one entry. */
  function Judged(m: MemberInfo, since: int, d: Timeouts): (r: MemberInfo)
    ensures r.serverID == m.serverID && r.heartbeat == m.heartbeat
    ensures r.status == Dead <==> m.status == Dead || since >= d.cleanup
    ensures r.status == Alive <==> m.status == Alive && since < d.failure && since < d.cleanup
  {
    if since >= d.cleanup then m.(status := Dead)
    else if since >= d.failure && m.status == Alive then m.(status := Suspect)
    else m
  }

  function LastSeen(times: Times, id: Str, now: int): int { if id in times then times[id] else now }

  function Detected(t: Table, times: Times, self: Str, now: int, d: Timeouts): Table {
    map id | id in t :: if id == self then t[id] else Judged(t[id], now - LastSeen(times, id, now), d)
  }

  /** A member that detection has judged: an entry that changed carries the new stamp, any other keeps its time. */
  predicate Settled(t: Table, times: Times, m: Table, l: Times, self: Str, now: int, stamp: int, d: Timeouts, id: Str) {
    && id in t && id in m && m[id] == Detected(t, times, self, now, d)[id]
    && (id != self ==> id in l && l[id] == if m[id] != t[id] then stamp else LastSeen(times, id, now))
  }

  predicate Pending(t: Table, times: Times, m: Table, l: Times, now: int, id: Str) {
    id in t && id in m && m[id] == t[id] && LastSeen(l, id, now) == LastSeen(times, id, now)
  }

  /** Detection has still to visit these members. */
  predicate Visiting(t: Table, times: Times, m: Table, l: Times, left: set<Str>, self: Str, now: int, stamp: int, d: Timeouts) {
    && m.Keys == t.Keys
    && (forall id | id in left :: Pending(t, times, m, l, now, id))
    && (forall id | id in t && id !in left :: Settled(t, times, m, l, self, now, stamp, d, id))
  }

  lemma OthersStay(t: Table, times: Times, m: Table, l: Times, self: Str, now: int, stamp: int, d: Timeouts, x: Str, e: MemberInfo, at: int, id: Str)
    requires id != x
    ensures Pending(t, times, m, l, now, id) ==> Pending(t, times, m[x := e], l[x := at], now, id)
    ensures Settled(t, times, m, l, self, now, stamp, d, id) ==> Settled(t, times, m[x := e], l[x := at], self, now, stamp, d, id)
  {
    hide Judged;
  }

  lemma NowSettled(t: Table, times: Times, m: Table, l: Times, self: Str, now: int, stamp: int, d: Timeouts, x: Str, m': Table, l': Times)
    requires Pending(t, times, m, l, now, x) && x != self
    requires m' == m[x := Judged(m[x], now - LastSeen(l, x, now), d)]
    requires l' == l[x := if m'[x] != m[x] then stamp else LastSeen(l, x, now)]
    ensures Settled(t, times, m', l', self, now, stamp, d, x)
  {
    hide Judged;
  }

  lemma VisitedOne(t: Table, times: Times, m: Table, l: Times, left: set<Str>, self: Str, now: int, stamp: int, d: Timeouts, x: Str, m': Table, l': Times)
    requires Visiting(t, times, m, l, left, self, now, stamp, d) && x in left && x in m && x != self
    requires m' == m[x := Judged(m[x], now - LastSeen(l, x, now), d)]
    requires l' == l[x := if m'[x] != m[x] then stamp else LastSeen(l, x, now)]
    ensures Visiting(t, times, m', l', left - {x}, self, now, stamp, d)
  {
    hide Pending, Settled, Judged, LastSeen;
    NowSettled(t, times, m, l, self, now, stamp, d, x, m', l');
    forall id: Str | id != x
      ensures Pending(t, times, m, l, now, id) ==> Pending(t, times, m', l', now, id)
      ensures Settled(t, times, m, l, self, now, stamp, d, id) ==> Settled(t, times, m', l', self, now, stamp, d, id)
    {
      OthersStay(t, times, m, l, self, now, stamp, d, x, m'[x], l'[x], id);
    }
  }

  lemma VisitedSelf(t: Table, times: Times, m: Table, l: Times, left: set<Str>, self: Str, now: int, stamp: int, d: Timeouts)
    requires Visiting(t, times, m, l, left, self, now, stamp, d) && self in left
    ensures Visiting(t, times, m, l, left - {self}, self, now, stamp, d)
  {
    assert Pending(t, times, m, l, now, self);
    assert Settled(t, times, m, l, self, now, stamp, d, self);
    hide Pending, Settled, Judged;
  }

  lemma AllVisited(t: Table, times: Times, m: Table, l: Times, self: Str, now: int, stamp: int, d: Timeouts)
    requires Visiting(t, times, m, l, {}, self, now, stamp, d)
    ensures m == Detected(t, times, self, now, d)
  {
    forall id | id in t ensures m[id] == Detected(t, times, self, now, d)[id] {
      assert Settled(t, times, m, l, self, now, stamp, d, id);
    }
  }

  // ----- the lattice of news

  lemma AtMostTransitive(a: MemberInfo, b: MemberInfo, c: MemberInfo)
    requires AtMost(a, b) && AtMost(b, c)
    ensures AtMost(a, c)
  {
  }

  /** Only a newer heartbeat brings a suspected or dead member back. */
  lemma RevivalNeedsHeartbeat(a: MemberInfo, b: MemberInfo)
    requires AtMost(a, b) && a.status != Alive && b.status == Alive
    ensures a.heartbeat < b.heartbeat
  {
  }

  lemma RaisesTransitive(a: Table, b: Table, c: Table)
    requires Raises(a, b) && Raises(b, c)
    ensures Raises(a, c)
  {
    forall id | id in a ensures id in c && AtMost(a[id], c[id]) {
      AtMostTransitive(a[id], b[id], c[id]);
    }
  }

  /** The join is the least table that knows everything both know. */
  lemma JoinIsLeast(a: Table, b: Table, t: Table)
    requires Keyed(a) && Keyed(b)
    ensures Keyed(Join(a, b)) && Raises(a, Join(a, b)) && Raises(b, Join(a, b))
    ensures Raises(a, t) && Raises(b, t) ==> Raises(Join(a, b), t)
  {
  }

  lemma SameNews(a: MemberInfo, b: MemberInfo)
    requires a.serverID == b.serverID && AtMost(a, b) && AtMost(b, a)
    ensures a == b
  {
  }

  lemma JoinLaws(a: Table, b: Table)
    requires Keyed(a) && Keyed(b)
    ensures Join(a, b) == Join(b, a)
    ensures Join(a, Join(a, b)) == Join(a, b)
    ensures Join(a, a) == a
  {
    forall id | id in a && id in b ensures Later(a[id], b[id]) == Later(b[id], a[id]) {
      if AtMost(a[id], b[id]) && AtMost(b[id], a[id]) { SameNews(a[id], b[id]); }
    }
    assert Join(a, b) == Join(b, a);
    assert Join(a, Join(a, b)) == Join(a, b);
    assert Join(a, a) == a;
  }

  // ----- merging a list is joining a table

  /** The list carries the table's entries, in any order and any number of times. */
  predicate Lists(infos: seq<MemberInfo>, t: Table) {
    && (forall i | 0 <= i < |infos| :: infos[i].serverID in t && t[infos[i].serverID] == infos[i])
    && forall id | id in t :: t[id] in infos
  }

  /** The news of a list, member by member. */
  function Digest(infos: seq<MemberInfo>): Table {
    if infos == [] then map[] else Join(map[infos[0].serverID := infos[0]], Digest(infos[1..]))
  }

  lemma AcceptIsJoin(t: Table, m: MemberInfo)
    requires Keyed(t)
    ensures Accept(t, m) == Join(t, map[m.serverID := m]) && Keyed(Accept(t, m))
  {
    var one: Table := map[m.serverID := m];
    assert Accept(t, m).Keys == t.Keys + {m.serverID};
    forall id | id in Accept(t, m) ensures Accept(t, m)[id] == Join(t, one)[id] {
      if id == m.serverID && id in t && AtMost(t[id], m) && AtMost(m, t[id]) { SameNews(t[id], m); }
    }
  }

  lemma JoinAssociates(a: Table, b: Table, c: Table)
    ensures Join(Join(a, b), c) == Join(a, Join(b, c))
  {
    assert Join(Join(a, b), c).Keys == Join(a, Join(b, c)).Keys;
  }

  lemma {:induction false} DigestKeyed(infos: seq<MemberInfo>)
    ensures Keyed(Digest(infos))
  {
    if infos != [] { DigestKeyed(infos[1..]); }
  }

  /** mergeMembers computes a join, whatever the list. */
  lemma {:induction false} MergeIsJoin(t: Table, infos: seq<MemberInfo>)
    requires Keyed(t)
    ensures AcceptAll(t, infos) == Join(t, Digest(infos)) && Keyed(AcceptAll(t, infos))
    decreases infos
  {
    DigestKeyed(infos);
    if infos != [] {
      AcceptIsJoin(t, infos[0]);
      MergeIsJoin(Accept(t, infos[0]), infos[1..]);
      JoinAssociates(t, map[infos[0].serverID := infos[0]], Digest(infos[1..]));
    } else {
      assert Join(t, map[]) == t;
    }
  }

  /** An entry of a digest is the greatest news in the list about that member. */
  lemma {:induction false} DigestGreatest(infos: seq<MemberInfo>, id: Str)
    ensures id in Digest(infos) ==> Digest(infos)[id] in infos && Digest(infos)[id].serverID == id
    ensures forall i | 0 <= i < |infos| && infos[i].serverID == id :: id in Digest(infos) && AtMost(infos[i], Digest(infos)[id])
  {
    if infos != [] {
      DigestGreatest(infos[1..], id);
      assert infos == [infos[0]] + infos[1..];
      forall i | 0 <= i < |infos| && infos[i].serverID == id ensures id in Digest(infos) && AtMost(infos[i], Digest(infos)[id]) {
        if i > 0 { assert infos[i] == infos[1..][i - 1]; }
      }
    }
  }

  /** Order and repetition do not matter: lists with the same elements have the same digest. */
  lemma DigestOfElements(a: seq<MemberInfo>, b: seq<MemberInfo>)
    requires Elements(a) == Elements(b)
    ensures Digest(a) == Digest(b)
  {
    forall id ensures id in Digest(a) ==> id in Digest(b) && Digest(a)[id] == Digest(b)[id] { SameDigestAt(a, b, id); }
    forall id ensures id in Digest(b) ==> id in Digest(a) { SameDigestAt(b, a, id); }
  }

  lemma SameDigestAt(a: seq<MemberInfo>, b: seq<MemberInfo>, id: Str)
    requires Elements(a) == Elements(b)
    ensures id in Digest(a) ==> id in Digest(b) && Digest(a)[id] == Digest(b)[id]
  {
    DigestGreatest(a, id);
    DigestGreatest(b, id);
    if id in Digest(a) {
      assert Digest(a)[id] in Elements(b);
      var i :| 0 <= i < |b| && b[i] == Digest(a)[id];
      assert Digest(b)[id] in Elements(a);
      var j :| 0 <= j < |a| && a[j] == Digest(b)[id];
      SameNews(a[j], b[i]);
    }
  }

  lemma ListingDigest(infos: seq<MemberInfo>, t: Table)
    requires Keyed(t) && Lists(infos, t)
    ensures Digest(infos) == t
  {
    forall id | id in t ensures id in Digest(infos) && Digest(infos)[id] == t[id] {
      DigestGreatest(infos, id);
      var i :| 0 <= i < |infos| && infos[i] == t[id];
      var j :| 0 <= j < |infos| && infos[j] == Digest(infos)[id];
    }
    forall id | id in Digest(infos) ensures id in t {
      DigestGreatest(infos, id);
      var i :| 0 <= i < |infos| && infos[i] == Digest(infos)[id];
    }
  }

  /** An exchange with nothing in between leaves both sides with the join of what they knew. */
  lemma PushPull(a: Table, b: Table, push: seq<MemberInfo>, pull: seq<MemberInfo>)
    requires Keyed(a) && Keyed(b) && Lists(push, a) && Lists(pull, AcceptAll(b, push))
    ensures AcceptAll(b, push) == Join(a, b) && AcceptAll(a, pull) == Join(a, b)
  {
    MergeIsJoin(b, push);
    ListingDigest(push, a);
    JoinLaws(a, b);
    MergeIsJoin(a, pull);
    ListingDigest(pull, Join(a, b));
  }

  lemma MergeRaises(t: Table, infos: seq<MemberInfo>)
    requires Keyed(t)
    ensures Raises(t, AcceptAll(t, infos))
  {
    MergeIsJoin(t, infos);
    DigestKeyed(infos);
    JoinIsLeast(t, Digest(infos), t);
  }

  lemma DetectionRaises(t: Table, times: Times, self: Str, now: int, d: Timeouts)
    requires Keyed(t)
    ensures Keyed(Detected(t, times, self, now, d)) && Raises(t, Detected(t, times, self, now, d))
    ensures forall id | id in t :: Detected(t, times, self, now, d)[id].heartbeat == t[id].heartbeat
    ensures self in t ==> Detected(t, times, self, now, d)[self] == t[self]
  {
  }

  /** How long ago the entry was refreshed; 0 if that is not recorded. */
  function Silence(times: Times, id: Str, now: int): int { if id in times then now - times[id] else 0 }

  /**
   Detection on the whole table: exactly those members are dead that were, or have been silent for the cleanup timeout,
   and exactly those of the others are suspected that were, or have been silent for the failure timeout.
   */
  lemma DetectionExactly(t: Table, times: Times, self: Str, now: int, d: Timeouts, id: Str)
    requires id in t && id != self
    ensures var m, silence := Detected(t, times, self, now, d)[id], Silence(times, id, now);
      && m.serverID == t[id].serverID && m.heartbeat == t[id].heartbeat
      && (m.status == Dead <==> t[id].status == Dead || silence >= d.cleanup)
      && (m.status == Suspect <==> silence < d.cleanup && (t[id].status == Suspect || (t[id].status == Alive && silence >= d.failure)))
    ensures Detected(t, times, self, now, d).Keys == t.Keys
  {
  }

  // ----- preference lists

  /** filterDeadMembers, on the statuses of the table. */
  function Living(prefs: seq<Str>, view: View): seq<Str> {
    if prefs == [] then []
    else (if prefs[0] in view && view[prefs[0]] != Dead then [prefs[0]] else []) + Living(prefs[1..], view)
  }

  class MemberTable {
    const id: Str
    const timeouts: Timeouts
    var members: Table
    var memberLastUpdated: Times
    var heartbeatCounter: nat

    /** MakeKVServer's member table: every reachable node and the server itself, alive at heartbeat 0. */
    constructor (id: Str, ends: set<Str>, now: int, timeouts: Timeouts)
      ensures this.id == id && this.timeouts == timeouts && heartbeatCounter == 0
      ensures members == map n | n in ends + {id} :: MemberInfo(n, 0, Alive)
      ensures memberLastUpdated == map n | n in ends + {id} :: now
    {
      this.id := id;
      this.timeouts := timeouts;
      members := map n | n in ends + {id} :: MemberInfo(n, 0, Alive);
      memberLastUpdated := map n | n in ends + {id} :: now;
      heartbeatCounter := 0;
    }

    method UpdateMemberInfo(serverID: Str, heartbeat: nat, status: Status, now: int)
      modifies `members, `memberLastUpdated
      ensures members == WithEntry(old(members), serverID, heartbeat, status)
      ensures memberLastUpdated == old(memberLastUpdated)[serverID := now]
    {
      var member := if serverID in members then members[serverID] else MemberInfo([], 0, Alive);
      member := member.(heartbeat := heartbeat, status := status);
      members := members[serverID := member];
      memberLastUpdated := memberLastUpdated[serverID := now];
    }

    method BumpLocalHeartbeat(now: int)
      modifies this
      ensures heartbeatCounter == old(heartbeatCounter) + 1
      ensures members == WithEntry(old(members), id, heartbeatCounter, Alive)
      ensures memberLastUpdated == old(memberLastUpdated)[id := now]
    {
      heartbeatCounter := heartbeatCounter + 1;
      UpdateMemberInfo(id, heartbeatCounter, Alive, now);
    }

    /** The table becomes the join of itself and the list's news; entries that changed are stamped. */
    method MergeMembers(infos: seq<MemberInfo>, now: int)
      requires Keyed(members)
      modifies `members, `memberLastUpdated
      ensures members == Join(old(members), Digest(infos)) && Keyed(members) && Raises(old(members), members)
      ensures forall n: Str | n in members && (n !in old(members) || members[n] != old(members[n])) ::
        n in memberLastUpdated && memberLastUpdated[n] == now
      ensures forall n: Str | n in old(memberLastUpdated) ::
        n in memberLastUpdated && (memberLastUpdated[n] == now || memberLastUpdated[n] == old(memberLastUpdated[n]))
    {
      for i := 0 to |infos|
        invariant AcceptAll(old(members), infos) == AcceptAll(members, infos[i..])
        invariant forall n: Str | n in members && (n !in old(members) || members[n] != old(members)[n]) ::
          n in memberLastUpdated && memberLastUpdated[n] == now
        invariant forall n: Str | n in old(memberLastUpdated) ::
          n in memberLastUpdated && (memberLastUpdated[n] == now || memberLastUpdated[n] == old(memberLastUpdated)[n])
      {
        assert infos[i..][0] == infos[i] && infos[i..][1..] == infos[i + 1..];
        var member := infos[i];
        var serverID := member.serverID;
        if serverID !in members {
          members := members[serverID := member];
          memberLastUpdated := memberLastUpdated[serverID := now];
        } else {
          var mine := members[serverID];
          if member.heartbeat > mine.heartbeat || (member.heartbeat == mine.heartbeat && Worse(member, mine)) {
            UpdateMemberInfo(serverID, member.heartbeat, member.status, now);
          }
        }
      }
      MergeIsJoin(old(members), infos);
      MergeRaises(old(members), infos);
    }

    /** The verdict on one other member; an entry whose status changes is stamped anew. */
    method DetectFailure(serverID: Str, now: int, stamp: int)
      requires serverID in members
      modifies `members, `memberLastUpdated
      ensures members == old(members)[serverID := Judged(old(members)[serverID], now - LastSeen(old(memberLastUpdated), serverID, now), timeouts)]
      ensures memberLastUpdated == old(memberLastUpdated)[serverID :=
        if members[serverID] != old(members)[serverID] then stamp else LastSeen(old(memberLastUpdated), serverID, now)]
    {
      var member := members[serverID];
      if serverID !in memberLastUpdated {
        memberLastUpdated := memberLastUpdated[serverID := now];
      }
      var since := now - memberLastUpdated[serverID];
      if since >= timeouts.cleanup {
        if member.status != Dead {
          UpdateMemberInfo(serverID, member.heartbeat, Dead, stamp);
        }
      } else if since >= timeouts.failure {
        if member.status == Alive {
          UpdateMemberInfo(serverID, member.heartbeat, Suspect, stamp);
        }
      }
    }

    /** The map is walked in any order while its entries are replaced. */
    method DetectMemberFailures(now: int, stamp: int)
      modifies `members, `memberLastUpdated
      ensures members == Detected(old(members), old(memberLastUpdated), id, now, timeouts)
      ensures forall n | n in members :: Settled(old(members), old(memberLastUpdated), members, memberLastUpdated, id, now, stamp, timeouts, n)
    {
      ghost var table, times := members, memberLastUpdated;
      var left := members.Keys;
      while left != {}
        invariant left <= members.Keys
        invariant Visiting(table, times, members, memberLastUpdated, left, id, now, stamp, timeouts)
        decreases |left|
      {
        hide *;
        var serverID :| serverID in left;
        ghost var members0, times0 := members, memberLastUpdated;
        if serverID != id {
          DetectFailure(serverID, now, stamp);
          VisitedOne(table, times, members0, times0, left, id, now, stamp, timeouts, serverID, members, memberLastUpdated);
        } else {
          VisitedSelf(table, times, members, memberLastUpdated, left, id, now, stamp, timeouts);
        }
        left := left - {serverID};
      }
      AllVisited(table, times, members, memberLastUpdated, id, now, stamp, timeouts);
      hide Settled, Detected;
    }

    method GetAllMembers() returns (infos: seq<MemberInfo>)
      requires Keyed(members)
      ensures Lists(infos, members)
    {
      infos := [];
      var left := members.Keys;
      while left != {}
        invariant left <= members.Keys
        invariant forall i | 0 <= i < |infos| :: infos[i].serverID in members && members[infos[i].serverID] == infos[i]
        invariant forall n | n in members.Keys - left :: members[n] in infos
        decreases |left|
      {
        var n :| n in left;
        left := left - {n};
        infos := infos + [members[n]];
      }
    }

    /** The receiving side of an exchange: merge the push, answer with the whole table. */
    method GossipSyncMembers(infos: seq<MemberInfo>, now: int) returns (reply: seq<MemberInfo>)
      requires Keyed(members)
      modifies `members, `memberLastUpdated
      ensures members == Join(old(members), Digest(infos)) && Keyed(members)
      ensures Lists(reply, members)
    {
      MergeMembers(infos, now);
      reply := GetAllMembers();
    }

    method FilterDeadMembers(serverIDs: seq<Str>) returns (filtered: seq<Str>)
      ensures filtered == Living(serverIDs, ViewOf(members))
    {
      filtered := [];
      for i := 0 to |serverIDs|
        invariant filtered + Living(serverIDs[i..], ViewOf(members)) == Living(serverIDs, ViewOf(members))
      {
        assert serverIDs[i..][0] == serverIDs[i] && serverIDs[i..][1..] == serverIDs[i + 1..];
        if serverIDs[i] in members && members[serverIDs[i]].status != Dead {
          filtered := filtered + [serverIDs[i]];
        }
      }
    }
  }
}
