/** Root-cause search over the causal graph (src/causal_engine.rs).

    I/O rates are reals; the graph is an input. */
module CausalGraph {

  type Id = string

  datatype NodeType = ProcessNode | ResourceNode

  datatype EdgeType = SpawnedBy | ReadsFrom | WritesTo | BlockedOn | ContendsWith

  datatype GraphNode = GraphNode(nodeType: NodeType, readRateKb: real, writeRateKb: real, isAnomalous: bool)

  datatype GraphEdge = GraphEdge(fromId: Id, toId: Id, edgeType: EdgeType)

  datatype Graph = Graph(nodes: map<Id, GraphNode>, edges: seq<GraphEdge>)

  /** One I/O edge into a resource: the process and its total rate. */
  datatype User = User(id: Id, rate: real)

  const TOP_USERS := 3

  predicate IsIo(t: EdgeType) {
    t == ReadsFrom || t == WritesTo
  }

  predicate Anomalous(g: Graph, id: Id) {
    id in g.nodes && g.nodes[id].isAnomalous
  }

  /** A resource is worth following from `current` if it, or another process touching it, is anomalous. */
  predicate Suspicious(g: Graph, current: Id, resource: Id) {
    Anomalous(g, resource)
    || exists e | e in g.edges :: e.toId == resource && e.fromId != current && Anomalous(g, e.fromId)
  }

  predicate Follows(g: Graph, current: Id, e: GraphEdge) {
    && e.fromId == current
    && if IsIo(e.edgeType) then e.toId in g.nodes && Suspicious(g, current, e.toId) else true
  }

  /** Where a process leads, edge by edge. */
  function ProcessTargets(g: Graph, current: Id, n: nat): seq<Id>
    requires n <= |g.edges|
  {
    if n == 0 then [] else
    ProcessTargets(g, current, n - 1) + if Follows(g, current, g.edges[n - 1]) then [g.edges[n - 1].toId] else []
  }

  predicate Uses(g: Graph, e: GraphEdge, resource: Id) {
    e.toId == resource && IsIo(e.edgeType) && e.fromId in g.nodes
  }

  /** The users of a resource, one per I/O edge, in edge order. */
  function Users(g: Graph, resource: Id, n: nat): seq<User>
    requires n <= |g.edges|
  {
    if n == 0 then [] else
    var e := g.edges[n - 1];
    Users(g, resource, n - 1) +
    if Uses(g, e, resource) then [User(e.fromId, g.nodes[e.fromId].writeRateKb + g.nodes[e.fromId].readRateKb)] else []
  }

  /** Inserts after everything at least as fast: sorting from the left this way is stable. */
  function InsertByRate(sorted: seq<User>, u: User): seq<User> {
    if sorted == [] || sorted[|sorted| - 1].rate >= u.rate then sorted + [u]
    else InsertByRate(sorted[..|sorted| - 1], u) + [sorted[|sorted| - 1]]
  }

  /** The stable sort by descending rate. */
  function ByRate(users: seq<User>): seq<User> {
    if users == [] then [] else InsertByRate(ByRate(users[..|users| - 1]), users[|users| - 1])
  }

  function FirstIds(users: seq<User>, n: nat): seq<Id> {
    seq(if |users| < n then |users| else n, i requires 0 <= i < |users| => users[i].id)
  }

  function Successors(g: Graph, current: Id): seq<Id> {
    if current !in g.nodes then []
    else if g.nodes[current].nodeType == ProcessNode then ProcessTargets(g, current, |g.edges|)
    else FirstIds(ByRate(Users(g, current, |g.edges|)), TOP_USERS)
  }

  // ---- The top three ------------------------------------------------------------------------------------

  predicate Descending(users: seq<User>) {
    forall i, j :: 0 <= i < j < |users| ==> users[i].rate >= users[j].rate
  }

  lemma {:induction false} InsertPermutes(sorted: seq<User>, u: User)
    ensures multiset(InsertByRate(sorted, u)) == multiset(sorted) + multiset{u}
  {
    if sorted != [] && sorted[|sorted| - 1].rate < u.rate {
      var n := |sorted| - 1;
      InsertPermutes(sorted[..n], u);
      assert sorted == sorted[..n] + [sorted[n]];
    }
  }

  lemma {:induction false} InsertSorts(sorted: seq<User>, u: User)
    requires Descending(sorted)
    ensures Descending(InsertByRate(sorted, u))
  {
    if sorted != [] && sorted[|sorted| - 1].rate < u.rate {
      var n := |sorted| - 1;
      var front, last := sorted[..n], sorted[n];
      InsertSorts(front, u);
      InsertPermutes(front, u);
      var inserted := InsertByRate(front, u);
      forall i | 0 <= i < |inserted|
        ensures inserted[i].rate >= last.rate
      {
        AtLeast(sorted, u, inserted[i]) by {
          assert inserted[i] in multiset(inserted);
        }
      }
    }
  }

  lemma AtLeast(sorted: seq<User>, u: User, x: User)
    requires Descending(sorted) && sorted != [] && sorted[|sorted| - 1].rate < u.rate
    requires x in multiset(sorted[..|sorted| - 1]) + multiset{u}
    ensures x.rate >= sorted[|sorted| - 1].rate
  {
    if x in multiset(sorted[..|sorted| - 1]) {
      var i :| 0 <= i < |sorted| - 1 && sorted[..|sorted| - 1][i] == x;
      assert sorted[i] == x;
    }
  }

  lemma {:induction false} ByRateSorts(users: seq<User>)
    ensures Descending(ByRate(users)) && multiset(ByRate(users)) == multiset(users)
  {
    if users != [] {
      var n := |users| - 1;
      ByRateSorts(users[..n]);
      InsertSorts(ByRate(users[..n]), users[n]);
      InsertPermutes(ByRate(users[..n]), users[n]);
      assert users == users[..n] + [users[n]];
    }
  }

  /** Users of one rate stay in edge order. */
  function OfRate(users: seq<User>, rate: real): seq<User> {
    if users == [] then [] else
    OfRate(users[..|users| - 1], rate) + if users[|users| - 1].rate == rate then [users[|users| - 1]] else []
  }

  lemma {:induction false} OfRateAppend(users: seq<User>, u: User, rate: real)
    ensures OfRate(users + [u], rate) == OfRate(users, rate) + if u.rate == rate then [u] else []
  {
    assert (users + [u])[..|users|] == users;
  }

  lemma {:induction false} InsertStable(sorted: seq<User>, u: User, rate: real)
    requires Descending(sorted)
    ensures OfRate(InsertByRate(sorted, u), rate) == OfRate(sorted + [u], rate)
  {
    if sorted != [] && sorted[|sorted| - 1].rate < u.rate {
      var n := |sorted| - 1;
      var front, last := sorted[..n], sorted[n];
      InsertStable(front, u, rate);
      assert sorted == front + [last];
      SwapStable(front, last, u, InsertByRate(front, u), rate);
    }
  }

  lemma SwapStable(front: seq<User>, last: User, u: User, inserted: seq<User>, rate: real)
    requires last.rate != u.rate && OfRate(inserted, rate) == OfRate(front + [u], rate)
    ensures OfRate(inserted + [last], rate) == OfRate(front + [last] + [u], rate)
  {
    hide OfRate;
    OfRateAppend(inserted, last, rate);
    OfRateAppend(front, last, rate);
    OfRateAppend(front, u, rate);
    OfRateAppend(front + [last], u, rate);
  }

  lemma {:induction false} ByRateStable(users: seq<User>, rate: real)
    ensures OfRate(ByRate(users), rate) == OfRate(users, rate)
  {
    if users != [] {
      var n := |users| - 1;
      ByRateStable(users[..n], rate);
      ByRateSorts(users[..n]);
      InsertStable(ByRate(users[..n]), users[n], rate);
      OfRateAppend(ByRate(users[..n]), users[n], rate);
    }
  }

  /** A resource leads only to users at least as fast as any user it does not lead to. */
  lemma SuccessorsAreBusiest(g: Graph, resource: Id, followed: User, other: User)
    requires resource in g.nodes && g.nodes[resource].nodeType == ResourceNode
    requires var sorted := ByRate(Users(g, resource, |g.edges|));
             exists i :: 0 <= i < TOP_USERS && i < |sorted| && sorted[i] == followed
    requires other in Users(g, resource, |g.edges|) && other.id !in Successors(g, resource)
    ensures followed.id in Successors(g, resource) && followed.rate >= other.rate
  {
    hide Users, ByRate;
    var users := Users(g, resource, |g.edges|);
    var sorted := ByRate(users);
    ByRateSorts(users);
    var i :| 0 <= i < TOP_USERS && i < |sorted| && sorted[i] == followed;
    assert FirstIds(sorted, TOP_USERS)[i] == followed.id;
    assert other in multiset(users) && other in multiset(sorted);
    var j :| 0 <= j < |sorted| && sorted[j] == other;
    var next := FirstIds(sorted, TOP_USERS);
    assert forall m | 0 <= m < |next| :: next[m] == sorted[m].id && next[m] in next;
    assert j >= |next|;
  }

  function Ids(users: seq<User>): set<Id> {
    set u | u in users :: u.id
  }

  function Elements(s: seq<Id>): set<Id> {
    set x | x in s
  }

  function Rate(g: Graph, id: Id): real
    requires id in g.nodes
  {
    g.nodes[id].writeRateKb + g.nodes[id].readRateKb
  }

  /** A process has one rate, however many edges it has. */
  lemma {:induction false} UsersHaveRates(g: Graph, resource: Id, n: nat)
    requires n <= |g.edges|
    ensures forall u | u in Users(g, resource, n) :: u.id in g.nodes && u.rate == Rate(g, u.id)
  {
    if n > 0 {
      UsersHaveRates(g, resource, n - 1);
    }
  }

  lemma {:induction false} Cardinality(s: seq<Id>)
    ensures |Elements(s)| <= |s|
    ensures |Elements(s)| == |s| <==> forall i, j :: 0 <= i < j < |s| ==> s[i] != s[j]
  {
    if s != [] {
      var n := |s| - 1;
      var front, last := s[..n], s[n];
      Cardinality(front);
      assert s == front + [last];
      assert Elements(s) == Elements(front) + {last};
      if last in front {
        assert Elements(s) == Elements(front);
        var i :| 0 <= i < n && front[i] == last;
        assert s[i] == s[n];
      } else {
        assert forall i, j | 0 <= i < j < n :: front[i] == s[i] && front[j] == s[j];
      }
    }
  }

  lemma SubsetCardinality<T>(a: set<T>, b: set<T>)
    requires a <= b
    ensures |a| <= |b| && (|a| == |b| ==> a == b)
  {
    assert b == a + (b - a);
    assert |b| == |a| + |b - a|;
  }

  predicate NoneTwice(ids: seq<Id>) {
    forall i, j :: 0 <= i < j < |ids| ==> ids[i] != ids[j]
  }

  lemma CountExactly(next: seq<Id>, ids: set<Id>)
    requires |next| <= TOP_USERS && Elements(next) <= ids && (|next| < TOP_USERS ==> ids <= Elements(next))
    ensures |Elements(next)| == (if |ids| < TOP_USERS then |ids| else TOP_USERS)
            <==> NoneTwice(next) || ids <= Elements(next)
  {
    hide Elements;
    Cardinality(next);
    SubsetCardinality(Elements(next), ids);
    if ids <= Elements(next) {
      assert Elements(next) == ids;
    }
  }

  lemma NoneFaster(g: Graph, resource: Id, id: Id, other: Id)
    requires resource in g.nodes && g.nodes[resource].nodeType == ResourceNode
    requires id in Elements(Successors(g, resource))
    requires other in Ids(Users(g, resource, |g.edges|)) - Elements(Successors(g, resource))
    ensures id in g.nodes && other in g.nodes && Rate(g, id) >= Rate(g, other)
  {
    hide Users, ByRate, Rate;
    var users, next := Users(g, resource, |g.edges|), Successors(g, resource);
    var sorted := ByRate(users);
    ByRateSorts(users);
    UsersHaveRates(g, resource, |g.edges|);
    var i :| 0 <= i < |next| && next[i] == id;
    assert sorted[i] in multiset(sorted) && sorted[i] in multiset(users) && sorted[i] in users;
    var u :| u in users && u.id == other;
    SuccessorsAreBusiest(g, resource, sorted[i], u);
  }

  /** On every graph: a resource leads to as many different processes as it has users, up to three, if
      and only if no process repeats among the first three users by rate, or all of them are led to;
      and no process left out is faster than one led to. */
  lemma TopThreeExactly(g: Graph, resource: Id)
    requires resource in g.nodes && g.nodes[resource].nodeType == ResourceNode
    ensures var users, next := Users(g, resource, |g.edges|), Successors(g, resource);
            && Elements(next) <= Ids(users)
            && (|Elements(next)| == (if |Ids(users)| < TOP_USERS then |Ids(users)| else TOP_USERS)
                <==> NoneTwice(next) || Ids(users) <= Elements(next))
            && (forall id, other | id in Elements(next) && other in Ids(users) - Elements(next) ::
                  id in g.nodes && other in g.nodes && Rate(g, id) >= Rate(g, other))
  {
    hide Users, ByRate, Rate, Ids, Elements, NoneTwice;
    var users, next := Users(g, resource, |g.edges|), Successors(g, resource);
    var sorted := ByRate(users);
    ByRateSorts(users);
    assert |sorted| == |multiset(sorted)| == |users|;
    FirstAreUsers(users, sorted);
    if |users| <= TOP_USERS {
      AllAreFirst(users, sorted);
    }
    CountExactly(next, Ids(users));
    forall id, other | id in Elements(next) && other in Ids(users) - Elements(next)
      ensures id in g.nodes && other in g.nodes && Rate(g, id) >= Rate(g, other)
    {
      NoneFaster(g, resource, id, other);
    }
  }

  lemma FirstAreUsers(users: seq<User>, sorted: seq<User>)
    requires multiset(users) == multiset(sorted)
    ensures Elements(FirstIds(sorted, TOP_USERS)) <= Ids(users)
  {
    forall id | id in Elements(FirstIds(sorted, TOP_USERS))
      ensures id in Ids(users)
    {
      var i :| 0 <= i < |FirstIds(sorted, TOP_USERS)| && FirstIds(sorted, TOP_USERS)[i] == id;
      assert sorted[i] in multiset(sorted);
      assert sorted[i] in users;
    }
  }

  lemma AllAreFirst(users: seq<User>, sorted: seq<User>)
    requires multiset(users) == multiset(sorted) && |sorted| <= TOP_USERS
    ensures Ids(users) <= Elements(FirstIds(sorted, TOP_USERS))
  {
    forall id | id in Ids(users)
      ensures id in Elements(FirstIds(sorted, TOP_USERS))
    {
      var u :| u in users && u.id == id;
      assert u in multiset(users) && u in multiset(sorted);
      var i :| 0 <= i < |sorted| && sorted[i] == u;
      assert FirstIds(sorted, TOP_USERS)[i] == id;
    }
  }

  predicate DistinctIds(users: seq<User>) {
    forall i, j :: 0 <= i < j < |users| ==> users[i].id != users[j].id
  }

  /** With one I/O edge per process, a resource leads to its three fastest processes, or to all. */
  lemma TopThreeProcesses(g: Graph, resource: Id)
    requires resource in g.nodes && g.nodes[resource].nodeType == ResourceNode
    requires DistinctIds(Users(g, resource, |g.edges|))
    ensures var users, next := Users(g, resource, |g.edges|), Successors(g, resource);
            && |next| == (if |users| < TOP_USERS then |users| else TOP_USERS)
            && (forall i, j :: 0 <= i < j < |next| ==> next[i] != next[j])
            && (forall id, other | id in Elements(next) && other in Ids(users) - Elements(next) ::
                  id in g.nodes && other in g.nodes && Rate(g, id) >= Rate(g, other))
  {
    hide Users, ByRate, Rate;
    var users := Users(g, resource, |g.edges|);
    var sorted := ByRate(users);
    ByRateSorts(users);
    assert |sorted| == |multiset(sorted)| == |users|;
    DistinctSorted(users, sorted);
    TopThreeExactly(g, resource);
  }

  lemma {:induction false} DistinctSorted(users: seq<User>, sorted: seq<User>)
    requires multiset(users) == multiset(sorted) && DistinctIds(users)
    ensures DistinctIds(sorted)
  {
    forall i, j | 0 <= i < j < |sorted|
      ensures sorted[i].id != sorted[j].id
    {
      assert sorted[i] in multiset(sorted) && sorted[j] in multiset(sorted);
      var a :| 0 <= a < |users| && users[a] == sorted[i];
      var b :| 0 <= b < |users| && users[b] == sorted[j];
      if a == b {
        TwiceInMultiset(sorted, i, j);
        OnceInMultiset(users, a);
      }
    }
  }

  lemma TwiceInMultiset(s: seq<User>, i: nat, j: nat)
    requires i < j < |s| && s[i] == s[j]
    ensures multiset(s)[s[i]] >= 2
  {
    assert s == s[..j] + [s[j]] + s[j + 1..];
    assert s[..j][i] == s[i];
  }

  lemma OnceInMultiset(s: seq<User>, i: nat)
    requires i < |s| && DistinctIds(s)
    ensures multiset(s)[s[i]] == 1
  {
    assert s == s[..i] + [s[i]] + s[i + 1..];
    assert s[i] !in s[..i] && s[i] !in s[i + 1..];
  }

  // ---- Which edges lead on ------------------------------------------------------------------------------

  /** The node is anomalous, or another anomalous process has an edge to it. */
  predicate Troubled(g: Graph, from: Id, resource: Id) {
    && resource in g.nodes
    && (g.nodes[resource].isAnomalous
        || exists e | e in g.edges ::
             e.toId == resource && e.fromId != from && e.fromId in g.nodes && g.nodes[e.fromId].isAnomalous)
  }

  /** An edge a process is followed along: what it waits for, its parent, whom it contends with; and what
      it reads or writes if that is troubled. */
  predicate LeadsOn(g: Graph, from: Id, e: GraphEdge) {
    && e.fromId == from
    && (e.edgeType == BlockedOn || e.edgeType == SpawnedBy || e.edgeType == ContendsWith
        || ((e.edgeType == ReadsFrom || e.edgeType == WritesTo) && Troubled(g, from, e.toId)))
  }

  ghost predicate Linked(g: Graph, from: Id, to: Id) {
    exists e | e in g.edges :: e.toId == to && LeadsOn(g, from, e)
  }

  predicate Increasing(ks: seq<nat>) {
    forall i, j :: 0 <= i < j < |ks| ==> ks[i] < ks[j]
  }

  /** Where a process leads: along the edges that lead on, in their order. */
  lemma {:induction false} TargetsExactly(g: Graph, current: Id, n: nat) returns (ks: seq<nat>)
    requires n <= |g.edges|
    ensures Increasing(ks) && |ks| == |ProcessTargets(g, current, n)|
    ensures forall i | 0 <= i < |ks| :: ks[i] < n && ProcessTargets(g, current, n)[i] == g.edges[ks[i]].toId
    ensures forall k | 0 <= k < n :: k in ks <==> LeadsOn(g, current, g.edges[k])
  {
    if n == 0 {
      ks := [];
    } else {
      ks := TargetsExactly(g, current, n - 1);
      var e := g.edges[n - 1];
      assert Suspicious(g, current, e.toId) && e.toId in g.nodes <==> Troubled(g, current, e.toId);
      if Follows(g, current, e) {
        ks := ks + [n - 1];
      }
    }
  }

  /** A process leads to a node exactly when they are linked. */
  lemma ProcessLeadsExactly(g: Graph, current: Id, w: Id)
    requires current in g.nodes && g.nodes[current].nodeType == ProcessNode
    ensures w in Successors(g, current) <==> Linked(g, current, w)
  {
    hide LeadsOn, ProcessTargets;
    var ks := TargetsExactly(g, current, |g.edges|);
    var next := Successors(g, current);
    if w in next {
      var i :| 0 <= i < |next| && next[i] == w;
      assert ks[i] in ks && g.edges[ks[i]] in g.edges;
    }
    if e :| e in g.edges && e.toId == w && LeadsOn(g, current, e) {
      var k :| 0 <= k < |g.edges| && g.edges[k] == e;
      var i :| 0 <= i < |ks| && ks[i] == k;
      assert next[i] == w;
    }
  }

  /** An edge on which a known process reads or writes the resource. */
  predicate IsUse(g: Graph, resource: Id, e: GraphEdge) {
    e.toId == resource && (e.edgeType == ReadsFrom || e.edgeType == WritesTo) && e.fromId in g.nodes
  }

  /** The total I/O rate of the process at the start of an edge. */
  function UseRate(g: Graph, e: GraphEdge): real
    requires e.fromId in g.nodes
  {
    g.nodes[e.fromId].readRateKb + g.nodes[e.fromId].writeRateKb
  }

  /** Edge `a` ranks before edge `b`: its process is faster, or as fast and the edge comes first. */
  predicate RanksBefore(g: Graph, a: nat, b: nat) {
    && a < |g.edges| && b < |g.edges| && g.edges[a].fromId in g.nodes && g.edges[b].fromId in g.nodes
    && (UseRate(g, g.edges[a]) > UseRate(g, g.edges[b])
        || (UseRate(g, g.edges[a]) == UseRate(g, g.edges[b]) && a < b))
  }

  /** The users are those of the edges `ks`, one for each. */
  ghost predicate UsersOn(g: Graph, resource: Id, users: seq<User>, ks: seq<nat>) {
    && |users| == |ks|
    && forall i | 0 <= i < |ks| ::
         && ks[i] < |g.edges| && IsUse(g, resource, g.edges[ks[i]])
         && users[i] == User(g.edges[ks[i]].fromId, UseRate(g, g.edges[ks[i]]))
  }

  ghost predicate Ranked(g: Graph, ks: seq<nat>) {
    forall i, j | 0 <= i < j < |ks| :: RanksBefore(g, ks[i], ks[j])
  }

  lemma {:induction false} UsersExactly(g: Graph, resource: Id, n: nat) returns (ks: seq<nat>)
    requires n <= |g.edges|
    ensures Increasing(ks) && UsersOn(g, resource, Users(g, resource, n), ks)
    ensures forall i | 0 <= i < |ks| :: ks[i] < n
    ensures forall k | 0 <= k < n :: k in ks <==> IsUse(g, resource, g.edges[k])
  {
    if n == 0 {
      ks := [];
    } else {
      var e := g.edges[n - 1];
      ks := UsersExactly(g, resource, n - 1);
      assert Uses(g, e, resource) <==> IsUse(g, resource, e);
      if Uses(g, e, resource) {
        assert User(e.fromId, g.nodes[e.fromId].writeRateKb + g.nodes[e.fromId].readRateKb) == User(e.fromId, UseRate(g, e));
        ks := ks + [n - 1];
      }
    }
  }

  lemma {:induction false} InsertRanks(g: Graph, resource: Id, sorted: seq<User>, ks: seq<nat>, u: User, k: nat)
      returns (ks': seq<nat>)
    requires UsersOn(g, resource, sorted, ks) && Ranked(g, ks) && UsersOn(g, resource, [u], [k])
    requires forall j | j in ks :: j < k
    ensures UsersOn(g, resource, InsertByRate(sorted, u), ks') && Ranked(g, ks')
    ensures forall j :: j in ks' <==> j in ks || j == k
    decreases |sorted|
  {
    hide IsUse, RanksBefore, UseRate, Ranked;
    assert [u][0] == u && [k][0] == k;
    if sorted == [] || sorted[|sorted| - 1].rate >= u.rate {
      ks' := ks + [k];
      LastRanks(g, resource, sorted, ks, u, k);
    } else {
      var n := |sorted| - 1;
      var front := sorted[..n];
      FrontRanks(g, resource, sorted, ks);
      assert forall j | j in ks[..n] :: j in ks;
      var inner := InsertRanks(g, resource, front, ks[..n], u, k);
      assert ks == ks[..n] + [ks[n]];
      ks' := inner + [ks[n]];
      forall j | j in inner
        ensures RanksBefore(g, j, ks[n])
      {
        if j != k {
          RankedAt(g, ks, j);
        } else {
          BehindFaster(g, resource, sorted, ks, u, k);
        }
      }
      RankedAppend(g, inner, ks[n]);
    }
  }

  lemma RankedAt(g: Graph, ks: seq<nat>, j: nat)
    requires Ranked(g, ks) && ks != [] && j in ks[..|ks| - 1]
    ensures RanksBefore(g, j, ks[|ks| - 1])
  {
    hide RanksBefore;
    var m :| 0 <= m < |ks| - 1 && ks[m] == j;
  }

  lemma FrontRanks(g: Graph, resource: Id, sorted: seq<User>, ks: seq<nat>)
    requires UsersOn(g, resource, sorted, ks) && Ranked(g, ks) && sorted != []
    ensures UsersOn(g, resource, sorted[..|sorted| - 1], ks[..|sorted| - 1]) && Ranked(g, ks[..|sorted| - 1])
  {
    hide IsUse, RanksBefore, UseRate;
    assert forall i | 0 <= i < |ks| - 1 :: ks[..|ks| - 1][i] == ks[i] && sorted[..|ks| - 1][i] == sorted[i];
  }

  /** The edge of a faster user ranks before that of the last one. */
  lemma BehindFaster(g: Graph, resource: Id, sorted: seq<User>, ks: seq<nat>, u: User, k: nat)
    requires UsersOn(g, resource, sorted, ks) && UsersOn(g, resource, [u], [k])
    requires sorted != [] && sorted[|sorted| - 1].rate < u.rate
    ensures RanksBefore(g, k, ks[|ks| - 1])
  {
    assert [u][0] == u && [k][0] == k;
  }

  lemma RankedAppend(g: Graph, ks: seq<nat>, k: nat)
    requires Ranked(g, ks) && forall j | j in ks :: RanksBefore(g, j, k)
    ensures Ranked(g, ks + [k])
  {
    hide RanksBefore;
  }

  lemma LastRanks(g: Graph, resource: Id, sorted: seq<User>, ks: seq<nat>, u: User, k: nat)
    requires UsersOn(g, resource, sorted, ks) && Ranked(g, ks) && UsersOn(g, resource, [u], [k])
    requires forall j | j in ks :: j < k
    requires sorted == [] || sorted[|sorted| - 1].rate >= u.rate
    ensures UsersOn(g, resource, sorted + [u], ks + [k]) && Ranked(g, ks + [k])
  {
    assert [u][0] == u && [k][0] == k;
    forall j | j in ks
      ensures RanksBefore(g, j, k)
    {
      var i :| 0 <= i < |ks| && ks[i] == j;
      if i < |ks| - 1 {
        assert RanksBefore(g, ks[i], ks[|ks| - 1]);
      }
    }
    RankedAppend(g, ks, k);
  }

  lemma {:induction false} ByRateRanks(g: Graph, resource: Id, users: seq<User>, us: seq<nat>) returns (ks: seq<nat>)
    requires UsersOn(g, resource, users, us) && Increasing(us)
    ensures UsersOn(g, resource, ByRate(users), ks) && Ranked(g, ks)
    ensures forall j :: j in ks <==> j in us
    decreases |users|
  {
    hide IsUse, InsertByRate;
    if users == [] {
      ks := [];
    } else {
      var n := |users| - 1;
      assert us == us[..n] + [us[n]];
      ks := ByRateRanks(g, resource, users[..n], us[..n]);
      ks := InsertRanks(g, resource, ByRate(users[..n]), ks, users[n], us[n]);
    }
  }

  /** A resource leads to the processes on the three edges of its use that rank first, in that order, or
      on all if there are no more. */
  lemma ResourceLeadsExactly(g: Graph, resource: Id) returns (ks: seq<nat>)
    requires resource in g.nodes && g.nodes[resource].nodeType == ResourceNode
    ensures |ks| == |Successors(g, resource)| <= 3
    ensures forall i | 0 <= i < |ks| ::
              && ks[i] < |g.edges| && IsUse(g, resource, g.edges[ks[i]])
              && Successors(g, resource)[i] == g.edges[ks[i]].fromId
    ensures Ranked(g, ks)
    ensures forall k | 0 <= k < |g.edges| && IsUse(g, resource, g.edges[k]) && k !in ks ::
              |ks| == 3 && forall i | 0 <= i < |ks| :: RanksBefore(g, ks[i], k)
  {
    hide Users, ByRate, IsUse;
    var us := UsersExactly(g, resource, |g.edges|);
    var all := ByRateRanks(g, resource, Users(g, resource, |g.edges|), us);
    ks := if |all| < 3 then all else all[..3];
    assert forall i | 0 <= i < |ks| :: ks[i] == all[i] && all[i] in all;
    forall k | 0 <= k < |g.edges| && IsUse(g, resource, g.edges[k]) && k !in ks
      ensures |ks| == 3 && forall i | 0 <= i < |ks| :: RanksBefore(g, ks[i], k)
    {
      var m :| 0 <= m < |all| && all[m] == k;
      assert m >= |ks|;
    }
  }

  // ---- Reachability ----------------------------------------------------------------------------------------

  /** `to` can be reached from `from` in exactly `k` steps. */
  ghost predicate Walk(g: Graph, from: Id, to: Id, k: nat)
    decreases k
  {
    if k == 0 then from == to
    else exists mid :: Walk(g, from, mid, k - 1) && to in Successors(g, mid)
  }

  ghost predicate Reaches(g: Graph, from: Id, to: Id) {
    exists k: nat :: Walk(g, from, to, k)
  }

  predicate NoRepeats(path: seq<Id>) {
    forall i, j :: 0 <= i < j < |path| ==> path[i] != path[j]
  }

  ghost predicate ReachedWithin(g: Graph, start: Id, id: Id, k: nat) {
    exists n: nat :: n <= k && Walk(g, start, id, n)
  }

  /** Whenever a later id can be reached in `k` steps, an earlier one can be in at most `k`. */
  ghost predicate NearestFirst(g: Graph, start: Id, path: seq<Id>) {
    forall i, j, k: nat | 0 <= i < j < |path| && Walk(g, start, path[j], k) :: ReachedWithin(g, start, path[i], k)
  }

  function Universe(g: Graph, start: Id): set<Id> {
    {start} + (set e | e in g.edges :: e.fromId) + (set e | e in g.edges :: e.toId)
  }

  lemma {:induction false} TargetsInUniverse(g: Graph, start: Id, current: Id, n: nat, id: Id)
    requires n <= |g.edges| && id in ProcessTargets(g, current, n)
    ensures id in Universe(g, start)
  {
    if id in ProcessTargets(g, current, n - 1) {
      TargetsInUniverse(g, start, current, n - 1, id);
    } else {
      assert g.edges[n - 1] in g.edges;
    }
  }

  lemma {:induction false} UsersInUniverse(g: Graph, start: Id, resource: Id, n: nat, u: User)
    requires n <= |g.edges| && u in Users(g, resource, n)
    ensures u.id in Universe(g, start)
  {
    if u in Users(g, resource, n - 1) {
      UsersInUniverse(g, start, resource, n - 1, u);
    } else {
      assert g.edges[n - 1] in g.edges;
    }
  }

  lemma SuccessorsInUniverse(g: Graph, start: Id, current: Id, id: Id)
    requires id in Successors(g, current)
    ensures id in Universe(g, start)
  {
    if g.nodes[current].nodeType == ProcessNode {
      TargetsInUniverse(g, start, current, |g.edges|, id);
    } else {
      var users := Users(g, current, |g.edges|);
      ByRateSorts(users);
      var i :| 0 <= i < |FirstIds(ByRate(users), TOP_USERS)| && FirstIds(ByRate(users), TOP_USERS)[i] == id;
      var u := ByRate(users)[i];
      assert u in multiset(ByRate(users)) && u in users;
      UsersInUniverse(g, start, current, |g.edges|, u);
    }
  }

  // ---- The search --------------------------------------------------------------------------------------------

  /** What the search keeps: `all` are the ids met so far in order, the first `done` of them expanded;
      depths are lengths of walks, do not decrease along `all`, and spread over at most two levels
      from the first unexpanded id on. */
  ghost predicate SearchInv(g: Graph, start: Id, all: seq<Id>, done: nat, depth: map<Id, nat>) {
    && 0 < |all| && all[0] == start && done <= |all| && NoRepeats(all)
    && (forall i | 0 <= i < |all| :: all[i] in depth && Walk(g, start, all[i], depth[all[i]]))
    && depth[start] == 0
    && (forall i, j | 0 <= i < j < |all| :: depth[all[i]] <= depth[all[j]])
    && (forall j | done <= j < |all| :: depth[all[j]] <= depth[all[done]] + 1)
    && (forall i, w | 0 <= i < done && w in Successors(g, all[i]) :: w in all && depth[w] <= depth[all[i]] + 1)
  }

  /** The same while the successors of `all[done]` are being queued; `seen` of them have been. */
  ghost predicate ExpandInv(g: Graph, start: Id, all: seq<Id>, done: nat, depth: map<Id, nat>, seen: seq<Id>) {
    && done < |all| && SearchInv(g, start, all, done, depth)
    && forall w | w in seen :: w in all && depth[w] <= depth[all[done]] + 1
  }

  lemma QueueOne(g: Graph, start: Id, all: seq<Id>, done: nat, depth: map<Id, nat>, seen: seq<Id>, w: Id)
    requires ExpandInv(g, start, all, done, depth, seen) && w in Successors(g, all[done]) && w !in all
    ensures ExpandInv(g, start, all + [w], done, depth[w := depth[all[done]] + 1], seen + [w])
  {
    hide Successors;
    var all', depth' := all + [w], depth[w := depth[all[done]] + 1];
    assert Walk(g, start, w, depth[all[done]] + 1);
    assert forall i | 0 <= i < |all| :: all'[i] == all[i] && all[i] != w;
    forall i | 0 <= i < |all'|
      ensures Walk(g, start, all'[i], depth'[all'[i]])
    {
      hide Walk;
      if i < |all| {
        assert Walk(g, start, all[i], depth[all[i]]);
      }
    }
  }

  /** An id already met is never deeper than one more step. */
  lemma SeeOne(g: Graph, start: Id, all: seq<Id>, done: nat, depth: map<Id, nat>, seen: seq<Id>, w: Id)
    requires ExpandInv(g, start, all, done, depth, seen) && w in all
    ensures ExpandInv(g, start, all, done, depth, seen + [w])
  {
    hide Successors, Walk;
    var i :| 0 <= i < |all| && all[i] == w;
    if i < done {
      assert depth[all[i]] <= depth[all[done]];
    }
  }

  lemma Expanded(g: Graph, start: Id, all: seq<Id>, done: nat, depth: map<Id, nat>)
    requires done < |all| && ExpandInv(g, start, all, done, depth, Successors(g, all[done]))
    ensures SearchInv(g, start, all, done + 1, depth)
  {
    hide Successors, Walk;
    if done + 1 < |all| {
      assert depth[all[done]] <= depth[all[done + 1]];
    }
  }

  /** Once everything met is expanded, depths are shortest distances and nothing is missing. */
  lemma {:induction false} WalksEndInside(g: Graph, start: Id, all: seq<Id>, depth: map<Id, nat>, to: Id, k: nat)
    requires SearchInv(g, start, all, |all|, depth) && Walk(g, start, to, k)
    ensures to in all && depth[to] <= k
    decreases k
  {
    hide Successors;
    if k > 0 {
      var mid :| Walk(g, start, mid, k - 1) && to in Successors(g, mid);
      WalksEndInside(g, start, all, depth, mid, k - 1);
      var i :| 0 <= i < |all| && all[i] == mid;
      assert to in all && depth[to] <= depth[all[i]] + 1;
    }
  }

  lemma SearchFinds(g: Graph, start: Id, all: seq<Id>, depth: map<Id, nat>, id: Id)
    requires SearchInv(g, start, all, |all|, depth)
    ensures id in all <==> Reaches(g, start, id)
  {
    hide Successors, Walk;
    if id in all {
      var i :| 0 <= i < |all| && all[i] == id;
      assert Walk(g, start, all[i], depth[all[i]]);
    }
    if k: nat :| Walk(g, start, id, k) {
      WalksEndInside(g, start, all, depth, id, k);
    }
  }

  lemma SearchNearestFirst(g: Graph, start: Id, all: seq<Id>, depth: map<Id, nat>)
    requires SearchInv(g, start, all, |all|, depth)
    ensures NearestFirst(g, start, all)
  {
    hide Successors;
    forall i, j, k: nat | 0 <= i < j < |all| && Walk(g, start, all[j], k)
      ensures ReachedWithin(g, start, all[i], k)
    {
      WalksEndInside(g, start, all, depth, all[j], k);
      assert Walk(g, start, all[i], depth[all[i]]);
      assert depth[all[i]] <= depth[all[j]] <= k;
    }
  }

  // ---- The order of the path --------------------------------------------------------------------------------

  /** The ids without repetitions, each where it stands first. */
  function Distinct(ids: seq<Id>): seq<Id> {
    if ids == [] then [] else
    var front := Distinct(ids[..|ids| - 1]);
    if ids[|ids| - 1] in front then front else front + [ids[|ids| - 1]]
  }

  /** Where the ids lead, one after the other. */
  function Onward(g: Graph, ids: seq<Id>): seq<Id> {
    if ids == [] then [] else Onward(g, ids[..|ids| - 1]) + Successors(g, ids[|ids| - 1])
  }

  /** The search so far: the start and where the expanded ids lead, without repetitions. */
  ghost predicate InOrderFound(g: Graph, start: Id, done: seq<Id>, seen: seq<Id>, all: seq<Id>) {
    all == Distinct([start] + Onward(g, done) + seen)
  }

  lemma FoundFirst(g: Graph, start: Id)
    ensures InOrderFound(g, start, [], [], [start])
  {
    hide Successors;
    var ids := [start] + Onward(g, []) + [];
    assert ids == [start] && ids[..0] == [] && Distinct(ids[..0]) == [];
  }

  lemma FoundOneMore(g: Graph, start: Id, done: seq<Id>, seen: seq<Id>, all: seq<Id>, w: Id)
    requires InOrderFound(g, start, done, seen, all)
    ensures InOrderFound(g, start, done, seen + [w], if w in all then all else all + [w])
  {
    hide Successors, Onward;
    var ids := [start] + Onward(g, done) + seen;
    assert [start] + Onward(g, done) + (seen + [w]) == ids + [w];
    assert (ids + [w])[..|ids|] == ids;
  }

  lemma FoundExpanded(g: Graph, start: Id, done: seq<Id>, current: Id, all: seq<Id>)
    requires InOrderFound(g, start, done, Successors(g, current), all)
    ensures InOrderFound(g, start, done + [current], [], all)
  {
    hide Successors, Distinct;
    assert (done + [current])[..|done|] == done;
    assert [start] + Onward(g, done + [current]) + [] == [start] + Onward(g, done) + Successors(g, current);
  }

  lemma FoundAll(g: Graph, start: Id, path: seq<Id>)
    requires InOrderFound(g, start, path, [], path)
    ensures path == Distinct([start] + Onward(g, path))
  {
    hide Successors, Distinct, Onward;
    assert [start] + Onward(g, path) + [] == [start] + Onward(g, path);
  }

  /** Whatever a process on the path is linked to is on the path. */
  lemma PathIsClosed(g: Graph, start: Id, path: seq<Id>, depth: map<Id, nat>)
    requires SearchInv(g, start, path, |path|, depth)
    ensures forall p, w | p in path && p in g.nodes && g.nodes[p].nodeType == ProcessNode && Linked(g, p, w) :: w in path
  {
    hide Successors, Walk, Linked;
    forall p, w | p in path && p in g.nodes && g.nodes[p].nodeType == ProcessNode && Linked(g, p, w)
      ensures w in path
    {
      ProcessLeadsExactly(g, p, w);
      var i :| 0 <= i < |path| && path[i] == p;
      assert w in Successors(g, path[i]);
    }
  }

  method ProcessNext(g: Graph, current: Id) returns (ids: seq<Id>)
    ensures ids == ProcessTargets(g, current, |g.edges|)
  {
    ids := [];
    for n := 0 to |g.edges|
      invariant ids == ProcessTargets(g, current, n)
    {
      if Follows(g, current, g.edges[n]) {
        ids := ids + [g.edges[n].toId];
      }
    }
  }

  method ResourceNext(g: Graph, current: Id) returns (ids: seq<Id>)
    ensures ids == FirstIds(ByRate(Users(g, current, |g.edges|)), TOP_USERS)
  {
    var users := [];
    for n := 0 to |g.edges|
      invariant users == Users(g, current, n)
    {
      var e := g.edges[n];
      if Uses(g, e, current) {
        users := users + [User(e.fromId, g.nodes[e.fromId].writeRateKb + g.nodes[e.fromId].readRateKb)];
      }
    }
    var sorted := [];
    for n := 0 to |users|
      invariant sorted == ByRate(users[..n])
    {
      assert users[..n + 1][..n] == users[..n];
      sorted := InsertByRate(sorted, users[n]);
    }
    assert users[..|users|] == users;
    ids := FirstIds(sorted, TOP_USERS);
  }

  method Next(g: Graph, current: Id) returns (ids: seq<Id>)
    ensures ids == Successors(g, current)
  {
    if current !in g.nodes {
      return [];
    }
    if g.nodes[current].nodeType == ProcessNode {
      ids := ProcessNext(g, current);
    } else {
      ids := ResourceNext(g, current);
    }
  }

  /** Queues the successors of `current` that have not been met. */
  method Expand(
    g: Graph, start: Id, ghost before: seq<Id>, current: Id, queue: seq<Id>, visited: set<Id>, ghost depth: map<Id, nat>)
      returns (queue': seq<Id>, visited': set<Id>, ghost depth': map<Id, nat>)
    requires ExpandInv(g, start, before + [current] + queue, |before|, depth, [])
    requires Elements(before + [current] + queue) == visited <= Universe(g, start)
    requires InOrderFound(g, start, before, [], before + [current] + queue)
    ensures InOrderFound(g, start, before + [current], [], before + [current] + queue')
    ensures SearchInv(g, start, before + [current] + queue', |before| + 1, depth')
    ensures Elements(before + [current] + queue') == visited' <= Universe(g, start)
  {
    hide Successors, Universe, SearchInv, ExpandInv, InOrderFound;
    queue', visited', depth' := queue, visited, depth;
    ghost var all := before + [current] + queue;
    var next := Next(g, current);
    assert next[..0] == [];
    for i := 0 to |next|
      invariant all == before + [current] + queue' && all[|before|] == current
      invariant ExpandInv(g, start, all, |before|, depth', next[..i])
      invariant Elements(all) == visited' <= Universe(g, start)
      invariant InOrderFound(g, start, before, next[..i], all)
    {
      var w := next[i];
      FoundOneMore(g, start, before, next[..i], all, w);
      assert next[..i + 1] == next[..i] + [w] && w in next;
      if w !in visited' {
        QueueOne(g, start, all, |before|, depth', next[..i], w);
        SuccessorsInUniverse(g, start, current, w);
        CurrentKnown(g, start, all, |before|, depth', next[..i]);
        depth' := depth'[w := depth'[current] + 1];
        visited', queue', all := visited' + {w}, queue' + [w], all + [w];
      } else {
        SeeOne(g, start, all, |before|, depth', next[..i], w);
      }
    }
    assert next[..|next|] == next;
    FoundExpanded(g, start, before, current, all);
    Expanded(g, start, all, |before|, depth');
  }

  lemma CurrentKnown(g: Graph, start: Id, all: seq<Id>, done: nat, depth: map<Id, nat>, seen: seq<Id>)
    requires ExpandInv(g, start, all, done, depth, seen)
    ensures all[done] in depth
  {
    hide Walk, Successors;
  }

  /** The ids reachable from the start, each once, nearest first; nothing for an unknown start. */
  method TraceRootCause(g: Graph, start: Id) returns (path: seq<Id>)
    ensures start !in g.nodes ==> path == []
    ensures start in g.nodes ==>
              && path != [] && path[0] == start && NoRepeats(path)
              && (forall id :: id in path <==> Reaches(g, start, id))
              && NearestFirst(g, start, path)
              && path == Distinct([start] + Onward(g, path))
              && forall p, w | p in path && p in g.nodes && g.nodes[p].nodeType == ProcessNode && Linked(g, p, w) ::
                   w in path
  {
    hide Successors, Walk, NearestFirst, Reaches, Universe, InOrderFound, Linked, Distinct, Onward;
    path := [];
    if start !in g.nodes {
      return;
    }
    var queue, visited := [start], {start};
    ghost var depth: map<Id, nat> := map[start := 0];
    Begin(g, start);
    FoundFirst(g, start);
    assert path + queue == [start];
    while queue != []
      invariant SearchInv(g, start, path + queue, |path|, depth)
      invariant Elements(path + queue) == visited <= Universe(g, start)
      invariant InOrderFound(g, start, path, [], path + queue)
      decreases Universe(g, start) - Elements(path)
    {
      var current := queue[0];
      Progress(g, start, path, current, path + queue);
      assert path + queue == path + [current] + queue[1..];
      queue, visited, depth := Expand(g, start, path, current, queue[1..], visited, depth);
      path := path + [current];
    }
    assert path + queue == path;
    forall id
      ensures id in path <==> Reaches(g, start, id)
    {
      SearchFinds(g, start, path, depth, id);
    }
    SearchNearestFirst(g, start, path, depth);
    FoundAll(g, start, path);
    PathIsClosed(g, start, path, depth);
  }

  lemma Begin(g: Graph, start: Id)
    ensures SearchInv(g, start, [] + [start], 0, map[start := 0])
    ensures Elements([] + [start]) == {start} <= Universe(g, start)
  {
    hide Successors;
    assert [] + [start] == [start];
    assert Walk(g, start, start, 0);
  }

  lemma Progress(g: Graph, start: Id, before: seq<Id>, current: Id, all: seq<Id>)
    requires NoRepeats(all) && |before| < |all| && before == all[..|before|] && all[|before|] == current
    requires Elements(all) <= Universe(g, start)
    ensures Universe(g, start) - Elements(before + [current]) < Universe(g, start) - Elements(before)
  {
    assert current in Elements(all) && current !in Elements(before) && current in Elements(before + [current]);
  }

  /** Three I/O edges of one process use up all three places, so the only other process reading the
      resource is not followed. */
  lemma RepeatedEdgesCrowdOut(r: Id, a: Id, b: Id) returns (g: Graph)
    requires r != a && r != b && a != b
    ensures r in g.nodes && g.nodes[r].nodeType == ResourceNode
    ensures User(b, 1.0) in Users(g, r, |g.edges|) && b !in Successors(g, r)
  {
    var io := GraphEdge(a, r, ReadsFrom);
    g := Graph(
      map[r := GraphNode(ResourceNode, 0.0, 0.0, false), a := GraphNode(ProcessNode, 1.0, 1.0, false),
          b := GraphNode(ProcessNode, 1.0, 0.0, false)],
      [io, io, io, GraphEdge(b, r, ReadsFrom)]);
    var busy, slow := User(a, 2.0), User(b, 1.0);
    assert Users(g, r, 1) == [busy];
    assert Users(g, r, 2) == [busy] + [busy];
    assert Users(g, r, 3) == [busy] + [busy] + [busy];
    assert Users(g, r, 4) == [busy] + [busy] + [busy] + [slow];
    SortedFour(busy, slow);
  }

  lemma SortedFour(busy: User, slow: User)
    requires busy.rate > slow.rate
    ensures ByRate([busy] + [busy] + [busy] + [slow]) == [busy, busy, busy, slow]
  {
    OneMoreSorted([], busy);
    OneMoreSorted([busy], busy);
    OneMoreSorted([busy] + [busy], busy);
    OneMoreSorted([busy] + [busy] + [busy], slow);
    assert [] + [busy] == [busy];
  }

  lemma OneMoreSorted(users: seq<User>, u: User)
    ensures ByRate(users + [u]) == InsertByRate(ByRate(users), u)
  {
    assert (users + [u])[..|users|] == users;
  }
}
