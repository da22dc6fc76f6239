/**
 * Breadth-first search over the shared-mode graph, from a debtor to a
 * creditor.  The search keeps its own `visited`, `parent` and `mode_used`
 * arrays and never changes the organizations.  The ghost `level` of a
 * visited node is the length of its parent chain; the ghost `d` is the level
 * currently being expanded.
 */
module PathFinder {
  import opened Wrappers
  import opened Models
  import opened CompatGraph
  import opened Organizations

  /** Some mode both organizations support, or `None` exactly when they share none. */
  method CommonPaymentMode(org1: Organization, org2: Organization) returns (r: Option<ModeName>)
    ensures r.None? <==> org1.paymentModes * org2.paymentModes == {}
    ensures r.Some? ==> r.value in org1.paymentModes && r.value in org2.paymentModes
  {
    var common := org1.paymentModes * org2.paymentModes;
    if common != {} {
      var m :| m in common;
      r := Some(m);
    } else {
      r := None;
    }
  }

  function Abs(x: int): int { if x < 0 then -x else x }

  // ---- search invariants, over snapshots of the search arrays ----

  /** Every visited node other than the start has a visited parent one level
      up, joined to it by the recorded mode. */
  ghost predicate ParentTree(g: Graph, s: nat, visited: seq<bool>, level: seq<nat>,
                             parent: seq<int>, modeUsed: seq<Option<ModeName>>)
  {
    && |visited| == |level| == |parent| == |modeUsed| == |g|
    && s < |g| && visited[s] && level[s] == 0
    && forall v {:trigger parent[v]} :: 0 <= v < |g| && visited[v] && v != s ==>
         && 0 <= parent[v] < |g| && visited[parent[v]]
         && level[v] == level[parent[v]] + 1
         && modeUsed[v].Some?
         && modeUsed[v].value in g[parent[v]] && modeUsed[v].value in g[v]
  }

  /** No walk reaches a visited node in fewer hops than its level. */
  ghost predicate LevelsSound(g: Graph, s: nat, visited: seq<bool>, level: seq<nat>) {
    && |visited| == |level| == |g|
    && forall v, p {:trigger WalkFromTo(g, p, s, v)} :: 0 <= v < |g| && visited[v] && WalkFromTo(g, p, s, v) ==> |p| - 1 >= level[v]
  }

  /** Every node within `d` hops of the start is visited. */
  ghost predicate CoversUpTo(g: Graph, s: nat, visited: seq<bool>, d: nat) {
    && |visited| == |g|
    && forall p {:trigger IsWalk(g, p)} :: IsWalk(g, p) && p[0] == s && |p| - 1 <= d ==> visited[p[|p| - 1]]
  }

  /** The queue holds distinct visited nodes of level `d` followed by ones of level `d + 1`. */
  ghost predicate QueueLayered(visited: seq<bool>, level: seq<nat>, queue: seq<nat>, d: nat) {
    && |visited| == |level|
    && NoRepeats(queue)
    && (forall k :: 0 <= k < |queue| ==>
          queue[k] < |visited| && visited[queue[k]] && d <= level[queue[k]] <= d + 1)
    && (forall i, j :: 0 <= i < j < |queue| ==> level[queue[i]] <= level[queue[j]])
  }

  /** A visited node that is neither queued nor being expanded has all its neighbours visited. */
  ghost predicate ProcessedClosed(g: Graph, visited: seq<bool>, queue: seq<nat>, busy: int) {
    && |visited| == |g|
    && forall u, v {:trigger Edge(g, u, v)} :: (0 <= u < |g| && 0 <= v < |g| && visited[u] && u !in queue && u != busy
         && Edge(g, u, v)) ==> visited[v]
  }

  /**
   * The search invariant.  `busy` is the node being expanded (-1 between
   * expansions) and its candidate neighbours below `scanned` are done.
   */
  ghost predicate Searching(g: Graph, s: nat, t: nat, visited: seq<bool>, level: seq<nat>,
                            parent: seq<int>, modeUsed: seq<Option<ModeName>>,
                            queue: seq<nat>, d: nat, busy: int, scanned: nat)
  {
    && ParentTree(g, s, visited, level, parent, modeUsed)
    && LevelsSound(g, s, visited, level)
    && CoversUpTo(g, s, visited, d)
    && QueueLayered(visited, level, queue, d)
    && ProcessedClosed(g, visited, queue, busy)
    && t < |g| && (visited[t] ==> t in queue)
    && (busy >= 0 ==>
          && busy < |g| && visited[busy] && level[busy] == d && busy != t && scanned <= |g|
          && forall v :: 0 <= v < scanned && Edge(g, busy, v) ==> visited[v])
  }

  /** The state after marking the debtor and queueing it. */
  lemma SearchStart(g: Graph, s: nat, t: nat)
    requires s < |g| && t < |g|
    ensures Searching(g, s, t, seq(|g|, _ => false)[s := true], seq(|g|, _ => 0),
                      seq(|g|, _ => -1), seq(|g|, _ => None), [s], 0, -1, 0)
  {
    var visited := seq(|g|, _ => false)[s := true];
    forall p | IsWalk(g, p) && p[0] == s && |p| - 1 <= 0 ensures visited[p[|p| - 1]] {
    }
  }

  /** Taking the head off the queue; the expanded level moves up when the head is a level deeper. */
  lemma SearchPop(g: Graph, s: nat, t: nat, visited: seq<bool>, level: seq<nat>,
                  parent: seq<int>, modeUsed: seq<Option<ModeName>>, queue: seq<nat>, d: nat)
    returns (d': nat)
    requires Searching(g, s, t, visited, level, parent, modeUsed, queue, d, -1, 0)
    requires queue != [] && queue[0] != t
    ensures d' == if level[queue[0]] == d + 1 then d + 1 else d
    ensures Searching(g, s, t, visited, level, parent, modeUsed, queue[1..], d', queue[0], 0)
  {
    if level[queue[0]] == d + 1 {
      BumpLevel(g, s, visited, level, queue, d);
      d' := d + 1;
      forall k | 0 <= k < |queue| ensures d + 1 <= level[queue[k]] {
        assert level[queue[0]] <= level[queue[k]];
      }
    } else {
      d' := d;
    }
    var rest := queue[1..];
    forall k | 0 <= k < |rest| ensures rest[k] == queue[k + 1] {
    }
  }

  /** Passing over a candidate that is visited, is the node itself, or shares no mode. */
  lemma SearchSkip(g: Graph, s: nat, t: nat, visited: seq<bool>, level: seq<nat>,
                   parent: seq<int>, modeUsed: seq<Option<ModeName>>, queue: seq<nat>, d: nat,
                   busy: nat, scanned: nat)
    requires Searching(g, s, t, visited, level, parent, modeUsed, queue, d, busy, scanned)
    requires scanned < |g|
    requires visited[scanned] || scanned == busy || g[busy] * g[scanned] == {}
    ensures Searching(g, s, t, visited, level, parent, modeUsed, queue, d, busy, scanned + 1)
  {
  }

  /** Visiting a new neighbour: it is queued one level deeper, with its parent and mode. */
  lemma SearchVisit(g: Graph, s: nat, t: nat, visited: seq<bool>, level: seq<nat>,
                    parent: seq<int>, modeUsed: seq<Option<ModeName>>, queue: seq<nat>, d: nat,
                    busy: nat, scanned: nat, m: ModeName)
    requires Searching(g, s, t, visited, level, parent, modeUsed, queue, d, busy, scanned)
    requires scanned < |g| && !visited[scanned] && scanned != busy
    requires m in g[busy] && m in g[scanned]
    ensures Searching(g, s, t, visited[scanned := true], level[scanned := d + 1],
                      parent[scanned := busy], modeUsed[scanned := Some(m)],
                      queue + [scanned], d, busy, scanned + 1)
  {
    NewLevelSound(g, s, visited, level, d, scanned);
    ParentTreeVisit(g, s, visited, level, parent, modeUsed, d, busy, scanned, m);
    QueueVisit(visited, level, queue, d, scanned);
    ClosedVisit(g, visited, queue, busy, scanned);
  }

  lemma ParentTreeVisit(g: Graph, s: nat, visited: seq<bool>, level: seq<nat>,
                        parent: seq<int>, modeUsed: seq<Option<ModeName>>, d: nat,
                        busy: nat, x: nat, m: ModeName)
    requires ParentTree(g, s, visited, level, parent, modeUsed)
    requires busy < |g| && visited[busy] && level[busy] == d
    requires x < |g| && !visited[x] && m in g[busy] && m in g[x]
    ensures ParentTree(g, s, visited[x := true], level[x := d + 1], parent[x := busy], modeUsed[x := Some(m)])
  {
    var visited', level', parent', modeUsed' := visited[x := true], level[x := d + 1], parent[x := busy], modeUsed[x := Some(m)];
    forall v | 0 <= v < |g| && visited'[v] && v != s
      ensures 0 <= parent'[v] < |g| && visited'[parent'[v]] && level'[v] == level'[parent'[v]] + 1
      ensures modeUsed'[v].Some? && modeUsed'[v].value in g[parent'[v]] && modeUsed'[v].value in g[v]
    {
      if v != x {
        assert parent'[v] == parent[v] && visited[parent[v]] && parent[v] != x;
      }
    }
  }

  lemma QueueVisit(visited: seq<bool>, level: seq<nat>, queue: seq<nat>, d: nat, x: nat)
    requires QueueLayered(visited, level, queue, d) && x < |visited| && !visited[x]
    ensures QueueLayered(visited[x := true], level[x := d + 1], queue + [x], d)
  {
    var queue' := queue + [x];
    forall k | 0 <= k < |queue| ensures queue'[k] == queue[k] && queue[k] != x {
    }
  }

  lemma ClosedVisit(g: Graph, visited: seq<bool>, queue: seq<nat>, busy: nat, x: nat)
    requires ProcessedClosed(g, visited, queue, busy) && x < |g|
    ensures ProcessedClosed(g, visited[x := true], queue + [x], busy)
  {
    var visited', queue' := visited[x := true], queue + [x];
    forall u, v | 0 <= u < |g| && 0 <= v < |g| && visited'[u] && u !in queue' && u != busy && Edge(g, u, v)
      ensures visited'[v]
    {
      assert u != x && u !in queue;
    }
  }

  /** Once every candidate is scanned, the expanded node counts as processed. */
  lemma SearchDone(g: Graph, s: nat, t: nat, visited: seq<bool>, level: seq<nat>,
                   parent: seq<int>, modeUsed: seq<Option<ModeName>>, queue: seq<nat>, d: nat,
                   busy: nat)
    requires Searching(g, s, t, visited, level, parent, modeUsed, queue, d, busy, |g|)
    ensures Searching(g, s, t, visited, level, parent, modeUsed, queue, d, -1, 0)
  {
  }

  /** Once the queue holds only level `d + 1`, every node within `d + 1` hops is visited. */
  lemma BumpLevel(g: Graph, s: nat, visited: seq<bool>, level: seq<nat>, queue: seq<nat>, d: nat)
    requires CoversUpTo(g, s, visited, d) && LevelsSound(g, s, visited, level)
    requires QueueLayered(visited, level, queue, d) && queue != [] && level[queue[0]] == d + 1
    requires ProcessedClosed(g, visited, queue, -1)
    ensures CoversUpTo(g, s, visited, d + 1)
  {
    forall p | IsWalk(g, p) && p[0] == s && |p| - 1 <= d + 1
      ensures visited[p[|p| - 1]]
    {
      if |p| - 1 == d + 1 {
        var q := p[..|p| - 1];
        WalkPrefix(g, p, |p| - 1);
        var w := q[|q| - 1];
        assert visited[w];
        assert WalkFromTo(g, q, s, w);
        assert level[w] <= d;
        forall k | 0 <= k < |queue| ensures queue[k] != w {
          assert level[queue[0]] <= level[queue[k]];
        }
        assert Edge(g, p[|p| - 2], p[|p| - 1]);
      }
    }
  }

  /** A node outside the covered radius is at least `d + 1` hops away. */
  lemma NewLevelSound(g: Graph, s: nat, visited: seq<bool>, level: seq<nat>, d: nat, x: nat)
    requires CoversUpTo(g, s, visited, d) && LevelsSound(g, s, visited, level)
    requires x < |g| && !visited[x]
    ensures LevelsSound(g, s, visited[x := true], level[x := d + 1])
    ensures CoversUpTo(g, s, visited[x := true], d)
  {
  }

  /** When nothing is left to expand, an unvisited node is unreachable. */
  lemma ExhaustedSearch(g: Graph, s: nat, t: nat, visited: seq<bool>)
    requires ProcessedClosed(g, visited, [], -1)
    requires s < |g| && t < |g| && visited[s] && !visited[t]
    ensures !Reachable(g, s, t)
  {
    var S := set u | 0 <= u < |g| && visited[u];
    assert Closed(g, S);
    if Reachable(g, s, t) {
      var p :| WalkFromTo(g, p, s, t);
      ClosedKeepsWalks(g, S, p);
      assert false;
    }
  }

  /** Following parent links from a visited node back to the start gives a labelled route whose
      levels count up by one per hop. */
  ghost predicate ChainTo(g: Graph, level: seq<nat>, route: seq<nat>, modes: seq<ModeName>, t: nat) {
    && IsRoute(g, route, modes)
    && route[|route| - 1] == t
    && route[0] < |level|
    && forall k :: 0 <= k < |route| ==> route[k] < |level| && level[route[k]] == level[route[0]] + k
  }

  /** One step of the walk back along the parent links. */
  lemma ChainBack(g: Graph, s: nat, visited: seq<bool>, level: seq<nat>, parent: seq<int>,
                  modeUsed: seq<Option<ModeName>>, route: seq<nat>, modes: seq<ModeName>, t: nat)
    requires ParentTree(g, s, visited, level, parent, modeUsed)
    requires ChainTo(g, level, route, modes, t)
    requires visited[route[0]] && route[0] != s
    ensures parent[route[0]] >= 0 && modeUsed[route[0]].Some? && visited[parent[route[0]]]
    ensures ChainTo(g, level, [parent[route[0]] as nat] + route, [modeUsed[route[0]].value] + modes, t)
  {
    var u := parent[route[0]] as nat;
    assert modeUsed[route[0]].value in g[u] * g[route[0]];
    RoutePrepend(g, u, modeUsed[route[0]].value, route, modes);
    var route' := [u] + route;
    forall k | 0 <= k < |route'| ensures route'[k] < |level| && level[route'[k]] == level[route'[0]] + k {
      if k > 0 {
        assert route'[k] == route[k - 1];
      }
    }
  }

  /** A chain that reached the start is a shortest simple route. */
  lemma ChainComplete(g: Graph, s: nat, t: nat, visited: seq<bool>, level: seq<nat>,
                      route: seq<nat>, modes: seq<ModeName>)
    requires LevelsSound(g, s, visited, level) && t < |g| && visited[t]
    requires ChainTo(g, level, route, modes, t) && route[0] == s && level[s] == 0
    ensures ShortestRoute(g, s, t, route, modes)
  {
    assert level[t] == |route| - 1;
    ShortestWalkIsSimple(g, route);
  }

  /**
   * Walks the parent links back from the creditor `t` to the debtor `s`,
   * collecting the nodes and the recorded modes front to back.
   */
  method RebuildPath(ghost g: Graph, s: nat, t: nat, parent: array<int>, modeUsed: array<Option<ModeName>>,
                     ghost visited: seq<bool>, ghost level: seq<nat>)
    returns (path: seq<nat>, modes: seq<ModeName>)
    requires ParentTree(g, s, visited, level, parent[..], modeUsed[..])
    requires LevelsSound(g, s, visited, level) && t < |g| && visited[t]
    ensures ShortestRoute(g, s, t, path, modes)
  {
    ghost var par, mu := parent[..], modeUsed[..];
    var tail: seq<nat> := [];
    modes := [];
    var node: nat := t;
    ghost var route := [node];
    assert ChainTo(g, level, route, modes, t);
    while node != s
      invariant node < |g| && visited[node] && route == [node] + tail
      invariant ChainTo(g, level, route, modes, t)
      decreases level[node]
    {
      ChainBack(g, s, visited, level, par, mu, route, modes, t);
      tail := [node] + tail;
      modes := [modeUsed[node].value] + modes;
      node := parent[node];
      route := [node] + route;
    }
    path := [s] + tail;
    ChainComplete(g, s, t, visited, level, route, modes);
  }

  /**
   * What scanning the candidates below `upto` for neighbours of `current`
   * has done, relative to the arrays and queue before the scan (`vis0`,
   * `par0`, `mu0`, `q0`): a node is visited now exactly when it was before
   * or is a scanned neighbour of `current`; a node visited before keeps its
   * parent and mode; a newly visited node has `current` as its parent and a
   * mode both share; a node still unvisited keeps its parent and mode; and
   * the queue grew by exactly the newly visited nodes,
   * in increasing order.
   */
  ghost predicate ScanEffect(g: Graph, current: nat, upto: nat,
                             vis0: seq<bool>, par0: seq<int>, mu0: seq<Option<ModeName>>, q0: seq<nat>,
                             vis: seq<bool>, par: seq<int>, mu: seq<Option<ModeName>>, q: seq<nat>)
  {
    && |vis0| == |par0| == |mu0| == |vis| == |par| == |mu| == |g|
    && (forall v :: 0 <= v < |g| ==> (vis[v] <==> vis0[v] || (v < upto && Edge(g, current, v))))
    && (forall v :: 0 <= v < |g| && vis0[v] ==> par[v] == par0[v] && mu[v] == mu0[v])
    && (forall v :: 0 <= v < |g| && !vis[v] ==> par[v] == par0[v] && mu[v] == mu0[v])
    && (forall v :: 0 <= v < |g| && vis[v] && !vis0[v] ==>
          par[v] == current && mu[v].Some? && mu[v].value in g[current] && mu[v].value in g[v])
    && |q0| <= |q| && q[..|q0|] == q0
    && Increasing(q[|q0|..])
    && (forall v :: v in q[|q0|..] <==> 0 <= v < |g| && vis[v] && !vis0[v])
  }

  lemma ScanEffectStart(g: Graph, current: nat, vis: seq<bool>, par: seq<int>, mu: seq<Option<ModeName>>,
                        q: seq<nat>)
    requires |vis| == |par| == |mu| == |g|
    ensures ScanEffect(g, current, 0, vis, par, mu, q, vis, par, mu, q)
  {
    assert q[|q|..] == [];
  }

  /** Visiting candidate `upto`, a neighbour of `current` not visited yet, by mode `m`. */
  lemma ScanEffectVisit(g: Graph, current: nat, upto: nat,
                        vis0: seq<bool>, par0: seq<int>, mu0: seq<Option<ModeName>>, q0: seq<nat>,
                        vis: seq<bool>, par: seq<int>, mu: seq<Option<ModeName>>, q: seq<nat>, m: ModeName)
    requires ScanEffect(g, current, upto, vis0, par0, mu0, q0, vis, par, mu, q)
    requires upto < |g| && !vis[upto] && upto != current && current < |g| && m in g[current] && m in g[upto]
    ensures ScanEffect(g, current, upto + 1, vis0, par0, mu0, q0,
                       vis[upto := true], par[upto := current], mu[upto := Some(m)], q + [upto])
  {
    var vis', q' := vis[upto := true], q + [upto];
    var added, added' := q[|q0|..], q'[|q0|..];
    assert added' == added + [upto];
    assert q'[..|q0|] == q0;
    forall i | 0 <= i < |added| ensures added[i] < upto {
      assert added[i] in added;
    }
    assert Increasing(added');
    assert m in g[current] * g[upto];
    assert Edge(g, current, upto);
    forall v | 0 <= v < |g| ensures vis'[v] <==> vis0[v] || (v < upto + 1 && Edge(g, current, v)) {
    }
    forall v ensures v in added' <==> 0 <= v < |g| && vis'[v] && !vis0[v] {
      assert v in added' <==> v in added || v == upto;
    }
  }

  /** Passing over candidate `upto`: visited already, `current` itself, or sharing no mode. */
  lemma ScanEffectSkip(g: Graph, current: nat, upto: nat,
                       vis0: seq<bool>, par0: seq<int>, mu0: seq<Option<ModeName>>, q0: seq<nat>,
                       vis: seq<bool>, par: seq<int>, mu: seq<Option<ModeName>>, q: seq<nat>)
    requires ScanEffect(g, current, upto, vis0, par0, mu0, q0, vis, par, mu, q)
    requires upto < |g| && current < |g| && (vis[upto] || upto == current || g[current] * g[upto] == {})
    ensures ScanEffect(g, current, upto + 1, vis0, par0, mu0, q0, vis, par, mu, q)
  {
  }

  /** Marks `x` visited, with `from` as its parent, reached by mode `m`. */
  method MarkVisited(visited: array<bool>, parent: array<int>, modeUsed: array<Option<ModeName>>,
                     x: nat, from: nat, m: ModeName)
    requires x < visited.Length == parent.Length == modeUsed.Length
    modifies visited, parent, modeUsed
    ensures visited[..] == old(visited[..])[x := true]
    ensures parent[..] == old(parent[..])[x := from]
    ensures modeUsed[..] == old(modeUsed[..])[x := Some(m)]
  {
    visited[x] := true;
    parent[x] := from;
    modeUsed[x] := Some(m);
  }

  /**
   * One pass of the neighbour scan: every unvisited organization other than
   * `current` that shares a mode with it is marked, given `current` as its
   * parent and one shared mode, and queued.  `unseen` tracks the unvisited
   * nodes, so that the outer loop can be seen to end.
   */
  method ExpandNode(ghost g: Graph, s: nat, t: nat, organizations: seq<Organization>, current: nat,
                    visited: array<bool>, parent: array<int>, modeUsed: array<Option<ModeName>>,
                    queue: seq<nat>, ghost level: seq<nat>, ghost d: nat, ghost unseen: set<nat>)
    returns (queue': seq<nat>, ghost level': seq<nat>, ghost unseen': set<nat>)
    requires g == Modes(organizations)
    requires visited.Length == parent.Length == modeUsed.Length == |g|
    requires Searching(g, s, t, visited[..], level, parent[..], modeUsed[..], queue, d, current, 0)
    requires forall u :: u in unseen <==> 0 <= u < |g| && !visited[u]
    modifies visited, parent, modeUsed
    ensures Searching(g, s, t, visited[..], level', parent[..], modeUsed[..], queue', d, -1, 0)
    ensures ScanEffect(g, current, |g|, old(visited[..]), old(parent[..]), old(modeUsed[..]), queue,
                       visited[..], parent[..], modeUsed[..], queue')
    ensures forall u :: u in unseen' <==> 0 <= u < |g| && !visited[u]
    ensures |unseen'| <= |unseen| && |unseen'| + |queue'| == |unseen| + |queue|
  {
    queue', level', unseen' := queue, level, unseen;
    ghost var vis0, par0, mu0 := visited[..], parent[..], modeUsed[..];
    ScanEffectStart(g, current, vis0, par0, mu0, queue);
    var nextNode: nat := 0;
    while nextNode < |organizations|
      invariant nextNode <= |g|
      invariant Searching(g, s, t, visited[..], level', parent[..], modeUsed[..], queue', d, current, nextNode)
      invariant ScanEffect(g, current, nextNode, vis0, par0, mu0, queue, visited[..], parent[..], modeUsed[..], queue')
      invariant forall u :: u in unseen' <==> 0 <= u < |g| && !visited[u]
      invariant |unseen'| <= |unseen| && |unseen'| + |queue'| == |unseen| + |queue|
    {
      queue', level', unseen' := ScanCandidate(g, s, t, organizations, current, nextNode, visited, parent, modeUsed,
                                              queue', level', d, unseen', vis0, par0, mu0, queue);
      nextNode := nextNode + 1;
    }
    SearchDone(g, s, t, visited[..], level', parent[..], modeUsed[..], queue', d, current);
  }

  /**
   * One step of the neighbour scan: candidate `nextNode` is visited and
   * queued when it is unvisited, is not `current` and shares a mode with it.
   */
  method ScanCandidate(ghost g: Graph, ghost s: nat, ghost t: nat, organizations: seq<Organization>,
                       current: nat, nextNode: nat,
                       visited: array<bool>, parent: array<int>, modeUsed: array<Option<ModeName>>,
                       queue: seq<nat>, ghost level: seq<nat>, ghost d: nat, ghost unseen: set<nat>,
                       ghost vis0: seq<bool>, ghost par0: seq<int>, ghost mu0: seq<Option<ModeName>>,
                       ghost q0: seq<nat>)
    returns (queue': seq<nat>, ghost level': seq<nat>, ghost unseen': set<nat>)
    requires g == Modes(organizations) && nextNode < |g|
    requires visited.Length == parent.Length == modeUsed.Length == |g|
    requires Searching(g, s, t, visited[..], level, parent[..], modeUsed[..], queue, d, current, nextNode)
    requires ScanEffect(g, current, nextNode, vis0, par0, mu0, q0, visited[..], parent[..], modeUsed[..], queue)
    requires forall u :: u in unseen <==> 0 <= u < |g| && !visited[u]
    modifies visited, parent, modeUsed
    ensures Searching(g, s, t, visited[..], level', parent[..], modeUsed[..], queue', d, current, nextNode + 1)
    ensures ScanEffect(g, current, nextNode + 1, vis0, par0, mu0, q0, visited[..], parent[..], modeUsed[..], queue')
    ensures forall u :: u in unseen' <==> 0 <= u < |g| && !visited[u]
    ensures |unseen'| <= |unseen| && |unseen'| + |queue'| == |unseen| + |queue|
    ensures if !old(visited[nextNode]) && nextNode != current && g[current] * g[nextNode] != {} then
              && visited[..] == old(visited[..])[nextNode := true]
              && parent[..] == old(parent[..])[nextNode := current]
              && modeUsed[..] == old(modeUsed[..])[nextNode := modeUsed[nextNode]]
              && modeUsed[nextNode].Some? && modeUsed[nextNode].value in g[current] * g[nextNode]
              && queue' == queue + [nextNode]
            else
              && visited[..] == old(visited[..]) && parent[..] == old(parent[..])
              && modeUsed[..] == old(modeUsed[..]) && queue' == queue
  {
    ghost var vis, par, mu := visited[..], parent[..], modeUsed[..];
    queue', level', unseen' := queue, level, unseen;
    var commonModes := organizations[current].paymentModes * organizations[nextNode].paymentModes;
    if !visited[nextNode] && nextNode != current && commonModes != {} {
      var m :| m in commonModes;
      SearchVisit(g, s, t, vis, level, par, mu, queue, d, current, nextNode, m);
      ScanEffectVisit(g, current, nextNode, vis0, par0, mu0, q0, vis, par, mu, queue, m);
      queue' := queue + [nextNode];
      MarkVisited(visited, parent, modeUsed, nextNode, current, m);
      level' := level[nextNode := d + 1];
      unseen' := unseen - {nextNode};
    } else {
      SearchSkip(g, s, t, vis, level, par, mu, queue, d, current, nextNode);
      ScanEffectSkip(g, current, nextNode, vis0, par0, mu0, q0, vis, par, mu, queue);
    }
  }

  /**
   * The path search.  On success the route runs from the debtor to the
   * creditor through the fewest hops, never repeats a node and labels every
   * hop with a mode both ends support; its amount is the smaller of the
   * debtor's debt and the creditor's credit.  `None` means the creditor is
   * unreachable.
   */
  method FindPathBfs(debtorIndex: nat, creditorIndex: nat, organizations: seq<Organization>)
    returns (r: Option<TransactionPath>)
    requires debtorIndex < |organizations| && creditorIndex < |organizations|
    ensures r.None? <==> !Reachable(Modes(organizations), debtorIndex, creditorIndex)
    ensures r.Some? ==>
      ShortestRoute(Modes(organizations), debtorIndex, creditorIndex, r.value.path, r.value.paymentModes)
    ensures r.Some? ==>
      r.value.amount == Min(Abs(organizations[debtorIndex].netAmount), organizations[creditorIndex].netAmount)
  {
    ghost var g := Modes(organizations);
    var numOrgs := |organizations|;
    var queue: seq<nat> := [debtorIndex];
    var visited := new bool[numOrgs](_ => false);
    var parent := new int[numOrgs](_ => -1);
    var modeUsed := new Option<ModeName>[numOrgs](_ => None);
    visited[debtorIndex] := true;
    ghost var level: seq<nat> := seq(numOrgs, _ => 0);
    ghost var d: nat := 0;
    ghost var unseen: set<nat> := set u: nat | u < numOrgs && !visited[u];
    SearchStart(g, debtorIndex, creditorIndex);
    assert visited[..] == seq(|g|, _ => false)[debtorIndex := true];
    assert parent[..] == seq(|g|, _ => -1);
    assert modeUsed[..] == seq(|g|, _ => None);

    while queue != []
      invariant visited.Length == parent.Length == modeUsed.Length == |g|
      invariant Searching(g, debtorIndex, creditorIndex, visited[..], level, parent[..], modeUsed[..],
                          queue, d, -1, 0)
      invariant forall u :: u in unseen <==> 0 <= u < |g| && !visited[u]
      decreases |unseen|, |queue|
    {
      var current := queue[0];
      if current == creditorIndex {
        var path, modes := RebuildPath(g, debtorIndex, creditorIndex, parent, modeUsed, visited[..], level);
        var minAmount := Min(Abs(organizations[debtorIndex].netAmount), organizations[creditorIndex].netAmount);
        return Some(TransactionPath(path, minAmount, modes));
      }
      d := SearchPop(g, debtorIndex, creditorIndex, visited[..], level, parent[..], modeUsed[..], queue, d);
      queue := queue[1..];
      queue, level, unseen := ExpandNode(g, debtorIndex, creditorIndex, organizations, current,
                                         visited, parent, modeUsed, queue, level, d, unseen);
    }
    ExhaustedSearch(g, debtorIndex, creditorIndex, visited[..]);
    return None;
  }
}
