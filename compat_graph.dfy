/**
 * The shared-payment-mode graph the settlement engine searches: participant
 * i is node i, and two distinct participants are joined exactly when their
 * payment-mode sets intersect.  A walk lists nodes; a route additionally
 * names, for every hop, a mode both ends of the hop support.
 */
module CompatGraph {
  import opened Models

  /** The payment-mode set of every participant, by index. */
  type Graph = seq<set<ModeName>>

  /** The graph never joins a node to itself. */
  predicate Edge(g: Graph, u: nat, v: nat) {
    u < |g| && v < |g| && u != v && g[u] * g[v] != {}
  }

  ghost predicate IsWalk(g: Graph, p: seq<nat>) {
    && |p| > 0
    && (forall k :: 0 <= k < |p| ==> p[k] < |g|)
    && (forall k :: 0 <= k < |p| - 1 ==> Edge(g, p[k], p[k + 1]))
  }

  ghost predicate WalkFromTo(g: Graph, p: seq<nat>, s: nat, t: nat) {
    IsWalk(g, p) && p[0] == s && p[|p| - 1] == t
  }

  ghost predicate Reachable(g: Graph, s: nat, t: nat) {
    exists p :: WalkFromTo(g, p, s, t)
  }

  /** No walk from `s` to `t` has fewer than `hops` hops. */
  ghost predicate NoShorterWalk(g: Graph, s: nat, t: nat, hops: nat) {
    forall p :: WalkFromTo(g, p, s, t) ==> |p| - 1 >= hops
  }

  /** `path` is a walk and `modes[k]` is a mode both `path[k]` and `path[k + 1]` support. */
  ghost predicate IsRoute(g: Graph, path: seq<nat>, modes: seq<ModeName>) {
    && IsWalk(g, path)
    && |modes| == |path| - 1
    && forall k :: 0 <= k < |modes| ==> modes[k] in g[path[k]] && modes[k] in g[path[k + 1]]
  }

  /** `s` lists nodes in strictly increasing order. */
  predicate Increasing(s: seq<nat>) {
    forall i, j :: 0 <= i < j < |s| ==> s[i] < s[j]
  }

  ghost predicate NoRepeats(p: seq<nat>) {
    forall i, j :: 0 <= i < j < |p| ==> p[i] != p[j]
  }

  /** What a successful search promises: a simple, shortest, mode-labelled route from `s` to `t`. */
  ghost predicate ShortestRoute(g: Graph, s: nat, t: nat, path: seq<nat>, modes: seq<ModeName>) {
    && WalkFromTo(g, path, s, t)
    && IsRoute(g, path, modes)
    && NoRepeats(path)
    && NoShorterWalk(g, s, t, |path| - 1)
  }

  /** Every edge leaving `S` ends in `S`. */
  ghost predicate Closed(g: Graph, S: set<nat>) {
    forall u, v {:trigger Edge(g, u, v)} :: u in S && Edge(g, u, v) ==> v in S
  }

  /** A walk that starts inside a closed set never leaves it. */
  lemma {:induction false} ClosedKeepsWalks(g: Graph, S: set<nat>, p: seq<nat>)
    requires Closed(g, S) && IsWalk(g, p) && p[0] in S
    ensures p[|p| - 1] in S
  {
    if |p| > 1 {
      var q := p[..|p| - 1];
      assert IsWalk(g, q);
      ClosedKeepsWalks(g, S, q);
      assert Edge(g, q[|q| - 1], p[|p| - 1]);
    }
  }

  /** Putting one more labelled hop in front of a route gives a route. */
  lemma RoutePrepend(g: Graph, u: nat, m: ModeName, path: seq<nat>, modes: seq<ModeName>)
    requires IsRoute(g, path, modes) && Edge(g, u, path[0]) && m in g[u] && m in g[path[0]]
    ensures IsRoute(g, [u] + path, [m] + modes)
  {
    var p, ms := [u] + path, [m] + modes;
    forall k | 0 <= k < |p| - 1 ensures Edge(g, p[k], p[k + 1]) {
      if k > 0 {
        assert p[k] == path[k - 1] && p[k + 1] == path[k];
      }
    }
    forall k | 0 <= k < |ms| ensures ms[k] in g[p[k]] && ms[k] in g[p[k + 1]] {
      if k > 0 {
        assert ms[k] == modes[k - 1] && p[k] == path[k - 1] && p[k + 1] == path[k];
      }
    }
  }

  /** Dropping the last hop of a walk leaves a walk. */
  lemma WalkPrefix(g: Graph, p: seq<nat>, k: nat)
    requires IsWalk(g, p) && 0 < k <= |p|
    ensures IsWalk(g, p[..k])
  {
  }

  /** Cutting out the loop between two visits of the same node shortens a walk. */
  lemma ShortcutWalk(g: Graph, p: seq<nat>, i: nat, j: nat) returns (q: seq<nat>)
    requires IsWalk(g, p) && i < j < |p| && p[i] == p[j]
    ensures WalkFromTo(g, q, p[0], p[|p| - 1]) && |q| < |p|
  {
    q := p[..i] + p[j..];
    forall k | 0 <= k < |q| - 1 ensures Edge(g, q[k], q[k + 1]) {
      if k < i - 1 {
        assert q[k] == p[k] && q[k + 1] == p[k + 1];
      } else if k == i - 1 {
        assert q[k] == p[i - 1] && q[k + 1] == p[j] == p[i];
      } else {
        assert q[k] == p[k + j - i] && q[k + 1] == p[k + 1 + j - i];
      }
    }
  }

  /** A shortest walk never repeats a node. */
  lemma ShortestWalkIsSimple(g: Graph, p: seq<nat>)
    requires IsWalk(g, p) && NoShorterWalk(g, p[0], p[|p| - 1], |p| - 1)
    ensures NoRepeats(p)
  {
    forall i, j | 0 <= i < j < |p| ensures p[i] != p[j] {
      if p[i] == p[j] {
        var q := ShortcutWalk(g, p, i, j);
        assert false;
      }
    }
  }
}
