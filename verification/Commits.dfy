/** Git's commit graph as the planner asks about it: histories, what a set of refs
    reaches, and first-parent lists. Objects are told apart by equality alone, so an
    object id is a number. */
module Commits {

  type Oid = nat

  datatype RawGraph = Graph(parents: map<Oid, seq<Oid>>, generation: map<Oid, nat>)

  /** Every parent is held, and of a smaller generation: the graph is closed and acyclic.
      Every finite acyclic graph has such generation numbers; git stores them itself. */
  predicate WellFormed(g: RawGraph) {
    && g.generation.Keys == g.parents.Keys
    && forall c, p :: c in g.parents && p in g.parents[c] ==> p in g.parents && g.generation[p] < g.generation[c]
  }

  type Graph = g: RawGraph | WellFormed(g) witness Graph(map[], map[])

  function Generation(g: Graph, c: Oid): nat {
    if c in g.generation then g.generation[c] + 1 else 0
  }

  /** Everything reachable from c, c included; nothing for an object the clone does not hold. */
  function History(g: Graph, c: Oid): set<Oid>
    decreases Generation(g, c)
  {
    if c !in g.parents then {}
    else {c} + set p, a | p in g.parents[c] && a in History(g, p) :: a
  }

  /** merge-base --is-ancestor. */
  predicate IsAncestor(g: Graph, a: Oid, b: Oid) {
    a in History(g, b)
  }

  /** What a set of values reaches: the objects a repository holding them has. */
  function Reach(g: Graph, values: set<Oid>): set<Oid> {
    set v, a | v in values && a in History(g, v) :: a
  }

  /** rev-list --first-parent --reverse tip, stopped at what is already held: oldest first. */
  function FirstParents(g: Graph, tip: Oid, have: set<Oid>): seq<Oid>
    decreases Generation(g, tip)
  {
    if tip !in g.parents || tip in have then []
    else (if g.parents[tip] == [] then [] else FirstParents(g, g.parents[tip][0], have)) + [tip]
  }

  /** Each commit of the list is the first parent of the one after it. */
  ghost predicate IsChain(g: Graph, list: seq<Oid>) {
    && (forall i :: 0 <= i < |list| ==> list[i] in g.parents)
    && forall i :: 0 < i < |list| ==> g.parents[list[i]] != [] && g.parents[list[i]][0] == list[i - 1]
  }

  // ---- histories ------------------------------------------------------------

  lemma {:induction false} HistoryGeneration(g: Graph, a: Oid, c: Oid)
    requires IsAncestor(g, a, c)
    ensures a in g.parents && c in g.parents
    ensures a != c ==> Generation(g, a) < Generation(g, c)
    decreases Generation(g, c)
  {
    if a != c {
      var p :| p in g.parents[c] && a in History(g, p);
      HistoryGeneration(g, a, p);
    }
  }

  lemma {:induction false} HistoryTransitive(g: Graph, a: Oid, b: Oid, c: Oid)
    requires IsAncestor(g, a, b) && IsAncestor(g, b, c)
    ensures IsAncestor(g, a, c)
    decreases Generation(g, c)
  {
    if b != c {
      var p :| p in g.parents[c] && b in History(g, p);
      HistoryTransitive(g, a, b, p);
    }
  }

  lemma ParentInHistory(g: Graph, p: Oid, c: Oid)
    requires c in g.parents && p in g.parents[c]
    ensures IsAncestor(g, p, c) && Generation(g, p) < Generation(g, c)
  {
    assert p in History(g, p);
  }

  // ---- reach ----------------------------------------------------------------

  lemma ReachClosed(g: Graph, values: set<Oid>, a: Oid, b: Oid)
    requires IsAncestor(g, a, b) && b in Reach(g, values)
    ensures a in Reach(g, values)
  {
    var v :| v in values && b in History(g, v);
    HistoryTransitive(g, a, b, v);
  }

  lemma ReachContains(g: Graph, values: set<Oid>, v: Oid)
    requires v in values
    ensures History(g, v) <= Reach(g, values)
  {
  }

  // ---- first-parent lists ---------------------------------------------------

  lemma {:induction false} FirstParentsShape(g: Graph, tip: Oid, have: set<Oid>)
    ensures var list := FirstParents(g, tip, have);
      && (list == [] <==> tip !in g.parents || tip in have)
      && (list != [] ==> list[|list| - 1] == tip)
      && IsChain(g, list)
      && (forall c :: c in list ==> c !in have)
      // It goes back as far as what is held, or a root.
      && (list != [] ==> g.parents[list[0]] == [] || g.parents[list[0]][0] in have)
    decreases Generation(g, tip)
  {
    if tip in g.parents && tip !in have && g.parents[tip] != [] {
      FirstParentsShape(g, g.parents[tip][0], have);
    }
  }

  lemma {:induction false} ChainAncestors(g: Graph, list: seq<Oid>, i: nat, j: nat)
    requires IsChain(g, list) && i <= j < |list|
    ensures IsAncestor(g, list[i], list[j])
    ensures i < j ==> Generation(g, list[i]) < Generation(g, list[j])
    decreases j - i
  {
    if i < j {
      ChainAncestors(g, list, i, j - 1);
      ParentInHistory(g, list[j - 1], list[j]);
      HistoryTransitive(g, list[i], list[j - 1], list[j]);
    }
  }
}
