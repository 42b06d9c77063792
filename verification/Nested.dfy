/** One source whose import puts a carrier back behind a ref that stood after it: the planner's
    state at each of its moves. */
module Nested {
  import opened Commits
  import opened Options
  import opened Refs
  import opened Plans
  import opened Planner

  /** 5 merges 3 into 4, and 3 merges 1 into 2; 6 follows 3, and 7 stands alone. */
  const G: Graph := Graph(map[1 := [], 2 := [], 3 := [2, 1], 4 := [], 5 := [4, 3], 6 := [3], 7 := []],
                          map[1 := 0, 2 := 0, 3 := 1, 4 := 0, 5 := 2, 6 := 2, 7 := 0])

  const M := SourceRef("refs/heads/m", 5, Commit)
  const X := SourceRef("refs/heads/x", 1, Commit)
  const C := SourceRef("refs/heads/c", 6, Commit)
  const Y := SourceRef("refs/heads/y", 7, Commit)
  const Want: Source := map[M.ref := M, X.ref := X, C.ref := C, Y.ref := Y]

  function Queued(s: SourceRef): QueuedRef { QueuedRef(s, false) }

  lemma OfNone(g: Graph, c: Oid)
    requires c in g.parents && g.parents[c] == []
    ensures History(g, c) == {c}
  {
  }

  lemma OfOne(g: Graph, c: Oid, p: Oid)
    requires c in g.parents && g.parents[c] == [p]
    ensures History(g, c) == {c} + History(g, p)
  {
    assert forall q :: q in g.parents[c] <==> q == p;
  }

  lemma OfTwo(g: Graph, c: Oid, p: Oid, q: Oid)
    requires c in g.parents && g.parents[c] == [p, q]
    ensures History(g, c) == {c} + History(g, p) + History(g, q)
  {
    assert forall r :: r in g.parents[c] <==> r == p || r == q;
  }

  lemma GraphIs()
    ensures G.parents.Keys == {1, 2, 3, 4, 5, 6, 7}
    ensures G.parents[1] == [] && G.parents[2] == [] && G.parents[3] == [2, 1] && G.parents[4] == []
    ensures G.parents[5] == [4, 3] && G.parents[6] == [3] && G.parents[7] == []
    ensures Generation(G, 1) == 1 && Generation(G, 3) == 2 && Generation(G, 5) == 3
  {
  }

  lemma Histories()
    ensures History(G, 1) == {1} && History(G, 2) == {2} && History(G, 4) == {4} && History(G, 7) == {7}
    ensures History(G, 3) == {1, 2, 3} && History(G, 5) == {1, 2, 3, 4, 5} && History(G, 6) == {1, 2, 3, 6}
  {
    GraphIs();
    hide G, History;
    OfNone(G, 1);
    OfNone(G, 2);
    OfNone(G, 4);
    OfNone(G, 7);
    OfTwo(G, 3, 2, 1);
    OfTwo(G, 5, 4, 3);
    OfOne(G, 6, 3);
  }

  lemma BranchesAre()
    ensures M.IsBranch() && X.IsBranch() && C.IsBranch() && Y.IsBranch()
    ensures M.oid == 5 && X.oid == 1 && C.oid == 6 && Y.oid == 7
    ensures M.ref != X.ref && M.ref != C.ref && M.ref != Y.ref && X.ref != C.ref && X.ref != Y.ref && C.ref != Y.ref
  {
  }

  // ---- the plan, move by move -------------------------------------------------------------

  const Start := Plan(map[], [QueuedRef(M, true), Queued(X), Queued(C), Queued(Y)], [])

  const WalkOfM := Walk(M.ref, [4, 5], 0, None, 0)
  const WalkOfC := Walk(C.ref, [2, 3], 0, Some(Queued(C)), 1)
  const WalkOfX := Walk(X.ref, [1], 0, Some(Queued(X)), 0)

  /** The walk of m has come to its merge, and that of c, brought in for it, to its own. */
  const AtFive := Plan(map[M.ref := 4], [Queued(X), Queued(C), Queued(Y)], [WalkOfM.(at := 1)])
  const AtThree := Plan(map[M.ref := 4, C.ref := 2], [Queued(X), Queued(Y)], [WalkOfM.(at := 1), WalkOfC.(at := 1)])

  lemma StartOk()
    ensures Inv(G, Want, Start)
  {
    StartCovers();
    StartQueueOk();
    hide G, IsAncestor, M, X, C, Y, Want, Unfinished, QueueRefs, QueueOk, SourceOk;
    assert Start.walks == [];
  }

  lemma WantOk()
    ensures SourceOk(G, Want)
  {
    GraphIs();
    BranchesAre();
    hide G, M, X, C, Y;
  }

  lemma StartQueueOk()
    ensures QueueOk(Want, Start.refs, Start.queue) && SourceOk(G, Want)
  {
    WantOk();
    BranchesAre();
    hide G, M, X, C, Y, SourceRef.IsBranch, SourceOk;
    assert Start.queue[0].src == M && Start.queue[1].src == X && Start.queue[2].src == C && Start.queue[3].src == Y;
    assert DistinctQueue(Start.queue);
  }

  lemma StartCovers()
    ensures Unfinished(Want, Start.refs) <= QueueRefs(Start.queue)
  {
    hide M, X, C, Y;
    var queue := Start.queue;
    assert queue[0] in queue && queue[1] in queue && queue[2] in queue && queue[3] in queue;
  }

  lemma ReachedBy(refs: RefMap, oid: Oid)
    ensures oid in Have(G, refs) <==> exists r :: r in refs && refs[r] in G.parents && oid in History(G, refs[r])
  {
  }

  lemma WalkOfMOk()
    ensures WalkOk(G, Want, Start.refs, WalkOfM)
  {
    GraphIs();
    Histories();
    BranchesAre();
    hide G, History, M, X, C, Y, SourceRef.IsBranch;
    ReachedBy(Start.refs, 4);
  }

  lemma WalkOfCOk()
    ensures WalkOk(G, Want, AtFive.refs, WalkOfC)
  {
    GraphIs();
    Histories();
    BranchesAre();
    hide G, History, M, X, C, Y, SourceRef.IsBranch;
    ReachedBy(AtFive.refs, 2);
  }

  lemma WalkOfXOk()
    ensures WalkOk(G, Want, AtThree.refs, WalkOfX)
  {
    GraphIs();
    Histories();
    BranchesAre();
    hide G, History, M, X, C, Y, SourceRef.IsBranch;
    ReachedBy(AtThree.refs, 1);
  }

  lemma FiveIsReached()
    ensures Inv(G, Want, AtFive) && AtFive == WithWalkAt(WithWalk(Start, WalkOfM), 0)
  {
    StartOk();
    WalkOfMOk();
    hide Inv, WalkOk, G;
    StartWalkKeeps(G, Want, Start, WalkOfM);
    var walking := WithWalk(Start, WalkOfM);
    assert walking.Top() == WalkOfM && Start.queue[1..] == AtFive.queue;
    WalkStepKeeps(G, Want, walking, 0);
    assert WithWalkAt(walking, 0).refs == AtFive.refs && WithWalkAt(walking, 0).walks == AtFive.walks;
  }

  lemma ThreeIsReached()
    ensures AtMerge(AtFive, 1, WalkOfC, 1) == AtThree
  {
    BranchesAre();
    hide M, X, C, Y, Want, G;
    assert Remove(AtFive.queue, 1) == AtThree.queue;
  }

  lemma BothAreBroughtIn()
    ensures CanBringIn(G, Want, AtFive, 1, WalkOfC) && CanBringIn(G, Want, AtThree, 0, WalkOfX)
    ensures C.ref in Want && WalkOfC.Tip() != Want[C.ref].oid && X.ref in Want && WalkOfX.Tip() == Want[X.ref].oid
  {
    WalkOfCOk();
    WalkOfXOk();
    GraphIs();
    BranchesAre();
    hide WalkOk, G, Generation, M, X, C, Y;
  }

  /** x, c and y wait in that order when c is taken for m's merge, and x for the one c meets
      there. x is finished, c goes on, and is put back behind y. */
  lemma NestedItNeedNot()
    ensures AtFive == WithWalkAt(WithWalk(Start, WalkOfM), 0) && AtThree == AtMerge(AtFive, 1, WalkOfC, 1)
    ensures Inv(G, Want, Start) && CanBringIn(G, Want, AtFive, 1, WalkOfC) && CanBringIn(G, Want, AtThree, 0, WalkOfX)
    ensures AtFive.queue == [Queued(X), Queued(C), Queued(Y)]
    ensures var last := Nested(AtFive, 1, WalkOfC, 1, 0, WalkOfX);
      Inv(G, Want, last) && last.queue == [Queued(Y), Queued(C)] && last.walks == AtFive.walks
  {
    StartOk();
    FiveIsReached();
    ThreeIsReached();
    BothAreBroughtIn();
    hide Inv, CanBringIn, AtMerge, G, Want, M, X, C, Y, Plans.Nested;
    NestedCarrierReturnsIff(G, Want, AtFive, 1, WalkOfC, 1, 0, WalkOfX);
    assert Remove(Remove(AtFive.queue, 1), 0) == [Queued(Y)];
  }

  // ---- each carrier and walk is the one the planner takes there ---------------------------------

  lemma ThreeIsLacking()
    ensures 4 in Have(G, AtFive.refs) && 2 !in Have(G, AtFive.refs) && 3 !in Have(G, AtFive.refs) && IsLacking(G, AtFive.refs, 5, [3])
  {
    GraphIs();
    Histories();
    BranchesAre();
    hide G, History, M, X, C, Y;
    ReachedBy(AtFive.refs, 2);
    ReachedBy(AtFive.refs, 3);
    ReachedBy(AtFive.refs, 4);
    assert M.ref in AtFive.refs && AtFive.refs[M.ref] == 4;
    LackingTheSecond(4, 3, Have(G, AtFive.refs));
  }

  lemma OneIsLacking()
    ensures 2 in Have(G, AtThree.refs) && 1 !in Have(G, AtThree.refs) && IsLacking(G, AtThree.refs, 3, [1])
  {
    GraphIs();
    Histories();
    BranchesAre();
    hide G, History, M, X, C, Y;
    ReachedBy(AtThree.refs, 1);
    ReachedBy(AtThree.refs, 2);
    assert C.ref in AtThree.refs && AtThree.refs[C.ref] == 2;
    LackingTheSecond(2, 1, Have(G, AtThree.refs));
  }

  lemma LackingTheSecond(p: Oid, q: Oid, have: set<Oid>)
    requires p in have && q !in have
    ensures LackingOf([p, q], have) == [q]
  {
    assert [p, q][..1] == [p] && [p][..0] == [];
    assert LackingOf([p], have) == [];
  }

  lemma TheOnlyOne(refs: RefMap, queue: seq<QueuedRef>, parent: Oid, merge: Oid, i: nat)
    requires i < |queue| && CanCarry(G, refs, queue[i], parent)
    requires forall j :: 0 <= j < |queue| && j != i ==> !CanCarry(G, refs, queue[j], parent)
    ensures IsFirstCarried(G, refs, queue, [parent], merge, parent, i)
  {
    hide CanCarry, G;
    assert [parent][..0] == [];
    assert IsFirstCarriedAt(G, refs, queue, [parent], merge, 0, i);
  }

  lemma OnlyCCarriesThree()
    ensures var queue := AtFive.queue;
      CanCarry(G, AtFive.refs, queue[1], 3) && !CanCarry(G, AtFive.refs, queue[0], 3) && !CanCarry(G, AtFive.refs, queue[2], 3)
  {
    Histories();
    BranchesAre();
    hide G, History, M, X, C, Y, SourceRef.IsBranch;
  }

  lemma OnlyXCarriesOne()
    ensures var queue := AtThree.queue;
      CanCarry(G, AtThree.refs, queue[0], 1) && !CanCarry(G, AtThree.refs, queue[1], 1)
  {
    Histories();
    BranchesAre();
    hide G, History, M, X, C, Y, SourceRef.IsBranch;
  }

  lemma TwoThenThree(have: set<Oid>)
    requires 2 !in have && 3 !in have
    ensures FirstParents(G, 3, have) == [2, 3]
  {
    GraphIs();
    hide G;
    assert FirstParents(G, 2, have) == [2];
  }

  lemma CIsTakenForFive()
    ensures IsLacking(G, AtFive.refs, 5, [3]) && IsFirstCarried(G, AtFive.refs, AtFive.queue, [3], 5, 3, 1)
    ensures IsWalkTo(G, AtFive.refs, C.ref, 3, WalkOfC.list)
  {
    ThreeIsLacking();
    OnlyCCarriesThree();
    GraphIs();
    BranchesAre();
    hide G, History, M, X, C, Y, Have, CanCarry, IsLacking, IsFirstCarried, FirstParents;
    TheOnlyOne(AtFive.refs, AtFive.queue, 3, 5, 1);
    TwoThenThree(Have(G, AtFive.refs));
  }

  lemma XIsTakenForThree()
    ensures IsLacking(G, AtThree.refs, 3, [1]) && IsFirstCarried(G, AtThree.refs, AtThree.queue, [1], 3, 1, 0)
    ensures IsWalkTo(G, AtThree.refs, X.ref, 1, WalkOfX.list)
  {
    OneIsLacking();
    OnlyXCarriesOne();
    GraphIs();
    BranchesAre();
    hide G, History, M, X, C, Y, Have, CanCarry, IsLacking, IsFirstCarried;
    TheOnlyOne(AtThree.refs, AtThree.queue, 1, 3, 0);
    assert FirstParents(G, 1, Have(G, AtThree.refs)) == [1];
  }
}
