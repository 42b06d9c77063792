/** The planner's state between two steps, what it always satisfies, and how each of its
    moves keeps that. */
module Plans {
  import opened Commits
  import opened Options
  import opened Refs

  /** A queue entry; walk is set on an entry that must not be batched. */
  datatype QueuedRef = QueuedRef(src: SourceRef, walk: bool)

  /** Commits list[at..] are still to be planned on ref; carrier and slot say where it came from
      when it serves a merge. */
  datatype Walk = Walk(ref: Ref, list: seq<Oid>, at: nat, carrier: Option<QueuedRef>, slot: nat) {
    predicate Done() { at >= |list| }
    function Tip(): Oid requires list != [] { list[|list| - 1] }
  }

  /** The whole planning state as a value; walks is a stack whose last element is the active one. */
  datatype Plan = Plan(refs: RefMap, queue: seq<QueuedRef>, walks: seq<Walk>) {
    function Top(): Walk
      requires walks != []
    {
      walks[|walks| - 1]
    }
  }

  function QueueRefs(queue: seq<QueuedRef>): set<Ref> {
    set q | q in queue :: q.src.ref
  }

  function WalkRefs(walks: seq<Walk>): set<Ref> {
    set w | w in walks :: w.ref
  }

  // ---- the queue as a list ------------------------------------------------------

  function Insert<T>(s: seq<T>, i: nat, x: T): seq<T>
    requires i <= |s|
  {
    s[..i] + [x] + s[i..]
  }

  function Remove<T>(s: seq<T>, i: nat): seq<T>
    requires i < |s|
  {
    s[..i] + s[i + 1..]
  }

  ghost predicate DistinctQueue(queue: seq<QueuedRef>) {
    forall i, j :: 0 <= i < j < |queue| ==> queue[i].src.ref != queue[j].src.ref
  }

  lemma InsertKeepsDistinct(queue: seq<QueuedRef>, i: nat, x: QueuedRef)
    requires DistinctQueue(queue) && i <= |queue| && x.src.ref !in QueueRefs(queue)
    ensures DistinctQueue(Insert(queue, i, x))
    ensures forall q :: q in Insert(queue, i, x) <==> q in queue || q == x
    ensures QueueRefs(Insert(queue, i, x)) == QueueRefs(queue) + {x.src.ref}
  {
    var after := Insert(queue, i, x);
    assert forall k :: 0 <= k < |queue| ==> queue[k] in queue;
    assert after[i] == x;
    forall k | 0 <= k < |queue| ensures queue[k] in after {
      assert queue[k] == after[if k < i then k else k + 1];
    }
  }

  lemma RemoveKeepsDistinct(queue: seq<QueuedRef>, i: nat)
    requires DistinctQueue(queue) && i < |queue|
    ensures DistinctQueue(Remove(queue, i))
    ensures forall q :: q in Remove(queue, i) ==> q in queue
    ensures QueueRefs(Remove(queue, i)) == QueueRefs(queue) - {queue[i].src.ref}
    ensures queue[i].src.ref in QueueRefs(queue)
  {
    var after := Remove(queue, i);
    assert queue[i] in queue;
    forall k | 0 <= k < |after| ensures after[k] == queue[if k < i then k else k + 1] && after[k] in queue {
    }
    forall q | q in queue && q != queue[i] ensures q in after {
      var k :| 0 <= k < |queue| && queue[k] == q;
      assert after[if k < i then k else k - 1] == q;
    }
    forall q | q in after ensures q.src.ref != queue[i].src.ref {
      var k :| 0 <= k < |after| && after[k] == q;
    }
  }

  lemma PushWalk(walks: seq<Walk>, w: Walk)
    ensures WalkRefs(walks + [w]) == WalkRefs(walks) + {w.ref}
    ensures forall x :: x in walks + [w] <==> x in walks || x == w
  {
    assert (walks + [w])[|walks|] == w;
  }

  lemma PopWalk(walks: seq<Walk>)
    requires walks != []
    ensures var rest, w := walks[..|walks| - 1], walks[|walks| - 1];
      && WalkRefs(walks) == WalkRefs(rest) + {w.ref}
      && forall x :: x in rest ==> x in walks
  {
    var rest, w := walks[..|walks| - 1], walks[|walks| - 1];
    assert walks == rest + [w];
    PushWalk(rest, w);
  }

  // ---- the invariant ------------------------------------------------------------

  /** A ref queued is a kept one short of its source value, in the queue once. */
  ghost predicate QueueOk(want: Source, refs: RefMap, queue: seq<QueuedRef>) {
    && DistinctQueue(queue)
    && forall q :: q in queue ==>
                     && q.src.ref in want && q.src == want[q.src.ref]
                     && (q.walk ==> q.src.IsBranch())
                     && !AtValue(refs, q.src)
  }

  /** A walk goes along a chain of commits that ends at its branch's own value, or at an
      ancestor of it where the branch carries a merge's history; each commit left is one
      the repository does not reach, and descends from where the branch stands. */
  ghost predicate WalkOk(g: Graph, want: Source, refs: RefMap, w: Walk) {
    && w.list != [] && w.at <= |w.list| && IsChain(g, w.list)
    && w.ref in want && want[w.ref].IsBranch()
    && IsAncestor(g, w.Tip(), want[w.ref].oid)
    && (w.carrier.None? ==> w.Tip() == want[w.ref].oid)
    && (w.carrier.Some? ==> w.carrier.value.src == want[w.ref])
    && (!w.Done() ==> w.list[w.at] !in Have(g, refs))
    && (!w.Done() && w.ref in refs ==> IsAncestor(g, refs[w.ref], w.list[w.at]))
    && (w.Done() ==> w.ref in refs && refs[w.ref] == w.Tip())
  }

  /** Walks nest: each one under another walks history strictly below the merge the other
      waits at, on a branch carried for it; only the innermost can be done. */
  ghost predicate StackOk(g: Graph, walks: seq<Walk>) {
    && (forall k :: 0 <= k < |walks| ==> walks[k].list != [] && (walks[k].carrier.Some? <==> k > 0))
    && (forall k, l :: 0 <= k < l < |walks| ==>
                         && !walks[k].Done()
                         && walks[k].ref != walks[l].ref
                         && Generation(g, walks[l].Tip()) < Generation(g, walks[k].list[walks[k].at]))
  }

  ghost predicate WalksOk(g: Graph, want: Source, refs: RefMap, walks: seq<Walk>) {
    && (forall w :: w in walks ==> WalkOk(g, want, refs, w))
    && StackOk(g, walks)
  }

  ghost predicate Inv(g: Graph, want: Source, p: Plan) {
    && SourceOk(g, want)
    && AllResumable(g, want, p.refs)
    && QueueOk(want, p.refs, p.queue)
    && WalksOk(g, want, p.refs, p.walks)
    && QueueRefs(p.queue) !! WalkRefs(p.walks)
    // No kept ref is lost.
    && Unfinished(want, p.refs) <= QueueRefs(p.queue) + WalkRefs(p.walks)
  }

  /** Conservation: where the last walk has commits left, the refs short of their source
      value are exactly those in hand, each of them in one place. */
  lemma InHandIsWhatIsLeft(g: Graph, want: Source, p: Plan)
    requires Inv(g, want, p) && (p.walks != [] ==> !p.Top().Done())
    ensures Unfinished(want, p.refs) == QueueRefs(p.queue) + WalkRefs(p.walks)
    ensures |Unfinished(want, p.refs)| == |p.queue| + |p.walks|
  {
    WalksUnfinished(g, want, p.refs, p.walks);
    QueueUnfinished(want, p.refs, p.queue);
    QueueNames(p.queue);
    assert |WalkRefs(p.walks)| == |p.walks| by { WalkNames(p.walks); }
    DisjointSize(Unfinished(want, p.refs), QueueRefs(p.queue), WalkRefs(p.walks));
  }

  lemma DisjointSize<T>(all: set<T>, a: set<T>, b: set<T>)
    requires a !! b && a <= all && b <= all <= a + b
    ensures all == a + b && |all| == |a| + |b|
  {
    assert all == a + b;
  }

  lemma QueueUnfinished(want: Source, refs: RefMap, queue: seq<QueuedRef>)
    requires QueueOk(want, refs, queue)
    ensures QueueRefs(queue) <= Unfinished(want, refs)
  {
  }

  lemma WalksUnfinished(g: Graph, want: Source, refs: RefMap, walks: seq<Walk>)
    requires SourceOk(g, want) && WalksOk(g, want, refs, walks)
    requires walks != [] ==> !walks[|walks| - 1].Done()
    ensures WalkRefs(walks) <= Unfinished(want, refs)
  {
    forall k | 0 <= k < |walks| ensures walks[k].ref in Unfinished(want, refs) {
      assert walks[k] in walks;
      UnfinishedWalk(g, want, refs, walks[k]);
    }
  }

  /** While a walk has commits left, its branch is short of its source value. */
  lemma UnfinishedWalk(g: Graph, want: Source, refs: RefMap, w: Walk)
    requires SourceOk(g, want) && WalkOk(g, want, refs, w) && !w.Done()
    ensures !AtValue(refs, want[w.ref])
  {
    if AtValue(refs, want[w.ref]) {
      ChainAncestors(g, w.list, w.at, |w.list| - 1);
      HistoryTransitive(g, w.list[w.at], w.Tip(), want[w.ref].oid);
      InHave(g, refs, w.ref);
      ReachClosed(g, Negatives(g, refs), w.list[w.at], want[w.ref].oid);
    }
  }

  lemma {:induction false} QueueNames(queue: seq<QueuedRef>)
    requires DistinctQueue(queue)
    ensures |QueueRefs(queue)| == |queue|
  {
    if queue != [] {
      var init, last := queue[..|queue| - 1], queue[|queue| - 1];
      QueueNames(init);
      RemoveKeepsDistinct(queue, |queue| - 1);
      assert Remove(queue, |queue| - 1) == init;
    }
  }

  lemma {:induction false} WalkNames(walks: seq<Walk>)
    requires forall i, j :: 0 <= i < j < |walks| ==> walks[i].ref != walks[j].ref
    ensures |WalkRefs(walks)| == |walks|
  {
    if walks != [] {
      var init, last := walks[..|walks| - 1], walks[|walks| - 1];
      WalkNames(init);
      PopWalk(walks);
    }
  }

  /** A plan with nothing in hand has planned the whole import. */
  lemma NothingLeftIsComplete(g: Graph, want: Source, p: Plan)
    requires Inv(g, want, p) && p.queue == [] && p.walks == []
    ensures Complete(want, p.refs)
  {
    assert Unfinished(want, p.refs) == {};
    forall r | r in want ensures AtValue(p.refs, want[r]) {
      assert r !in Unfinished(want, p.refs);
    }
  }

  // ---- a step of a walk -----------------------------------------------------------

  function WithWalkAt(p: Plan, end: nat): Plan
    requires p.walks != [] && end < |p.Top().list|
  {
    var w := p.Top();
    p.(refs := p.refs[w.ref := w.list[end]], walks := p.walks[|p.walks| - 1 := w.(at := end + 1)])
  }

  /** A step of the walk is a push the repository takes, and keeps the invariant: the walks
      it interrupted stay unreached, since what it pushes is strictly below their merges. */
  lemma WalkStepKeeps(g: Graph, want: Source, p: Plan, end: nat)
    requires Inv(g, want, p) && p.walks != [] && p.Top().at <= end < |p.Top().list|
    ensures PushOk(g, want, p.refs, [Cmd(p.Top().list[end], p.Top().ref)]) && p.Top().list[end] in g.parents
    ensures WithWalkAt(p, end).refs == Apply(p.refs, [Cmd(p.Top().list[end], p.Top().ref)])
    ensures Inv(g, want, WithWalkAt(p, end))
  {
    hide WalkOk, StackOk, Have, PushOk, IsChain;
    var w := p.Top();
    var cmd := Cmd(w.list[end], w.ref);
    var after := WithWalkAt(p, end);
    WalkCommandOk(g, want, p.refs, w, end);
    assert cmd in [cmd] && Apply(p.refs, [cmd]) == after.refs;
    PushKeepsResumable(g, want, p.refs, [cmd]);
    WalkStepStack(g, want, p, end);
    PopWalk(p.walks);
    PopWalk(after.walks);
    assert after.walks[..|p.walks| - 1] == p.walks[..|p.walks| - 1];
    assert Unfinished(want, after.refs) <= Unfinished(want, p.refs) + {w.ref};
    QueueUntouched(want, p.refs, p.queue, cmd);
  }

  lemma QueueUntouched(want: Source, refs: RefMap, queue: seq<QueuedRef>, c: Cmd)
    requires QueueOk(want, refs, queue) && c.ref !in QueueRefs(queue)
    ensures QueueOk(want, refs[c.ref := c.oid], queue)
  {
    assert forall q :: q in queue ==> q.src.ref in QueueRefs(queue);
  }

  lemma WalkStepStack(g: Graph, want: Source, p: Plan, end: nat)
    requires SourceOk(g, want) && WalksOk(g, want, p.refs, p.walks)
    requires p.walks != [] && p.Top().at <= end < |p.Top().list|
    ensures WalksOk(g, want, WithWalkAt(p, end).refs, WithWalkAt(p, end).walks)
  {
    hide WalkOk, Have, AllResumable;
    hide StackOk, Generation;
    TopMoves(g, p.walks, end + 1);
    var w, top := p.Top(), |p.walks| - 1;
    var after := WithWalkAt(p, end);
    WalkAdvances(g, want, p.refs, w, end);
    forall x | x in after.walks ensures WalkOk(g, want, after.refs, x) {
      var k :| 0 <= k <= top && after.walks[k] == x;
      if k < top {
        assert x == p.walks[k] && x in p.walks;
        SuspendedStays(g, want, p.refs, x, w, end);
      }
    }
  }

  lemma TopMoves(g: Graph, walks: seq<Walk>, at: nat)
    requires StackOk(g, walks) && walks != []
    ensures StackOk(g, walks[|walks| - 1 := walks[|walks| - 1].(at := at)])
    ensures forall k, l :: 0 <= k < l == |walks| - 1 ==>
      !walks[k].Done() && walks[k].ref != walks[l].ref && Generation(g, walks[l].Tip()) < Generation(g, walks[k].list[walks[k].at])
  {
    var top := |walks| - 1;
    var after := walks[top := walks[top].(at := at)];
    assert forall k :: 0 <= k < top ==> after[k] == walks[k];
  }

  lemma WalkCommandOk(g: Graph, want: Source, refs: RefMap, w: Walk, end: nat)
    requires SourceOk(g, want) && WalkOk(g, want, refs, w) && w.at <= end < |w.list|
    ensures PushOk(g, want, refs, [Cmd(w.list[end], w.ref)]) && w.list[end] in g.parents
  {
    ChainAncestors(g, w.list, w.at, end);
    ChainAncestors(g, w.list, end, |w.list| - 1);
    HistoryTransitive(g, w.list[end], w.Tip(), want[w.ref].oid);
    UnfinishedWalk(g, want, refs, w);
    if w.ref in refs {
      HistoryTransitive(g, refs[w.ref], w.list[w.at], w.list[end]);
    }
    if w.list[end] in Have(g, refs) {
      ReachClosed(g, Negatives(g, refs), w.list[w.at], w.list[end]);
    }
  }

  lemma SuspendedStays(g: Graph, want: Source, refs: RefMap, outer: Walk, w: Walk, end: nat)
    requires WalkOk(g, want, refs, outer) && WalkOk(g, want, refs, w) && w.at <= end < |w.list|
    requires !outer.Done() && outer.ref != w.ref
    requires Generation(g, w.Tip()) < Generation(g, outer.list[outer.at])
    ensures WalkOk(g, want, refs[w.ref := w.list[end]], outer)
  {
    if outer.list[outer.at] in Have(g, refs[w.ref := w.list[end]]) {
      HaveOnlyGrowsBy(g, refs, w.ref, w.list[end], outer.list[outer.at]);
      ChainAncestors(g, w.list, end, |w.list| - 1);
      HistoryTransitive(g, outer.list[outer.at], w.list[end], w.Tip());
      HistoryGeneration(g, outer.list[outer.at], w.Tip());
    }
  }

  lemma WalkAdvances(g: Graph, want: Source, refs: RefMap, w: Walk, end: nat)
    requires WalkOk(g, want, refs, w) && w.at <= end < |w.list|
    ensures WalkOk(g, want, refs[w.ref := w.list[end]], w.(at := end + 1))
  {
    var after := refs[w.ref := w.list[end]];
    if end + 1 < |w.list| {
      ParentInHistory(g, w.list[end], w.list[end + 1]);
      if w.list[end + 1] in Have(g, after) {
        HaveOnlyGrowsBy(g, refs, w.ref, w.list[end], w.list[end + 1]);
        ChainAncestors(g, w.list, w.at, end + 1);
        if w.list[end + 1] in Have(g, refs) {
          ReachClosed(g, Negatives(g, refs), w.list[w.at], w.list[end + 1]);
        } else {
          HistoryGeneration(g, w.list[end + 1], w.list[end]);
        }
      }
    }
  }

  // ---- a batch --------------------------------------------------------------------

  function Commands(queue: seq<QueuedRef>): (cmds: seq<Cmd>)
    ensures |cmds| == |queue|
    ensures forall i :: 0 <= i < |queue| ==> cmds[i] == Cmd(queue[i].src.oid, queue[i].src.ref)
  {
    seq(|queue|, i requires 0 <= i < |queue| => Cmd(queue[i].src.oid, queue[i].src.ref))
  }

  function WithBatch(p: Plan, n: nat): Plan
    requires n <= |p.queue|
  {
    p.(refs := Apply(p.refs, Commands(p.queue[..n])), queue := p.queue[n..])
  }

  /** A batch is a push the repository takes, and keeps the invariant. */
  lemma BatchStepKeeps(g: Graph, want: Source, p: Plan, n: nat)
    requires Inv(g, want, p) && p.walks == [] && 0 < n <= |p.queue|
    ensures PushOk(g, want, p.refs, Commands(p.queue[..n]))
    ensures forall c :: c in Commands(p.queue[..n]) ==> c.oid in g.parents
    ensures Inv(g, want, WithBatch(p, n))
  {
    var cmds := Commands(p.queue[..n]);
    forall c | c in cmds ensures CommandOk(g, want, p.refs, c) {
      var i :| 0 <= i < n && c == cmds[i];
      assert p.queue[i] in p.queue;
    }
    PushKeepsResumable(g, want, p.refs, cmds);
    BatchQueue(g, want, p, n);
    BatchCovers(g, want, p, n);
  }

  lemma BatchQueue(g: Graph, want: Source, p: Plan, n: nat)
    requires QueueOk(want, p.refs, p.queue) && n <= |p.queue|
    ensures QueueOk(want, WithBatch(p, n).refs, p.queue[n..])
  {
    var cmds := Commands(p.queue[..n]);
    ApplyAt(p.refs, cmds);
    var rest := p.queue[n..];
    forall j | 0 <= j < |rest| ensures rest[j] in p.queue && !AtValue(WithBatch(p, n).refs, rest[j].src) {
      assert rest[j] == p.queue[n + j];
      forall c | c in cmds ensures c.ref != rest[j].src.ref {
        var i :| 0 <= i < n && c == cmds[i];
      }
    }
  }

  lemma BatchCovers(g: Graph, want: Source, p: Plan, n: nat)
    requires QueueOk(want, p.refs, p.queue) && n <= |p.queue| && SourceOk(g, want)
    ensures Unfinished(want, WithBatch(p, n).refs) <= Unfinished(want, p.refs) - QueueRefs(p.queue[..n])
    ensures QueueRefs(p.queue) == QueueRefs(p.queue[..n]) + QueueRefs(p.queue[n..])
  {
    var cmds := Commands(p.queue[..n]);
    ApplyAt(p.refs, cmds);
    assert p.queue == p.queue[..n] + p.queue[n..];
    forall r | r in want && r in QueueRefs(p.queue[..n]) ensures AtValue(WithBatch(p, n).refs, want[r]) {
      var i :| 0 <= i < n && p.queue[..n][i].src.ref == r;
      assert p.queue[i] in p.queue && cmds[i] in cmds;
    }
    forall r | r in want && r !in QueueRefs(p.queue[..n]) && AtValue(p.refs, want[r])
      ensures AtValue(WithBatch(p, n).refs, want[r])
    {
      forall c | c in cmds ensures c.ref != r {
        var i :| 0 <= i < n && c == cmds[i];
        assert p.queue[..n][i] in p.queue[..n];
      }
    }
  }

  // ---- the queue's head -------------------------------------------------------------

  /** A walk starts on the queue's first ref. */
  function WithWalk(p: Plan, w: Walk): Plan
    requires p.queue != []
  {
    p.(queue := p.queue[1..], walks := [w])
  }

  lemma StartWalkKeeps(g: Graph, want: Source, p: Plan, w: Walk)
    requires Inv(g, want, p) && p.walks == [] && p.queue != []
    requires w.ref == p.queue[0].src.ref && w.carrier.None? && WalkOk(g, want, p.refs, w)
    ensures Inv(g, want, WithWalk(p, w))
  {
    hide AllResumable, AtValue, QueueOk, WalkOk, SourceOk;
    RemovedQueueOk(want, p.refs, p.queue, 0);
    assert Remove(p.queue, 0) == p.queue[1..];
    OneWalk(g, want, p.refs, w);
  }

  lemma RemovedQueueOk(want: Source, refs: RefMap, queue: seq<QueuedRef>, i: nat)
    requires QueueOk(want, refs, queue) && i < |queue|
    ensures QueueOk(want, refs, Remove(queue, i))
    ensures QueueRefs(Remove(queue, i)) == QueueRefs(queue) - {queue[i].src.ref}
    ensures queue[i].src.ref in QueueRefs(queue)
  {
    RemoveKeepsDistinct(queue, i);
  }

  lemma OneWalk(g: Graph, want: Source, refs: RefMap, w: Walk)
    requires WalkOk(g, want, refs, w) && w.carrier.None?
    ensures WalksOk(g, want, refs, [w]) && WalkRefs([w]) == {w.ref}
  {
    assert [w][0] == w;
  }

  /** The queue's first ref is marked for a walk, or is no longer. */
  lemma MarkKeeps(g: Graph, want: Source, p: Plan, marked: bool)
    requires Inv(g, want, p) && p.queue != [] && p.queue[0].src.IsBranch()
    ensures Inv(g, want, p.(queue := [p.queue[0].(walk := marked)] + p.queue[1..]))
  {
    var after := [p.queue[0].(walk := marked)] + p.queue[1..];
    MarkedQueue(p.queue, marked);
    hide WalksOk, AllResumable, SourceOk, AtValue, DistinctQueue, QueueRefs;
  }

  /** Marking changes no ref of a queue. */
  lemma MarkedQueue(queue: seq<QueuedRef>, marked: bool)
    requires queue != []
    ensures var after := [queue[0].(walk := marked)] + queue[1..];
      && QueueRefs(after) == QueueRefs(queue) && (DistinctQueue(queue) ==> DistinctQueue(after))
      && forall q :: q in after ==> q in queue || (q == queue[0].(walk := marked) && queue[0] in queue)
  {
    var after := [queue[0].(walk := marked)] + queue[1..];
    assert forall i :: 0 <= i < |queue| ==> after[i].src == queue[i].src;
    forall i | 0 <= i < |queue| ensures queue[i].src.ref in QueueRefs(after) && after[i].src.ref in QueueRefs(queue) {
      assert after[i] in after && queue[i] in queue;
    }
    forall r | r in QueueRefs(after) ensures r in QueueRefs(queue) {
      var q :| q in after && q.src.ref == r;
      var i :| 0 <= i < |after| && after[i] == q;
      assert queue[i] in queue;
    }
    forall r | r in QueueRefs(queue) ensures r in QueueRefs(after) {
      var q :| q in queue && q.src.ref == r;
      var i :| 0 <= i < |queue| && queue[i] == q;
      assert after[i] in after;
    }
  }

  // ---- a merge's history ------------------------------------------------------------

  /** A merge's history is brought in: its walk is paused, and the branch at i carries the
      history of a parent of it. */
  function WithBringIn(p: Plan, i: nat, w: Walk): Plan
    requires i < |p.queue|
  {
    Plan(p.refs, Remove(p.queue, i), p.walks + [w])
  }

  lemma BringInKeeps(g: Graph, want: Source, p: Plan, i: nat, w: Walk)
    requires Inv(g, want, p) && p.walks != [] && !p.Top().Done() && i < |p.queue|
    requires w.carrier == Some(p.queue[i]) && w.ref == p.queue[i].src.ref
    requires WalkOk(g, want, p.refs, w)
    requires Generation(g, w.Tip()) < Generation(g, p.Top().list[p.Top().at])
    ensures Inv(g, want, WithBringIn(p, i, w))
  {
    assert p.Top() in p.walks;
    RemoveKeepsDistinct(p.queue, i);
    PushWalk(p.walks, w);
    NestedStack(g, want, p.refs, p.walks, w);
  }

  lemma NestedStack(g: Graph, want: Source, refs: RefMap, walks: seq<Walk>, w: Walk)
    requires StackOk(g, walks) && walks != [] && w.list != [] && w.carrier.Some? && w.ref !in WalkRefs(walks)
    requires var top := walks[|walks| - 1];
      IsChain(g, top.list) && !top.Done() && Generation(g, w.Tip()) < Generation(g, top.list[top.at])
    ensures StackOk(g, walks + [w])
  {
    var last := walks[|walks| - 1];
    ChainAncestors(g, last.list, last.at, |last.list| - 1);
    forall k | 0 <= k < |walks|
      ensures !walks[k].Done() && walks[k].ref != w.ref
      ensures Generation(g, w.Tip()) < Generation(g, walks[k].list[walks[k].at])
    {
      assert walks[k] in walks;
    }
  }

  // ---- a walk's end -----------------------------------------------------------------

  /** Pops the stack, reinserting an unfinished carrier at its slot or at the queue's end. */
  function WalkEnded(p: Plan): Plan
    requires p.walks != []
  {
    var w := p.Top();
    var back := w.carrier.Some? && !AtValue(p.refs, w.carrier.value.src);
    var at := if w.slot < |p.queue| then w.slot else |p.queue|;
    Plan(p.refs, if back then Insert(p.queue, at, w.carrier.value) else p.queue, p.walks[..|p.walks| - 1])
  }

  lemma WalkEndedKeeps(g: Graph, want: Source, p: Plan)
    requires Inv(g, want, p) && p.walks != [] && p.Top().Done()
    ensures Inv(g, want, WalkEnded(p))
    ensures WalkEnded(p).walks != [] ==> !WalkEnded(p).Top().Done()
    // A carrier is put back exactly when its walk ended short of its own value.
    ensures var w := p.Top(); w.ref in want && (w.ref in QueueRefs(WalkEnded(p).queue) <==> !AtValue(p.refs, want[w.ref]))
  {
    hide WalkOk, StackOk, AllResumable, SourceOk, AtValue;
    var w := p.Top();
    assert w in p.walks && w.ref in WalkRefs(p.walks);
    EndedWalk(g, want, p.refs, w);
    PopWalk(p.walks);
    WalkOutOfStack(g, p.walks);
    if w.carrier.Some? && !AtValue(p.refs, want[w.ref]) {
      var at := if w.slot < |p.queue| then w.slot else |p.queue|;
      InsertKeepsDistinct(p.queue, at, w.carrier.value);
    }
  }

  lemma EndedWalk(g: Graph, want: Source, refs: RefMap, w: Walk)
    requires WalkOk(g, want, refs, w) && w.Done() && SourceOk(g, want)
    ensures w.ref in want && want[w.ref].IsBranch() && want[w.ref].ref == w.ref
    ensures w.carrier.None? ==> AtValue(refs, want[w.ref])
    ensures w.carrier.Some? ==> w.carrier.value.src == want[w.ref]
  {
  }

  lemma WalkOutOfStack(g: Graph, walks: seq<Walk>)
    requires StackOk(g, walks) && walks != []
    ensures StackOk(g, walks[..|walks| - 1]) && walks[|walks| - 1].ref !in WalkRefs(walks[..|walks| - 1])
    ensures |walks| > 1 ==> !walks[|walks| - 2].Done()
  {
  }

  // ---- a carrier's place ------------------------------------------------------------

  function Least(a: nat, b: nat): nat {
    if a < b then a else b
  }

  /** A carrier taken from between these, put back at its slot once some of them are gone from
      either side, is between the rest exactly where none before it is gone, or none after is left. */
  lemma SlotHoldsIff(before: seq<QueuedRef>, after: seq<QueuedRef>, slot: nat, carrier: QueuedRef)
    requires |before| <= slot && carrier !in before + after
    ensures Insert(before + after, Least(slot, |before + after|), carrier) == before + [carrier] + after
       <==> |before| == slot || after == []
  {
    var at := Least(slot, |before + after|);
    var back := Insert(before + after, at, carrier);
    assert back[at] == carrier;
    if at == |before| {
      assert (before + after)[..at] == before && (before + after)[at..] == after;
    } else {
      assert back[|before|] == (before + after)[|before|];
      assert back[|before|] in before + after;
      assert (before + [carrier] + after)[|before|] == carrier;
    }
  }

  /** The queue as it was when the carrier was taken: it is put back exactly where it stood. */
  lemma CarrierReturnsToItsPlace(queue: seq<QueuedRef>, i: nat, p: Plan)
    requires DistinctQueue(queue) && i < |queue| && p.queue == Remove(queue, i) && p.walks != []
    requires p.Top().carrier == Some(queue[i]) && p.Top().slot == i && !AtValue(p.refs, queue[i].src)
    ensures WalkEnded(p).queue == queue
  {
    assert queue == queue[..i] + [queue[i]] + queue[i + 1..];
    assert p.queue[..i] == queue[..i] && p.queue[i..] == queue[i + 1..];
  }

  /** A queue's refs that are among the rest, as they stood. */
  function Kept(queue: seq<QueuedRef>, rest: seq<QueuedRef>): seq<QueuedRef> {
    if queue == [] then [] else (if queue[0] in rest then [queue[0]] else []) + Kept(queue[1..], rest)
  }

  lemma {:induction false} KeptIs(queue: seq<QueuedRef>, rest: seq<QueuedRef>)
    ensures |Kept(queue, rest)| <= |queue|
    ensures |Kept(queue, rest)| == |queue| <==> forall j :: 0 <= j < |queue| ==> queue[j] in rest
    ensures Kept(queue, rest) == [] <==> forall j :: 0 <= j < |queue| ==> queue[j] !in rest
    ensures forall q :: q in Kept(queue, rest) ==> q in queue
  {
    if queue != [] {
      KeptIs(queue[1..], rest);
      assert queue == [queue[0]] + queue[1..];
      assert forall j :: 0 < j < |queue| ==> queue[j] == queue[1..][j - 1];
    }
  }

  lemma {:induction false} KeptJoins(a: seq<QueuedRef>, b: seq<QueuedRef>, rest: seq<QueuedRef>)
    ensures Kept(a + b, rest) == Kept(a, rest) + Kept(b, rest)
  {
    if a == [] {
      assert a + b == b;
    } else {
      assert (a + b)[1..] == a[1..] + b && (a + b)[0] == a[0];
      KeptJoins(a[1..], b, rest);
      var first := if a[0] in rest then [a[0]] else [];
      assert Kept(a + b, rest) == first + Kept((a + b)[1..], rest);
      Associates(first, Kept(a[1..], rest), Kept(b, rest));
    }
  }

  lemma Associates<T>(a: seq<T>, b: seq<T>, c: seq<T>)
    ensures a + (b + c) == (a + b) + c
  {
  }

  lemma {:induction false} KeptWithout(queue: seq<QueuedRef>, rest: seq<QueuedRef>, more: seq<QueuedRef>)
    requires forall q :: q in queue ==> q !in more
    ensures Kept(queue, rest + more) == Kept(queue, rest)
  {
    if queue != [] {
      assert queue[0] in queue;
      KeptWithout(queue[1..], rest, more);
    }
  }

  lemma NoneTwice(queue: seq<QueuedRef>, i: nat)
    requires DistinctQueue(queue) && i < |queue|
    ensures queue[i] !in queue[..i] && queue[i] !in queue[i + 1..] && queue[i] !in Remove(queue, i)
  {
  }

  /** However many carriers were taken from the queue meanwhile, the rest in the order they
      stood: a carrier goes back to its place among them exactly where every ref that stood
      before it is there, or none that stood after it. */
  lemma CarrierReturnsIff(queue: seq<QueuedRef>, i: nat, p: Plan)
    requires DistinctQueue(queue) && i < |queue| && p.walks != [] && p.queue == Kept(Remove(queue, i), p.queue)
    requires p.Top().carrier == Some(queue[i]) && p.Top().slot == i && !AtValue(p.refs, queue[i].src)
    ensures WalkEnded(p).queue == Kept(queue, p.queue + [queue[i]]) <==>
      (forall j :: 0 <= j < i ==> queue[j] in p.queue) || (forall j :: i < j < |queue| ==> queue[j] !in p.queue)
  {
    Sides(queue, i, p.queue);
    AsItStood(queue, i, p.queue);
    hide Kept, Insert, Remove, DistinctQueue;
    SlotHoldsIff(Kept(queue[..i], p.queue), Kept(queue[i + 1..], p.queue), i, queue[i]);
  }

  lemma Sides(queue: seq<QueuedRef>, i: nat, rest: seq<QueuedRef>)
    requires DistinctQueue(queue) && i < |queue| && rest == Kept(Remove(queue, i), rest)
    ensures rest == Kept(queue[..i], rest) + Kept(queue[i + 1..], rest) && queue[i] !in rest
    ensures |Kept(queue[..i], rest)| <= i
    ensures |Kept(queue[..i], rest)| == i <==> forall j :: 0 <= j < i ==> queue[j] in rest
    ensures Kept(queue[i + 1..], rest) == [] <==> forall j :: i < j < |queue| ==> queue[j] !in rest
  {
    NoneTwice(queue, i);
    hide DistinctQueue;
    KeptJoins(queue[..i], queue[i + 1..], rest);
    KeptIs(Remove(queue, i), rest);
    hide Kept;
    FirstSide(queue, i, rest);
    LastSide(queue, i, rest);
  }

  lemma FirstSide(queue: seq<QueuedRef>, i: nat, rest: seq<QueuedRef>)
    requires i < |queue|
    ensures |Kept(queue[..i], rest)| <= i
    ensures |Kept(queue[..i], rest)| == i <==> forall j :: 0 <= j < i ==> queue[j] in rest
  {
    hide Kept;
    KeptIs(queue[..i], rest);
    assert forall j :: 0 <= j < i ==> queue[..i][j] == queue[j];
  }

  lemma LastSide(queue: seq<QueuedRef>, i: nat, rest: seq<QueuedRef>)
    requires i < |queue|
    ensures Kept(queue[i + 1..], rest) == [] <==> forall j :: i < j < |queue| ==> queue[j] !in rest
  {
    hide Kept;
    var after := queue[i + 1..];
    KeptIs(after, rest);
    assert forall j :: i < j < |queue| ==> queue[j] == after[j - i - 1];
    assert forall k :: 0 <= k < |after| ==> after[k] == queue[k + i + 1];
  }

  lemma AsItStood(queue: seq<QueuedRef>, i: nat, rest: seq<QueuedRef>)
    requires DistinctQueue(queue) && i < |queue|
    ensures Kept(queue, rest + [queue[i]]) == Kept(queue[..i], rest) + [queue[i]] + Kept(queue[i + 1..], rest)
  {
    var c := queue[i];
    NoneTwice(queue, i);
    assert queue == queue[..i] + ([c] + queue[i + 1..]);
    KeptJoins(queue[..i], [c] + queue[i + 1..], rest + [c]);
    KeptJoins([c], queue[i + 1..], rest + [c]);
    KeptWithout(queue[..i], rest, [c]);
    KeptWithout(queue[i + 1..], rest, [c]);
    assert Kept([c], rest + [c]) == [c];
  }

  lemma {:induction false} KeptWhole(queue: seq<QueuedRef>, rest: seq<QueuedRef>)
    requires forall q :: q in queue ==> q in rest
    ensures Kept(queue, rest) == queue
  {
    if queue != [] {
      assert queue[0] in queue && forall q :: q in queue[1..] ==> q in queue;
      KeptWhole(queue[1..], rest);
      assert queue == [queue[0]] + queue[1..];
    }
  }

  lemma KeptRemoved(queue: seq<QueuedRef>, k: nat, rest: seq<QueuedRef>)
    requires k < |queue| && queue[k] !in rest && forall j :: 0 <= j < |queue| && j != k ==> queue[j] in rest
    ensures Kept(queue, rest) == Remove(queue, k)
  {
    hide Kept;
    assert queue == queue[..k] + ([queue[k]] + queue[k + 1..]);
    KeptJoins(queue[..k], [queue[k]] + queue[k + 1..], rest);
    KeptJoins([queue[k]], queue[k + 1..], rest);
    KeptIs([queue[k]], rest);
    KeptWhole(queue[..k], rest);
    KeptWhole(queue[k + 1..], rest);
  }

  /** A second one's place in the whole queue, taken from what the first left. */
  function PlaceOf(i: nat, j: nat): nat {
    if j < i then j else j + 1
  }

  lemma OneTaken(queue: seq<QueuedRef>, i: nat)
    requires i < |queue|
    ensures |Remove(queue, i)| == |queue| - 1
    ensures forall k :: 0 <= k < |queue| - 1 ==> Remove(queue, i)[k] == queue[PlaceOf(i, k)]
  {
  }

  lemma TwoTaken(queue: seq<QueuedRef>, i: nat, j: nat)
    requires DistinctQueue(queue) && i < |queue| && j < |queue| - 1
    ensures var left := Remove(queue, i); var rest := Remove(left, j);
      && left[j] == queue[PlaceOf(i, j)] && DistinctQueue(left)
      && forall m :: 0 <= m < |queue| ==> (queue[m] in rest <==> m != i && m != PlaceOf(i, j))
  {
    var left := Remove(queue, i);
    OneTaken(queue, i);
    RemoveKeepsDistinct(queue, i);
    RemoveKeepsOthers(queue, i);
    RemoveKeepsOthers(left, j);
    RemoveKeepsDistinct(left, j);
    hide Remove;
    forall m | 0 <= m < |queue| ensures queue[m] in Remove(left, j) <==> m != i && m != PlaceOf(i, j) {
      if m != i {
        var k := if m < i then m else m - 1;
        assert left[k] == queue[m];
      }
    }
  }

  lemma TwoKept(queue: seq<QueuedRef>, i: nat, j: nat)
    requires DistinctQueue(queue) && i < |queue| && j < |queue| - 1
    ensures var left := Remove(queue, i); var rest := Remove(left, j);
      && rest == Kept(left, rest) && Kept(queue, rest + [queue[i]]) == Remove(queue, PlaceOf(i, j))
  {
    var left := Remove(queue, i);
    TwoTaken(queue, i, j);
    RemoveKeepsOthers(left, j);
    KeptRemoved(left, j, Remove(left, j));
    KeptRemoved(queue, PlaceOf(i, j), Remove(left, j) + [queue[i]]);
  }

  lemma RemoveKeepsOthers(queue: seq<QueuedRef>, j: nat)
    requires DistinctQueue(queue) && j < |queue|
    ensures queue[j] !in Remove(queue, j) && forall k :: 0 <= k < |queue| && k != j ==> queue[k] in Remove(queue, j)
  {
    NoneTwice(queue, j);
    forall k | 0 <= k < |queue| && k != j ensures queue[k] in Remove(queue, j) {
      assert Remove(queue, j)[if k < j then k else k - 1] == queue[k];
    }
  }

  // ---- a carrier taken while another is out ----------------------------------------------------

  /** What bringing a walk in on the queue's i-th branch asks. */
  ghost predicate CanBringIn(g: Graph, want: Source, p: Plan, i: nat, w: Walk) {
    && p.walks != [] && !p.Top().Done() && i < |p.queue|
    && w.carrier == Some(p.queue[i]) && w.ref == p.queue[i].src.ref && w.slot == i && w.at == 0
    && WalkOk(g, want, p.refs, w)
    && Generation(g, w.Tip()) < Generation(g, p.Top().list[p.Top().at])
  }

  function ToTip(p: Plan): Plan
    requires p.walks != [] && p.Top().list != []
  {
    WithWalkAt(p, |p.Top().list| - 1)
  }

  lemma ToTipKeeps(g: Graph, want: Source, p: Plan)
    requires Inv(g, want, p) && p.walks != [] && !p.Top().Done() && p.Top().carrier.Some?
    ensures p.Top().list != [] && ToTip(p).walks != [] && Inv(g, want, ToTip(p)) && ToTip(p).queue == p.queue
    ensures var w := p.Top();
      && ToTip(p).Top() == w.(at := |w.list|) && ToTip(p).walks[..|p.walks| - 1] == p.walks[..|p.walks| - 1] && |ToTip(p).walks| == |p.walks|
      && w.ref in want && want[w.ref] == w.carrier.value.src && want[w.ref].ref == w.ref
      && ToTip(p).refs == p.refs[w.ref := w.Tip()]
  {
    hide StackOk, QueueOk, AllResumable, Unfinished;
    assert p.Top() in p.walks && WalkOk(g, want, p.refs, p.Top());
    WalkStepKeeps(g, want, p, |p.Top().list| - 1);
  }

  /** The active walk stepped to its tip, then ended. */
  lemma ToTipThenEnds(g: Graph, want: Source, p: Plan)
    requires Inv(g, want, p) && p.walks != [] && !p.Top().Done() && p.Top().carrier.Some?
    ensures p.Top().list != [] && ToTip(p).walks != [] && Inv(g, want, WalkEnded(ToTip(p)))
    ensures WalkEnded(ToTip(p)).walks == p.walks[..|p.walks| - 1]
    ensures var w := p.Top();
      && w.ref in want && want[w.ref] == w.carrier.value.src && ToTip(p).queue == p.queue
      && ToTip(p).Top() == w.(at := |w.list|)
      && (AtValue(ToTip(p).refs, want[w.ref]) <==> w.Tip() == want[w.ref].oid)
      && (w.Tip() == want[w.ref].oid ==> WalkEnded(ToTip(p)).queue == p.queue)
  {
    ToTipKeeps(g, want, p);
    hide Inv, WithWalkAt, ToTip, Insert;
    WalkEndedKeeps(g, want, ToTip(p));
  }

  /** The plan once a first carrier's walk has been stepped to before the merge it meets, a
      second has been taken for that merge, finished there and not put back, and the first's
      walk has gone on to its tip: all of it the planner's own moves. */
  ghost function Nested(p: Plan, i: nat, first: Walk, met: nat, j: nat, second: Walk): Plan
    requires i < |p.queue| && met < |first.list| && j < |p.queue| - 1 && second.list != []
  {
    WalkEnded(ToTip(WalkEnded(ToTip(WithBringIn(AtMerge(p, i, first, met), j, second)))))
  }

  /** The first carrier's walk at its met-th commit. */
  function AtMerge(p: Plan, i: nat, first: Walk, met: nat): Plan
    requires i < |p.queue| && met < |first.list|
  {
    if met == 0 then WithBringIn(p, i, first) else WithWalkAt(WithBringIn(p, i, first), met - 1)
  }

  lemma AtMergeKeeps(g: Graph, want: Source, p: Plan, i: nat, first: Walk, met: nat)
    requires Inv(g, want, p) && CanBringIn(g, want, p, i, first) && met < |first.list|
    ensures var q := AtMerge(p, i, first, met);
      Inv(g, want, q) && q.queue == Remove(p.queue, i) && q.walks == p.walks + [first.(at := met)]
  {
    BringInKeeps(g, want, p, i, first);
    var in_ := WithBringIn(p, i, first);
    if met > 0 {
      WalkStepKeeps(g, want, in_, met - 1);
      assert in_.walks[|in_.walks| - 1 := first.(at := met)] == p.walks + [first.(at := met)];
    }
  }

  /** It keeps the invariant, the walks are as before the first was taken, and the first is back
      where it stood exactly where the second stood after it, or nothing did. */
  lemma NestedCarrierReturnsIff(g: Graph, want: Source, p: Plan, i: nat, first: Walk, met: nat, j: nat, second: Walk)
    requires Inv(g, want, p) && CanBringIn(g, want, p, i, first) && met < |first.list|
    requires first.Tip() != want[first.ref].oid
    requires CanBringIn(g, want, AtMerge(p, i, first, met), j, second) && second.Tip() == want[second.ref].oid
    ensures j < |p.queue| - 1
    ensures var last := Nested(p, i, first, met, j, second);
      && Inv(g, want, last) && last.walks == p.walks
      && last.queue == Insert(Remove(Remove(p.queue, i), j), Least(i, |p.queue| - 2), p.queue[i])
      && (last.queue == Remove(p.queue, PlaceOf(i, j)) <==> j >= i || i + 1 == |p.queue|)
  {
    assert first.ref in want;
    OneTaken(p.queue, i);
    hide Inv, WalkOk, AtValue, Insert, Kept, Remove;
    AtMergeKeeps(g, want, p, i, first, met);
    var merge := AtMerge(p, i, first, met);
    SecondEnds(g, want, merge, j, second);
    FirstEnds(g, want, p, i, first, met, j, WalkEnded(ToTip(WithBringIn(merge, j, second))));
  }

  lemma SecondEnds(g: Graph, want: Source, merge: Plan, j: nat, second: Walk)
    requires Inv(g, want, merge) && CanBringIn(g, want, merge, j, second) && second.Tip() == want[second.ref].oid
    ensures second.list != []
    ensures var on := WalkEnded(ToTip(WithBringIn(merge, j, second)));
      Inv(g, want, on) && on.queue == Remove(merge.queue, j) && on.walks == merge.walks
  {
    BringInKeeps(g, want, merge, j, second);
    assert second.list != [] && !second.Done();
    hide Inv, WalkOk, AtValue, Remove, WalkEnded, ToTip;
    ToTipThenEnds(g, want, WithBringIn(merge, j, second));
  }

  lemma FirstEnds(g: Graph, want: Source, p: Plan, i: nat, first: Walk, met: nat, j: nat, on: Plan)
    requires Inv(g, want, p) && Inv(g, want, on) && i < |p.queue| && j < |p.queue| - 1 && met < |first.list|
    requires first.carrier == Some(p.queue[i]) && first.slot == i && first.ref in want && first.Tip() != want[first.ref].oid
    requires on.walks == p.walks + [first.(at := met)] && on.queue == Remove(Remove(p.queue, i), j)
    ensures var last := WalkEnded(ToTip(on));
      && Inv(g, want, last) && last.walks == p.walks
      && last.queue == Insert(Remove(Remove(p.queue, i), j), Least(i, |p.queue| - 2), p.queue[i])
      && (last.queue == Remove(p.queue, PlaceOf(i, j)) <==> j >= i || i + 1 == |p.queue|)
  {
    hide Inv, WalkOk, AtValue, Remove, DistinctQueue, WithWalkAt, Insert;
    QueueIsDistinct(g, want, p);
    OneTaken(p.queue, i);
    OneTaken(Remove(p.queue, i), j);
    ToTipThenEnds(g, want, on);
    PlaceAgain(g, want, p.queue, i, j, ToTip(on));
  }

  lemma QueueIsDistinct(g: Graph, want: Source, p: Plan)
    requires Inv(g, want, p)
    ensures DistinctQueue(p.queue)
  {
  }

  lemma PlaceAgain(g: Graph, want: Source, queue: seq<QueuedRef>, i: nat, j: nat, p: Plan)
    requires DistinctQueue(queue) && i < |queue| && j < |queue| - 1 && p.walks != [] && p.queue == Remove(Remove(queue, i), j)
    requires p.Top().carrier == Some(queue[i]) && p.Top().slot == i && !AtValue(p.refs, queue[i].src)
    ensures WalkEnded(p).queue == Remove(queue, PlaceOf(i, j)) <==> j >= i || i + 1 == |queue|
  {
    TwoTaken(queue, i, j);
    TwoKept(queue, i, j);
    CarrierReturnsIff(queue, i, p);
    hide Kept, Remove, Insert, DistinctQueue;
    var x := PlaceOf(i, j);
    assert queue[x] !in p.queue;
    if i + 1 < |queue| && j < i {
      assert queue[i + 1] in p.queue;
    }
  }
}
