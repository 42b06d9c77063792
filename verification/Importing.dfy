/** What an import asks of git and of the node, and the steps it cuts. */
module Importing {
  import opened Commits
  import opened Options
  import opened Refs

  const MaxCommandsPerPush: nat := 1000
  const MaxRefsPerRepo: nat := 100000
  const MinPushBytes: nat := 1048576
  const EmptyPackBytes: nat := 32
  const CutShare: real := 15.0 / 16.0

  /** Bytes of the two index files for n objects. */
  function IndexBytesFor(n: nat): nat { 8 + 256 * 4 + n * (20 + 4 + 4) + 2 * 20 }
  function ReverseBytesFor(n: nat): nat { 12 + n * 4 + 2 * 20 }

  function MeasureCap(limit: nat): nat { 2 * limit }
  function OrderSlack(objects: nat): nat { 4 * objects }
  function RatioFloor(budget: nat): nat { budget / 8 }

  /** A pack as it was built: past says the build stopped at its cap, so size is a floor. */
  datatype Built = Built(size: nat, objects: nat, past: bool)

  /** The bring-in a step belongs to: carrier, parent walked to, and the merge with its ref. */
  datatype Note = Note(carrier: Ref, parent: Oid, merge: Oid, mergeRef: Ref)

  /** A planned push. repo is set while its pack is on disk. */
  datatype Step = Step(cmds: seq<Cmd>, estimate: nat, size: nat, objects: nat, exact: bool, alone: bool,
                       past: bool, repo: bool, overRepo: bool, note: Option<Note>) {
    /** Pack and index bytes together, once measured. */
    function Stored(): nat {
      if exact then size + IndexBytesFor(objects) + ReverseBytesFor(objects) else size
    }
  }

  function News(cmds: seq<Cmd>): (news: seq<Oid>)
    ensures |news| == |cmds|
    ensures forall i :: 0 <= i < |cmds| ==> news[i] == cmds[i].oid
  {
    seq(|cmds|, i requires 0 <= i < |cmds| => cmds[i].oid)
  }

  function Planned(cmds: seq<Cmd>, estimate: nat, alone: bool): Step {
    Step(cmds, estimate, 0, 0, false, alone, false, false, false, None)
  }

  /** One run of an import: the clone's graph, git's answers about packs, the node's rule
      for one push's record, and the limits. */
  datatype Importer = Importer(graph: Graph,
                               estimate: (seq<Oid>, set<Oid>) -> nat,
                               build: (seq<Cmd>, RefMap) -> Built,
                               sent: (seq<Cmd>, RefMap) -> nat,
                               recordHolds: seq<Cmd> -> bool,
                               budget: nat, maxStored: nat, repoMaxBytes: nat) {

    function EstimateOf(cmds: seq<Cmd>, refs: RefMap): nat {
      estimate(News(cmds), Negatives(graph, refs))
    }

    /** Assumed of git, of the configuration and of the record's rule:
        what the repository already reaches is estimated at nothing; what is estimated at
        nothing packs to the empty pack, which every limit admits; a build stops past its
        cap only; and a shorter batch takes no more of the record. */
    ghost predicate Valid() {
      ValidOtherwise() && NothingIsEmpty()
    }

    ghost predicate NothingIsEmpty() {
      forall cmds: seq<Cmd>, refs: RefMap :: EstimateOf(cmds, refs) == 0 ==>
        build(cmds, refs) == Built(EmptyPackBytes, 0, false) && sent(cmds, refs) == EmptyPackBytes
    }

    ghost predicate ValidOtherwise() {
      && MinPushBytes <= budget
      && EmptyPackBytes + IndexBytesFor(0) + ReverseBytesFor(0) <= maxStored
      && (forall cmds: seq<Cmd>, refs: RefMap ::
            (forall c :: c in cmds ==> c.oid in Have(graph, refs)) ==> EstimateOf(cmds, refs) == 0)
      && (forall cmds: seq<Cmd>, refs: RefMap :: build(cmds, refs).past ==> build(cmds, refs).size > MeasureCap(budget))
      && (forall cmds: seq<Cmd>, k :: 0 <= k <= |cmds| && recordHolds(cmds) ==> recordHolds(cmds[..k]))
    }

    /** The step as it is measured: its build, or where that may fit, the copy its push sends. */
    function Measured(step: Step, refs: RefMap): Step {
      var b := build(step.cmds, refs);
      var size := if !b.past && b.size <= budget + OrderSlack(b.objects) then sent(step.cmds, refs) else b.size;
      step.(size := size, objects := b.objects, past := b.past, exact := true)
    }

    /** One push takes it: its pack and what it stores are under their limits. */
    predicate Fits(step: Step) {
      !step.past && step.size <= budget && step.Stored() <= maxStored
    }

    /** What is measured of a push of cmds: its build, or where that is not stopped at its cap and
        near enough the limit, four bytes an object, the copy the push sends. */
    function SizeOf(cmds: seq<Cmd>, refs: RefMap): nat {
      var b := build(cmds, refs);
      if b.past || b.size > budget + 4 * b.objects then b.size else sent(cmds, refs)
    }

    /** One push of cmds is within every limit as it is sent: the copy's bytes, and what is stored of
        it, 32 bytes more for each object and 1124 besides. */
    ghost predicate PushFits(cmds: seq<Cmd>, refs: RefMap) {
      var b := build(cmds, refs);
      && !b.past && b.size <= budget + 4 * b.objects
      && sent(cmds, refs) <= budget && sent(cmds, refs) + 32 * b.objects + 1124 <= maxStored
    }

    /** A step measured is what git says of it, and fits exactly where its push does. */
    lemma MeasuredIs(step: Step, refs: RefMap)
      ensures var m := Measured(step, refs); var b := build(step.cmds, refs);
        && m == step.(size := m.size, objects := b.objects, past := b.past, exact := true)
        && m.size == SizeOf(step.cmds, refs) && m.Stored() == m.size + 32 * b.objects + 1124
        && (Fits(m) <==> PushFits(step.cmds, refs))
        && (Fits(m) ==> m.size == sent(step.cmds, refs))
    {
    }

    /** The estimate a shorter range is searched for under: this one's, divided by how far the worse
        limit was passed, less a sixteenth. */
    function Cut(step: Step): real
      requires budget > 0 && maxStored > 0 && step.exact
    {
      var overPack := step.size as real / budget as real;
      var overStored := step.Stored() as real / maxStored as real;
      assert overStored > 0.0;
      step.estimate as real / Larger(overPack, overStored) * CutShare
    }

    /** The estimate at which, packing alike, a range would come to fifteen sixteenths of the limit
        a push of cmds passed furthest. */
    ghost predicate IsCut(cmds: seq<Cmd>, refs: RefMap, cut: real) {
      var est, size := EstimateOf(cmds, refs) as real, SizeOf(cmds, refs);
      var stored := size + 32 * build(cmds, refs).objects + 1124;
      && 16.0 * (cut * size as real) <= 15.0 * (est * budget as real)
      && 16.0 * (cut * stored as real) <= 15.0 * (est * maxStored as real)
      && (16.0 * (cut * size as real) == 15.0 * (est * budget as real)
          || 16.0 * (cut * stored as real) == 15.0 * (est * maxStored as real))
    }

    lemma CutIs(step: Step, refs: RefMap)
      requires budget > 0 && maxStored > 0 && step.estimate == EstimateOf(step.cmds, refs)
      ensures IsCut(step.cmds, refs, Cut(Measured(step, refs)))
    {
      hide Measured, SizeOf, EstimateOf, Step.Stored, IndexBytesFor, ReverseBytesFor;
      MeasuredIs(step, refs);
      var m := Measured(step, refs);
      CutOf(step.estimate as real, m.size as real, budget as real, m.Stored() as real, maxStored as real);
    }

    /** Of a range past a limit it is below the range's own estimate, and nothing where that is. */
    lemma CutIsBelow(cmds: seq<Cmd>, refs: RefMap, cut: real)
      requires Valid() && IsCut(cmds, refs, cut) && !PushFits(cmds, refs)
      ensures cut <= EstimateOf(cmds, refs) as real
    {
      var est, size := EstimateOf(cmds, refs) as real, SizeOf(cmds, refs);
      var stored := size + 32 * build(cmds, refs).objects + 1124;
      if size > budget {
        NotAbove(cut, est, size as real, budget as real);
      } else {
        NotAbove(cut, est, stored as real, maxStored as real);
      }
    }

    /** A cut is zero, which the planner reads as "may be pushed", exactly where the estimate is. */
    lemma CutIsZero(step: Step)
      requires budget > 0 && maxStored > 0 && step.exact
      ensures Cut(step) >= 0.0
      ensures Cut(step) == 0.0 <==> step.estimate == 0
    {
    }

    /** And it is below the estimate of the range it cuts, wherever a limit was passed. */
    lemma CutShrinks(step: Step)
      requires budget > 0 && maxStored > 0 && step.exact && step.estimate > 0
      requires step.size > budget || step.Stored() > maxStored
      ensures Cut(step) < step.estimate as real
    {
      if step.size > budget {
        RatioAboveOne(step.size as real, budget as real);
      } else {
        RatioAboveOne(step.Stored() as real, maxStored as real);
      }
      ShareBelow(step.estimate as real,
                 Larger(step.size as real / budget as real, step.Stored() as real / maxStored as real));
    }

    /** What Settle answers is right exactly where no step past a limit is estimated at nothing. */
    predicate SettlesAsPushable(step: Step)
      requires budget > 0 && maxStored > 0 && step.exact
    {
      Fits(step) || Cut(step) == 0.0
    }

    lemma SettleIsRightIffEstimated(step: Step)
      requires budget > 0 && maxStored > 0 && step.exact
      ensures (SettlesAsPushable(step) <==> Fits(step)) <==> (step.estimate > 0 || Fits(step))
    {
      CutIsZero(step);
    }

    /** The assumptions rule that step out. */
    lemma NothingNewFits(cmds: seq<Cmd>, refs: RefMap)
      requires Valid() && EstimateOf(cmds, refs) == 0
      ensures PushFits(cmds, refs)
    {
    }
  }

  /** Of two sizes over two limits, the estimate divided by the worse ratio. */
  lemma CutOf(est: real, size: real, budget: real, stored: real, maxStored: real)
    requires est >= 0.0 && size >= 0.0 && stored > 0.0 && budget > 0.0 && maxStored > 0.0
    ensures stored / maxStored > 0.0
    ensures var cut := est / Larger(size / budget, stored / maxStored) * CutShare;
      && 16.0 * (cut * size) <= 15.0 * (est * budget) && 16.0 * (cut * stored) <= 15.0 * (est * maxStored)
      && (16.0 * (cut * size) == 15.0 * (est * budget) || 16.0 * (cut * stored) == 15.0 * (est * maxStored))
  {
    var over, over' := size / budget, stored / maxStored;
    Positive(stored, maxStored);
    Proportion(est, size, budget, over, Larger(over, over'));
    Proportion(est, stored, maxStored, over', Larger(over, over'));
  }

  lemma Positive(a: real, b: real)
    requires a > 0.0 && b > 0.0
    ensures a / b > 0.0
  {
  }

  lemma Proportion(est: real, size: real, limit: real, over: real, worst: real)
    requires est >= 0.0 && size >= 0.0 && limit > 0.0 && over == size / limit && worst >= over && worst > 0.0
    ensures var cut := est / worst * CutShare;
      16.0 * (cut * size) <= 15.0 * (est * limit) && (worst == over ==> 16.0 * (cut * size) == 15.0 * (est * limit))
  {
    var each := est / worst;
    assert each * worst == est && over * limit == size;
    calc {
      16.0 * (each * CutShare * size);
    ==
      15.0 * (each * (over * limit));
    ==  { Reorder(each, over, limit); }
      15.0 * ((each * over) * limit);
    }
    NoMore(each, over, worst, limit);
  }

  lemma Reorder(a: real, b: real, c: real)
    ensures a * (b * c) == (a * b) * c
  {
  }

  lemma NoMore(each: real, over: real, worst: real, limit: real)
    requires each >= 0.0 && over <= worst && limit > 0.0
    ensures (each * over) * limit <= (each * worst) * limit
  {
    assert each * (worst - over) >= 0.0;
    assert (each * (worst - over)) * limit >= 0.0;
  }

  lemma Scaled(x: real, a: real, b: real)
    requires x >= 0.0 && a <= b
    ensures x * a <= x * b
  {
  }

  lemma NotAbove(cut: real, est: real, size: real, limit: real)
    requires est >= 0.0 && size > limit > 0.0 && 16.0 * (cut * size) <= 15.0 * (est * limit)
    ensures cut <= est
  {
    Scaled(est, limit, size);
    if cut > est {
      Scaled(size, est, cut);
    }
  }

  function Larger(a: real, b: real): real {
    if a < b then b else a
  }

  lemma RatioAboveOne(a: real, b: real)
    requires 0.0 < b < a
    ensures a / b > 1.0
  {
    var r := a / b;
    assert r * b == a;
    assert (r - 1.0) * b > 0.0;
  }

  lemma ShareBelow(a: real, over: real)
    requires a > 0.0 && over > 1.0
    ensures a / over * CutShare < a
  {
    var r := a / over;
    assert r > 0.0;
    ProductAbove(r, over);
    calc {
      r * CutShare;
    <
      r;
    <
      r * over;
    ==
      a;
    }
  }

  lemma ProductAbove(r: real, over: real)
    requires r > 0.0 && over > 1.0
    ensures r < r * over && r * CutShare < r
  {
    assert r * (over - 1.0) > 0.0;
  }

  /** A repository of one commit, whose estimate git gets wrong: nothing, where its pack is
      twice what a push may be. Every other assumption holds of it. */
  function Underestimated(commit: Oid): Importer {
    Importer(Graph(map[commit := []], map[commit := 0]),
             (news, negs) => 0, (cmds, refs) => Built(2 * MinPushBytes, 3, false), (cmds, refs) => 2 * MinPushBytes,
             cmds => true, MinPushBytes, MinPushBytes, 64 * MinPushBytes)
  }

  /** The step that creates its branch is then answered as one to push, and does not fit. */
  lemma SettleWrongWithoutTheAssumption(commit: Oid, branch: Ref)
    ensures var imp := Underestimated(commit); var cmds := [Cmd(commit, branch)];
      && imp.ValidOtherwise() && !imp.NothingIsEmpty() && commit !in Have(imp.graph, map[])
      && var step := imp.Measured(Planned(cmds, imp.EstimateOf(cmds, map[]), true), map[]);
         step.cmds == cmds && imp.Cut(step) == 0.0 && imp.SettlesAsPushable(step) && !imp.Fits(step)
  {
    var imp := Underestimated(commit);
    var cmds := [Cmd(commit, branch)];
    var step := imp.Measured(Planned(cmds, 0, true), map[]);
    assert imp.EstimateOf(cmds, map[]) == 0;
    assert step.size == 2 * MinPushBytes;
    imp.CutIsZero(step);
  }
}
