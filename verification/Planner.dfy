/** The planner as a class: its fields, its loops and their proofs over the value model of Plans. */
module Planner {
  import opened Commits
  import opened Importing
  import opened Options
  import opened Plans
  import opened Refs
  import opened RemoteRefs
  import FirstFound
  import Search

  /** Why a plan ends without its next step. */
  datatype Refusal =
    | TooLarge(tooLarge: Step, commit: bool)
    | MergeTooLarge(merge: Step, lacking: seq<Oid>)
    | RepoFull(full: Step, held: nat)
    | RecordFull(first: Ref)

  datatype Answer = Stepped(step: Step) | Finished | Refused(why: Refusal)

  // ---- carriers -------------------------------------------------------------------

  /** A branch the history of parent can be stepped on: its own value reaches parent, and
      the repository does not hold it, or holds it at an ancestor of parent. */
  predicate CanCarry(g: Graph, refs: RefMap, q: QueuedRef, parent: Oid) {
    && q.src.IsBranch() && IsAncestor(g, parent, q.src.oid)
    && (q.src.ref !in refs || IsAncestor(g, refs[q.src.ref], parent))
  }

  /** It reaches parent without the merge. */
  predicate IsOwn(g: Graph, q: QueuedRef, merge: Oid) {
    !IsAncestor(g, merge, q.src.oid)
  }

  /** The branches preferred to a queue's i-th: those reaching parent without the merge, then
      the queue's order. */
  ghost predicate Preferred(g: Graph, queue: seq<QueuedRef>, merge: Oid, i: nat, j: nat)
    requires i < |queue| && j < |queue|
  {
    var through, other := merge in History(g, queue[i].src.oid), merge in History(g, queue[j].src.oid);
    (!through && other) || (through == other && i <= j)
  }

  /** What one call of Next changes, from the state it found: nothing unless a step is
      answered, and then what the step says. */
  ghost predicate Answered(imp: Importer, want: Source, exact: bool, refs: RefMap, refs': RefMap,
                           held: nat, held': nat, kept: int, kept': int, a: Answer)
  {
    match a
    case Stepped(step) =>
      && PushOk(imp.graph, want, refs, step.cmds) && refs' == Apply(refs, step.cmds)
      && |step.cmds| <= MaxCommandsPerPush && (|step.cmds| > 1 ==> imp.recordHolds(step.cmds))
      && held' == held + step.Stored()
      && step.estimate == imp.EstimateOf(step.cmds, refs)
      && (if exact
          then IsMeasured(imp, refs, step) && imp.PushFits(step.cmds, refs) && step.repo && held' <= imp.repoMaxBytes && kept' == kept + 1
          else !step.exact && step.size == step.estimate && !step.repo && kept' == kept)
      && (step.overRepo <==> held' > imp.repoMaxBytes)
    case _ =>
      refs' == refs && held' == held && kept' == kept
  }

  lemma NothingPlanned(imp: Importer, want: Source, exact: bool, refs: RefMap, held: nat, kept: int, a: Answer)
    requires !a.Stepped?
    ensures Answered(imp, want, exact, refs, refs, held, held, kept, kept, a)
  {
  }

  /** What a step says, checked against the refs it was planned on. */
  ghost predicate SettledAgainst(imp: Importer, exact: bool, refs: RefMap, step: Step) {
    && step.estimate == imp.EstimateOf(step.cmds, refs)
    && (if exact then IsMeasured(imp, refs, step) && imp.PushFits(step.cmds, refs) else !step.exact && step.size == step.estimate)
  }

  /** Whether its pack is kept and the repository's limit noted changes nothing settled. */
  lemma SettledStays(imp: Importer, exact: bool, refs: RefMap, step: Step, counted: Step)
    requires SettledAgainst(imp, exact, refs, step) && counted == step.(repo := counted.repo, overRepo := counted.overRepo)
    ensures SettledAgainst(imp, exact, refs, counted) && counted.Stored() == step.Stored()
    ensures exact ==> IsMeasured(imp, refs, counted) && imp.PushFits(counted.cmds, refs)
  {
  }

  lemma NotedAnswer(imp: Importer, want: Source, exact: bool, refs: RefMap, refs': RefMap,
                    held: nat, held': nat, kept: int, kept': int, step: Step, note: Option<Note>)
    requires Answered(imp, want, exact, refs, refs', held, held', kept, kept', Stepped(step))
    ensures Answered(imp, want, exact, refs, refs', held, held', kept, kept', Stepped(step.(note := note)))
  {
    hide PushOk, Apply;
  }

  lemma AnsweredStep(imp: Importer, want: Source, exact: bool, refs: RefMap, held: nat, kept: int, step: Step)
    requires PushOk(imp.graph, want, refs, step.cmds) && SettledAgainst(imp, exact, refs, step)
    requires |step.cmds| <= MaxCommandsPerPush && (|step.cmds| > 1 ==> imp.recordHolds(step.cmds))
    requires step.repo == exact && (exact ==> held + step.Stored() <= imp.repoMaxBytes)
    requires step.overRepo <==> held + step.Stored() > imp.repoMaxBytes
    ensures Answered(imp, want, exact, refs, Apply(refs, step.cmds), held, held + step.Stored(),
                     kept, kept + (if exact then 1 else 0), Stepped(step))
  {
  }

  class ImportPlanner {
    const imp: Importer
    const remote: Remote
    const exact: bool
    ghost const want: Source
    var ratio: real
    var queue: seq<QueuedRef>
    var walk: Option<Walk>
    var suspended: seq<Walk>
    var note: Option<Note>
    var held: nat
    var lastWalk: nat
    var lastBatch: nat
    var recut: nat
    /** The steps' repositories this plan has built and not dropped. */
    ghost var kept: int
    /** The ranges settled, each by a pack built or in a dry run an estimate taken. */
    ghost var settles: nat

    ghost function State(): Plan
      reads this, remote
    {
      Plan(remote.refs, queue, suspended + if walk.Some? then [walk.value] else [])
    }

    ghost function Now(): Progress
      reads this, remote
    {
      Progress(State(), ratio, note, lastWalk, lastBatch, recut)
    }

    ghost predicate Valid()
      reads this, remote
    {
      && imp.Valid() && remote.Valid(imp.graph) && ratio >= 1.0
      && (walk.None? ==> suspended == [])
      && Inv(imp.graph, want, State())
    }

    constructor (imp: Importer, remote: Remote, exact: bool, ghost want: Source, queue: seq<QueuedRef>, live: nat)
      requires imp.Valid() && remote.Valid(imp.graph)
      requires Inv(imp.graph, want, Plan(remote.refs, queue, []))
      ensures Valid() && this.imp == imp && this.remote == remote && this.exact == exact && this.want == want
      ensures Now() == Progress(Plan(remote.refs, queue, []), 1.0, None, 0, 0, 0)
      ensures walk.None? && held == live && kept == 0 && settles == 0
    {
      this.imp, this.remote, this.exact, this.want, this.queue := imp, remote, exact, want, queue;
      ratio, walk, suspended, note, held := 1.0, None, [], None, live;
      lastWalk, lastBatch, recut, kept, settles := 0, 0, 0, 0, 0;
    }

    // ---- the measure of one call --------------------------------------------------

    ghost predicate Walking()
      reads this
    {
      walk.Some? && !walk.value.Done()
    }

    /** How many turns a call may take before it walks: a finished walk first ends, then the
        queue's head is walked at most once, since a head whose history the repository
        reaches is estimated at nothing and is never walked instead of batched. */
    ghost function Turns(): nat
      reads this, remote
    {
      if walk.Some? then (if Walking() then 0 else 3)
      else if queue == [] then 0
      else if queue[0].walk == (queue[0].src.oid in Have(imp.graph, remote.refs)) then 2 else 1
    }

    /** While it walks, the generation of the commit it is at: each bring-in goes below it. */
    ghost function Depth(): nat
      reads this
    {
      if Walking() then Generation(imp.graph, walk.value.list[walk.value.at]) else 0
    }

    lemma DepthIs()
      ensures Walking() ==> State().Top() == walk.value && Depth() == HeadDepth(imp.graph, State())
    {
    }

    /** The ranges one call may settle at most: as many as a batch has refs, and for a walk as
        many as there are commits, at each of the merges it goes below. */
    ghost function Most(): nat
      reads this, remote
    {
      if Walking() then Allowance(|imp.graph.parents.Keys|, Depth())
      else if walk.None? && queue != [] && queue[0].walk && queue[0].src.oid !in Have(imp.graph, remote.refs) then WalkMost()
      else MaxCommandsPerPush + WalkMost()
    }

    ghost function WalkMost(): nat {
      WalkSettles(imp.graph)
    }

    lemma WalkFits()
      requires Valid() && Walking()
      ensures |walk.value.list| <= |imp.graph.parents.Keys| && Depth() > 0
      ensures Most() == |imp.graph.parents.Keys| + BelowOf(imp.graph, walk.value)
    {
      assert State().Top() == walk.value && State().Top() in State().walks;
      assert WalkOk(imp.graph, want, remote.refs, walk.value);
      hide Inv;
      ChainFits(imp.graph, walk.value.list);
    }

    lemma MostGoesBelow(before: nat)
      requires Walking() && Depth() < before
      ensures Most() <= Allowance(|imp.graph.parents.Keys|, before - 1)
    {
      AllowanceRises(|imp.graph.parents.Keys|, Depth(), before - 1);
    }

    lemma MostIsBounded()
      ensures Most() <= MaxCommandsPerPush + WalkMost() && (Walking() ==> Most() <= WalkMost())
    {
      if Walking() {
        TopIs(imp.graph, walk.value.list[walk.value.at]);
        AllowanceRises(|imp.graph.parents.Keys|, Depth(), TopGeneration(imp.graph));
      }
    }

    function Target(): (t: real)
      requires ratio >= 1.0
      reads this
      ensures t >= 0.0
    {
      imp.budget as real / ratio
    }

    // ---- measuring ------------------------------------------------------------------

    /** A zero cut accepts the step; a positive one is the target for the next search. */
    method Settle(step: Step) returns (settled: Step, cut: real)
      requires imp.Valid() && ratio >= 1.0
      requires step == Planned(step.cmds, step.estimate, step.alone)
      requires step.estimate == imp.EstimateOf(step.cmds, remote.refs)
      modifies this`ratio, this`kept, this`settles
      ensures ratio >= 1.0 && cut >= 0.0 && (step.estimate == 0 ==> cut == 0.0) && settles == old(settles) + 1
      ensures !exact ==> settled == step.(size := step.estimate) && cut == 0.0 && kept == old(kept)
      // Measured as the copy its push sends, where its build may fit; its repository is kept where it does.
      ensures exact ==> var b := imp.build(step.cmds, remote.refs);
        && settled == step.(size := settled.size, objects := b.objects, past := b.past, exact := true, repo := cut == 0.0)
        && settled.size == (if !b.past && b.size <= imp.budget + 4 * b.objects then imp.sent(step.cmds, remote.refs) else b.size)
        && kept == old(kept) + if cut == 0.0 then 1 else 0
      // It may be pushed exactly where that copy, and what is stored of it, are within their limits.
      ensures exact ==> (cut == 0.0 <==> imp.PushFits(step.cmds, remote.refs))
      ensures exact && cut == 0.0 ==> settled.size == imp.sent(step.cmds, remote.refs) <= imp.budget && settled.Stored() <= imp.maxStored
      // What is past a limit is cut below its own estimate; what fits teaches the next steps' ratio.
      ensures cut != 0.0 ==> cut < step.estimate as real && imp.IsCut(step.cmds, remote.refs, cut)
      ensures ratio == if cut == 0.0 then Learned(imp, exact, old(ratio), settled.estimate, settled.size) else old(ratio)
    {
      settles := settles + 1;
      if !exact {
        return step.(size := step.estimate), 0.0;
      }
      settled := imp.Measured(step, remote.refs).(repo := true);
      kept := kept + 1;
      imp.MeasuredIs(step, remote.refs);
      if imp.Fits(settled) {
        if step.estimate >= RatioFloor(imp.budget) {
          ratio := Larger(1.0, settled.size as real / step.estimate as real);
          OverOne(settled.size, step.estimate);
        }
        return settled, 0.0;
      }
      settled := settled.(repo := false);
      kept := kept - 1;
      cut := imp.Cut(settled);
      Cutting(step, settled);
    }

    /** Past a limit, and so estimated at something. */
    lemma Cutting(step: Step, settled: Step)
      requires imp.Valid() && step.estimate == imp.EstimateOf(step.cmds, remote.refs)
      requires settled == imp.Measured(step, remote.refs) && !imp.Fits(settled)
      ensures 0.0 < imp.Cut(settled) < step.estimate as real && imp.IsCut(step.cmds, remote.refs, imp.Cut(settled))
    {
      imp.MeasuredIs(step, remote.refs);
      if step.estimate == 0 {
        imp.NothingNewFits(step.cmds, remote.refs);
      }
      imp.CutIsZero(settled);
      imp.CutShrinks(settled);
      imp.CutIs(step, remote.refs);
    }

    /** Charges a step to the repository's byte limit; past it the step is refused, or in a dry run
        flagged. */
    method Hold(step: Step) returns (ok: bool, counted: Step)
      modifies this`held, this`kept
      ensures ok <==> !exact || old(held) + step.Stored() <= imp.repoMaxBytes
      ensures ok ==> held == old(held) + step.Stored() && kept == old(kept) && counted == step.(overRepo := held > imp.repoMaxBytes)
      ensures !ok ==> exact && held == old(held) && kept == old(kept) - (if step.repo then 1 else 0)
      ensures !ok ==> counted == step.(repo := false)
    {
      if held + step.Stored() <= imp.repoMaxBytes || !exact {
        held := held + step.Stored();
        return true, step.(overRepo := held > imp.repoMaxBytes);
      }
      if step.repo {
        kept := kept - 1;
      }
      return false, step.(repo := false);
    }

    // ---- walks ------------------------------------------------------------------------

    /** Splits list in two at the answer: none before it descends from at, all from it on do. */
    method FirstDescendant(at: Oid, tip: Oid, list: seq<Oid>, negs: set<Oid>) returns (first: nat)
      requires list != [] && list == FirstParents(imp.graph, tip, Reach(imp.graph, negs))
      requires at in negs && IsAncestor(imp.graph, at, tip)
      ensures first < |list|
      ensures forall i :: 0 <= i < |list| ==> (IsAncestor(imp.graph, at, list[i]) <==> first <= i)
    {
      var g := imp.graph;
      FirstParentsShape(g, tip, Reach(g, negs));
      first := FirstInStream(list, AncestryPath(g, at, tip, negs));
      SuffixDescends(g, at, tip, list, negs, first);
    }

    /** A walk of ref through every unreached commit towards tip; none exactly when tip is reached. */
    method WalkTo(ref: Ref, tip: Oid) returns (w: Option<Walk>)
      requires remote.Valid(imp.graph) && tip in imp.graph.parents
      requires ref in remote.refs ==> IsAncestor(imp.graph, remote.refs[ref], tip)
      modifies remote`negs
      ensures remote.Valid(imp.graph)
      ensures w.None? <==> tip in Have(imp.graph, remote.refs)
      ensures w.Some? ==> w.value == Walk(ref, w.value.list, 0, None, 0)
      ensures w.Some? ==> IsWalkTo(imp.graph, remote.refs, ref, tip, w.value.list)
    {
      var negs := remote.NegativesNow(imp.graph);
      var list := FirstParents(imp.graph, tip, Reach(imp.graph, negs));
      FirstParentsShape(imp.graph, tip, Reach(imp.graph, negs));
      if list == [] {
        return None;
      }
      var from := 0;
      if ref in remote.refs {
        HistoryGeneration(imp.graph, remote.refs[ref], tip);
        from := FirstDescendant(remote.refs[ref], tip, list, negs);
      }
      SuffixIsWalk(imp.graph, remote.refs, ref, tip, list, from);
      w := Some(Walk(ref, list[from..], 0, None, 0));
    }

    // ---- merges -----------------------------------------------------------------------

    /** The queue index of the best branch able to carry parent, if any is. */
    method Carrier(parent: Oid, merge: Oid) returns (i: Option<nat>)
      ensures IsCarrier(imp.graph, remote.refs, queue, parent, merge, i)
    {
      var candidates := InPreference(imp.graph, queue, parent, merge);
      var k := FirstFound.LeastFind(Questions(imp.graph, remote.refs, queue, parent, candidates));
      FirstCarries(imp.graph, remote.refs, queue, parent, merge);
      return if k < |candidates| then Some(candidates[k]) else None;
    }

    /** A merge's unreached parents, in order. */
    method LackingParents(merge: Oid) returns (lacking: seq<Oid>)
      requires remote.Valid(imp.graph) && merge in imp.graph.parents
      modifies remote`negs
      ensures remote.Valid(imp.graph)
      ensures IsLacking(imp.graph, remote.refs, merge, lacking)
    {
      var parents := imp.graph.parents[merge];
      var have := remote.NegativesNow(imp.graph);
      lacking := [];
      for i := 0 to |parents|
        invariant lacking == LackingOf(parents[..i], Reach(imp.graph, have))
      {
        if parents[i] !in Reach(imp.graph, have) {
          lacking := lacking + [parents[i]];
        }
        assert parents[..i + 1][..i] == parents[..i];
      }
      assert parents[..|parents|] == parents;
    }

    /** The first of the lacking parents a queued branch can carry, and the branch. */
    method CarriedParent(lacking: seq<Oid>, merge: Oid) returns (found: Option<(Oid, nat)>)
      ensures found.Some? ==> IsFirstCarried(imp.graph, remote.refs, queue, lacking, merge, found.value.0, found.value.1)
      ensures found.None? ==> NoCarrier(imp.graph, remote.refs, queue, lacking)
    {
      for i := 0 to |lacking|
        invariant NoCarrier(imp.graph, remote.refs, queue, lacking[..i])
      {
        var at := Carrier(lacking[i], merge);
        if at.Some? {
          assert IsFirstCarriedAt(imp.graph, remote.refs, queue, lacking, merge, i, at.value);
          return Some((lacking[i], at.value));
        }
        assert lacking[..i + 1] == lacking[..i] + [lacking[i]];
      }
      assert lacking[..|lacking|] == lacking;
      return None;
    }

    /** The walk waits at its merge, and parent's history is walked on the queue's i-th branch. */
    method Suspend(parent: Oid, i: nat, merge: Oid)
      requires Valid() && Walking() && merge == walk.value.list[walk.value.at]
      requires merge in imp.graph.parents && parent in imp.graph.parents[merge] && parent !in Have(imp.graph, remote.refs)
      requires i < |queue| && CanCarry(imp.graph, remote.refs, queue[i], parent)
      modifies this`queue, this`suspended, this`walk, this`note, remote`negs
      ensures Valid() && Walking() && Depth() < old(Depth())
      ensures IsSuspended(imp.graph, remote.refs, old(State()), parent, i, State()) && note == Some(NoteOf(State()))
    {
      hide Inv, Importer.Valid, IsWalkTo, Negatives;
      ghost var before := State();
      assert before.Top() == walk.value && queue[i] in queue;
      var carrier := queue[i];
      ParentInHistory(imp.graph, parent, merge);
      var w := WalkTo(carrier.src.ref, parent);
      var below := w.value.(carrier := Some(carrier), slot := i);
      SuspendKeeps(imp.graph, want, before, i, parent, below);
      note := Some(Note(carrier.src.ref, parent, merge, walk.value.ref));
      queue := Remove(queue, i);
      suspended := suspended + [walk.value];
      walk := Some(below);
      assert State() == WithBringIn(before, i, below);
    }

    /** Suspends the walk for the first carriable unreached parent; failing one, changes nothing and
        hands back those parents. */
    method BringIn(merge: Oid) returns (stepped: bool, lacking: seq<Oid>)
      requires Valid() && Walking() && merge == walk.value.list[walk.value.at]
      modifies this`queue, this`suspended, this`walk, this`note, remote`negs
      ensures Valid() && Walking()
      ensures stepped ==> Depth() < old(Depth())
      ensures stepped ==> IsBroughtIn(imp.graph, old(State()), State()) && note == Some(NoteOf(State()))
      ensures IsLacking(imp.graph, remote.refs, merge, lacking)
      ensures !stepped ==> queue == old(queue) && walk == old(walk) && suspended == old(suspended) && note == old(note)
      ensures !stepped ==> NoCarrier(imp.graph, remote.refs, queue, lacking)
    {
      assert State().Top() == walk.value && State().Top() in State().walks;
      lacking := LackingParents(merge);
      var found := CarriedParent(lacking, merge);
      stepped := found.Some?;
      if stepped {
        Suspend(found.value.0, found.value.1, merge);
      }
    }

    // ---- steps ------------------------------------------------------------------------

    /** Why a refusal is right, where the plan stands. */
    ghost predicate Justified(why: Refusal)
      reads this, remote
    {
      match why
      case TooLarge(step, commit) =>
        && exact && |step.cmds| == 1 && IsMeasured(imp, remote.refs, step) && !imp.PushFits(step.cmds, remote.refs)
        && (if commit
            then IsLacking(imp.graph, remote.refs, step.cmds[0].oid, [])
            else step.cmds[0].ref in want && !want[step.cmds[0].ref].IsBranch())
      case MergeTooLarge(step, lacking) =>
        && exact && |step.cmds| == 1 && IsMeasured(imp, remote.refs, step) && !imp.PushFits(step.cmds, remote.refs)
        && lacking != [] && IsLacking(imp.graph, remote.refs, step.cmds[0].oid, lacking)
        && NoCarrier(imp.graph, remote.refs, queue, lacking)
      case RepoFull(step, before) =>
        exact && IsMeasured(imp, remote.refs, step) && imp.PushFits(step.cmds, remote.refs)
        && before == held && held + step.Stored() > imp.repoMaxBytes
      case RecordFull(first) =>
        queue != [] && first == queue[0].src.ref && !imp.recordHolds(Commands(queue[..1]))
    }

    /** The walk's step to end, settled as one to push: counted against the repository's limit,
        and recorded in the plan as if it had landed. */
    method PlanWalkTo(end: nat, settled: Step, shorter: bool) returns (a: Answer)
      requires Valid() && Walking() && walk.value.at <= end < |walk.value.list|
      requires settled.cmds == [Cmd(walk.value.list[end], walk.value.ref)] && Settled(settled)
      modifies this`held, this`kept, this`recut, this`lastWalk, this`walk, remote
      ensures Answered(imp, want, exact, old(remote.refs), remote.refs, old(held), held, old(kept) - Kept(settled), kept, a)
      ensures a.Refused? ==> Justified(a.why)
      ensures a.Stepped? ==> Valid()
      ensures a.Stepped? ==> a.step == settled.(overRepo := a.step.overRepo) && State() == WithWalkAt(old(State()), end)
      ensures a.Stepped? ==> lastWalk == end - old(walk).value.at + 1 && recut == old(recut) + One(shorter)
      ensures a.Refused? ==> a.why == RepoFull(settled.(repo := false), held)
      ensures a.Refused? ==> walk == old(walk) && remote.refs == old(remote.refs) && lastWalk == old(lastWalk) && recut == old(recut)
      ensures !a.Finished?
    {
      hide Inv, Answered, Importer.Valid, Remote.Valid, Have, Negatives, PushOk, Importer.PushFits,
           Importer.EstimateOf, IsMeasured, SettledAgainst, Apply;
      var w := walk.value;
      ghost var before := State();
      assert before.Top() == w;
      var ok, step := Hold(settled);
      SettledStays(imp, exact, remote.refs, settled, step);
      if !ok {
        a := Refused(RepoFull(step, held));
        NothingPlanned(imp, want, exact, remote.refs, held, kept, a);
        return;
      }
      TakeWalkTo(end, shorter);
      AnsweredStep(imp, want, exact, before.refs, old(held), old(kept) - Kept(settled), step);
      return Stepped(step);
    }

    /** The walk's step to end, in the plan as if it had landed. */
    method TakeWalkTo(end: nat, shorter: bool)
      requires Valid() && Walking() && walk.value.at <= end < |walk.value.list|
      modifies this`recut, this`lastWalk, this`walk, remote
      ensures Valid() && State() == WithWalkAt(old(State()), end)
      ensures var cmds := [Cmd(old(walk).value.list[end], old(walk).value.ref)];
        PushOk(imp.graph, want, old(remote.refs), cmds) && remote.refs == Apply(old(remote.refs), cmds)
      ensures lastWalk == end - old(walk).value.at + 1 && recut == old(recut) + One(shorter)
    {
      hide Inv, Importer.Valid, Remote.Valid, Have, Negatives, PushOk, Apply;
      var w := walk.value;
      ghost var before := State();
      assert before.Top() == w;
      if shorter {
        recut := recut + 1;
      }
      lastWalk := end - w.at + 1;
      WalkStepKeeps(imp.graph, want, before, end);
      walk := Some(w.(at := end + 1));
      remote.Set(imp.graph, w.ref, w.list[end]);
      assert State() == WithWalkAt(before, end);
    }

    /** A step Settle answered as one to push. */
    ghost predicate Settled(step: Step)
      reads this, remote
    {
      SettledAgainst(imp, exact, remote.refs, step) && step.repo == exact
    }

    lemma SettledFits(step: Step)
      requires Settled(step)
      ensures exact ==> imp.PushFits(step.cmds, remote.refs)
    {
    }

    ghost function Kept(step: Step): int {
      if step.repo then 1 else 0
    }

    /** Brings in and plans on, or answers nothing but the merge's unreached parents. */
    method StepMergeFirst(ghost first: nat) returns (a: Option<Answer>, lacking: seq<Oid>)
      requires Valid() && Walking()
      requires IsWalkTry(imp, State(), ratio, first, walk.value.at)
      requires IsPastAlone(imp, exact, RangeAt(State(), walk.value.at), remote.refs)
      modifies this, remote
      ensures a.Some? ==> Answered(imp, want, exact, old(remote.refs), remote.refs, old(held), held, old(kept), kept, a.value)
      ensures a.Some? && a.value.Refused? ==> Justified(a.value.why)
      ensures a.Some? && !a.value.Refused? ==> Valid()
      ensures a.Some? ==> IsTaken(imp, exact, old(Now()), a.value, Now())
      ensures a.None? ==> Valid() && Now() == old(Now()) && walk == old(walk) && queue == old(queue) && suspended == old(suspended)
      ensures a.None? ==> remote.refs == old(remote.refs) && held == old(held) && kept == old(kept)
      ensures a.None? ==> IsLacking(imp.graph, remote.refs, old(walk.value.list[walk.value.at]), lacking)
      ensures a.None? ==> NoCarrier(imp.graph, remote.refs, queue, lacking)
      ensures settles <= old(settles) + BelowOf(imp.graph, old(walk).value) && (a.None? ==> settles == old(settles))
      decreases Turns(), Depth(), 0
    {
      hide Inv, Answered, IsBroughtIn, NoCarrier, IsLacking, Have, Justified, IsTaken, IsWalkTry, IsPastAlone;
      var stepped;
      ghost var before := Now();
      DepthIs();
      stepped, lacking := BringIn(walk.value.list[walk.value.at]);
      a := None;
      if stepped {
        MostGoesBelow(old(Depth()));
        hide Most;
        ghost var below := Now();
        DepthIs();
        var next := Take();
        BroughtInTaken(imp, exact, before, first, below, next, Now());
        a := Some(next);
      }
    }

    /** One commit past a limit: what it brings in is stepped first, or it is refused. */
    method MergeFirstOrRefuse(step: Step, ghost first: nat) returns (a: Answer)
      requires Valid() && Walking() && exact
      requires step.cmds == [Cmd(walk.value.list[walk.value.at], walk.value.ref)]
      requires IsMeasured(imp, remote.refs, step) && !imp.PushFits(step.cmds, remote.refs)
      requires IsWalkTry(imp, State(), ratio, first, walk.value.at)
      modifies this, remote
      ensures Answered(imp, want, exact, old(remote.refs), remote.refs, old(held), held, old(kept), kept, a)
      ensures a.Refused? ==> Justified(a.why)
      ensures !a.Refused? ==> Valid()
      ensures IsTaken(imp, exact, old(Now()), a, Now())
      ensures settles <= old(settles) + BelowOf(imp.graph, old(walk).value)
      decreases Turns(), Depth(), 1
    {
      hide Inv, Answered, Importer.Valid, Have, NoCarrier, IsTaken, IsWalkTry;
      ghost var before := Now();
      var first_, lacking := StepMergeFirst(first);
      if first_.Some? {
        return first_.value;
      }
      a := Refused(if lacking != [] then MergeTooLarge(step, lacking) else TooLarge(step, true));
      NothingPlanned(imp, want, exact, remote.refs, held, kept, a);
      LackingUncarried(imp.graph, before.plan, walk.value.list[walk.value.at], lacking);
      WalkPlanned(imp, exact, before, first, walk.value.at, a, Now());
    }

    /** A range's step, estimated and settled. */
    method SettleRange(cmds: seq<Cmd>, negs: set<Oid>, alone: bool) returns (step: Step, cut: real)
      requires imp.Valid() && ratio >= 1.0 && negs == Negatives(imp.graph, remote.refs)
      modifies this`ratio, this`kept, this`settles
      ensures ratio >= 1.0 && cut >= 0.0 && step.cmds == cmds && step.alone == alone && settles == old(settles) + 1
      ensures cut == 0.0 ==> Settled(step) && kept == old(kept) + Kept(step) && ratio == Learned(imp, exact, old(ratio), step.estimate, step.size)
      ensures cut == 0.0 ==> step.note.None? && (!exact ==> step.size == imp.EstimateOf(cmds, remote.refs))
      ensures cut != 0.0 ==> exact && kept == old(kept) && ratio == old(ratio) && IsMeasured(imp, remote.refs, step)
      ensures cut != 0.0 ==> !imp.PushFits(cmds, remote.refs) && imp.IsCut(cmds, remote.refs, cut) && imp.EstimateOf(cmds, remote.refs) != 0
    {
      hide Importer.Valid, Negatives, Importer.PushFits, Importer.IsCut;
      var est := imp.estimate(News(cmds), negs);
      step, cut := Settle(Planned(cmds, est, alone));
    }

    /** Aims with one search under the target, then cuts back as far as measurements force it; a
        lone commit past a limit is replaced by a step below it. */
    method WalkStep() returns (a: Answer)
      requires Valid() && Walking()
      modifies this, remote
      ensures Answered(imp, want, exact, old(remote.refs), remote.refs, old(held), held, old(kept), kept, a)
      ensures a.Refused? ==> Justified(a.why)
      ensures !a.Refused? ==> Valid()
      ensures IsTaken(imp, exact, old(Now()), a, Now())
      ensures settles <= old(settles) + old(Most())
      decreases Turns(), Depth(), 4
    {
      hide Inv, Answered, Importer.Valid, Have, Justified, Negatives, IsTaken, IsWalkTry, Most, BelowOf;
      WalkFits();
      var w := walk.value;
      var negs := remote.NegativesNow(imp.graph);
      var end, _ := Search.Furthest(w.at, |w.list| - 1, w.at + AtLeast(lastWalk, 1) - 1,
                                    UnderAlong(imp, w, negs, Target()));
      WalkAimed(imp, State(), ratio, end);
      a := CutWalk(AtLeast(end, w.at), negs);
    }

    /** One try at a step of the walk to end: an answer, or where a longer range than one commit
        is past a limit the target of a shorter one. */
    method TryWalkTo(end: nat, negs: set<Oid>, shorter: bool, ghost first: nat) returns (a: Option<Answer>, cut: real)
      requires Valid() && Walking() && walk.value.at <= end < |walk.value.list| && negs == Negatives(imp.graph, remote.refs)
      requires IsWalkTry(imp, State(), ratio, first, end) && shorter == (end < first)
      modifies this, remote
      ensures a.Some? ==> Answered(imp, want, exact, old(remote.refs), remote.refs, old(held), held, old(kept), kept, a.value)
      ensures a.Some? && a.value.Refused? ==> Justified(a.value.why)
      ensures a.Some? && !a.value.Refused? ==> Valid()
      ensures a.Some? ==> IsTaken(imp, exact, old(Now()), a.value, Now())
      ensures a.Some? ==> settles <= old(settles) + 1 + BelowOf(imp.graph, old(walk).value)
      ensures a.None? ==> Valid() && Now() == old(Now()) && walk == old(walk) && queue == old(queue) && suspended == old(suspended)
      ensures a.None? ==> remote.refs == old(remote.refs) && held == old(held) && kept == old(kept) && settles == old(settles) + 1
      ensures a.None? ==> end > walk.value.at && !imp.PushFits(RangeAt(State(), end), remote.refs)
      ensures a.None? ==> imp.IsCut(RangeAt(State(), end), remote.refs, cut)
      decreases Turns(), Depth(), 2
    {
      hide Inv, Answered, Importer.Valid, Have, Justified, Negatives, Importer.PushFits, Importer.IsCut,
           SettledAgainst, IsMeasured, IsTaken, IsWalkTry, Remote.Valid, Kept, Settled, Learned;
      ghost var before := Now();
      var step;
      step, cut := SettleRange(WalkCmds(walk.value, end), negs, end == walk.value.at);
      if cut == 0.0 {
        var planned := PlanSettled(end, step, shorter, first, before);
        return Some(planned), cut;
      }
      a := None;
      if step.alone {
        var merged := MergeFirstOrRefuse(step, first);
        a := Some(merged);
      }
    }

    /** A settled step of the walk to end: planned, unless in a dry run it is of one commit past the
        limit and history it brings in can be stepped first. */
    method PlanSettled(end: nat, step: Step, shorter: bool, ghost first: nat, ghost before: Progress) returns (a: Answer)
      requires Valid() && Walking() && walk.value.at <= end < |walk.value.list| && Settled(step)
      requires step.cmds == WalkCmds(walk.value, end) && step.alone == (end == walk.value.at) && step.note.None?
      requires !exact ==> step.size == imp.EstimateOf(step.cmds, remote.refs)
      requires Now() == before.(ratio := Learned(imp, exact, before.ratio, step.estimate, step.size))
      requires IsWalkTry(imp, before.plan, before.ratio, first, end) && shorter == (end < first)
      modifies this, remote
      ensures Answered(imp, want, exact, old(remote.refs), remote.refs, old(held), held, old(kept) - Kept(step), kept, a)
      ensures a.Refused? ==> Justified(a.why)
      ensures !a.Refused? ==> Valid()
      ensures IsTaken(imp, exact, before, a, Now())
      ensures settles <= old(settles) + BelowOf(imp.graph, old(walk).value)
      decreases Turns(), Depth(), 1
    {
      hide Inv, Answered, Importer.Valid, Have, Justified, IsLacking, NoCarrier, Negatives,
           Importer.PushFits, SettledAgainst, IsMeasured, IsTaken, IsWalkTry, Remote.Valid;
      if !exact && step.alone && step.size > imp.budget {
        var first_, lacking := StepMergeFirst(first);
        if first_.Some? {
          return first_.value;
        }
        LackingUncarried(imp.graph, before.plan, walk.value.list[walk.value.at], lacking);
      }
      SettledFits(step);
      a := PlanHere(end, step, shorter, first, before);
    }

    /** A settled step of the walk to end, where the plan comes to it. */
    method PlanHere(end: nat, step: Step, shorter: bool, ghost first: nat, ghost before: Progress) returns (a: Answer)
      requires Valid() && Walking() && walk.value.at <= end < |walk.value.list| && Settled(step)
      requires step.cmds == WalkCmds(walk.value, end) && step.note.None?
      requires Now() == before.(ratio := Learned(imp, exact, before.ratio, step.estimate, step.size))
      requires StepsHere(imp, exact, before.plan, before.ratio, first, end) && shorter == (end < first)
      modifies this`held, this`kept, this`recut, this`lastWalk, this`walk, remote
      ensures Answered(imp, want, exact, old(remote.refs), remote.refs, old(held), held, old(kept) - Kept(step), kept, a)
      ensures a.Refused? ==> Justified(a.why)
      ensures !a.Refused? ==> Valid()
      ensures IsTaken(imp, exact, before, a, Now())
    {
      hide Inv, Answered, Importer.Valid, Have, Justified, Negatives, Importer.PushFits, SettledAgainst, IsMeasured,
           IsTaken, StepsHere, Learned, Remote.Valid;
      a := PlanWalkTo(end, step, shorter);
      WalkPlanned(imp, exact, before, first, end, a, Now());
    }

    /** A step of the walk to furthest, cut shorter until it settles. */
    method CutWalk(furthest: nat, negs: set<Oid>) returns (a: Answer)
      requires Valid() && Walking() && walk.value.at <= furthest < |walk.value.list|
      requires negs == Negatives(imp.graph, remote.refs) && IsWalkTry(imp, State(), ratio, furthest, furthest)
      modifies this, remote
      ensures Answered(imp, want, exact, old(remote.refs), remote.refs, old(held), held, old(kept), kept, a)
      ensures a.Refused? ==> Justified(a.why)
      ensures !a.Refused? ==> Valid()
      ensures IsTaken(imp, exact, old(Now()), a, Now())
      ensures settles <= old(settles) + (furthest - old(walk).value.at + 1) + BelowOf(imp.graph, old(walk).value)
      decreases Turns(), Depth(), 3
    {
      hide Inv, Answered, Importer.Valid, Have, Justified, Negatives, Importer.PushFits, Importer.IsCut,
           IsTaken, IsWalkTry;
      var w := walk.value;
      var end := furthest;
      var shorter := false;
      while true
        invariant Valid() && Now() == old(Now()) && walk == Some(w) && queue == old(queue) && suspended == old(suspended)
        invariant remote.refs == old(remote.refs) && held == old(held) && kept == old(kept)
        invariant w.at <= end <= furthest && settles <= old(settles) + (furthest - end)
        invariant shorter == (end < furthest) && IsWalkTry(imp, State(), ratio, furthest, end)
        decreases end
      {
        var tried, cut := TryWalkTo(end, negs, shorter, furthest);
        if tried.Some? {
          a := tried.value;
          return;
        }
        shorter := true;
        var next, _ := Search.Furthest(w.at, end - 1, w.at + (end - w.at) / 2, UnderAlong(imp, w, negs, cut));
        WalkRecut(imp, State(), ratio, furthest, end, cut, next);
        end := AtLeast(next, w.at);
      }
    }

    /** Replaces the state by Plans.WalkEnded of it. */
    method EndWalk()
      requires Valid() && walk.Some? && walk.value.Done()
      modifies this`queue, this`walk, this`suspended
      ensures Valid() && Turns() < old(Turns()) && Most() <= old(Most())
      ensures State() == WalkEnded(old(State())) && (walk.Some? ==> !walk.value.Done())
    {
      hide Inv, Importer.Valid, Remote.Valid, Have, Generation, WalkOk, AtValue, QueueRefs, WalkRefs, Insert;
      ghost var before := State();
      var w := walk.value;
      assert before.Top() == w && w in before.walks;
      WalkEndedKeeps(imp.graph, want, before);
      if w.carrier.Some? && !AtValue(remote.refs, w.carrier.value.src) {
        queue := Insert(queue, if w.slot < |queue| then w.slot else |queue|, w.carrier.value);
      }
      walk := None;
      PopSuspended();
      assert State() == WalkEnded(before);
      MostIsBounded();
    }

    method PopSuspended()
      requires walk.None?
      modifies this`walk, this`suspended
      ensures old(suspended) == suspended + if walk.Some? then [walk.value] else []
      ensures walk.None? ==> suspended == []
    {
      var n := |suspended|;
      if n > 0 {
        walk, suspended := Some(suspended[n - 1]), suspended[..n - 1];
      }
    }

    /** The queue's head is walked; where the repository will hold all of it, its ref moves
        alone, in a batch. */
    method StartWalk()
      requires Valid() && walk.None? && queue != [] && queue[0].walk
      modifies this`queue, this`walk, remote`negs
      ensures Valid() && Turns() < old(Turns()) && Most() <= old(Most())
      ensures var head := old(queue)[0].src;
        if head.oid in Have(imp.graph, remote.refs)
        then walk.None? && queue == [QueuedRef(head, false)] + old(queue)[1..]
        else walk.Some? && walk.value == Walk(head.ref, walk.value.list, 0, None, 0) && queue == old(queue)[1..]
             && IsWalkTo(imp.graph, remote.refs, head.ref, head.oid, walk.value.list)
      ensures Starts(imp.graph, old(State()), State()) && (walk.Some? ==> !walk.value.Done())
    {
      hide Inv, Importer.Valid, Negatives, IsWalkTo;
      ghost var before := State();
      var head := queue[0];
      HeadOk(imp.graph, want, before);
      queue := queue[1..];
      var w := WalkTo(head.src.ref, head.src.oid);
      walk := w;
      if w.None? {
        MarkKeeps(imp.graph, want, before, false);
        queue := [QueuedRef(head.src, false)] + queue;
        assert State() == before.(queue := queue);
      } else {
        HeadWalkKeeps(imp.graph, want, before, w.value);
        assert State() == WithWalk(before, w.value);
      }
      MostIsBounded();
    }

    /** The length of the longest prefix the record rule admits, 0 if not even one. */
    method RecordHolds(refs: seq<QueuedRef>) returns (n: nat)
      requires refs != []
      ensures n <= |refs| && (n > 0 ==> imp.recordHolds(Commands(refs[..n])))
      ensures n < |refs| ==> !imp.recordHolds(Commands(refs[..n + 1]))
    {
      var most, _ := Search.Furthest(1, |refs|, |refs|, RecordFits(imp, refs));
      n := most;
    }

    /** The batch of the queue's first n refs, settled as one to push. */
    method PlanBatch(n: nat, settled: Step, shorter: bool) returns (a: Answer)
      requires Valid() && walk.None? && 0 < n <= |queue| && n <= MaxCommandsPerPush
      requires settled.cmds == Commands(queue[..n]) && Settled(settled) && imp.recordHolds(settled.cmds)
      modifies this`held, this`kept, this`recut, this`lastBatch, this`queue, remote
      ensures Answered(imp, want, exact, old(remote.refs), remote.refs, old(held), held, old(kept) - Kept(settled), kept, a)
      ensures a.Refused? ==> Justified(a.why)
      ensures a.Stepped? ==> Valid()
      ensures a.Stepped? ==> a.step == settled.(overRepo := a.step.overRepo) && State() == WithBatch(old(State()), n)
      ensures a.Stepped? ==> lastBatch == n && recut == old(recut) + One(shorter)
      ensures a.Refused? ==> a.why == RepoFull(settled.(repo := false), held)
      ensures a.Refused? ==> queue == old(queue) && remote.refs == old(remote.refs) && lastBatch == old(lastBatch) && recut == old(recut)
      ensures !a.Finished?
    {
      hide Inv, Answered, Importer.Valid, Remote.Valid, Have, Negatives, PushOk, Importer.PushFits,
           Importer.EstimateOf, IsMeasured, SettledAgainst, Commands, Apply;
      ghost var before := State();
      var ok, step := Hold(settled);
      SettledStays(imp, exact, remote.refs, settled, step);
      if !ok {
        a := Refused(RepoFull(step, held));
        NothingPlanned(imp, want, exact, remote.refs, held, kept, a);
        return;
      }
      TakeBatch(n, shorter);
      AnsweredStep(imp, want, exact, before.refs, old(held), old(kept) - Kept(settled), step);
      return Stepped(step);
    }

    /** The batch of the queue's first n refs, in the plan as if it had landed. */
    method TakeBatch(n: nat, shorter: bool)
      requires Valid() && walk.None? && 0 < n <= |queue|
      modifies this`recut, this`lastBatch, this`queue, remote
      ensures Valid() && State() == WithBatch(old(State()), n)
      ensures PushOk(imp.graph, want, old(remote.refs), Commands(old(queue)[..n]))
      ensures remote.refs == Apply(old(remote.refs), Commands(old(queue)[..n]))
      ensures lastBatch == n && recut == old(recut) + One(shorter)
    {
      hide Inv, Importer.Valid, Remote.Valid, Have, Negatives, PushOk, Commands, Apply;
      ghost var before := State();
      if shorter {
        recut := recut + 1;
      }
      lastBatch := n;
      BatchStepKeeps(imp.graph, want, before, n);
      SetAll(Commands(queue[..n]));
      queue := queue[n..];
      assert State() == WithBatch(before, n);
    }

    /** Aims for a prefix of the queue under count, record and target, and cuts it back; a first
        branch too large alone is walked. */
    method BatchStep() returns (a: Answer)
      requires Valid() && walk.None? && queue != [] && !queue[0].walk
      modifies this, remote
      ensures Answered(imp, want, exact, old(remote.refs), remote.refs, old(held), held, old(kept), kept, a)
      ensures a.Refused? ==> Justified(a.why)
      ensures !a.Refused? ==> Valid()
      ensures IsTaken(imp, exact, old(Now()), a, Now())
      ensures settles <= old(settles) + old(Most())
      decreases Turns(), Depth(), 3
    {
      hide Inv, Answered, Importer.Valid, IsTaken, IsBatchTry, IsMost, HeadIsPast;
      var candidates := queue[..if |queue| < MaxCommandsPerPush then |queue| else MaxCommandsPerPush];
      var fit := RecordHolds(candidates);
      if fit == 0 {
        assert candidates[..1] == queue[..1];
        a := Refused(RecordFull(queue[0].src.ref));
        NothingPlanned(imp, want, exact, remote.refs, held, kept, a);
        RecordRefused(imp, exact, Now(), a);
        return;
      }
      MostTaken(imp, queue, candidates, fit);
      candidates := candidates[..fit];
      var negs := remote.NegativesNow(imp.graph);
      var n, _ := Search.Furthest(1, fit, AtLeast(lastBatch, 1), UnderFirst(imp, candidates, negs, Target()));
      BatchAimed(imp, exact, State(), ratio, fit, n);
      if n < 1 && candidates[0].src.IsBranch() {
        a := WalkInstead();
      } else {
        a := CutBatch(fit, AtLeast(n, 1), negs);
      }
    }

    /** A batch of the queue's first refs, cut shorter until it settles. */
    method CutBatch(fit: nat, longest: nat, negs: set<Oid>) returns (a: Answer)
      requires Valid() && walk.None? && 1 <= longest <= fit <= |queue| && !queue[0].walk
      requires fit <= MaxCommandsPerPush && imp.recordHolds(Commands(queue[..fit]))
      requires negs == Negatives(imp.graph, remote.refs) && IsBatchTry(imp, State(), ratio, longest, longest)
      modifies this, remote
      ensures Answered(imp, want, exact, old(remote.refs), remote.refs, old(held), held, old(kept), kept, a)
      ensures a.Refused? ==> Justified(a.why)
      ensures !a.Refused? ==> Valid()
      ensures IsTaken(imp, exact, old(Now()), a, Now())
      ensures settles <= old(settles) + longest + WalkMost()
      decreases Turns(), Depth(), 2
    {
      hide Inv, Answered, Importer.Valid, Importer.PushFits, Importer.IsCut, Commands, Negatives, IsTaken,
           IsBatchTry, Justified;
      var shorter := false;
      var n := longest;
      while true
        invariant Valid() && Now() == old(Now()) && walk.None? && queue == old(queue)
        invariant remote.refs == old(remote.refs) && held == old(held) && kept == old(kept)
        invariant 1 <= n <= longest && shorter == (n < longest) && IsBatchTry(imp, State(), ratio, longest, n)
        invariant settles <= old(settles) + (longest - n)
        decreases n
      {
        ShorterHolds(imp, queue, n, fit);
        var tried, cut := TryBatch(n, negs, shorter, longest);
        if tried.Some? {
          a := tried.value;
          return;
        }
        shorter := true;
        var next, _ := Search.Furthest(1, n - 1, n / 2, UnderFirst(imp, queue, negs, cut));
        BatchRecut(imp, State(), ratio, longest, n, cut, next);
        n := AtLeast(next, 1);
      }
    }

    /** A settled batch of the queue's first n refs, where the plan comes to it. */
    method PlanBatchHere(n: nat, step: Step, shorter: bool, ghost longest: nat, ghost before: Progress) returns (a: Answer)
      requires Valid() && walk.None? && 0 < n <= |queue| && n <= MaxCommandsPerPush && !queue[0].walk
      requires step.cmds == Commands(queue[..n]) && Settled(step) && imp.recordHolds(step.cmds) && step.note.None?
      requires Now() == before.(ratio := Learned(imp, exact, before.ratio, step.estimate, step.size))
      requires IsBatchTry(imp, before.plan, before.ratio, longest, n) && shorter == (n < longest)
      modifies this`held, this`kept, this`recut, this`lastBatch, this`queue, remote
      ensures Answered(imp, want, exact, old(remote.refs), remote.refs, old(held), held, old(kept) - Kept(step), kept, a)
      ensures a.Refused? ==> Justified(a.why)
      ensures !a.Refused? ==> Valid()
      ensures IsTaken(imp, exact, before, a, Now())
    {
      hide Inv, Answered, Importer.Valid, Have, Justified, Negatives, Importer.PushFits, SettledAgainst, IsMeasured,
           IsTaken, IsBatchTry, Learned, Remote.Valid, Commands;
      a := PlanBatch(n, step, shorter);
      BatchPlanned(imp, exact, before, longest, n, a, Now());
    }

    /** One try at a batch of the queue's first n refs: an answer, or where more than one are past a
        limit the target of a shorter one. */
    method TryBatch(n: nat, negs: set<Oid>, shorter: bool, ghost longest: nat) returns (a: Option<Answer>, cut: real)
      requires Valid() && walk.None? && 1 <= n <= |queue| && n <= MaxCommandsPerPush && !queue[0].walk
      requires imp.recordHolds(Commands(queue[..n])) && negs == Negatives(imp.graph, remote.refs)
      requires IsBatchTry(imp, State(), ratio, longest, n) && shorter == (n < longest)
      modifies this, remote
      ensures a.Some? ==> Answered(imp, want, exact, old(remote.refs), remote.refs, old(held), held, old(kept), kept, a.value)
      ensures a.Some? && a.value.Refused? ==> Justified(a.value.why)
      ensures a.Some? && !a.value.Refused? ==> Valid()
      ensures a.Some? ==> IsTaken(imp, exact, old(Now()), a.value, Now())
      ensures settles <= old(settles) + 1 + if a.Some? then WalkMost() else 0
      ensures a.None? ==> Valid() && Now() == old(Now()) && walk.None? && queue == old(queue)
      ensures a.None? ==> remote.refs == old(remote.refs) && held == old(held) && kept == old(kept)
      ensures a.None? ==> n > 1 && !imp.PushFits(RangeAt(State(), n), remote.refs) && imp.IsCut(RangeAt(State(), n), remote.refs, cut)
      decreases Turns(), Depth(), 1
    {
      hide Inv, Answered, Importer.Valid, Importer.PushFits, Importer.IsCut, Commands, SettledAgainst,
           IsMeasured, Negatives, IsTaken, IsBatchTry, HeadIsPast, Learned, Remote.Valid,
           Importer.EstimateOf, Apply;
      ghost var before := Now();
      var head := queue[0];
      HeadOk(imp.graph, want, State());
      var step;
      step, cut := SettleRange(Commands(queue[..n]), negs, n == 1 && !head.src.IsBranch());
      if cut == 0.0 {
        var planned := PlanBatchHere(n, step, shorter, longest, before);
        return Some(planned), cut;
      }
      if n > 1 {
        return None, cut;
      }
      if head.src.IsBranch() {
        HeadMeasuredPast(imp, State(), ratio, longest);
        var walked := WalkInstead();
        return Some(walked), cut;
      }
      var refused := Refused(TooLarge(step, false));
      NothingPlanned(imp, want, exact, remote.refs, held, kept, refused);
      BatchPlanned(imp, exact, before, longest, n, refused, Now());
      a := Some(refused);
    }

    /** Records every command of a batch. */
    method SetAll(cmds: seq<Cmd>)
      requires remote.Valid(imp.graph) && forall c :: c in cmds ==> c.oid in imp.graph.parents
      modifies remote
      ensures remote.Valid(imp.graph) && remote.refs == Apply(old(remote.refs), cmds)
    {
      for i := 0 to |cmds|
        invariant remote.Valid(imp.graph)
        invariant Apply(remote.refs, cmds[i..]) == Apply(old(remote.refs), cmds)
      {
        remote.Set(imp.graph, cmds[i].ref, cmds[i].oid);
      }
    }

    /** Marks the head for a walk and plans again; it ends because the head has unreached commits. */
    method WalkInstead() returns (a: Answer)
      requires Valid() && walk.None? && queue != [] && !queue[0].walk && queue[0].src.IsBranch()
      requires imp.EstimateOf(Commands(queue[..1]), remote.refs) != 0 && HeadIsPast(imp, exact, State(), ratio)
      modifies this, remote
      ensures Answered(imp, want, exact, old(remote.refs), remote.refs, old(held), held, old(kept), kept, a)
      ensures a.Refused? ==> Justified(a.why)
      ensures !a.Refused? ==> Valid()
      ensures IsTaken(imp, exact, old(Now()), a, Now())
      ensures settles <= old(settles) + WalkMost()
      decreases Turns(), Depth(), 0
    {
      hide Inv, Answered, IsTaken, HeadIsPast;
      ghost var before := Now();
      assert Commands(queue[..1]) == [Cmd(queue[0].src.oid, queue[0].src.ref)];
      assert queue[0].src.oid !in Have(imp.graph, remote.refs);
      MarkKeeps(imp.graph, want, State(), true);
      queue := [queue[0].(walk := true)] + queue[1..];
      ghost var marked := Now();
      a := Take();
      MarkedTaken(imp, exact, before, marked, a, Now());
    }

    /** Take, with a pending note attached; Finished means Complete. */
    method Next() returns (a: Answer)
      requires Valid()
      modifies this, remote
      ensures Answered(imp, want, exact, old(remote.refs), remote.refs, old(held), held, old(kept), kept, a)
      ensures a.Refused? ==> Justified(a.why)
      ensures !a.Refused? ==> Valid()
      ensures a.Finished? ==> Complete(want, remote.refs)
      // The step is the one the plan comes to, and carries what was to be said of it; and what is left of
      // the queue keeps its order.
      ensures if a.Stepped? then note.None? && IsTaken(imp, exact, old(Now()), a, Now().(note := a.step.note))
              else IsTaken(imp, exact, old(Now()), a, Now())
      ensures a.Stepped? ==> InOrderOf(queue, Popped(old(State())).queue)
      ensures settles <= old(settles) + SettlesAtMost(imp.graph)
    {
      hide Inv, Answered, Have, Most, IsTaken, InOrderOf, Popped, WalkEnded, Remote.Valid, Importer.Valid, Justified;
      MostIsBounded();
      a := Take();
      if a.Stepped? {
        NotedTaken(imp, exact, old(Now()), a.step, Now());
      }
      if a.Stepped? && note.Some? {
        NotedAnswer(imp, want, exact, old(remote.refs), remote.refs, old(held), held, old(kept), kept, a.step, note);
        a := Stepped(a.step.(note := note));
        note := None;
      }
      if a.Finished? {
        NothingLeftIsComplete(imp.graph, want, State());
      }
    }

    lemma Went(before: Progress, now: Plan, a: Answer)
      requires Leads(imp.graph, before.plan, now) && IsTaken(imp, exact, before.(plan := now), a, Now())
      requires now.walks != [] ==> !now.Top().Done()
      ensures IsTaken(imp, exact, before, a, Now())
      ensures a.Finished? ==> queue == [] && walk.None?
    {
      hide Leads, Chose;
      LeadsOn(imp, exact, before, now, a, Now());
      assert a.Finished? ==> |State().walks| == 0;
    }

    /** The next step: of the walk under way, or of the walk it interrupted once it has ended,
        or of the queue. */
    method Take() returns (a: Answer)
      requires Valid()
      modifies this, remote
      ensures Answered(imp, want, exact, old(remote.refs), remote.refs, old(held), held, old(kept), kept, a)
      ensures a.Refused? ==> Justified(a.why)
      ensures !a.Refused? ==> Valid()
      ensures a.Finished? ==> queue == [] && walk.None?
      ensures IsTaken(imp, exact, old(Now()), a, Now())
      ensures settles <= old(settles) + old(Most())
      decreases Turns(), Depth(), 5
    {
      hide Inv, Answered, Importer.Valid, Most, IsTaken, Leads, Starts, Turns, Depth, WalkEnded, IsWalkTo,
           Have, Remote.Valid, Justified;
      ghost var before := Now();
      LeadsToItself(imp.graph, before.plan);
      while true
        invariant Valid() && Now() == before.(plan := State())
        invariant remote.refs == old(remote.refs) && held == old(held) && kept == old(kept)
        invariant settles == old(settles) && Most() <= old(Most())
        invariant Turns() < old(Turns()) || (Turns() == old(Turns()) && Depth() == old(Depth()))
        invariant Leads(imp.graph, before.plan, State()) && (State() == before.plan || walk.None? || !walk.value.Done())
        decreases Turns()
      {
        ghost var now := State();
        if walk.Some? && !walk.value.Done() {
          a := WalkStep();
          Went(before, now, a);
          return;
        }
        if walk.Some? {
          EndWalk();
          LeadsPast(imp.graph, before.plan);
          continue;
        }
        if queue == [] {
          NothingPlanned(imp, want, exact, remote.refs, held, kept, Finished);
          NothingTaken(imp, exact, Now());
          Went(before, now, Finished);
          return Finished;
        }
        if !queue[0].walk {
          a := BatchStep();
          Went(before, now, a);
          return;
        }
        StartWalk();
        LeadsThrough(imp.graph, before.plan, now, State());
      }
    }
  }

  function WalkCmds(w: Walk, i: nat): seq<Cmd>
    requires i < |w.list|
  {
    [Cmd(w.list[i], w.ref)]
  }

  function One(b: bool): nat { if b then 1 else 0 }

  // ---- what one call takes --------------------------------------------------------------

  /** Where the planner stands between two calls: the plan, how far its last packs passed their
      estimates, the note pending, and its counts. */
  datatype Progress = Progress(plan: Plan, ratio: real, note: Option<Note>, lastWalk: int, lastBatch: nat, recut: nat)

  /** The range of a plan's next step to i: of the walk under way, as far as its i-th commit, or of
      the queue's first i refs. */
  function RangeAt(p: Plan, i: nat): seq<Cmd> {
    if p.walks != [] then (if i < |p.Top().list| then [Cmd(p.Top().list[i], p.Top().ref)] else [])
    else if i <= |p.queue| then Commands(p.queue[..i]) else []
  }

  /** The plan once the step to i is in it. */
  function PlannedTo(p: Plan, i: nat): Plan {
    if p.walks != [] then (if i < |p.Top().list| then WithWalkAt(p, i) else p)
    else if i <= |p.queue| then WithBatch(p, i) else p
  }

  /** A range's estimate, as many times over as the last steps packed past theirs, is within the limit. */
  ghost predicate IsUnder(imp: Importer, cmds: seq<Cmd>, refs: RefMap, ratio: real) {
    imp.EstimateOf(cmds, refs) as real * ratio <= imp.budget as real
  }

  /** The range of one commit, or one ref, is past a limit as the planner has it: measured, or
      in a dry run by its estimate. */
  ghost predicate IsPastAlone(imp: Importer, exact: bool, cmds: seq<Cmd>, refs: RefMap) {
    if exact then !imp.PushFits(cmds, refs) else imp.EstimateOf(cmds, refs) > imp.budget
  }

  /** Of the ranges from lo to hi: to found is under the limit, and to the next no longer. */
  ghost predicate IsAim(imp: Importer, p: Plan, ratio: real, lo: nat, hi: int, found: int) {
    && lo - 1 <= found <= hi
    && (found >= lo ==> IsUnder(imp, RangeAt(p, found), p.refs, ratio))
    && (found < hi ==> !IsUnder(imp, RangeAt(p, found + 1), p.refs, ratio))
  }

  /** The range to longer is past a limit, and to end is what is tried next: the furthest before it
      whose estimate is under its cut, or the shortest there is. */
  ghost predicate IsRecut(imp: Importer, p: Plan, lo: nat, longer: nat, end: nat) {
    && lo <= end < longer && !imp.PushFits(RangeAt(p, longer), p.refs)
    && exists cut: real | imp.IsCut(RangeAt(p, longer), p.refs, cut) ::
         if imp.EstimateOf(RangeAt(p, end), p.refs) as real <= cut
         then end + 1 < longer ==> imp.EstimateOf(RangeAt(p, end + 1), p.refs) as real > cut
         else end == lo
  }

  /** The range to end is tried: the one aimed at first, or one cut back to from a longer one tried. */
  ghost predicate IsTried(imp: Importer, p: Plan, lo: nat, first: nat, end: nat)
    decreases first - end
  {
    && lo <= end <= first
    && (end == first || exists longer: nat :: end < longer <= first && IsRecut(imp, p, lo, longer, end) && IsTried(imp, p, lo, first, longer))
  }

  /** Of the walk under way first is aimed at, and the range to end tried. */
  ghost predicate IsWalkTry(imp: Importer, p: Plan, ratio: real, first: nat, end: nat) {
    && p.walks != [] && p.Top().at <= end <= first < |p.Top().list| && IsTried(imp, p, p.Top().at, first, end)
    && exists found: int | IsWalkAim(imp, p, ratio, found) :: first == if found < p.Top().at then p.Top().at else found
  }

  ghost predicate IsWalkAim(imp: Importer, p: Plan, ratio: real, found: int)
    requires p.walks != []
  {
    IsAim(imp, p, ratio, p.Top().at, |p.Top().list| - 1, found)
  }

  /** How many of the queue one push takes by its count and its record. */
  ghost predicate IsMost(imp: Importer, queue: seq<QueuedRef>, most: nat) {
    && 1 <= most <= |queue| && most <= MaxCommandsPerPush && imp.recordHolds(Commands(queue[..most]))
    && (most < |queue| && most < MaxCommandsPerPush ==> !imp.recordHolds(Commands(queue[..most + 1])))
  }

  /** Of the queue, as many as one push takes, first is aimed at, and the range to end tried. */
  ghost predicate IsBatchTry(imp: Importer, p: Plan, ratio: real, first: nat, end: nat) {
    && p.walks == [] && p.queue != [] && 1 <= end <= first <= |p.queue| && IsTried(imp, p, 1, first, end)
    && exists most: nat, found: int | IsMost(imp, p.queue, most) && IsAim(imp, p, ratio, 1, most, found) ::
         if found < 1 then first == 1 && !p.queue[0].src.IsBranch() else first == found
  }

  /** The queue's first ref is past the limit alone, by its estimate or as measured. */
  ghost predicate HeadIsPast(imp: Importer, exact: bool, p: Plan, ratio: real) {
    || (exists most: nat :: IsMost(imp, p.queue, most) && IsAim(imp, p, ratio, 1, most, 0))
    || (exact && !imp.PushFits(RangeAt(p, 1), p.refs) && exists first: nat :: IsBatchTry(imp, p, ratio, first, 1))
  }

  /** No queued branch can carry the history of any parent of c that is not reached. */
  ghost predicate NoneCarries(g: Graph, p: Plan, c: Oid) {
    c in g.parents && forall parent, q :: parent in g.parents[c] && parent !in Have(g, p.refs) && q in p.queue ==>
      !CanCarry(g, p.refs, q, parent)
  }

  /** The walk waits at its next commit, and the history of the first of that commit's unreached parents a
      branch can carry is walked on the preferred of them. */
  ghost predicate IsBroughtIn(g: Graph, p: Plan, below: Plan) {
    && p.walks != [] && !p.Top().Done()
    && exists lacking, parent, i ::
         && IsLacking(g, p.refs, p.Top().list[p.Top().at], lacking)
         && IsFirstCarried(g, p.refs, p.queue, lacking, p.Top().list[p.Top().at], parent, i)
         && IsSuspended(g, p.refs, p, parent, i, below)
  }

  function HeadDepth(g: Graph, p: Plan): nat {
    if p.walks != [] && !p.Top().Done() then Generation(g, p.Top().list[p.Top().at]) else 0
  }

  /** The range to end, of first aimed at, is where the plan comes to: but not one commit past a limit
      whose history a branch can carry. */
  ghost predicate StepsHere(imp: Importer, exact: bool, p: Plan, ratio: real, first: nat, end: nat) {
    if p.walks == [] then IsBatchTry(imp, p, ratio, first, end)
    else
      && !p.Top().Done() && IsWalkTry(imp, p, ratio, first, end)
      && (end == p.Top().at && IsPastAlone(imp, exact, RangeAt(p, end), p.refs) ==> NoneCarries(imp.graph, p, p.Top().list[end]))
  }

  /** Of the walk under way; or, its next commit alone being past a limit, of the history brought in for it. */
  ghost predicate ChoseWalk(imp: Importer, exact: bool, p: Plan, ratio: real, q: Plan, first: nat, end: nat)
    decreases HeadDepth(imp.graph, p)
  {
    && p.walks != [] && !p.Top().Done()
    && ((q == p && StepsHere(imp, exact, p, ratio, first, end))
        || exists below: Plan :: IsBelow(imp, exact, p, ratio, below) && ChoseWalk(imp, exact, below, ratio, q, first, end))
  }

  ghost predicate IsBelow(imp: Importer, exact: bool, p: Plan, ratio: real, below: Plan) {
    && IsBroughtIn(imp.graph, p, below) && HeadDepth(imp.graph, below) < HeadDepth(imp.graph, p)
    && IsPastAlone(imp, exact, RangeAt(p, p.Top().at), p.refs)
    && exists first: nat :: IsWalkTry(imp, p, ratio, first, p.Top().at)
  }

  /** The queue's first ref no longer marked for a walk. */
  function Unmarked(p: Plan): Plan
    requires p.queue != []
  {
    p.(queue := [QueuedRef(p.queue[0].src, false)] + p.queue[1..])
  }

  /** The queue's first ref is walked to its value. */
  ghost predicate IsHeadWalked(g: Graph, p: Plan, walking: Plan) {
    && p.queue != [] && walking.walks != []
    && var head, w := p.queue[0].src, walking.Top();
       && w == Walk(head.ref, w.list, 0, None, 0) && walking == WithWalk(p, w)
       && IsWalkTo(g, p.refs, head.ref, head.oid, w.list)
  }

  ghost predicate ChoseHeadWalk(imp: Importer, exact: bool, p: Plan, ratio: real, q: Plan, first: nat, end: nat) {
    exists walking: Plan :: IsHeadWalked(imp.graph, p, walking) && ChoseWalk(imp, exact, walking, ratio, q, first, end)
  }

  /** Of the queue's first ref, walked, where it is marked and unreached, or is a branch past the limit alone;
      otherwise of the first refs, in one batch. */
  ghost predicate ChoseQueue(imp: Importer, exact: bool, p: Plan, ratio: real, q: Plan, first: nat, end: nat) {
    && p.walks == [] && p.queue != []
    && var head := p.queue[0];
       if head.walk && head.src.oid !in Have(imp.graph, p.refs) then ChoseHeadWalk(imp, exact, p, ratio, q, first, end)
       else
         || (q == Unmarked(p) && StepsHere(imp, exact, q, ratio, first, end))
         || (head.src.IsBranch() && head.src.oid !in Have(imp.graph, p.refs) && HeadIsPast(imp, exact, Unmarked(p), ratio)
             && ChoseHeadWalk(imp, exact, p, ratio, q, first, end))
  }

  /** From p, where no walk has ended, the plan comes to q, and there to the range to end. */
  ghost predicate Chose(imp: Importer, exact: bool, p: Plan, ratio: real, q: Plan, first: nat, end: nat) {
    if p.walks != [] then ChoseWalk(imp, exact, p, ratio, q, first, end) else ChoseQueue(imp, exact, p, ratio, q, first, end)
  }

  /** A walk that has ended is put away. */
  function Popped(p: Plan): Plan {
    if p.walks != [] && p.Top().Done() then WalkEnded(p) else p
  }

  /** The history walked on the innermost carrier, and the merge it is brought in for. */
  function NoteOf(q: Plan): Note {
    if |q.walks| < 2 || q.Top().list == [] || q.walks[|q.walks| - 2].Done() then Note("", 0, 0, "")
    else
      var merge := q.walks[|q.walks| - 2];
      Note(q.Top().ref, q.Top().Tip(), merge.list[merge.at], merge.ref)
  }

  /** What is said of the next step: of the last history brought in on the way to it, if any was. */
  function NoteAfter(note: Option<Note>, p: Plan, q: Plan): Option<Note> {
    if |q.walks| > 1 && |q.walks| > |p.walks| then Some(NoteOf(q)) else note
  }

  /** The ratio a step that may be pushed teaches: how many times its estimate it packed to, at least
      one, where it is an eighth of the limit by its estimate. */
  function Learned(imp: Importer, exact: bool, ratio: real, estimate: nat, size: nat): real {
    if !exact || estimate < imp.budget / 8 || estimate == 0 then ratio
    else if size <= estimate then 1.0
    else size as real / estimate as real
  }

  /** What one call answers, and leaves behind, from where the planner stood: the step the plan comes
      to, or refuses; or nothing, where nothing is left. */
  ghost predicate IsTaken(imp: Importer, exact: bool, s: Progress, a: Answer, s': Progress) {
    var p := Popped(s.plan);
    match a
    case Finished => p.queue == [] && p.walks == [] && s' == s.(plan := p)
    case Stepped(step) => exists q, first, end :: Chose(imp, exact, p, s.ratio, q, first, end) && StepsTo(imp, exact, s, q, first, end, step, s')
    case Refused(RecordFull(_)) =>
      && p.walks == [] && p.queue != [] && s' == s.(plan := Unmarked(p))
      && (p.queue[0].walk ==> p.queue[0].src.oid in Have(imp.graph, p.refs))
    case Refused(why) => exists q, first, end :: Chose(imp, exact, p, s.ratio, q, first, end) && RefusesAt(s, q, end, why, s')
  }

  ghost predicate StepsTo(imp: Importer, exact: bool, s: Progress, q: Plan, first: nat, end: nat, step: Step, s': Progress) {
    var note := NoteAfter(s.note, Popped(s.plan), q);
    && step.cmds == RangeAt(q, end) && (step.note.None? || step.note == note)
    && s' == Progress(PlannedTo(q, end), Learned(imp, exact, s.ratio, step.estimate, step.size), note,
                      if q.walks != [] then end - q.Top().at + 1 else s.lastWalk,
                      if q.walks != [] then s.lastBatch else end,
                      s.recut + One(end < first))
  }

  ghost predicate RefusesAt(s: Progress, q: Plan, end: nat, why: Refusal, s': Progress)
    requires !why.RecordFull?
  {
    var step := match why case TooLarge(t, _) => t case MergeTooLarge(t, _) => t case RepoFull(t, _) => t;
    step.cmds == RangeAt(q, end) && s'.plan == q && s'.note == NoteAfter(s.note, Popped(s.plan), q) && s'.recut == s.recut
  }

  // ---- how the calls it makes come together -------------------------------------------------

  lemma LackingUncarried(g: Graph, p: Plan, c: Oid, lacking: seq<Oid>)
    requires IsLacking(g, p.refs, c, lacking) && NoCarrier(g, p.refs, p.queue, lacking)
    ensures NoneCarries(g, p, c)
  {
    hide Have, CanCarry;
  }

  lemma WalkPlanned(imp: Importer, exact: bool, s: Progress, first: nat, end: nat, a: Answer, s': Progress)
    requires StepsHere(imp, exact, s.plan, s.ratio, first, end) && s.plan.walks != []
    requires match a
      case Stepped(step) =>
        && step.cmds == RangeAt(s.plan, end) && step.note.None?
        && s' == s.(plan := PlannedTo(s.plan, end), ratio := Learned(imp, exact, s.ratio, step.estimate, step.size),
                    lastWalk := end - s.plan.Top().at + 1, recut := s.recut + One(end < first))
      case Refused(why) => !why.RecordFull? && RefusesAt(s, s.plan, end, why, s')
      case Finished => false
    ensures IsTaken(imp, exact, s, a, s')
  {
    hide StepsHere, IsWalkTry, IsPastAlone, NoneCarries, Learned, WithWalkAt;
    StepsInWalk(imp, exact, s.plan, s.ratio, first, end);
    assert NoteAfter(s.note, s.plan, s.plan) == s.note;
    assert Chose(imp, exact, s.plan, s.ratio, s.plan, first, end);
    if a.Stepped? {
      assert StepsTo(imp, exact, s, s.plan, first, end, a.step, s');
    }
  }

  lemma StepsInWalk(imp: Importer, exact: bool, p: Plan, ratio: real, first: nat, end: nat)
    requires StepsHere(imp, exact, p, ratio, first, end) && p.walks != []
    ensures !p.Top().Done() && end < |p.Top().list| && Popped(p) == p
  {
  }

  lemma {:induction false} WalksGrow(imp: Importer, exact: bool, p: Plan, ratio: real, q: Plan, first: nat, end: nat)
    requires ChoseWalk(imp, exact, p, ratio, q, first, end)
    ensures q == p || |q.walks| > |p.walks|
    decreases HeadDepth(imp.graph, p)
  {
    hide StepsHere, IsPastAlone, IsWalkTry, IsLacking, IsFirstCarried, IsWalkTo;
    if q != p {
      var below :| IsBelow(imp, exact, p, ratio, below) && ChoseWalk(imp, exact, below, ratio, q, first, end);
      WalksGrow(imp, exact, below, ratio, q, first, end);
    }
  }

  /** What is taken of the walk of a merge's history is what is taken of the walk that waits for it. */
  lemma BroughtInTaken(imp: Importer, exact: bool, s: Progress, first: nat, below: Progress, a: Answer, s': Progress)
    requires IsBroughtIn(imp.graph, s.plan, below.plan) && HeadDepth(imp.graph, below.plan) < HeadDepth(imp.graph, s.plan)
    requires below == s.(plan := below.plan, note := Some(NoteOf(below.plan)))
    requires IsWalkTry(imp, s.plan, s.ratio, first, s.plan.Top().at) && IsPastAlone(imp, exact, RangeAt(s.plan, s.plan.Top().at), s.plan.refs)
    requires IsTaken(imp, exact, below, a, s')
    ensures IsTaken(imp, exact, s, a, s')
  {
    hide IsBroughtIn, IsWalkTry, IsPastAlone, HeadDepth, StepsHere, IsBelow, Learned, RangeAt, PlannedTo,
         NoteAfter, NoteOf, Chose;
    BelowIs(imp, exact, s.plan, s.ratio, first, below.plan);
    forall q, first', end | Chose(imp, exact, below.plan, s.ratio, q, first', end)
      ensures Chose(imp, exact, s.plan, s.ratio, q, first', end) && NoteAfter(s.note, s.plan, q) == NoteAfter(below.note, below.plan, q)
    {
      ChoseBelow(imp, exact, s.plan, s.ratio, below.plan, q, first', end, s.note);
    }
    TakenAlike(imp, exact, s, below, a, s');
  }

  lemma BelowIs(imp: Importer, exact: bool, p: Plan, ratio: real, first: nat, below: Plan)
    requires IsBroughtIn(imp.graph, p, below) && HeadDepth(imp.graph, below) < HeadDepth(imp.graph, p)
    requires IsWalkTry(imp, p, ratio, first, p.Top().at) && IsPastAlone(imp, exact, RangeAt(p, p.Top().at), p.refs)
    ensures IsBelow(imp, exact, p, ratio, below) && p.walks != [] && !p.Top().Done() && |below.walks| == |p.walks| + 1
    ensures Popped(below) == below && Popped(p) == p
  {
    hide IsBroughtIn, IsWalkTry, IsPastAlone, HeadDepth;
    BelowWalks(imp.graph, p, below);
  }

  lemma ChoseBelow(imp: Importer, exact: bool, p: Plan, ratio: real, below: Plan, q: Plan, first: nat, end: nat, note: Option<Note>)
    requires IsBelow(imp, exact, p, ratio, below) && Chose(imp, exact, below, ratio, q, first, end)
    requires p.walks != [] && !p.Top().Done() && |below.walks| == |p.walks| + 1
    ensures Chose(imp, exact, p, ratio, q, first, end)
    ensures NoteAfter(note, p, q) == NoteAfter(Some(NoteOf(below)), below, q)
  {
    hide StepsHere, IsBelow, NoteOf;
    assert ChoseWalk(imp, exact, below, ratio, q, first, end);
    WalksGrow(imp, exact, below, ratio, q, first, end);
  }

  lemma BelowWalks(g: Graph, p: Plan, below: Plan)
    requires IsBroughtIn(g, p, below)
    ensures p.walks != [] && !p.Top().Done() && |below.walks| == |p.walks| + 1 && !below.Top().Done()
    ensures Popped(below) == below && Popped(p) == p
  {
    hide IsLacking, IsFirstCarried, IsWalkTo;
    var lacking, parent, i :|
      && IsLacking(g, p.refs, p.Top().list[p.Top().at], lacking)
      && IsFirstCarried(g, p.refs, p.queue, lacking, p.Top().list[p.Top().at], parent, i)
      && IsSuspended(g, p.refs, p, parent, i, below);
    WalkIsNotEmpty(g, p.refs, below.Top().ref, parent, below.Top().list);
  }

  lemma WalkIsNotEmpty(g: Graph, refs: RefMap, ref: Ref, tip: Oid, list: seq<Oid>)
    requires IsWalkTo(g, refs, ref, tip, list)
    ensures list != []
  {
  }

  lemma OverOne(size: nat, estimate: nat)
    requires estimate > 0
    ensures size as real / estimate as real > 1.0 <==> size > estimate
  {
    var r := size as real / estimate as real;
    assert r * estimate as real == size as real;
    if r > 1.0 {
      assert (r - 1.0) * estimate as real > 0.0;
    } else {
      Scaled(estimate as real, r, 1.0);
    }
  }

  // ---- what the searches find -------------------------------------------------------------------

  lemma Scales(est: real, budget: real, ratio: real)
    requires ratio >= 1.0
    ensures est <= budget / ratio <==> est * ratio <= budget
  {
    var target := budget / ratio;
    assert target * ratio == budget;
    if est <= target {
      Scaled(ratio, est, target);
    } else {
      assert (est - target) * ratio > 0.0;
    }
  }

  lemma AlongIs(imp: Importer, p: Plan, target: real, i: nat)
    requires p.walks != [] && i < |p.Top().list|
    ensures UnderAlong(imp, p.Top(), Negatives(imp.graph, p.refs), target)(i) <==> imp.EstimateOf(RangeAt(p, i), p.refs) as real <= target
  {
    assert News(RangeAt(p, i)) == [p.Top().list[i]];
  }

  /** A search of the walk under way aims at what its estimates say. */
  lemma WalkAimed(imp: Importer, p: Plan, ratio: real, found: int)
    requires ratio >= 1.0 && p.walks != [] && !p.Top().Done()
    requires Search.IsBoundary(UnderAlong(imp, p.Top(), Negatives(imp.graph, p.refs), imp.budget as real / ratio),
                               p.Top().at, |p.Top().list| - 1, found)
    ensures IsWalkTry(imp, p, ratio, AtLeast(found, p.Top().at), AtLeast(found, p.Top().at))
  {
    hide UnderAlong, RangeAt, Importer.EstimateOf;
    var w, target := p.Top(), imp.budget as real / ratio;
    forall i: nat | i < |w.list|
      ensures UnderAlong(imp, w, Negatives(imp.graph, p.refs), target)(i) <==> IsUnder(imp, RangeAt(p, i), p.refs, ratio)
    {
      AlongIs(imp, p, target, i);
      Scales(imp.EstimateOf(RangeAt(p, i), p.refs) as real, imp.budget as real, ratio);
    }
    assert IsWalkAim(imp, p, ratio, found);
  }

  lemma WalkRecut(imp: Importer, p: Plan, ratio: real, first: nat, longer: nat, cut: real, found: int)
    requires IsWalkTry(imp, p, ratio, first, longer) && p.Top().at < longer && !imp.PushFits(RangeAt(p, longer), p.refs)
    requires imp.IsCut(RangeAt(p, longer), p.refs, cut)
    requires Search.IsBoundary(UnderAlong(imp, p.Top(), Negatives(imp.graph, p.refs), cut), p.Top().at, longer - 1, found)
    ensures IsWalkTry(imp, p, ratio, first, AtLeast(found, p.Top().at))
  {
    hide UnderAlong, RangeAt, Importer.EstimateOf, Importer.PushFits, Importer.IsCut, IsAim;
    var w := p.Top();
    forall i: nat | i < |w.list|
      ensures UnderAlong(imp, w, Negatives(imp.graph, p.refs), cut)(i) <==> imp.EstimateOf(RangeAt(p, i), p.refs) as real <= cut
    {
      AlongIs(imp, p, cut, i);
    }
    assert IsRecut(imp, p, w.at, longer, AtLeast(found, w.at));
  }

  lemma FirstIs(imp: Importer, p: Plan, fit: nat, target: real, n: nat)
    requires p.walks == [] && n <= fit <= |p.queue|
    ensures UnderFirst(imp, p.queue[..fit], Negatives(imp.graph, p.refs), target)(n) <==> imp.EstimateOf(RangeAt(p, n), p.refs) as real <= target
  {
    assert p.queue[..fit][..n] == p.queue[..n];
  }

  lemma MostTaken(imp: Importer, queue: seq<QueuedRef>, candidates: seq<QueuedRef>, fit: nat)
    requires queue != [] && candidates == queue[..if |queue| < MaxCommandsPerPush then |queue| else MaxCommandsPerPush]
    requires 0 < fit <= |candidates| && imp.recordHolds(Commands(candidates[..fit]))
    requires fit < |candidates| ==> !imp.recordHolds(Commands(candidates[..fit + 1]))
    ensures IsMost(imp, queue, fit) && candidates[..fit] == queue[..fit]
  {
    assert candidates[..fit] == queue[..fit];
    assert fit < |candidates| ==> candidates[..fit + 1] == queue[..fit + 1];
  }

  /** A search of the queue aims at what its estimates say, or finds its first ref past the limit alone. */
  lemma BatchAimed(imp: Importer, exact: bool, p: Plan, ratio: real, fit: nat, found: int)
    requires ratio >= 1.0 && p.walks == [] && p.queue != [] && IsMost(imp, p.queue, fit)
    requires Search.IsBoundary(UnderFirst(imp, p.queue[..fit], Negatives(imp.graph, p.refs), imp.budget as real / ratio), 1, fit, found)
    ensures if found < 1 && p.queue[0].src.IsBranch()
            then HeadIsPast(imp, exact, p, ratio) && imp.EstimateOf(RangeAt(p, 1), p.refs) != 0
            else IsBatchTry(imp, p, ratio, AtLeast(found, 1), AtLeast(found, 1))
  {
    hide UnderFirst, RangeAt, Importer.EstimateOf, SourceRef.IsBranch;
    var target := imp.budget as real / ratio;
    forall n: nat | n <= fit
      ensures UnderFirst(imp, p.queue[..fit], Negatives(imp.graph, p.refs), target)(n) <==> IsUnder(imp, RangeAt(p, n), p.refs, ratio)
    {
      FirstIs(imp, p, fit, target, n);
      Scales(imp.EstimateOf(RangeAt(p, n), p.refs) as real, imp.budget as real, ratio);
    }
    assert IsAim(imp, p, ratio, 1, fit, found);
  }

  lemma BatchRecut(imp: Importer, p: Plan, ratio: real, first: nat, longer: nat, cut: real, found: int)
    requires IsBatchTry(imp, p, ratio, first, longer) && 1 < longer && !imp.PushFits(RangeAt(p, longer), p.refs)
    requires imp.IsCut(RangeAt(p, longer), p.refs, cut)
    requires Search.IsBoundary(UnderFirst(imp, p.queue, Negatives(imp.graph, p.refs), cut), 1, longer - 1, found)
    ensures IsBatchTry(imp, p, ratio, first, AtLeast(found, 1))
  {
    hide UnderFirst, RangeAt, Importer.EstimateOf, Importer.PushFits, Importer.IsCut, IsAim, IsMost, SourceRef.IsBranch;
    assert p.queue[..|p.queue|] == p.queue;
    forall n: nat | n <= |p.queue|
      ensures UnderFirst(imp, p.queue, Negatives(imp.graph, p.refs), cut)(n) <==> imp.EstimateOf(RangeAt(p, n), p.refs) as real <= cut
    {
      FirstIs(imp, p, |p.queue|, cut, n);
    }
    assert IsRecut(imp, p, 1, longer, AtLeast(found, 1));
  }

  // ---- what is taken of the queue -----------------------------------------------------------------

  lemma UnmarkedIs(p: Plan)
    requires p.queue != [] && !p.queue[0].walk
    ensures Unmarked(p) == p
  {
  }

  lemma BatchPlanned(imp: Importer, exact: bool, s: Progress, first: nat, end: nat, a: Answer, s': Progress)
    requires s.plan.walks == [] && s.plan.queue != [] && !s.plan.queue[0].walk && IsBatchTry(imp, s.plan, s.ratio, first, end)
    requires match a
      case Stepped(step) =>
        && step.cmds == RangeAt(s.plan, end) && step.note.None?
        && s' == s.(plan := PlannedTo(s.plan, end), ratio := Learned(imp, exact, s.ratio, step.estimate, step.size),
                    lastBatch := end, recut := s.recut + One(end < first))
      case Refused(why) => !why.RecordFull? && RefusesAt(s, s.plan, end, why, s')
      case Finished => false
    ensures IsTaken(imp, exact, s, a, s')
  {
    hide IsBatchTry, Learned, RangeAt, PlannedTo;
    UnmarkedIs(s.plan);
    assert StepsHere(imp, exact, s.plan, s.ratio, first, end);
    assert Chose(imp, exact, s.plan, s.ratio, s.plan, first, end);
    if a.Stepped? {
      assert StepsTo(imp, exact, s, s.plan, first, end, a.step, s');
    }
  }

  lemma RecordRefused(imp: Importer, exact: bool, s: Progress, a: Answer)
    requires s.plan.walks == [] && s.plan.queue != [] && !s.plan.queue[0].walk && a.Refused? && a.why.RecordFull?
    ensures IsTaken(imp, exact, s, a, s)
  {
    UnmarkedIs(s.plan);
  }

  lemma NothingTaken(imp: Importer, exact: bool, s: Progress)
    requires s.plan.walks == [] && s.plan.queue == []
    ensures IsTaken(imp, exact, s, Finished, s)
  {
  }

  lemma HeadMeasuredPast(imp: Importer, p: Plan, ratio: real, first: nat)
    requires IsBatchTry(imp, p, ratio, first, 1) && !imp.PushFits(RangeAt(p, 1), p.refs)
    ensures HeadIsPast(imp, true, p, ratio)
  {
  }

  /** What is taken of a queue whose first ref, past the limit alone, is marked for a walk. */
  lemma MarkedTaken(imp: Importer, exact: bool, s: Progress, marked: Progress, a: Answer, s': Progress)
    requires s.plan.walks == [] && s.plan.queue != [] && s.plan.queue[0].src.IsBranch() && !s.plan.queue[0].walk
    requires s.plan.queue[0].src.oid !in Have(imp.graph, s.plan.refs) && HeadIsPast(imp, exact, s.plan, s.ratio)
    requires marked == s.(plan := s.plan.(queue := [s.plan.queue[0].(walk := true)] + s.plan.queue[1..]))
    requires IsTaken(imp, exact, marked, a, s')
    ensures IsTaken(imp, exact, s, a, s')
  {
    hide HeadIsPast, ChoseWalk, IsWalkTo, Have, SourceRef.IsBranch, Learned, RangeAt, PlannedTo, NoteOf;
    UnmarkedIs(s.plan);
    forall q, first, end | Chose(imp, exact, marked.plan, s.ratio, q, first, end)
      ensures Chose(imp, exact, s.plan, s.ratio, q, first, end) && NoteAfter(s.note, s.plan, q) == NoteAfter(marked.note, marked.plan, q)
    {
      HeadWalkedAlike(imp.graph, s.plan, marked.plan);
    }
    TakenAlike(imp, exact, s, marked, a, s');
  }

  lemma HeadWalkedAlike(g: Graph, p: Plan, p': Plan)
    requires p.queue != [] && p'.queue != [] && p.queue[0].src == p'.queue[0].src && p.queue[1..] == p'.queue[1..]
    requires p.refs == p'.refs && p.walks == p'.walks
    ensures forall walking :: IsHeadWalked(g, p, walking) <==> IsHeadWalked(g, p', walking)
  {
    hide IsWalkTo;
  }

  lemma NotedTaken(imp: Importer, exact: bool, s: Progress, step: Step, s': Progress)
    requires imp.Valid() && s.ratio >= 1.0 && IsTaken(imp, exact, s, Stepped(step), s')
    ensures IsTaken(imp, exact, s, Stepped(step.(note := s'.note)), s') && (s'.note.None? ==> step.note.None?)
    ensures InOrderOf(s'.plan.queue, Popped(s.plan).queue)
  {
    hide Chose, Popped, Learned, RangeAt, PlannedTo, NoteAfter, InOrderOf, Importer.Valid,
         Importer.EstimateOf, LeastRange;
    TakenInOrder(imp, exact, s, step, s');
    var q, first, end :| Chose(imp, exact, Popped(s.plan), s.ratio, q, first, end) && StepsTo(imp, exact, s, q, first, end, step, s');
    assert StepsTo(imp, exact, s, q, first, end, step.(note := s'.note), s');
  }

  /** Where a plan comes to all that another comes to, with the same to say of it, what is taken of
      that is taken of it. */
  lemma TakenAlike(imp: Importer, exact: bool, s: Progress, t: Progress, a: Answer, s': Progress)
    requires t == s.(plan := t.plan, note := t.note) && IsTaken(imp, exact, t, a, s')
    requires forall q, first, end :: Chose(imp, exact, Popped(t.plan), s.ratio, q, first, end) ==>
      Chose(imp, exact, Popped(s.plan), s.ratio, q, first, end) && NoteAfter(s.note, Popped(s.plan), q) == NoteAfter(t.note, Popped(t.plan), q)
    requires a.Finished? || (a.Refused? && a.why.RecordFull?) ==> IsTaken(imp, exact, s, a, s')
    ensures IsTaken(imp, exact, s, a, s')
  {
    hide Chose, Popped, Learned, RangeAt, PlannedTo, NoteAfter;
    if a.Stepped? {
      var q, first, end :| Chose(imp, exact, Popped(t.plan), s.ratio, q, first, end) && StepsTo(imp, exact, t, q, first, end, a.step, s');
      assert StepsTo(imp, exact, s, q, first, end, a.step, s');
    } else if a.Refused? && !a.why.RecordFull? {
      var q, first, end :| Chose(imp, exact, Popped(t.plan), s.ratio, q, first, end) && RefusesAt(t, q, end, a.why, s');
      assert RefusesAt(s, q, end, a.why, s');
    }
  }

  // ---- before a step is taken -----------------------------------------------------------------------

  /** The queue's first ref, marked: its walk starts, or where all of it is reached it is no longer marked. */
  ghost predicate Starts(g: Graph, p: Plan, p': Plan) {
    && p.walks == [] && p.queue != [] && p.queue[0].walk
    && if p.queue[0].src.oid in Have(g, p.refs) then p' == Unmarked(p) else IsHeadWalked(g, p, p')
  }

  /** What a call leaves of the plan before it steps: as it was, its ended walk put away, and the queue's head started. */
  ghost predicate Leads(g: Graph, p: Plan, now: Plan) {
    now == p || (now == Popped(p) && (now.walks != [] ==> !now.Top().Done())) || Starts(g, Popped(p), now)
  }

  lemma LeadsToItself(g: Graph, p: Plan)
    ensures Leads(g, p, p)
  {
  }

  lemma LeadsPast(g: Graph, p: Plan)
    requires p.walks != [] && p.Top().Done()
    requires WalkEnded(p).walks != [] ==> !WalkEnded(p).Top().Done()
    ensures Leads(g, p, WalkEnded(p))
  {
  }

  lemma LeadsThrough(g: Graph, p: Plan, now: Plan, now': Plan)
    requires Leads(g, p, now) && Starts(g, now, now')
    ensures Leads(g, p, now')
  {
    hide Have, IsWalkTo, WalkEnded;
  }

  lemma LeadsOn(imp: Importer, exact: bool, s: Progress, now: Plan, a: Answer, s': Progress)
    requires Leads(imp.graph, s.plan, now) && IsTaken(imp, exact, s.(plan := now), a, s')
    requires now.walks != [] ==> !now.Top().Done()
    ensures IsTaken(imp, exact, s, a, s')
  {
    hide Chose, Starts, IsTaken, WalkEnded;
    if now != s.plan {
      if now == Popped(s.plan) {
        PoppedTaken(imp, exact, s, a, s');
      } else {
        StartedTaken(imp, exact, s, now, a, s');
      }
    }
  }

  lemma PoppedTaken(imp: Importer, exact: bool, s: Progress, a: Answer, s': Progress)
    requires var p := Popped(s.plan); IsTaken(imp, exact, s.(plan := p), a, s') && (p.walks != [] ==> !p.Top().Done())
    ensures IsTaken(imp, exact, s, a, s')
  {
    hide Chose, WalkEnded, Learned, RangeAt, PlannedTo, NoteAfter;
    TakenAlike(imp, exact, s, s.(plan := Popped(s.plan)), a, s');
  }

  lemma StartedTaken(imp: Importer, exact: bool, s: Progress, now: Plan, a: Answer, s': Progress)
    requires Starts(imp.graph, Popped(s.plan), now) && IsTaken(imp, exact, s.(plan := now), a, s')
    requires now.walks != [] ==> !now.Top().Done()
    ensures IsTaken(imp, exact, s, a, s')
  {
    hide HeadIsPast, ChoseWalk, IsWalkTo, Have, SourceRef.IsBranch, Learned, RangeAt, PlannedTo, NoteOf,
         WalkEnded, StepsHere, StepsTo, RefusesAt;
    var p := Popped(s.plan);
    forall q, first, end | Chose(imp, exact, now, s.ratio, q, first, end)
      ensures Chose(imp, exact, p, s.ratio, q, first, end) && NoteAfter(s.note, p, q) == NoteAfter(s.note, now, q)
    {
      if now.walks == [] {
        UnmarkedIs(now);
        HeadWalkedAlike(imp.graph, p, now);
      }
    }
    TakenAlike(imp, exact, s, s.(plan := now), a, s');
  }

  // ---- what the step taken is --------------------------------------------------------------------

  /** What is tried of more than the least there is, is estimated, as many times over as the last steps
      packed past theirs, within the limit: cut back or not. */
  lemma {:induction false} TriedIsUnder(imp: Importer, p: Plan, ratio: real, lo: nat, first: nat, end: nat)
    requires imp.Valid() && ratio >= 1.0 && IsTried(imp, p, lo, first, end)
    requires first > lo ==> IsUnder(imp, RangeAt(p, first), p.refs, ratio)
    ensures end > lo ==> IsUnder(imp, RangeAt(p, end), p.refs, ratio)
    decreases first - end
  {
    hide Importer.Valid, Importer.EstimateOf, Importer.PushFits, Importer.IsCut, RangeAt;
    if end < first {
      var longer: nat :| end < longer <= first && IsRecut(imp, p, lo, longer, end) && IsTried(imp, p, lo, first, longer);
      TriedIsUnder(imp, p, ratio, lo, first, longer);
      if end > lo {
        var cut: real :| imp.IsCut(RangeAt(p, longer), p.refs, cut) && imp.EstimateOf(RangeAt(p, end), p.refs) as real <= cut;
        imp.CutIsBelow(RangeAt(p, longer), p.refs, cut);
        FewerAreUnder(imp, RangeAt(p, end), RangeAt(p, longer), p.refs, ratio);
      }
    }
  }

  lemma FewerAreUnder(imp: Importer, fewer: seq<Cmd>, more: seq<Cmd>, refs: RefMap, ratio: real)
    requires ratio >= 1.0 && imp.EstimateOf(fewer, refs) <= imp.EstimateOf(more, refs) && IsUnder(imp, more, refs, ratio)
    ensures IsUnder(imp, fewer, refs, ratio)
  {
    hide Importer.EstimateOf;
    Scaled(ratio, imp.EstimateOf(fewer, refs) as real, imp.EstimateOf(more, refs) as real);
  }

  /** The least range there is of a plan's next step: one commit, or one ref. */
  function LeastRange(p: Plan): nat {
    if p.walks != [] then p.Top().at else 1
  }

  /** A step of more than one commit, or of more than one ref, is estimated within the limit at the
      ratio there was; and where no measurement cut it back, a longer one is not, or there is none that one push takes. */
  lemma StepIsUnder(imp: Importer, exact: bool, p: Plan, ratio: real, first: nat, end: nat)
    requires imp.Valid() && ratio >= 1.0 && StepsHere(imp, exact, p, ratio, first, end)
    ensures end > LeastRange(p) ==> imp.EstimateOf(RangeAt(p, end), p.refs) as real * ratio <= imp.budget as real
    ensures end == first && (end > LeastRange(p) || IsUnder(imp, RangeAt(p, end), p.refs, ratio)) ==>
      || imp.EstimateOf(RangeAt(p, end + 1), p.refs) as real * ratio > imp.budget as real
      || (if p.walks != [] then end + 1 == |p.Top().list| else IsMost(imp, p.queue, end))
  {
    hide Importer.Valid, Importer.EstimateOf, IsTried, IsPastAlone, NoneCarries, RangeAt;
    if p.walks != [] {
      var found: int :| IsWalkAim(imp, p, ratio, found) && first == if found < p.Top().at then p.Top().at else found;
      assert found == first || !IsUnder(imp, RangeAt(p, first), p.refs, ratio);
    } else {
      var most: nat, found: int :| IsMost(imp, p.queue, most) && IsAim(imp, p, ratio, 1, most, found)
        && if found < 1 then first == 1 && !p.queue[0].src.IsBranch() else first == found;
      assert found == first || !IsUnder(imp, RangeAt(p, first), p.refs, ratio);
    }
    TriedIsUnder(imp, p, ratio, LeastRange(p), first, end);
  }

  /** Every ref of rest is one of the queue, and they stand in it in the same order: at are their places. */
  ghost predicate StandAt(rest: seq<QueuedRef>, queue: seq<QueuedRef>, at: seq<nat>) {
    && |at| == |rest| && (forall i, j :: 0 <= i < j < |at| ==> at[i] < at[j])
    && forall i :: 0 <= i < |rest| ==> at[i] < |queue| && queue[at[i]].src == rest[i].src
  }

  ghost predicate InOrderOf(rest: seq<QueuedRef>, queue: seq<QueuedRef>) {
    exists at: seq<nat> :: StandAt(rest, queue, at)
  }

  lemma OrderIsTransitive(a: seq<QueuedRef>, b: seq<QueuedRef>, c: seq<QueuedRef>)
    requires InOrderOf(a, b) && InOrderOf(b, c)
    ensures InOrderOf(a, c)
  {
    var inB: seq<nat> :| StandAt(a, b, inB);
    var inC: seq<nat> :| StandAt(b, c, inC);
    assert StandAt(a, c, seq(|a|, i requires 0 <= i < |a| => inC[inB[i]]));
  }

  lemma RestInOrder(queue: seq<QueuedRef>, n: nat)
    requires n <= |queue|
    ensures InOrderOf(queue[n..], queue)
  {
    assert StandAt(queue[n..], queue, seq(|queue| - n, i => i + n));
  }

  lemma RemovedInOrder(queue: seq<QueuedRef>, n: nat)
    requires n < |queue|
    ensures InOrderOf(Remove(queue, n), queue)
  {
    assert StandAt(Remove(queue, n), queue, seq(|queue| - 1, i => if i < n then i else i + 1));
  }

  lemma {:induction false} WalkLeavesOrder(imp: Importer, exact: bool, p: Plan, ratio: real, q: Plan, first: nat, end: nat)
    requires ChoseWalk(imp, exact, p, ratio, q, first, end)
    ensures InOrderOf(q.queue, p.queue) && q.refs == p.refs && q.walks != [] && StepsHere(imp, exact, q, ratio, first, end)
    decreases HeadDepth(imp.graph, p)
  {
    hide StepsHere, IsPastAlone, IsWalkTry, IsLacking, IsFirstCarried, IsWalkTo, InOrderOf;
    if q == p && StepsHere(imp, exact, p, ratio, first, end) {
      RestInOrder(p.queue, 0);
      assert p.queue[0..] == p.queue;
    } else {
      var below :| IsBelow(imp, exact, p, ratio, below) && ChoseWalk(imp, exact, below, ratio, q, first, end);
      WalkLeavesOrder(imp, exact, below, ratio, q, first, end);
      var lacking, parent, i :|
        && IsLacking(imp.graph, p.refs, p.Top().list[p.Top().at], lacking)
        && IsFirstCarried(imp.graph, p.refs, p.queue, lacking, p.Top().list[p.Top().at], parent, i)
        && IsSuspended(imp.graph, p.refs, p, parent, i, below);
      RemovedInOrder(p.queue, i);
      OrderIsTransitive(q.queue, below.queue, p.queue);
    }
  }

  /** Wherever the plan comes to, what is left of its queue keeps its order, and the step is one the
      searches came to there. */
  lemma ChoseLeavesOrder(imp: Importer, exact: bool, p: Plan, ratio: real, q: Plan, first: nat, end: nat)
    requires Chose(imp, exact, p, ratio, q, first, end)
    ensures InOrderOf(PlannedTo(q, end).queue, p.queue) && q.refs == p.refs && StepsHere(imp, exact, q, ratio, first, end)
  {
    hide ChoseWalk, StepsHere, HeadIsPast, IsWalkTo, Have, InOrderOf, SourceRef.IsBranch, Apply;
    RestInOrder(q.queue, if end <= |q.queue| then end else 0);
    assert q.queue[0..] == q.queue;
    if p.walks != [] {
      WalkLeavesOrder(imp, exact, p, ratio, q, first, end);
    } else if q == Unmarked(p) && StepsHere(imp, exact, q, ratio, first, end) {
      UnmarkedInOrder(p);
      OrderIsTransitive(PlannedTo(q, end).queue, q.queue, p.queue);
    } else {
      var walking: Plan :| IsHeadWalked(imp.graph, p, walking) && ChoseWalk(imp, exact, walking, ratio, q, first, end);
      WalkLeavesOrder(imp, exact, walking, ratio, q, first, end);
      RestInOrder(p.queue, 1);
      OrderIsTransitive(q.queue, walking.queue, p.queue);
    }
  }

  lemma UnmarkedInOrder(p: Plan)
    requires p.queue != []
    ensures InOrderOf(Unmarked(p).queue, p.queue)
  {
    assert StandAt(Unmarked(p).queue, p.queue, seq(|p.queue|, i => i));
  }

  /** Of one call: what is left of the queue keeps its order, and a step of more than one commit,
      or ref, is estimated within the limit at the ratio there was. */
  lemma TakenInOrder(imp: Importer, exact: bool, s: Progress, step: Step, s': Progress)
    requires imp.Valid() && s.ratio >= 1.0 && IsTaken(imp, exact, s, Stepped(step), s')
    ensures InOrderOf(s'.plan.queue, Popped(s.plan).queue)
    ensures exists q, first: nat, end: nat ::
      && Chose(imp, exact, Popped(s.plan), s.ratio, q, first, end) && step.cmds == RangeAt(q, end) && s'.plan == PlannedTo(q, end)
      && (end > LeastRange(q) ==> imp.EstimateOf(step.cmds, s.plan.refs) as real * s.ratio <= imp.budget as real)
  {
    hide Importer.Valid, Importer.EstimateOf, Chose, StepsHere, InOrderOf, RangeAt, PlannedTo, NoteAfter,
         Learned, LeastRange;
    var q, first, end :| Chose(imp, exact, Popped(s.plan), s.ratio, q, first, end) && StepsTo(imp, exact, s, q, first, end, step, s');
    ChoseLeavesOrder(imp, exact, Popped(s.plan), s.ratio, q, first, end);
    StepIsUnder(imp, exact, q, s.ratio, first, end);
  }

  lemma ShorterHolds(imp: Importer, queue: seq<QueuedRef>, n: nat, fit: nat)
    requires imp.Valid() && n <= fit <= |queue| && imp.recordHolds(Commands(queue[..fit]))
    ensures imp.recordHolds(Commands(queue[..n]))
  {
    assert Commands(queue[..n]) == Commands(queue[..fit])[..n];
  }

  function AtLeast(a: int, b: int): int {
    if a < b then b else a
  }

  /** The search question over a walk's indices. */
  function UnderAlong(imp: Importer, w: Walk, negs: set<Oid>, target: real): int -> bool {
    i => 0 <= i < |w.list| && imp.estimate([w.list[i]], negs) as real <= target
  }

  /** Do the first n of refs? */
  function UnderFirst(imp: Importer, refs: seq<QueuedRef>, negs: set<Oid>, target: real): int -> bool {
    n => 0 <= n <= |refs| && imp.estimate(News(Commands(refs[..n])), negs) as real <= target
  }

  function RecordFits(imp: Importer, refs: seq<QueuedRef>): int -> bool {
    n => 0 <= n <= |refs| && imp.recordHolds(Commands(refs[..n]))
  }

  /** The step says what git and the record's rule say of it against refs. */
  ghost predicate IsMeasured(imp: Importer, refs: RefMap, step: Step) {
    var b := imp.build(step.cmds, refs);
    step.exact && step.size == imp.SizeOf(step.cmds, refs) && step.objects == b.objects && step.past == b.past
  }

  ghost predicate NoCarrier(g: Graph, refs: RefMap, queue: seq<QueuedRef>, lacking: seq<Oid>) {
    forall p, q :: p in lacking && q in queue ==> !CanCarry(g, refs, q, p)
  }

  ghost function LackingOf(parents: seq<Oid>, have: set<Oid>): (lacking: seq<Oid>)
    ensures forall p :: p in lacking <==> p in parents && p !in have
  {
    if parents == [] then []
    else
      var n := |parents| - 1;
      assert parents == parents[..n] + [parents[n]];
      LackingOf(parents[..n], have) + if parents[n] in have then [] else [parents[n]]
  }

  /** These commits' places among those. */
  ghost predicate ArePlaces(commits: seq<Oid>, among: seq<Oid>, at: seq<nat>) {
    && |at| == |commits| && (forall i, j :: 0 <= i < j < |at| ==> at[i] < at[j])
    && forall i :: 0 <= i < |at| ==> at[i] < |among| && among[at[i]] == commits[i]
  }

  /** They stand among the parents in their order. */
  lemma {:induction false} LackingInOrder(parents: seq<Oid>, have: set<Oid>) returns (at: seq<nat>)
    ensures ArePlaces(LackingOf(parents, have), parents, at)
  {
    hide ArePlaces;
    at := [];
    if parents == [] {
      NoPlaces(parents);
    } else {
      var n := |parents| - 1;
      at := LackingInOrder(parents[..n], have);
      OneMorePlace(LackingOf(parents[..n], have), parents, at);
      assert LackingOf(parents[..n], have) + [] == LackingOf(parents[..n], have);
      if parents[n] !in have {
        at := at + [n];
      }
    }
  }

  lemma NoPlaces(among: seq<Oid>)
    ensures ArePlaces([], among, [])
  {
  }

  lemma OneMorePlace(commits: seq<Oid>, among: seq<Oid>, at: seq<nat>)
    requires among != [] && ArePlaces(commits, among[..|among| - 1], at)
    ensures ArePlaces(commits, among, at) && ArePlaces(commits + [among[|among| - 1]], among, at + [|among| - 1])
  {
  }

  /** lacking is the merge's parents the repository does not reach, in their order. */
  ghost predicate IsLacking(g: Graph, refs: RefMap, merge: Oid, lacking: seq<Oid>) {
    merge in g.parents && lacking == LackingOf(g.parents[merge], Have(g, refs))
  }

  /** parent is the first of the lacking parents any branch can carry, and i its carrier. */
  ghost predicate IsFirstCarried(g: Graph, refs: RefMap, queue: seq<QueuedRef>, lacking: seq<Oid>, merge: Oid, parent: Oid, i: nat) {
    exists k :: 0 <= k < |lacking| && lacking[k] == parent && IsFirstCarriedAt(g, refs, queue, lacking, merge, k, i)
  }

  ghost predicate IsFirstCarriedAt(g: Graph, refs: RefMap, queue: seq<QueuedRef>, lacking: seq<Oid>, merge: Oid, k: nat, i: nat)
    requires k < |lacking|
  {
    NoCarrier(g, refs, queue, lacking[..k]) && IsCarrier(g, refs, queue, lacking[k], merge, Some(i))
  }

  /** The walk waits, and a walk to parent on the queue's i-th branch, taken out of it, is under way. */
  ghost predicate IsSuspended(g: Graph, refs: RefMap, p: Plan, parent: Oid, i: nat, p': Plan) {
    && i < |p.queue| && p'.walks != []
    && p' == WithBringIn(p, i, p'.Top())
    && p'.Top() == Walk(p.queue[i].src.ref, p'.Top().list, 0, Some(p.queue[i]), i)
    && IsWalkTo(g, refs, p'.Top().ref, parent, p'.Top().list)
  }

  function Allowance(commits: nat, depth: nat): nat {
    if depth == 0 then commits else commits + Allowance(commits, depth - 1)
  }

  ghost function WalkSettles(g: Graph): nat {
    Allowance(|g.parents.Keys|, TopGeneration(g))
  }

  /** No call for a step settles more ranges than a batch has refs and, at each merge it goes
      below, there are commits. */
  ghost function SettlesAtMost(g: Graph): nat {
    MaxCommandsPerPush + WalkSettles(g)
  }

  /** Of a walk's ranges, those of the walks below the commit it is at. */
  function BelowOf(g: Graph, w: Walk): nat {
    if w.Done() || Generation(g, w.list[w.at]) == 0 then 0
    else Allowance(|g.parents.Keys|, Generation(g, w.list[w.at]) - 1)
  }

  lemma {:induction false} AllowanceRises(commits: nat, depth: nat, deeper: nat)
    requires depth <= deeper
    ensures Allowance(commits, depth) <= Allowance(commits, deeper)
  {
    if depth < deeper {
      AllowanceRises(commits, depth, deeper - 1);
    }
  }

  ghost function TopOf(g: Graph, commits: set<Oid>): nat {
    if commits == {} then 0
    else
      var c :| c in commits;
      var rest := TopOf(g, commits - {c});
      if rest < Generation(g, c) then Generation(g, c) else rest
  }

  /** The greatest generation there is. */
  ghost function TopGeneration(g: Graph): nat {
    TopOf(g, g.parents.Keys)
  }

  lemma {:induction false} TopOfIs(g: Graph, commits: set<Oid>, c: Oid)
    requires c in commits
    ensures Generation(g, c) <= TopOf(g, commits)
  {
    var d :| d in commits && TopOf(g, commits) ==
      var rest := TopOf(g, commits - {d});
      if rest < Generation(g, d) then Generation(g, d) else rest;
    if c != d {
      TopOfIs(g, commits - {d}, c);
    }
  }

  lemma TopIs(g: Graph, c: Oid)
    ensures Generation(g, c) <= TopGeneration(g)
  {
    if c in g.parents {
      TopOfIs(g, g.parents.Keys, c);
    }
  }

  /** A chain's commits are different ones. */
  lemma {:induction false} ChainFits(g: Graph, list: seq<Oid>)
    requires IsChain(g, list)
    ensures |list| <= |g.parents.Keys|
  {
    SizeOfChain(g, list);
    Smaller(CommitsOf(list), g.parents.Keys);
  }

  function CommitsOf(list: seq<Oid>): set<Oid> {
    if list == [] then {} else CommitsOf(list[..|list| - 1]) + {list[|list| - 1]}
  }

  lemma ChainPrefix(g: Graph, list: seq<Oid>)
    requires IsChain(g, list) && list != []
    ensures var n := |list| - 1;
      IsChain(g, list[..n]) && list[n] in g.parents && (n > 0 ==> Generation(g, list[..n][n - 1]) < Generation(g, list[n]))
  {
    if |list| > 1 {
      ChainAncestors(g, list, |list| - 2, |list| - 1);
    }
  }

  lemma {:induction false} SizeOfChain(g: Graph, list: seq<Oid>)
    requires IsChain(g, list)
    ensures |CommitsOf(list)| == |list| && CommitsOf(list) <= g.parents.Keys
    ensures forall c :: c in CommitsOf(list) ==> list != [] && Generation(g, c) <= Generation(g, list[|list| - 1])
  {
    if list != [] {
      ChainPrefix(g, list);
      hide IsChain, Generation;
      SizeOfChain(g, list[..|list| - 1]);
      assert list[|list| - 1] !in CommitsOf(list[..|list| - 1]);
    }
  }

  lemma HeadOk(g: Graph, want: Source, p: Plan)
    requires Inv(g, want, p) && p.queue != []
    ensures var head := p.queue[0];
      && head.src.ref in want && head.src == want[head.src.ref] && head.src.oid in g.parents
      && (head.walk ==> head.src.IsBranch())
      && (head.src.IsBranch() && head.src.ref in p.refs ==> IsAncestor(g, p.refs[head.src.ref], head.src.oid))
  {
    assert p.queue[0] in p.queue;
  }

  lemma HeadWalkKeeps(g: Graph, want: Source, p: Plan, w: Walk)
    requires Inv(g, want, p) && p.walks == [] && p.queue != [] && p.queue[0].src.IsBranch()
    requires w == Walk(p.queue[0].src.ref, w.list, 0, None, 0)
    requires IsWalkTo(g, p.refs, w.ref, p.queue[0].src.oid, w.list)
    ensures Inv(g, want, WithWalk(p, w)) && !w.Done()
  {
    HeadOk(g, want, p);
    StartWalkKeeps(g, want, p, w);
  }

  lemma SuspendKeeps(g: Graph, want: Source, p: Plan, i: nat, parent: Oid, w: Walk)
    requires Inv(g, want, p) && p.walks != [] && !p.Top().Done() && i < |p.queue|
    requires Generation(g, parent) < Generation(g, p.Top().list[p.Top().at])
    requires CanCarry(g, p.refs, p.queue[i], parent)
    requires w == Walk(p.queue[i].src.ref, w.list, 0, Some(p.queue[i]), i)
    requires IsWalkTo(g, p.refs, w.ref, parent, w.list)
    ensures Inv(g, want, WithBringIn(p, i, w))
    ensures Generation(g, w.list[0]) < Generation(g, p.Top().list[p.Top().at])
  {
    assert p.queue[i] in p.queue;
    assert WalkOk(g, want, p.refs, w);
    BringInKeeps(g, want, p, i, w);
    WalkHeadBelow(g, w.list);
  }

  lemma WalkHeadBelow(g: Graph, list: seq<Oid>)
    requires IsChain(g, list) && list != []
    ensures Generation(g, list[0]) <= Generation(g, list[|list| - 1])
  {
    ChainAncestors(g, list, 0, |list| - 1);
  }

  /** list is tip's unreached first-parent history, as far back as it descends from ref's present
      value, or where ref is absent all of it: the commit before its first is reached already, or does not, or
      there is none. */
  ghost predicate IsWalkTo(g: Graph, refs: RefMap, ref: Ref, tip: Oid, list: seq<Oid>) {
    && list != [] && IsChain(g, list) && list[|list| - 1] == tip && list[0] !in Have(g, refs)
    && (ref in refs ==> IsAncestor(g, refs[ref], list[0]))
    && (g.parents[list[0]] == [] || g.parents[list[0]][0] in Have(g, refs)
        || (ref in refs && !IsAncestor(g, refs[ref], g.parents[list[0]][0])))
  }

  lemma SuffixIsWalk(g: Graph, refs: RefMap, ref: Ref, tip: Oid, list: seq<Oid>, from: nat)
    requires list == FirstParents(g, tip, Have(g, refs)) && from < |list|
    requires if ref in refs
             then forall i :: 0 <= i < |list| ==> (IsAncestor(g, refs[ref], list[i]) <==> from <= i)
             else from == 0
    ensures IsWalkTo(g, refs, ref, tip, list[from..])
  {
    FirstParentsShape(g, tip, Have(g, refs));
    hide FirstParents, Have, IsAncestor;
    ChainFrom(g, list, from);
    assert list[from] in list;
  }

  lemma ChainFrom(g: Graph, list: seq<Oid>, from: nat)
    requires IsChain(g, list) && from < |list|
    ensures IsChain(g, list[from..])
    ensures from > 0 ==> g.parents[list[from]] != [] && g.parents[list[from]][0] == list[from - 1]
  {
  }

  /** The least index of list met in a stream of commits, in whatever order it comes. */
  method FirstInStream(list: seq<Oid>, path: set<Oid>) returns (first: nat)
    ensures first <= |list| && (first < |list| ==> list[first] in path)
    ensures forall i :: 0 <= i < first ==> list[i] !in path
  {
    var stream := path;
    first := |list|;
    while stream != {}
      invariant stream <= path && first <= |list|
      invariant first < |list| ==> list[first] in path
      invariant forall i :: 0 <= i < first && list[i] in path ==> list[i] in stream
      decreases stream
    {
      var line :| line in stream;
      var j := IndexOf(list, line);
      if j < first {
        first := j;
      }
      stream := stream - {line};
    }
  }

  /** rev-list --ancestry-path=at: the range's commits that at is an ancestor or a descendant of. */
  function AncestryPath(g: Graph, at: Oid, tip: Oid, negs: set<Oid>): set<Oid> {
    set c | c in History(g, tip) && c !in Reach(g, negs) && (IsAncestor(g, at, c) || IsAncestor(g, c, at))
  }

  function IndexOf(list: seq<Oid>, c: Oid): (i: nat)
    ensures i <= |list| && (i < |list| ==> list[i] == c)
    ensures forall j :: 0 <= j < i ==> list[j] != c
  {
    if list == [] || list[0] == c then 0 else 1 + IndexOf(list[1..], c)
  }

  predicate Reaches(q: QueuedRef, g: Graph, parent: Oid) {
    q.src.IsBranch() && IsAncestor(g, parent, q.src.oid)
  }

  /** The queue's branches that reach parent, those without the merge or those through it. */
  function Candidates(g: Graph, queue: seq<QueuedRef>, parent: Oid, merge: Oid, own: bool, n: nat): (c: seq<nat>)
    requires n <= |queue|
    ensures forall k :: 0 <= k < |c| ==>
              c[k] < n && Reaches(queue[c[k]], g, parent) && IsOwn(g, queue[c[k]], merge) == own
    ensures forall j, k :: 0 <= j < k < |c| ==> c[j] < c[k]
    ensures forall j :: 0 <= j < n && Reaches(queue[j], g, parent) && IsOwn(g, queue[j], merge) == own ==> j in c
  {
    if n == 0 then []
    else
      var before := Candidates(g, queue, parent, merge, own, n - 1);
      var q := queue[n - 1];
      if Reaches(q, g, parent) && IsOwn(g, q, merge) == own then before + [n - 1] else before
  }

  /** Candidates without the merge, then those with it. */
  function InPreference(g: Graph, queue: seq<QueuedRef>, parent: Oid, merge: Oid): (c: seq<nat>)
    ensures forall k :: 0 <= k < |c| ==> c[k] < |queue| && Reaches(queue[c[k]], g, parent)
    ensures forall j, k :: 0 <= j <= k < |c| ==> Preferred(g, queue, merge, c[j], c[k])
    ensures forall j :: 0 <= j < |queue| && Reaches(queue[j], g, parent) ==> j in c
  {
    Candidates(g, queue, parent, merge, true, |queue|) + Candidates(g, queue, parent, merge, false, |queue|)
  }

  /** What the workers are asked of each: a branch the repository does not hold is a find at once. */
  function Questions(g: Graph, refs: RefMap, queue: seq<QueuedRef>, parent: Oid, candidates: seq<nat>): (qs: seq<FirstFound.Question>)
    requires forall k :: 0 <= k < |candidates| ==> candidates[k] < |queue| && Reaches(queue[candidates[k]], g, parent)
    ensures |qs| == |candidates|
    ensures forall k :: 0 <= k < |qs| ==> (FirstFound.IsFind(qs[k]) <==> CanCarry(g, refs, queue[candidates[k]], parent))
  {
    seq(|candidates|, k requires 0 <= k < |candidates| => CarryQuestion(g, refs, queue[candidates[k]], parent))
  }

  function CarryQuestion(g: Graph, refs: RefMap, q: QueuedRef, parent: Oid): (question: FirstFound.Question)
    ensures Reaches(q, g, parent) ==> (FirstFound.IsFind(question) <==> CanCarry(g, refs, q, parent))
  {
    if q.src.ref !in refs then FirstFound.Now else FirstFound.Ask(IsAncestor(g, refs[q.src.ref], parent))
  }

  /** i is where the queue's preferred carrier of parent stands, if any branch can carry it. */
  ghost predicate IsCarrier(g: Graph, refs: RefMap, queue: seq<QueuedRef>, parent: Oid, merge: Oid, i: Option<nat>) {
    if i.None? then forall q :: q in queue ==> !CanCarry(g, refs, q, parent)
    else
      && i.value < |queue| && CanCarry(g, refs, queue[i.value], parent)
      && forall j :: 0 <= j < |queue| && CanCarry(g, refs, queue[j], parent) ==> Preferred(g, queue, merge, i.value, j)
  }

  lemma FirstCarries(g: Graph, refs: RefMap, queue: seq<QueuedRef>, parent: Oid, merge: Oid)
    ensures var candidates := InPreference(g, queue, parent, merge);
      var k := FirstFound.LeastFind(Questions(g, refs, queue, parent, candidates));
      IsCarrier(g, refs, queue, parent, merge, if k < |candidates| then Some(candidates[k]) else None)
  {
    hide InPreference, Questions, Preferred, FirstFound.LeastFind, FirstFound.IsFind, IsAncestor;
    var candidates := InPreference(g, queue, parent, merge);
    var questions := Questions(g, refs, queue, parent, candidates);
    var k := FirstFound.LeastFind(questions);
    forall j | 0 <= j < |queue| && CanCarry(g, refs, queue[j], parent)
      ensures k < |candidates| && Preferred(g, queue, merge, candidates[k], j)
    {
      assert Reaches(queue[j], g, parent) && j in candidates;
      var at :| 0 <= at < |candidates| && candidates[at] == j;
      assert FirstFound.IsFind(questions[at]);
    }
    assert forall q :: q in queue ==> exists j :: 0 <= j < |queue| && queue[j] == q;
  }

  /** Whatever the workers' interleaving, the minimum they leave is the carrier. */
  lemma EveryScheduleCarries(g: Graph, refs: RefMap, queue: seq<QueuedRef>, parent: Oid, merge: Oid, run: seq<FirstFound.State>)
    requires var candidates := InPreference(g, queue, parent, merge);
      FirstFound.Run(Questions(g, refs, queue, parent, candidates), run) && FirstFound.Done(run[|run| - 1])
    ensures var candidates := InPreference(g, queue, parent, merge);
      var k := run[|run| - 1].first;
      IsCarrier(g, refs, queue, parent, merge, if k < |candidates| then Some(candidates[k]) else None)
  {
    FirstFound.EveryScheduleFindsTheFirst(Questions(g, refs, queue, parent, InPreference(g, queue, parent, merge)), run);
    FirstCarries(g, refs, queue, parent, merge);
  }

  /** A first-parent list's commits that descend from a held ancestor of its tip are a suffix. */
  lemma SuffixDescends(g: Graph, at: Oid, tip: Oid, list: seq<Oid>, negs: set<Oid>, first: nat)
    requires list != [] && list == FirstParents(g, tip, Reach(g, negs))
    requires at in negs && IsAncestor(g, at, tip)
    requires first <= |list| && (first < |list| ==> list[first] in AncestryPath(g, at, tip, negs))
    requires forall i :: 0 <= i < first ==> list[i] !in AncestryPath(g, at, tip, negs)
    ensures first < |list|
    ensures forall i :: 0 <= i < |list| ==> (IsAncestor(g, at, list[i]) <==> first <= i)
  {
    FirstParentsShape(g, tip, Reach(g, negs));
    ReachContains(g, negs, at);
    forall i | 0 <= i < |list| ensures list[i] in AncestryPath(g, at, tip, negs) <==> IsAncestor(g, at, list[i]) {
      ChainAncestors(g, list, i, |list| - 1);
      assert list[i] in list;
    }
    assert list[|list| - 1] in AncestryPath(g, at, tip, negs);
    forall i | first <= i < |list| ensures IsAncestor(g, at, list[i]) {
      ChainAncestors(g, list, first, i);
      HistoryTransitive(g, at, list[first], list[i]);
    }
  }
}
