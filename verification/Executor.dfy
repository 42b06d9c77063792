/** One push and one planning at a time, as a machine of three parties: every order their turns can
    come in. */
module Executor {
  import opened Commits
  import opened Importing
  import opened Refs
  import opened Imports
  import ImportPlanning = Planner

  /** What a planning hands back on its channel. */
  datatype Planning = NextStep(step: Step) | NothingLeft | PlanError

  /** An import: what it asks of git and the node, the source, and the bytes the repository held
      before it. */
  datatype Job = Job(imp: Importer, want: Source, live: nat) {
    /** The packs one planning builds at most, as the planner proves of its own. */
    ghost function Most(): nat {
      ImportPlanning.SettlesAtMost(imp.graph)
    }
  }

  /** The planning goroutine: none, under way, perhaps with a pack built, and with so many left
      to build, or answered. */
  datatype Planner = NoPlanning | Running(building: bool, left: nat) | Answered(plan: Planning)

  /** The push goroutine: none, under way, or ended. */
  datatype Push = NoPush | Pushing(step: Step) | Ended(pushed: Step, ok: bool)

  /** Where execute is: at its loop's top; receiving from either channel, or from the one
      left; holding a plan; waiting out a planning it cancelled; or returned, without an error or
      with one. */
  datatype Where =
    | Top
    | Either
    | AwaitingPlan
    | AwaitingPush(plan: Planning)
    | Holding(held: Planning)
    | Cancelled
    | Returned(whole: bool)

  /** The executor and the world: theirs is the repository's refs, planned the refs as the plan
      has them, repos the steps' repositories on disk; held, plans and pushes are histories: the bytes
      the repository holds once all planned has landed, the steps planned and pushed, and whether a push
      failed or a planning ended in an error. */
  datatype State = State(at: Where, planner: Planner, push: Push,
                         theirs: RefMap, planned: RefMap, held: nat, repos: int,
                         steps: nat, sent: nat, stored: nat,
                         plans: seq<Step>, pushes: seq<Step>, landed: nat, failed: bool, erred: bool)

  function Init(job: Job, refs: RefMap): State {
    State(Top, NoPlanning, NoPush, refs, refs, job.live, 0, 0, 0, 0, [], [], 0, false, false)
  }

  datatype Turn =
    | StartPlanning
    | BuildPack
    | DropPack
    | Plan(plan: Planning)
    | EndPush(ok: bool, landed: bool)
    | ReceivePlan
    | ReceiveOutcome
    | StartPush
    | Return

  function PackOf(p: Planning): int {
    if p.NextStep? then 1 else 0
  }

  /** The turns that can be taken. As the planner proves of its own: a planned step is a push the
      repository takes after the steps planned before it, within one push's limits and, with
      all before it, the repository's; and nothing is left only where every kept ref is planned
      at the source's value. A push that lands moves the repository's refs, whole or not at
      all, and one that fails may have landed all the same. */
  ghost predicate Enabled(job: Job, s: State, t: Turn) {
    match t
    case StartPlanning => s.at.Top?
    case BuildPack => s.planner.Running? && !s.planner.building && s.planner.left > 0
    case DropPack => s.planner.Running? && s.planner.building
    case Plan(plan) =>
      && s.planner.Running?
      && (s.planner.building <==> plan.NextStep?)
      && (plan.NextStep? ==> PushOk(job.imp.graph, job.want, s.planned, plan.step.cmds)
                             && WithinLimits(job.imp, true, s.planned, plan.step) && s.held + plan.step.Stored() <= job.imp.repoMaxBytes)
      && (plan.NothingLeft? ==> Complete(job.want, s.planned))
    case EndPush(ok, landed) => s.push.Pushing? && (ok ==> landed)
    case ReceivePlan => s.planner.Answered? && (s.at.Either? || s.at.AwaitingPlan? || s.at.Cancelled?)
    case ReceiveOutcome => s.push.Ended? && (s.at.Either? || s.at.AwaitingPush?)
    case StartPush => s.at.Holding? && s.at.held.NextStep?
    case Return => s.at.Holding? && !s.at.held.NextStep?
  }

  function Landed(s: State, step: Step): State {
    s.(steps := s.steps + 1, sent := s.sent + step.size, stored := s.stored + step.Stored())
  }

  ghost function Taken(job: Job, s: State, t: Turn): State
    requires Enabled(job, s, t)
  {
    match t
    case StartPlanning =>
      s.(planner := Running(false, job.Most()), at := if s.push.NoPush? then AwaitingPlan else Either)
    case BuildPack => s.(planner := Running(true, s.planner.left - 1), repos := s.repos + 1)
    case DropPack => s.(planner := Running(false, s.planner.left), repos := s.repos - 1)
    case Plan(plan) =>
      if plan.NextStep?
      then s.(planner := Answered(plan), planned := Apply(s.planned, plan.step.cmds), held := s.held + plan.step.Stored(),
              plans := s.plans + [plan.step])
      else s.(planner := Answered(plan), erred := s.erred || plan.PlanError?)
    case EndPush(ok, landed) =>
      var step := s.push.step;
      s.(push := Ended(step, ok), repos := s.repos - 1, failed := !ok,
         theirs := if landed then Apply(s.theirs, step.cmds) else s.theirs,
         landed := if landed then s.landed + 1 else s.landed)
    case ReceivePlan =>
      var plan := s.planner.plan;
      if s.at.Cancelled? then s.(planner := NoPlanning, at := Returned(false), repos := s.repos - PackOf(plan))
      else s.(planner := NoPlanning, at := if s.at.Either? then AwaitingPush(plan) else Holding(plan))
    case ReceiveOutcome =>
      var next := s.(push := NoPush);
      if s.push.ok then Landed(next, s.push.pushed).(at := if s.at.Either? then AwaitingPlan else Holding(s.at.plan))
      else if s.at.Either? then next.(at := Cancelled)
      else next.(at := Returned(false), repos := s.repos - PackOf(s.at.plan))
    case StartPush =>
      s.(at := Top, push := Pushing(s.at.held.step), pushes := s.pushes + [s.at.held.step])
    case Return => s.(at := Returned(s.at.held.NothingLeft?))
  }

  // ---- what holds throughout ---------------------------------------------------------

  /** The step planned and not yet handed to a push. */
  function Unpushed(s: State): seq<Step> {
    if s.planner.Answered? && s.planner.plan.NextStep? then [s.planner.plan.step]
    else if s.at.AwaitingPush? && s.at.plan.NextStep? then [s.at.plan.step]
    else if s.at.Holding? && s.at.held.NextStep? then [s.at.held.step]
    else []
  }

  /** The pushes landed as the executor counts them: those it has read the outcome of. */
  function Counted(s: State): nat {
    if !s.push.NoPush? || s.failed then |s.pushes| - (if s.pushes == [] then 0 else 1) else |s.pushes|
  }

  ghost predicate Shape(s: State) {
    && (s.at.Top? || s.at.Holding? || s.at.AwaitingPush? || s.at.Returned? ==> s.planner.NoPlanning?)
    && (s.at.Either? || s.at.AwaitingPlan? || s.at.Cancelled? ==> !s.planner.NoPlanning?)
    && (s.at.AwaitingPlan? || s.at.Holding? || s.at.Cancelled? || s.at.Returned? ==> s.push.NoPush?)
    && (s.at.Either? || s.at.AwaitingPush? ==> !s.push.NoPush?)
    && (!s.push.NoPush? ==> s.pushes != [] && s.pushes[|s.pushes| - 1] == (if s.push.Pushing? then s.push.step else s.push.pushed))
    && (s.failed <==> (s.push.Ended? && !s.push.ok) || s.at.Cancelled? || (s.at.Returned? && s.failed))
    && (s.failed ==> s.pushes != [])
  }

  /** Pushes are the plan's steps in its order; at most one step is planned beyond them. */
  ghost predicate OrderOk(s: State) {
    if s.at.Returned? && s.failed then s.pushes <= s.plans else s.plans == s.pushes + Unpushed(s)
  }

  /** The plan is a run of pushes the repository takes, and has its refs as that run leaves them. */
  ghost predicate PlanOk(job: Job, refs: RefMap, s: State) {
    RunOk(job.imp.graph, job.want, refs, Pushes(s.plans)) && s.planned == Replay(refs, Pushes(s.plans))
  }

  /** Whether this is the plan in hand. */
  predicate InHand(s: State, plan: Planning) {
    || (s.planner.Answered? && s.planner.plan == plan)
    || (s.at.AwaitingPush? && s.at.plan == plan)
    || (s.at.Holding? && s.at.held == plan)
  }

  /** Every planned step is within its limits, and all of them together with what the
      repository held within the repository's. */
  ghost predicate LimitsOk(job: Job, refs: RefMap, s: State) {
    && AllWithin(job.imp, true, refs, s.plans)
    && s.held == job.live + StoredBytes(s.plans) && (s.plans != [] ==> s.held <= job.imp.repoMaxBytes)
  }

  /** Nothing left is the whole import planned, and a return without an error is of that, no push having
      failed and no planning. */
  ghost predicate EndOk(job: Job, s: State) {
    && (InHand(s, NothingLeft) || (s.at.Returned? && s.at.whole) ==> Complete(job.want, s.planned))
    && (if s.at.Returned? then s.at.whole <==> !s.failed && !s.erred else s.erred <==> InHand(s, PlanError))
  }

  /** The repository is at a prefix of the plan: all that was pushed, but perhaps the last. */
  ghost predicate RealOk(refs: RefMap, s: State) {
    && s.landed <= |s.pushes| && s.theirs == Replay(refs, Pushes(s.pushes[..s.landed]))
    && (s.push.Pushing? ==> s.landed == |s.pushes| - 1)
    && (!s.push.Pushing? && !s.failed ==> s.landed == |s.pushes|)
    && (s.failed ==> |s.pushes| - 1 <= s.landed)
  }

  /** What is counted is what landed, but for a push whose outcome is still to be read. */
  ghost predicate TotalsOk(s: State) {
    && s.steps == Counted(s)
    && s.sent == SentBytes(s.pushes[..s.steps]) && s.stored == StoredBytes(s.pushes[..s.steps])
  }

  /** A repository for the step being pushed, and one for the step planned or being built. */
  ghost predicate ReposOk(s: State) {
    s.repos == (if s.push.Pushing? then 1 else 0) + (if s.planner.Running? && s.planner.building then 1 else 0) + |Unpushed(s)|
  }

  ghost predicate Inv(job: Job, refs: RefMap, s: State) {
    Shape(s) && OrderOk(s) && PlanOk(job, refs, s) && LimitsOk(job, refs, s) && EndOk(job, s) && RealOk(refs, s) && TotalsOk(s) && ReposOk(s)
  }

  lemma InitOk(job: Job, refs: RefMap)
    ensures Inv(job, refs, Init(job, refs))
  {
    assert Pushes([]) == [];
    assert Init(job, refs).pushes[..0] == [];
  }

  lemma ShapeKept(job: Job, s: State, t: Turn)
    requires Shape(s) && Enabled(job, s, t)
    ensures Shape(Taken(job, s, t))
  {
  }

  lemma OrderKept(job: Job, s: State, t: Turn)
    requires Shape(s) && OrderOk(s) && Enabled(job, s, t)
    ensures OrderOk(Taken(job, s, t))
  {
  }

  lemma PlanKept(job: Job, refs: RefMap, s: State, t: Turn)
    requires PlanOk(job, refs, s) && Enabled(job, s, t)
    ensures PlanOk(job, refs, Taken(job, s, t))
  {
    hide RunOk, Replay, PushOk, Apply;
    if t.Plan? && t.plan.NextStep? {
      RunGrows(job.imp.graph, job.want, refs, s.plans, t.plan.step);
    }
  }

  lemma PlanHas(job: Job, refs: RefMap, s: State)
    requires PlanOk(job, refs, s)
    ensures s.planned == Replay(refs, Pushes(s.plans))
  {
  }

  lemma LimitsKept(job: Job, refs: RefMap, s: State, t: Turn)
    requires LimitsOk(job, refs, s) && s.planned == Replay(refs, Pushes(s.plans)) && Enabled(job, s, t)
    ensures LimitsOk(job, refs, Taken(job, s, t))
  {
    hide PushOk, Apply, WithinLimits, AllWithin, Complete, StoredBytes, Replay;
    if t.Plan? && t.plan.NextStep? {
      var s' := Taken(job, s, t);
      StoredGrows(s.plans, t.plan.step);
      WithinGrows(job.imp, true, refs, s.plans, t.plan.step);
      assert s'.plans == s.plans + [t.plan.step] && s'.held == s.held + t.plan.step.Stored();
    }
  }

  lemma EndKept(job: Job, s: State, t: Turn)
    requires Shape(s) && EndOk(job, s) && Enabled(job, s, t)
    ensures EndOk(job, Taken(job, s, t))
  {
    hide Complete, PushOk, Apply;
  }

  lemma RealKept(job: Job, refs: RefMap, s: State, t: Turn)
    requires Shape(s) && RealOk(refs, s) && Enabled(job, s, t)
    ensures RealOk(refs, Taken(job, s, t))
  {
    hide Replay, Apply, PushOk;
    PushLands(refs, s.pushes, s.landed);
    assert Taken(job, s, t).pushes[..s.landed] == s.pushes[..s.landed];
  }

  lemma TotalsKept(job: Job, s: State, t: Turn)
    requires Shape(s) && TotalsOk(s) && Enabled(job, s, t)
    ensures TotalsOk(Taken(job, s, t))
  {
    hide PushOk, Apply, SentBytes, StoredBytes;
    assert s.pushes[..|s.pushes|] == s.pushes;
    CountGrows(s.pushes);
    assert Taken(job, s, t).pushes[..s.steps] == s.pushes[..s.steps];
  }

  lemma ReposKept(job: Job, s: State, t: Turn)
    requires Shape(s) && ReposOk(s) && Enabled(job, s, t)
    ensures ReposOk(Taken(job, s, t))
  {
    hide PushOk, Apply;
  }

  lemma TakenKeeps(job: Job, refs: RefMap, s: State, t: Turn)
    requires Inv(job, refs, s) && Enabled(job, s, t)
    ensures Inv(job, refs, Taken(job, s, t))
  {
    hide Shape, OrderOk, PlanOk, LimitsOk, EndOk, RealOk, TotalsOk, ReposOk, Taken, Enabled;
    ShapeKept(job, s, t);
    OrderKept(job, s, t);
    PlanKept(job, refs, s, t);
    PlanHas(job, refs, s);
    LimitsKept(job, refs, s, t);
    EndKept(job, s, t);
    RealKept(job, refs, s, t);
    TotalsKept(job, s, t);
    ReposKept(job, s, t);
  }

  lemma PushLands(refs: RefMap, pushes: seq<Step>, k: nat)
    ensures k < |pushes| ==>
              Apply(Replay(refs, Pushes(pushes[..k])), pushes[k].cmds) == Replay(refs, Pushes(pushes[..k + 1]))
  {
    if k < |pushes| {
      var longer := Pushes(pushes[..k + 1]);
      assert longer[..k] == Pushes(pushes[..k]);
    }
  }

  lemma CountGrows(pushes: seq<Step>)
    ensures pushes != [] ==> var n := |pushes| - 1;
      && SentBytes(pushes) == SentBytes(pushes[..n]) + pushes[n].size
      && StoredBytes(pushes) == StoredBytes(pushes[..n]) + pushes[n].Stored()
  {
  }

  // ---- what it means --------------------------------------------------------------------

  ghost predicate Next(job: Job, s: State, s': State) {
    exists t :: Enabled(job, s, t) && s' == Taken(job, s, t)
  }

  /** An interleaving, from the import's start. */
  ghost predicate Run(job: Job, refs: RefMap, run: seq<State>) {
    && run != [] && run[0] == Init(job, refs)
    && forall k :: 0 < k < |run| ==> Next(job, run[k - 1], run[k])
  }

  lemma {:induction false} RunOfOk(job: Job, refs: RefMap, run: seq<State>)
    requires Run(job, refs, run)
    ensures Inv(job, refs, run[|run| - 1])
    decreases |run|
  {
    hide Inv, Enabled, Taken;
    if |run| == 1 {
      InitOk(job, refs);
    } else {
      var before := run[|run| - 2];
      RunOfOk(job, refs, run[..|run| - 1]);
      assert Next(job, before, run[|run| - 1]);
      var t :| Enabled(job, before, t) && run[|run| - 1] == Taken(job, before, t);
      TakenKeeps(job, refs, before, t);
    }
  }

  /** When a push starts, the repository's refs are those its step was planned against: its
      commands are a push the repository takes as it stands. */
  lemma PushStartsWhereItWasPlanned(job: Job, refs: RefMap, run: seq<State>, s: State)
    requires Run(job, refs, run) && s == run[|run| - 1] && s.at.Holding? && s.at.held.NextStep?
    ensures PushOk(job.imp.graph, job.want, s.theirs, s.at.held.step.cmds)
    // The copy it sends, and what is stored of it, are within their limits as the refs stand.
    ensures WithinLimits(job.imp, true, s.theirs, s.at.held.step)
    ensures s.planned == Apply(s.theirs, s.at.held.step.cmds)
    ensures !s.failed && s.push.NoPush? && s.landed == |s.pushes|
  {
    hide Replay, PushOk, Apply, WithinLimits;
    RunOfOk(job, refs, run);
    var k := |s.pushes|;
    assert s.plans == s.pushes + [s.at.held.step];
    assert s.pushes[..k] == s.pushes;
    assert s.plans[..k] == s.pushes && s.plans[..k + 1] == s.plans;
    assert Pushes(s.plans)[..k] == Pushes(s.pushes);
    PushLands(refs, s.plans, k);
  }

  /** At every instant, whatever a crash leaves: at most two steps' repositories, at most one
      push, and the repository at a prefix of the plan's pushes, each within one push's limits
      and all of it within the repository's, so that the import run again goes on from there. */
  lemma EveryInstant(job: Job, src: seq<SourceRef>, refs: RefMap, run: seq<State>, s: State)
    requires SourceRefsOk(job.imp.graph, src) && forall j :: 0 <= j < |src| ==> Resumable(job.imp.graph, refs, src[j])
    requires job.want == Wanted(src) && Run(job, refs, run) && s == run[|run| - 1]
    ensures 0 <= s.repos <= 2
    ensures s.pushes <= s.plans && s.landed <= |s.plans| && s.theirs == Replay(refs, Pushes(s.plans)[..s.landed])
    ensures RunOk(job.imp.graph, Wanted(src), refs, Pushes(s.plans))
    ensures AllWithin(job.imp, true, refs, s.plans)
    ensures s.landed > 0 ==> job.live + StoredBytes(s.plans[..s.landed]) <= job.live + StoredBytes(s.plans) <= job.imp.repoMaxBytes
    ensures forall j :: 0 <= j < |src| ==> Resumable(job.imp.graph, s.theirs, src[j])
  {
    hide Replay, RunOk, Wanted, Resumable, StoredBytes, WithinLimits, AllWithin;
    RunOfOk(job, refs, run);
    assert Pushes(s.plans)[..s.landed] == Pushes(s.pushes[..s.landed]);
    StoredPrefix(s.plans, s.landed);
    ResumesAfterAnyPrefix(job.imp.graph, src, refs, FirstBranch(src, "", ""), Pushes(s.plans), s.landed);
  }

  lemma {:induction false} StoredPrefix(steps: seq<Step>, k: nat)
    requires k <= |steps|
    ensures StoredBytes(steps[..k]) <= StoredBytes(steps)
    decreases |steps|
  {
    if k < |steps| {
      var init := steps[..|steps| - 1];
      assert init[..k] == steps[..k];
      StoredPrefix(init, k);
    } else {
      assert steps[..k] == steps;
    }
  }

  /** On every return: no repository left, no planning and no push running, nothing pushed
      after a failure, and what is counted is the prefix of the plan that landed. */
  lemma EveryReturn(job: Job, refs: RefMap, run: seq<State>, s: State)
    requires Run(job, refs, run) && s == run[|run| - 1] && s.at.Returned?
    ensures s.repos == 0 && s.planner.NoPlanning? && s.push.NoPush?
    ensures s.steps == |s.pushes| - (if s.failed then 1 else 0)
    ensures s.steps <= |s.plans| && s.sent == SentBytes(s.plans[..s.steps]) && s.stored == StoredBytes(s.plans[..s.steps])
    // What is proved after a return without an error holds.
    ensures s.at.whole ==> Complete(job.want, s.theirs)
    // It is without an error exactly where no push failed and no planning ended in one.
    ensures s.at.whole <==> !s.failed && !s.erred
    // Where no push failed the repository is as the whole plan leaves it.
    ensures !s.failed ==> s.landed == s.steps == |s.plans| && s.theirs == s.planned == Replay(refs, Pushes(s.plans))
    ensures s.failed ==> s.landed == s.steps || s.landed == s.steps + 1
  {
    hide Replay, RunOk, SentBytes, StoredBytes, Apply, Pushes, Run, Unpushed, Complete;
    RunOfOk(job, refs, run);
    assert s.pushes[..s.steps] == s.plans[..s.steps];
    assert s.pushes[..|s.pushes|] == s.pushes;
    NothingInHand(s);
    assert !s.failed ==> s.plans == s.pushes;
  }

  lemma NothingInHand(s: State)
    requires s.at.Returned? && Shape(s)
    ensures Unpushed(s) == []
  {
  }

  /** A failed push is the last: nothing is pushed after it. */
  lemma NothingAfterAFailure(job: Job, refs: RefMap, run: seq<State>, s: State, t: Turn)
    requires Run(job, refs, run) && s == run[|run| - 1] && s.failed && Enabled(job, s, t)
    ensures Taken(job, s, t).failed && Taken(job, s, t).pushes == s.pushes && Taken(job, s, t).theirs == s.theirs
  {
    RunOfOk(job, refs, run);
  }

  /** A push may fail having landed or not, and a planning in an error, at any time; a planning builds while
      it may, and what it built it may drop. */
  lemma AnyOutcomeMayCome(job: Job, s: State)
    ensures s.push.Pushing? ==> Enabled(job, s, EndPush(true, true)) && Enabled(job, s, EndPush(false, true)) && Enabled(job, s, EndPush(false, false))
    ensures s.planner.Running? && !s.planner.building ==> Enabled(job, s, Plan(PlanError)) && (s.planner.left > 0 ==> Enabled(job, s, BuildPack))
    ensures s.planner.Running? && s.planner.building ==> Enabled(job, s, DropPack)
  {
  }

  /** A push that failed is heard at once, whatever the planning beside it is at, and ends it. */
  lemma AFailureCancels(job: Job, refs: RefMap, run: seq<State>, s: State)
    requires Run(job, refs, run) && s == run[|run| - 1] && s.push.Ended? && !s.push.ok && !s.planner.NoPlanning?
    ensures Enabled(job, s, ReceiveOutcome)
    ensures Taken(job, s, ReceiveOutcome).at.Cancelled? && Taken(job, s, ReceiveOutcome).planner == s.planner
  {
    RunOfOk(job, refs, run);
  }

  /** The next step is planned and built while the one before it is pushed: whatever the push is at, a
      planning starts and takes each of its turns, and whatever the planning is at, a push ends. */
  lemma NeitherWaitsForTheOther(job: Job, refs: RefMap, run: seq<State>, s: State, t: Turn, push: Push, planner: Planner)
    requires Run(job, refs, run) && s == run[|run| - 1]
    ensures s.at.Top? ==> Enabled(job, s, StartPlanning)
    ensures t.BuildPack? || t.DropPack? || t.Plan? ==> (Enabled(job, s, t) <==> Enabled(job, s.(push := push), t))
    ensures t.EndPush? ==> (Enabled(job, s, t) <==> Enabled(job, s.(planner := planner), t))
  {
  }

  /** Until it returns the executor can go on, however the planning ends. */
  lemma NeverStuck(job: Job, refs: RefMap, run: seq<State>, s: State) returns (t: Turn)
    requires Run(job, refs, run) && s == run[|run| - 1] && !s.at.Returned?
    ensures Enabled(job, s, t)
  {
    RunOfOk(job, refs, run);
    t := if s.push.Pushing? then EndPush(false, false)
         else if s.at.Top? then StartPlanning
         else if s.planner.Running? && s.planner.building then DropPack
         else if s.planner.Running? then Plan(PlanError)
         else if s.planner.Answered? && !s.at.AwaitingPush? then ReceivePlan
         else if s.at.AwaitingPush? then ReceiveOutcome
         else if s.at.held.NextStep? then StartPush else Return;
  }

  // ---- it comes to an end -----------------------------------------------------------------

  /** What is left to do of a plan in hand: its push, and another planning after it. */
  ghost function RestOf(job: Job, plan: Planning): nat {
    if plan.NextStep? then 2 * job.Most() + 7 else 1
  }

  ghost function WhereRank(job: Job, at: Where): nat {
    match at
    case Top => 2 * job.Most() + 4
    case Holding(plan) => RestOf(job, plan)
    case AwaitingPush(plan) => RestOf(job, plan)
    case _ => 0
  }

  ghost function PlannerRank(job: Job, planner: Planner): nat {
    match planner
    case NoPlanning => 0
    case Running(building, left) => 2 * left + (if building then 1 else 0) + 3
    case Answered(plan) => 1 + RestOf(job, plan)
  }

  function PushRank(push: Push): nat {
    if push.Pushing? then 2 else if push.Ended? then 1 else 0
  }

  ghost function LocalRank(job: Job, s: State): nat {
    WhereRank(job, s.at) + PlannerRank(job, s.planner) + PushRank(s.push)
  }

  /** A planning's turns and a push's. */
  ghost function Cycle(job: Job): nat {
    2 * job.Most() + 8
  }

  function Times(a: nat, b: nat): nat {
    if b == 0 then 0 else a + Times(a, b - 1)
  }

  lemma {:induction false} TimesIs(a: nat, b: nat)
    ensures Times(a, b) == a * b
  {
    if b > 0 {
      TimesIs(a, b - 1);
      assert a * b == a + a * (b - 1);
    }
  }

  lemma {:induction false} FewerTimes(a: nat, b: nat, fewer: nat)
    requires fewer < b
    ensures Times(a, fewer) + a <= Times(a, b)
  {
    if fewer + 1 < b {
      FewerTimes(a, b - 1, fewer);
    }
  }

  /** The turns left at most: for every commit and ref the plan leaves, a planning and a push. */
  ghost function Rank(job: Job, s: State): nat {
    Times(Cycle(job), Work(job.imp.graph, job.want, s.planned)) + LocalRank(job, s)
  }

  lemma TurnRanks(job: Job, s: State, t: Turn)
    requires SourceOk(job.imp.graph, job.want) && Enabled(job, s, t)
    ensures Rank(job, Taken(job, s, t)) < Rank(job, s)
  {
    LocalRanks(job, s, t);
    PlannedBy(job, s, t);
    hide LocalRank, Times, Cycle, Work, PushOk, SourceOk, Taken, Enabled;
    if t.Plan? && t.plan.NextStep? {
      PushShrinksWork(job.imp.graph, job.want, s.planned, t.plan.step.cmds);
      FewerTimes(Cycle(job), Work(job.imp.graph, job.want, s.planned), Work(job.imp.graph, job.want, Taken(job, s, t).planned));
    }
  }

  lemma PlannedBy(job: Job, s: State, t: Turn)
    requires Enabled(job, s, t)
    ensures if t.Plan? && t.plan.NextStep?
            then Taken(job, s, t).planned == Apply(s.planned, t.plan.step.cmds) && PushOk(job.imp.graph, job.want, s.planned, t.plan.step.cmds)
            else Taken(job, s, t).planned == s.planned
  {
    hide PushOk, Complete, WithinLimits, Apply;
  }

  /** A turn brings the machine nearer its end, but for a step planned, which costs a cycle. */
  lemma LocalRanks(job: Job, s: State, t: Turn)
    requires Enabled(job, s, t)
    ensures LocalRank(job, Taken(job, s, t)) < LocalRank(job, s) + if t.Plan? && t.plan.NextStep? then Cycle(job) else 0
  {
    hide Job.Most, Replay, StoredBytes;
    hide Work, PushOk, Complete, WithinLimits, Apply;
  }

  /** Every interleaving ends: within a planning and a push for each commit and ref there is to
      import, and one planning more. */
  lemma {:induction false} EveryRunEnds(job: Job, refs: RefMap, run: seq<State>)
    requires SourceOk(job.imp.graph, job.want) && Run(job, refs, run)
    ensures |run| - 1 <= (2 * job.Most() + 8) * (Work(job.imp.graph, job.want, refs) + 1)
  {
    RunRanks(job, refs, run);
    TimesIs(Cycle(job), Work(job.imp.graph, job.want, refs) + 1);
  }

  lemma {:induction false} RunRanks(job: Job, refs: RefMap, run: seq<State>)
    requires SourceOk(job.imp.graph, job.want) && Run(job, refs, run)
    ensures |run| - 1 + Rank(job, run[|run| - 1]) <= Times(Cycle(job), Work(job.imp.graph, job.want, refs) + 1)
    decreases |run|
  {
    hide Enabled, Taken, Work, SourceOk, Times;
    if |run| == 1 {
      FewerTimes(Cycle(job), Work(job.imp.graph, job.want, refs) + 1, Work(job.imp.graph, job.want, refs));
    } else {
      hide Rank, Cycle;
      var s := run[|run| - 2];
      RunRanks(job, refs, run[..|run| - 1]);
      assert Next(job, s, run[|run| - 1]);
      var t :| Enabled(job, s, t) && run[|run| - 1] == Taken(job, s, t);
      TurnRanks(job, s, t);
    }
  }
}
