/** Whole imports: what the repository already holds, the plan run to its end, and an import
    run again after any of its pushes. */
module Imports {
  import opened Commits
  import opened Importing
  import opened Options
  import opened Planner
  import opened Plans
  import opened Refs
  import opened RemoteRefs
  import FirstFound

  // ---- what is left to push -----------------------------------------------------------

  /** The source's refs by name; two of one name are no source. */
  function Wanted(src: seq<SourceRef>): Source {
    if src == [] then map[] else Wanted(src[..|src| - 1])[src[|src| - 1].ref := src[|src| - 1]]
  }

  ghost predicate SourceRefsOk(g: Graph, src: seq<SourceRef>) {
    && (forall r :: r in src ==> r.oid in g.parents)
    && forall i, j :: 0 <= i < j < |src| ==> src[i].ref != src[j].ref
  }

  function IsWalked(r: SourceRef, first: Option<Ref>): bool {
    first == Some(r.ref) && r.IsBranch()
  }

  /** The refs left to push, those walked and those not, each in the source's order. */
  function LeftToPush(src: seq<SourceRef>, theirs: RefMap, first: Option<Ref>, walked: bool): seq<QueuedRef> {
    if src == [] then []
    else
      var before, r := LeftToPush(src[..|src| - 1], theirs, first, walked), src[|src| - 1];
      if !AtValue(theirs, r) && IsWalked(r, first) == walked then before + [QueuedRef(r, walked)] else before
  }

  /** What an import starts from: the walked branch first, then the rest. */
  function LeftQueue(src: seq<SourceRef>, theirs: RefMap, first: Option<Ref>): seq<QueuedRef> {
    LeftToPush(src, theirs, first, true) + LeftToPush(src, theirs, first, false)
  }

  /** The branch imported first: the one the repository is declared with, or else the source's. */
  function FirstBranch(src: seq<SourceRef>, declared: Ref, head: Ref): Option<Ref> {
    if declared in Wanted(src) then Some(declared) else if head in Wanted(src) then Some(head) else None
  }

  /** The refs only the repository holds. */
  function TheirsOnly(src: seq<SourceRef>, theirs: RefMap): set<Ref> {
    theirs.Keys - Wanted(src).Keys
  }

  lemma OnlyTheirs(g: Graph, src: seq<SourceRef>, theirs: RefMap)
    requires SourceRefsOk(g, src)
    ensures TheirsOnly(src, theirs) == set t | t in theirs && (forall s :: s in src ==> s.ref != t) :: t
  {
    WantedHas(g, src);
  }

  datatype Resumed = Ready(queue: seq<QueuedRef>) | Diverged(at: SourceRef) | TooManyRefs

  /** What the workers asked of a source's i-th ref: whether it fails to descend from where the
      repository holds it. */
  function DescendsQuestion(g: Graph, theirs: RefMap, r: SourceRef): FirstFound.Question {
    if r.ref !in theirs || AtValue(theirs, r) || !r.IsBranch() || theirs[r.ref] !in g.parents then FirstFound.Skip
    else FirstFound.Ask(!IsAncestor(g, theirs[r.ref], r.oid))
  }

  function DescendsQuestions(g: Graph, theirs: RefMap, src: seq<SourceRef>): (qs: seq<FirstFound.Question>)
    ensures |qs| == |src| && forall i :: 0 <= i < |src| ==> qs[i] == DescendsQuestion(g, theirs, src[i])
  {
    seq(|src|, i requires 0 <= i < |src| => DescendsQuestion(g, theirs, src[i]))
  }

  /** What every schedule of the workers delivers: answers right up to the first that fails. */
  ghost predicate RightUpToFirst(g: Graph, theirs: RefMap, src: seq<SourceRef>, descends: seq<bool>) {
    var qs := DescendsQuestions(g, theirs, src);
    && |descends| == |src|
    && forall i :: 0 <= i < |src| && i <= FirstFound.LeastFind(qs) && qs[i].Ask? ==> descends[i] == !qs[i].find
  }

  /** What descendants hands back of a run of its workers. */
  function Descends(answers: seq<Option<bool>>): (d: seq<bool>)
    ensures |d| == |answers| && forall i :: 0 <= i < |d| ==> d[i] == (answers[i] == Some(false))
  {
    seq(|answers|, i requires 0 <= i < |answers| => answers[i] == Some(false))
  }

  lemma EveryScheduleIsRight(g: Graph, theirs: RefMap, src: seq<SourceRef>, run: seq<FirstFound.State>)
    requires FirstFound.Run(DescendsQuestions(g, theirs, src), run) && FirstFound.Done(run[|run| - 1])
    ensures RightUpToFirst(g, theirs, src, Descends(run[|run| - 1].answers))
  {
    FirstFound.EveryScheduleFindsTheFirst(DescendsQuestions(g, theirs, src), run);
  }

  // ---- resuming -------------------------------------------------------------------------

  /** Accepts the repository's refs with a queue of those unfinished, or refuses at the least index
      whose ref cannot be resumed. */
  method Resume(g: Graph, src: seq<SourceRef>, theirs: RefMap, declared: Ref, head: Ref, descends: seq<bool>) returns (r: Resumed)
    requires SourceRefsOk(g, src) && |descends| == |src| && RightUpToFirst(g, theirs, src, descends)
    ensures r.Diverged? <==> exists i :: 0 <= i < |src| && !Resumable(g, theirs, src[i])
    ensures r.Diverged? ==> exists i :: 0 <= i < |src| && r.at == src[i] && !Resumable(g, theirs, src[i])
                                          && forall j :: 0 <= j < i ==> Resumable(g, theirs, src[j])
    ensures !r.Diverged? ==>
      (r.TooManyRefs? <==> |src| + |set t | t in theirs && (forall s :: s in src ==> s.ref != t) :: t| > MaxRefsPerRepo)
    ensures r.Ready? ==> IsLeftOf(src, theirs, declared, head, r.queue)
    ensures r.Ready? ==> r.queue == LeftQueue(src, theirs, FirstBranch(src, declared, head))
    ensures r.Ready? ==> Inv(g, Wanted(src), Plan(theirs, r.queue, []))
  {
    hide Inv, LeftQueue, RightUpToFirst, Resumable, IsLeftOf;
    var first := FirstBranch(src, declared, head);
    var i, queue := Scan(g, src, theirs, first, descends);
    if i < |src| {
      return Diverged(src[i]);
    }
    OnlyTheirs(g, src, theirs);
    if |src| + |TheirsOnly(src, theirs)| > MaxRefsPerRepo {
      return TooManyRefs;
    }
    LeftIsPlan(g, src, theirs, first);
    LeftIs(g, src, theirs, declared, head);
    return Ready(queue);
  }

  // ---- which refs are left, and in what order ------------------------------------------------

  /** The branch imported first: the one the repository is declared with, or where the source has no ref of
      that name, its own. */
  ghost predicate IsImportedFirst(src: seq<SourceRef>, declared: Ref, head: Ref, s: SourceRef) {
    s in src && s.IsBranch() && (s.ref == declared || (s.ref == head && forall t :: t in src ==> t.ref != declared))
  }

  /** These refs' places among the source's, in its order. */
  ghost predicate ArePlaces(refs: seq<QueuedRef>, src: seq<SourceRef>, at: seq<nat>) {
    && |at| == |refs| && (forall i, j :: 0 <= i < j < |at| ==> at[i] < at[j])
    && forall i :: 0 <= i < |at| ==> at[i] < |src| && src[at[i]] == refs[i].src
  }

  ghost predicate InOrder(refs: seq<QueuedRef>, src: seq<SourceRef>) {
    exists at: seq<nat> :: ArePlaces(refs, src, at)
  }

  /** The queue is of the refs short of their source value, each once: the branch imported first at its
      head and marked, and the others, unmarked, in the source's order. */
  ghost predicate IsLeftOf(src: seq<SourceRef>, theirs: RefMap, declared: Ref, head: Ref, queue: seq<QueuedRef>) {
    && DistinctQueue(queue) && (forall q :: q in queue ==> q.src in src && !AtValue(theirs, q.src))
    && (forall s :: s in src && !AtValue(theirs, s) ==> exists walk :: QueuedRef(s, walk) in queue)
    && (forall s :: IsImportedFirst(src, declared, head, s) && !AtValue(theirs, s) ==> queue != [] && queue[0] == QueuedRef(s, true))
    && (forall i :: 0 <= i < |queue| && queue[i].walk ==> i == 0 && IsImportedFirst(src, declared, head, queue[0].src))
    && InOrder(if queue != [] && queue[0].walk then queue[1..] else queue, src)
  }

  lemma LeftIs(g: Graph, src: seq<SourceRef>, theirs: RefMap, declared: Ref, head: Ref)
    requires SourceRefsOk(g, src)
    ensures IsLeftOf(src, theirs, declared, head, LeftQueue(src, theirs, FirstBranch(src, declared, head)))
  {
    hide AtValue, SourceRef.IsBranch, Wanted, LeftToPush, FirstBranch, IsWalked, DistinctQueue,
         IsImportedFirst, InOrder, SourceRefsOk;
    var first := FirstBranch(src, declared, head);
    LeftQueueHas(g, src, theirs, first);
    FirstIs(g, src, declared, head);
    var walked, rest := LeftToPush(src, theirs, first, true), LeftToPush(src, theirs, first, false);
    LeftHas(g, src, theirs, first, true);
    LeftHas(g, src, theirs, first, false);
    OnlyOneWalked(g, src, theirs, first);
    OneThenRest(walked, rest);
    LeftInOrder(src, theirs, first);
    forall s | IsImportedFirst(src, declared, head, s) && !AtValue(theirs, s) ensures QueuedRef(s, true) in walked {
      FirstIsOfSource(src, declared, head, s);
    }
  }

  lemma OneThenRest(walked: seq<QueuedRef>, rest: seq<QueuedRef>)
    requires |walked| <= 1 && (forall q :: q in walked ==> q.walk) && forall q :: q in rest ==> !q.walk
    ensures var queue := walked + rest;
      && rest == (if queue != [] && queue[0].walk then queue[1..] else queue)
      && (forall q :: q in walked ==> queue != [] && queue[0] == q)
      && forall i :: 0 <= i < |queue| && queue[i].walk ==> i == 0 && queue[0] in walked
  {
    assert forall i :: |walked| <= i < |walked + rest| ==> (walked + rest)[i] in rest;
    assert walked == [] ==> walked + rest == rest;
  }

  lemma FirstIsOfSource(src: seq<SourceRef>, declared: Ref, head: Ref, s: SourceRef)
    requires IsImportedFirst(src, declared, head, s)
    ensures s in src
  {
  }

  lemma FirstIs(g: Graph, src: seq<SourceRef>, declared: Ref, head: Ref)
    requires SourceRefsOk(g, src)
    ensures forall s :: s in src ==> (IsWalked(s, FirstBranch(src, declared, head)) <==> IsImportedFirst(src, declared, head, s))
  {
    WantedHas(g, src);
    hide Wanted, SourceRef.IsBranch;
  }

  lemma {:induction false} OnlyOneWalked(g: Graph, src: seq<SourceRef>, theirs: RefMap, first: Option<Ref>)
    requires SourceRefsOk(g, src)
    ensures |LeftToPush(src, theirs, first, true)| <= 1
  {
    if src != [] {
      var init := src[..|src| - 1];
      OnlyOneWalked(g, init, theirs, first);
      if IsWalked(src[|src| - 1], first) {
        OneWalked(init, theirs, first, src[|src| - 1]);
      }
    }
  }

  lemma {:induction false} LeftInOrder(src: seq<SourceRef>, theirs: RefMap, first: Option<Ref>)
    ensures InOrder(LeftToPush(src, theirs, first, false), src)
  {
    hide AtValue, IsWalked, InOrder;
    NoneInOrder(src);
    if src != [] {
      LeftInOrder(src[..|src| - 1], theirs, first);
      OneMoreInOrder(src, LeftToPush(src[..|src| - 1], theirs, first, false), QueuedRef(src[|src| - 1], false));
    }
  }

  lemma NoneInOrder(src: seq<SourceRef>)
    ensures InOrder([], src)
  {
    assert ArePlaces([], src, []);
  }

  lemma OneMoreInOrder(src: seq<SourceRef>, before: seq<QueuedRef>, last: QueuedRef)
    requires src != [] && InOrder(before, src[..|src| - 1]) && last.src == src[|src| - 1]
    ensures InOrder(before, src) && InOrder(before + [last], src)
  {
    var n := |src| - 1;
    var at: seq<nat> :| ArePlaces(before, src[..n], at);
    assert ArePlaces(before, src, at);
    assert ArePlaces(before + [last], src, at + [n]);
  }

  /** The refs in order, up to the first that no import of this source can go on from. */
  method Scan(g: Graph, src: seq<SourceRef>, theirs: RefMap, first: Option<Ref>, descends: seq<bool>) returns (i: nat, queue: seq<QueuedRef>)
    requires SourceRefsOk(g, src) && |descends| == |src| && RightUpToFirst(g, theirs, src, descends)
    ensures i <= |src| && forall j :: 0 <= j < i ==> Resumable(g, theirs, src[j])
    ensures i < |src| ==> !Resumable(g, theirs, src[i])
    ensures i == |src| ==> queue == LeftQueue(src, theirs, first)
  {
    hide AtValue, LeftQueue, RightUpToFirst, Resumable;
    i, queue := 0, [];
    LeftOfNone(src[..0], theirs, first);
    while i < |src|
      invariant 0 <= i <= |src| && forall j :: 0 <= j < i ==> Resumable(g, theirs, src[j])
      invariant queue == LeftQueue(src[..i], theirs, first)
      invariant i <= FirstFound.LeastFind(DescendsQuestions(g, theirs, src))
    {
      var s := src[i];
      ScanStep(g, theirs, src, descends, i);
      LeftStep(g, src, theirs, first, i);
      if AtValue(theirs, s) {
        i := i + 1;
        continue;
      }
      if s.ref in theirs && (!s.IsBranch() || theirs[s.ref] !in g.parents || !descends[i]) {
        return;
      }
      var q := QueuedRef(s, IsWalked(s, first));
      if q.walk {
        queue := [q] + queue;
      } else {
        queue := queue + [q];
      }
      i := i + 1;
    }
    assert src[..|src|] == src;
  }

  /** At the i-th ref, all before it resumable, the workers' answers tell whether it is too. */
  lemma ScanStep(g: Graph, theirs: RefMap, src: seq<SourceRef>, descends: seq<bool>, i: nat)
    requires RightUpToFirst(g, theirs, src, descends) && i < |src|
    requires i <= FirstFound.LeastFind(DescendsQuestions(g, theirs, src))
    ensures var s := src[i];
      && (Resumable(g, theirs, s) <==>
            s.ref !in theirs || AtValue(theirs, s) || (s.IsBranch() && theirs[s.ref] in g.parents && descends[i]))
      && (Resumable(g, theirs, s) ==> i < FirstFound.LeastFind(DescendsQuestions(g, theirs, src)))
  {
    var s := src[i];
    assert DescendsQuestions(g, theirs, src)[i] == DescendsQuestion(g, theirs, s);
    if s.ref in theirs && IsAncestor(g, theirs[s.ref], s.oid) {
      HistoryGeneration(g, theirs[s.ref], s.oid);
    }
  }

  lemma LeftOfNone(none: seq<SourceRef>, theirs: RefMap, first: Option<Ref>)
    requires none == []
    ensures LeftQueue(none, theirs, first) == []
  {
  }

  /** One ref more: the walked branch, of which there is one, goes to the front. */
  lemma LeftStep(g: Graph, src: seq<SourceRef>, theirs: RefMap, first: Option<Ref>, i: nat)
    requires SourceRefsOk(g, src) && i < |src|
    ensures var queue, r := LeftQueue(src[..i], theirs, first), src[i];
      LeftQueue(src[..i + 1], theirs, first)
      == if AtValue(theirs, r) then queue
         else if IsWalked(r, first) then [QueuedRef(r, true)] + queue
         else queue + [QueuedRef(r, false)]
  {
    assert src[..i + 1][..i] == src[..i];
    if IsWalked(src[i], first) {
      OneWalked(src[..i], theirs, first, src[i]);
    }
  }

  lemma {:induction false} OneWalked(before: seq<SourceRef>, theirs: RefMap, first: Option<Ref>, r: SourceRef)
    requires IsWalked(r, first) && forall s :: s in before ==> s.ref != r.ref
    ensures LeftToPush(before, theirs, first, true) == []
  {
    if before != [] {
      assert before[|before| - 1] in before;
      OneWalked(before[..|before| - 1], theirs, first, r);
    }
  }

  lemma {:induction false} WantedHas(g: Graph, src: seq<SourceRef>)
    requires SourceRefsOk(g, src)
    ensures forall r :: r in Wanted(src) ==> Wanted(src)[r] in src && Wanted(src)[r].ref == r
    ensures forall s :: s in src ==> s.ref in Wanted(src) && Wanted(src)[s.ref] == s
  {
    if src != [] {
      WantedHas(g, src[..|src| - 1]);
    }
  }

  lemma {:induction false} LeftHas(g: Graph, src: seq<SourceRef>, theirs: RefMap, first: Option<Ref>, walked: bool)
    requires SourceRefsOk(g, src)
    ensures var left := LeftToPush(src, theirs, first, walked);
      && DistinctQueue(left)
      && (forall q :: q in left ==> q.src in src && q.walk == walked == IsWalked(q.src, first) && !AtValue(theirs, q.src))
      && (forall s :: s in src && !AtValue(theirs, s) && IsWalked(s, first) == walked ==> QueuedRef(s, walked) in left)
  {
    if src != [] {
      var init, last := src[..|src| - 1], src[|src| - 1];
      LeftHas(g, init, theirs, first, walked);
      assert forall s :: s in src ==> s in init || s == last;
      assert forall s :: s in init ==> s.ref != last.ref;
    }
  }

  lemma LeftIsPlan(g: Graph, src: seq<SourceRef>, theirs: RefMap, first: Option<Ref>)
    requires SourceRefsOk(g, src) && forall j :: 0 <= j < |src| ==> Resumable(g, theirs, src[j])
    ensures Inv(g, Wanted(src), Plan(theirs, LeftQueue(src, theirs, first), []))
  {
    hide LeftQueue, Wanted, Resumable;
    WantedHas(g, src);
    AllOfSource(g, src, theirs);
    LeftQueueOk(g, src, theirs, first);
    LeftCovers(g, src, theirs, first);
  }

  lemma AllOfSource(g: Graph, src: seq<SourceRef>, theirs: RefMap)
    requires SourceRefsOk(g, src)
    ensures AllResumable(g, Wanted(src), theirs) <==> forall j :: 0 <= j < |src| ==> Resumable(g, theirs, src[j])
  {
    hide Wanted, Resumable;
    WantedHas(g, src);
    forall r | r in Wanted(src) ensures exists j :: 0 <= j < |src| && src[j] == Wanted(src)[r] {
    }
    forall j | 0 <= j < |src| ensures src[j].ref in Wanted(src) && Wanted(src)[src[j].ref] == src[j] {
      assert src[j] in src;
    }
  }

  lemma LeftQueueOk(g: Graph, src: seq<SourceRef>, theirs: RefMap, first: Option<Ref>)
    requires SourceRefsOk(g, src)
    ensures QueueOk(Wanted(src), theirs, LeftQueue(src, theirs, first))
  {
    hide LeftQueue, Wanted, AtValue;
    WantedHas(g, src);
    LeftQueueHas(g, src, theirs, first);
  }

  lemma LeftCovers(g: Graph, src: seq<SourceRef>, theirs: RefMap, first: Option<Ref>)
    requires SourceRefsOk(g, src)
    ensures Unfinished(Wanted(src), theirs) <= QueueRefs(LeftQueue(src, theirs, first))
  {
    hide LeftQueue, Wanted, AtValue, IsWalked;
    WantedHas(g, src);
    LeftQueueHas(g, src, theirs, first);
    forall r | r in Unfinished(Wanted(src), theirs) ensures r in QueueRefs(LeftQueue(src, theirs, first)) {
      var s := Wanted(src)[r];
      assert QueuedRef(s, IsWalked(s, first)) in LeftQueue(src, theirs, first);
    }
  }

  lemma LeftQueueHas(g: Graph, src: seq<SourceRef>, theirs: RefMap, first: Option<Ref>)
    requires SourceRefsOk(g, src)
    ensures var queue := LeftQueue(src, theirs, first);
      && DistinctQueue(queue)
      && (forall q :: q in queue ==> q.src in src && q.walk == IsWalked(q.src, first) && !AtValue(theirs, q.src))
      && (forall s :: s in src && !AtValue(theirs, s) ==> QueuedRef(s, IsWalked(s, first)) in queue)
  {
    var a: seq<QueuedRef>, b: seq<QueuedRef> := LeftToPush(src, theirs, first, true), LeftToPush(src, theirs, first, false);
    LeftHas(g, src, theirs, first, true);
    LeftHas(g, src, theirs, first, false);
    forall p, q | p in a && q in b ensures p.src.ref != q.src.ref {
      DistinctRefsDiffer(g, src, p.src, q.src);
    }
  }

  lemma DistinctRefsDiffer(g: Graph, src: seq<SourceRef>, r: SourceRef, s: SourceRef)
    requires SourceRefsOk(g, src) && r in src && s in src && r != s
    ensures r.ref != s.ref
  {
  }

  // ---- planning to the end ----------------------------------------------------------------

  function Pushes(steps: seq<Step>): (pushes: seq<seq<Cmd>>)
    ensures |pushes| == |steps| && forall k :: 0 <= k < |steps| ==> pushes[k] == steps[k].cmds
  {
    seq(|steps|, k requires 0 <= k < |steps| => steps[k].cmds)
  }

  function StoredBytes(steps: seq<Step>): nat {
    if steps == [] then 0 else StoredBytes(steps[..|steps| - 1]) + steps[|steps| - 1].Stored()
  }

  /** The bytes of their packs: what they send, or in a dry run are estimated at. */
  function SentBytes(steps: seq<Step>): nat {
    if steps == [] then 0 else SentBytes(steps[..|steps| - 1]) + steps[|steps| - 1].size
  }

  /** A planned step's limits, where the repository's refs are these: what one push may carry, and,
      measured, the copy it sends and what is stored of it. */
  ghost predicate WithinLimits(imp: Importer, exact: bool, refs: RefMap, step: Step) {
    && 1 <= |step.cmds| <= MaxCommandsPerPush
    && (|step.cmds| > 1 ==> imp.recordHolds(step.cmds))
    && (exact ==> step.exact && imp.PushFits(step.cmds, refs) && step.size == imp.sent(step.cmds, refs) <= imp.budget
                  && step.objects == imp.build(step.cmds, refs).objects && step.Stored() <= imp.maxStored)
  }

  /** Each step's, where those before it have landed. */
  ghost predicate AllWithin(imp: Importer, exact: bool, refs: RefMap, steps: seq<Step>) {
    forall k :: 0 <= k < |steps| ==> WithinLimits(imp, exact, Replay(refs, Pushes(steps[..k])), steps[k])
  }

  lemma WithinGrows(imp: Importer, exact: bool, refs: RefMap, steps: seq<Step>, step: Step)
    requires AllWithin(imp, exact, refs, steps) && WithinLimits(imp, exact, Replay(refs, Pushes(steps)), step)
    ensures AllWithin(imp, exact, refs, steps + [step])
  {
    hide WithinLimits, Replay;
    var longer := steps + [step];
    forall k | 0 <= k < |longer| ensures WithinLimits(imp, exact, Replay(refs, Pushes(longer[..k])), longer[k]) {
      assert longer[..k] == steps[..k];
      assert steps[..|steps|] == steps;
    }
  }

  lemma AnswerWithin(imp: Importer, want: Source, exact: bool, refs: RefMap, refs': RefMap, held: nat, held': nat, kept: int, kept': int, step: Step)
    requires Answered(imp, want, exact, refs, refs', held, held', kept, kept', Stepped(step))
    ensures WithinLimits(imp, exact, refs, step)
  {
  }

  lemma RunGrows(g: Graph, want: Source, refs: RefMap, steps: seq<Step>, step: Step)
    requires RunOk(g, want, refs, Pushes(steps)) && PushOk(g, want, Replay(refs, Pushes(steps)), step.cmds)
    ensures RunOk(g, want, refs, Pushes(steps + [step]))
    ensures Replay(refs, Pushes(steps + [step])) == Apply(Replay(refs, Pushes(steps)), step.cmds)
  {
    var longer := Pushes(steps + [step]);
    assert longer[..|steps|] == Pushes(steps);
    forall k | 0 <= k < |longer| ensures PushOk(g, want, Replay(refs, longer[..k]), longer[k]) {
      assert longer[..k] == Pushes(steps)[..k];
      assert k < |steps| ==> longer[k] == Pushes(steps)[k];
    }
  }

  /** Plans step after step until nothing is left or a step is refused: every step is a push
      the repository takes after those before it, within every limit; there are no more of
      them than commits and refs were left; and where nothing was refused, the repository
      ends with every kept ref at the source's value, and its own refs as they were. */
  method PlanAll(p: ImportPlanner) returns (steps: seq<Step>, total: nat, end: Answer)
    requires p.Valid() && p.kept == 0
    modifies p, p.remote
    ensures RunOk(p.imp.graph, p.want, old(p.remote.refs), Pushes(steps))
    ensures p.remote.refs == Replay(old(p.remote.refs), Pushes(steps))
    ensures |steps| <= Work(p.imp.graph, p.want, old(p.remote.refs))
    ensures AllWithin(p.imp, p.exact, old(p.remote.refs), steps)
    ensures p.held == old(p.held) + StoredBytes(steps) && total == SentBytes(steps)
    ensures p.exact && steps != [] ==> p.held <= p.imp.repoMaxBytes
    ensures p.kept == if p.exact then |steps| else 0
    ensures !end.Stepped?
    ensures end.Finished? ==> Complete(p.want, p.remote.refs)
    ensures end.Refused? ==> p.Justified(end.why)
    ensures forall r :: r !in p.want ==>
                          (r in p.remote.refs <==> r in old(p.remote.refs))
                          && (r in p.remote.refs ==> p.remote.refs[r] == old(p.remote.refs)[r])
  {
    hide Inv, RunOk, Work, StoredBytes, SentBytes, Replay, AllWithin, WithinLimits, IsTaken, InOrderOf;
    var g, want := p.imp.graph, p.want;
    ghost var refs := p.remote.refs;
    StartOfPlan(p);
    steps, total := [], 0;
    while true
      invariant p.Valid() && RunOk(g, want, refs, Pushes(steps)) && p.remote.refs == Replay(refs, Pushes(steps))
      invariant p.kept == if p.exact then |steps| else 0
      invariant AllWithin(p.imp, p.exact, refs, steps)
      invariant p.held == old(p.held) + StoredBytes(steps) && total == SentBytes(steps)
      invariant p.exact && steps != [] ==> p.held <= p.imp.repoMaxBytes
      decreases Work(g, want, p.remote.refs)
    {
      ghost var before, held, kept := p.remote.refs, p.held, p.kept;
      InvHasSource(g, want, p.State());
      end := p.Next();
      if !end.Stepped? {
        break;
      }
      PushShrinksWork(g, want, before, end.step.cmds);
      AnswerWithin(p.imp, want, p.exact, before, p.remote.refs, held, p.held, kept, p.kept, end.step);
      WithinGrows(p.imp, p.exact, refs, steps, end.step);
      RunGrows(g, want, refs, steps, end.step);
      StoredGrows(steps, end.step);
      steps := steps + [end.step];
      total := total + end.step.size;
    }
    RunKeeps(g, want, refs, Pushes(steps));
  }

  lemma InvHasSource(g: Graph, want: Source, p: Plan)
    requires Inv(g, want, p)
    ensures SourceOk(g, want) && AllResumable(g, want, p.refs)
  {
  }

  lemma StoredGrows(steps: seq<Step>, step: Step)
    ensures StoredBytes(steps + [step]) == StoredBytes(steps) + step.Stored()
    ensures SentBytes(steps + [step]) == SentBytes(steps) + step.size
  {
    assert (steps + [step])[..|steps|] == steps;
  }

  lemma StartOfPlan(p: ImportPlanner)
    requires p.Valid()
    ensures SourceOk(p.imp.graph, p.want) && AllResumable(p.imp.graph, p.want, p.remote.refs)
    ensures RunOk(p.imp.graph, p.want, p.remote.refs, Pushes([])) && Replay(p.remote.refs, Pushes([])) == p.remote.refs
    ensures StoredBytes([]) == 0 && SentBytes([]) == 0 && AllWithin(p.imp, p.exact, p.remote.refs, [])
  {
  }

  /** Run again after any prefix of a run's pushes has landed, the import is accepted, and the
      plan it starts from leaves exactly what that prefix did not finish. */
  lemma ResumesAfterAnyPrefix(g: Graph, src: seq<SourceRef>, theirs: RefMap, first: Option<Ref>, pushes: seq<seq<Cmd>>, k: nat)
    requires SourceRefsOk(g, src) && k <= |pushes|
    requires forall j :: 0 <= j < |src| ==> Resumable(g, theirs, src[j])
    requires RunOk(g, Wanted(src), theirs, pushes)
    ensures var now := Replay(theirs, pushes[..k]);
      && (forall j :: 0 <= j < |src| ==> Resumable(g, now, src[j]))
      && TheirsOnly(src, now) == TheirsOnly(src, theirs)
      && Inv(g, Wanted(src), Plan(now, LeftQueue(src, now, first), []))
  {
    hide Inv, RunOk, Replay, LeftQueue, Wanted, Resumable, AllResumable;
    var now := Replay(theirs, pushes[..k]);
    WantedHas(g, src);
    AllOfSource(g, src, theirs);
    RunPrefix(g, Wanted(src), theirs, pushes, k);
    RunKeeps(g, Wanted(src), theirs, pushes[..k]);
    AllOfSource(g, src, now);
    assert TheirsOnly(src, now) == TheirsOnly(src, theirs);
    LeftIsPlan(g, src, now, first);
  }
}
