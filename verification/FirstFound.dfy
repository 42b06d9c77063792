/** The workers that look for the first of many questions to be a find: each finder lowers
    a shared minimum by compare-and-swap, and a find stops the questions after it. However
    many may run at once: a bound on them only takes interleavings away. */
module FirstFound {
  import opened Options

  /** One place in the order: no question, a question and what it will find, or a find at once. */
  datatype Question = Skip | Ask(find: bool) | Now

  predicate IsFind(q: Question) {
    q.Now? || (q.Ask? && q.find)
  }

  function LeastFind(qs: seq<Question>): (k: nat)
    ensures k <= |qs| && (k < |qs| ==> IsFind(qs[k])) && forall j :: 0 <= j < k ==> !IsFind(qs[j])
  {
    if qs == [] || IsFind(qs[0]) then 0 else 1 + LeastFind(qs[1..])
  }

  /** Where a question's worker is: not started, started, past its check of the minimum, with
      a find to record, about to swap the minimum it loaded for its own place, or returned. */
  datatype Phase = Idle | Started | Asking | Found | Swapping(loaded: nat) | Returned {
    predicate Running() { !Idle? && !Returned? }
  }

  /** open says the loop that starts workers still runs, next where it is. */
  datatype State = State(next: nat, open: bool, workers: seq<Phase>, first: nat, answers: seq<Option<bool>>)

  function Init(qs: seq<Question>): State {
    State(0, true, seq(|qs|, i => Idle), |qs|, seq(|qs|, i => None))
  }

  /** The loop's next turn: it ends at the end of the list, past a find, or at a find at once. */
  function Spawned(qs: seq<Question>, s: State): State
    requires |s.workers| == |qs|
  {
    if s.next >= |qs| then s.(open := false)
    else if qs[s.next].Skip? then s.(next := s.next + 1)
    else if s.next > s.first then s.(open := false)
    else if qs[s.next].Now? then s.(open := false, next := s.next + 1, workers := s.workers[s.next := Found])
    else s.(next := s.next + 1, workers := s.workers[s.next := Started])
  }

  /** A running worker's next turn. */
  function Worked(qs: seq<Question>, s: State, i: nat): State
    requires |s.workers| == |s.answers| == |qs| && i < |qs| && s.workers[i].Running()
  {
    match s.workers[i]
    case Started => s.(workers := s.workers[i := if i > s.first then Returned else Asking])
    case Asking =>
      s.(answers := s.answers[i := Some(IsFind(qs[i]))], workers := s.workers[i := if IsFind(qs[i]) then Found else Returned])
    case Found => s.(workers := s.workers[i := if i >= s.first then Returned else Swapping(s.first)])
    case Swapping(loaded) =>
      if s.first == loaded then s.(first := i, workers := s.workers[i := Returned])
      else s.(workers := s.workers[i := Found])
  }

  ghost predicate Next(qs: seq<Question>, s: State, s': State) {
    && |s.workers| == |s.answers| == |qs|
    && ((s.open && s' == Spawned(qs, s))
        || exists i :: 0 <= i < |qs| && s.workers[i].Running() && s' == Worked(qs, s, i))
  }

  ghost predicate Done(s: State) {
    !s.open && forall i :: 0 <= i < |s.workers| ==> !s.workers[i].Running()
  }

  /** What each place up to the loop's is owed: a question passed over is one after a find,
      and a find in no worker's hands is counted. */
  ghost predicate PlaceOk(q: Question, phase: Phase, answer: Option<bool>, started: bool, first: nat, i: nat) {
    && (phase.Idle? <==> !started || q.Skip?)
    && (answer.Some? ==> answer.value == IsFind(q))
    && (phase.Found? || phase.Swapping? ==> IsFind(q) && (q.Ask? ==> answer.Some?))
    && (phase.Swapping? ==> i < phase.loaded)
    && (phase.Returned? ==> (q.Ask? ==> answer.Some? || first < i) && (IsFind(q) ==> first <= i))
  }

  ghost predicate Inv(qs: seq<Question>, s: State) {
    && |s.workers| == |s.answers| == |qs| && s.next <= |qs| && s.first <= |qs|
    && (s.first < |qs| ==> s.first < s.next && IsFind(qs[s.first]))
    && (forall i :: 0 <= i < |qs| ==> PlaceOk(qs[i], s.workers[i], s.answers[i], i < s.next, s.first, i))
    && (!s.open && s.next < |qs| ==> s.first < s.next || (s.next > 0 && IsFind(qs[s.next - 1])))
  }

  lemma SpawnKeeps(qs: seq<Question>, s: State)
    requires Inv(qs, s) && s.open
    ensures Inv(qs, Spawned(qs, s))
  {
  }

  lemma WorkKeeps(qs: seq<Question>, s: State, i: nat)
    requires Inv(qs, s) && i < |qs| && s.workers[i].Running()
    ensures Inv(qs, Worked(qs, s, i))
  {
    var s' := Worked(qs, s, i);
    forall j | 0 <= j < |qs| ensures PlaceOk(qs[j], s'.workers[j], s'.answers[j], j < s'.next, s'.first, j) {
      assert PlaceOk(qs[j], s.workers[j], s.answers[j], j < s.next, s.first, j);
    }
  }

  ghost predicate Run(qs: seq<Question>, run: seq<State>) {
    && run != [] && run[0] == Init(qs)
    && forall k :: 0 < k < |run| ==> Next(qs, run[k - 1], run[k])
  }

  lemma {:induction false} RunKeeps(qs: seq<Question>, run: seq<State>)
    requires Run(qs, run)
    ensures Inv(qs, run[|run| - 1])
    decreases |run|
  {
    if |run| > 1 {
      var s, s' := run[|run| - 2], run[|run| - 1];
      RunKeeps(qs, run[..|run| - 1]);
      assert Next(qs, s, s');
      if s.open && s' == Spawned(qs, s) {
        SpawnKeeps(qs, s);
      } else {
        var i :| 0 <= i < |qs| && s.workers[i].Running() && s' == Worked(qs, s, i);
        WorkKeeps(qs, s, i);
      }
    }
  }

  /** Under every interleaving, what a finished run leaves in the minimum is the first find in
      order, and every question up to it has been answered, and rightly. */
  lemma EveryScheduleFindsTheFirst(qs: seq<Question>, run: seq<State>)
    requires Run(qs, run) && Done(run[|run| - 1])
    ensures var s := run[|run| - 1];
      && s.first == LeastFind(qs) && |s.answers| == |qs|
      && forall i :: 0 <= i < |qs| && i <= s.first && qs[i].Ask? ==> s.answers[i] == Some(qs[i].find)
  {
    var s := run[|run| - 1];
    RunKeeps(qs, run);
    var k := LeastFind(qs);
    assert forall i :: 0 <= i < |qs| ==> PlaceOk(qs[i], s.workers[i], s.answers[i], i < s.next, s.first, i);
    assert s.first < |qs| ==> k <= s.first;
    if k < s.next {
      assert s.first <= k;
    }
  }

  // ---- a find stops the questions after it --------------------------------------------------

  /** A place after the minimum whose question is neither answered nor being asked. */
  ghost predicate NotAsked(qs: seq<Question>, s: State, i: nat) {
    Inv(qs, s) && i < |qs| && s.first < i && s.answers[i].None? && !s.workers[i].Asking?
  }

  /** Once a find is recorded no question after it is asked but those asked already, whatever turns are taken. */
  lemma {:induction false} AFindStopsTheQuestionsAfterIt(qs: seq<Question>, run: seq<State>, k: nat, i: nat)
    requires Run(qs, run) && k < |run| && NotAsked(qs, run[k], i)
    ensures NotAsked(qs, run[|run| - 1], i)
    decreases |run|
  {
    hide Inv, Spawned, Worked;
    if k < |run| - 1 {
      var s, s' := run[|run| - 2], run[|run| - 1];
      AFindStopsTheQuestionsAfterIt(qs, run[..|run| - 1], k, i);
      RunKeeps(qs, run);
      assert Next(qs, s, s');
      StaysUnasked(qs, s, s', i);
    }
  }

  lemma StaysUnasked(qs: seq<Question>, s: State, s': State, i: nat)
    requires NotAsked(qs, s, i) && Next(qs, s, s') && Inv(qs, s')
    ensures NotAsked(qs, s', i)
  {
    hide Inv, Spawned, Worked;
    if s.open && s' == Spawned(qs, s) {
      SpawnAsksNot(qs, s, i);
    } else {
      var j :| 0 <= j < |qs| && s.workers[j].Running() && s' == Worked(qs, s, j);
      WorkAsksNot(qs, s, j, i);
    }
  }

  lemma SpawnAsksNot(qs: seq<Question>, s: State, i: nat)
    requires NotAsked(qs, s, i) && s.open
    ensures var s' := Spawned(qs, s); s'.first < i < |s'.workers| == |s'.answers| && s'.answers[i].None? && !s'.workers[i].Asking?
  {
    hide PlaceOk;
  }

  lemma WorkAsksNot(qs: seq<Question>, s: State, j: nat, i: nat)
    requires NotAsked(qs, s, i) && j < |qs| && s.workers[j].Running()
    ensures var s' := Worked(qs, s, j); s'.first < i < |s'.workers| == |s'.answers| && s'.answers[i].None? && !s'.workers[i].Asking?
  {
    assert PlaceOk(qs[j], s.workers[j], s.answers[j], j < s.next, s.first, j);
  }

  /** The loop has gone no further than a find at once, and nothing past where it is has been asked. */
  ghost predicate Stopped(qs: seq<Question>, s: State) {
    && |s.workers| == |s.answers| == |qs| && s.next <= |qs|
    && (forall i :: 0 <= i < s.next && qs[i].Now? ==> !s.open && i + 1 == s.next)
    && forall j :: s.next <= j < |qs| ==> s.workers[j].Idle? && s.answers[j].None?
  }

  lemma StaysStopped(qs: seq<Question>, s: State, s': State)
    requires Stopped(qs, s) && Next(qs, s, s')
    ensures Stopped(qs, s')
  {
    hide Spawned, Worked;
    if s.open && s' == Spawned(qs, s) {
      SpawnStops(qs, s);
    } else {
      var j :| 0 <= j < |qs| && s.workers[j].Running() && s' == Worked(qs, s, j);
      WorkStops(qs, s, j);
    }
  }

  lemma SpawnStops(qs: seq<Question>, s: State)
    requires Stopped(qs, s) && s.open
    ensures Stopped(qs, Spawned(qs, s))
  {
  }

  lemma WorkStops(qs: seq<Question>, s: State, j: nat)
    requires Stopped(qs, s) && j < |qs| && s.workers[j].Running()
    ensures Stopped(qs, Worked(qs, s, j))
  {
    assert j < s.next;
  }

  /** A find at once, recorded yet or not, is the last place the loop comes to: no question after it is asked. */
  lemma {:induction false} AFindAtOnceIsTheLast(qs: seq<Question>, run: seq<State>)
    requires Run(qs, run)
    ensures Stopped(qs, run[|run| - 1])
    ensures var s := run[|run| - 1]; forall i, j :: 0 <= i < j < |qs| && qs[i].Now? ==> s.answers[j].None?
    decreases |run|
  {
    if |run| > 1 {
      AFindAtOnceIsTheLast(qs, run[..|run| - 1]);
      assert Next(qs, run[|run| - 2], run[|run| - 1]);
      StaysStopped(qs, run[|run| - 2], run[|run| - 1]);
    }
  }

  // ---- it comes to an end -------------------------------------------------------------

  /** How far a worker is from its end while the minimum stands. */
  function Left(phase: Phase, first: nat): nat {
    match phase
    case Idle => 6
    case Started => 5
    case Asking => 4
    case Found => 2
    case Swapping(loaded) => if loaded == first then 1 else 3
    case Returned => 0
  }

  /** Until it is done a run can go on. */
  lemma NeverStuck(qs: seq<Question>, s: State) returns (s': State)
    requires Inv(qs, s) && !Done(s)
    ensures Next(qs, s, s')
  {
    if s.open {
      s' := Spawned(qs, s);
    } else {
      var i :| 0 <= i < |qs| && s.workers[i].Running();
      s' := Worked(qs, s, i);
    }
  }

  /** Whose turn it is is anybody's: the loop's while it runs, and any running worker's. */
  lemma AnybodyMayGo(qs: seq<Question>, s: State, i: nat)
    requires Inv(qs, s)
    ensures s.open ==> Next(qs, s, Spawned(qs, s))
    ensures i < |qs| && s.workers[i].Running() ==> Next(qs, s, Worked(qs, s, i))
  {
  }

  /** A worker's turn either lowers the minimum or brings that worker, and no other, nearer
      its end: so it retries its swap only as often as others lower the minimum. */
  lemma WorkerAdvances(qs: seq<Question>, s: State, i: nat)
    requires Inv(qs, s) && i < |qs| && s.workers[i].Running()
    ensures var s' := Worked(qs, s, i);
      || s'.first < s.first
      || (s'.first == s.first && Left(s'.workers[i], s'.first) < Left(s.workers[i], s.first)
          && forall j :: 0 <= j < |qs| && j != i ==> s'.workers[j] == s.workers[j])
  {
    assert PlaceOk(qs[i], s.workers[i], s.answers[i], i < s.next, s.first, i);
  }

  function SumLeft(workers: seq<Phase>, first: nat): nat {
    if workers == [] then 0 else Left(workers[0], first) + SumLeft(workers[1..], first)
  }

  lemma {:induction false} SumLeftAt(workers: seq<Phase>, i: nat, phase: Phase, first: nat)
    requires i < |workers|
    ensures SumLeft(workers[i := phase], first) + Left(workers[i], first) == SumLeft(workers, first) + Left(phase, first)
  {
    hide Left;
    var after := workers[i := phase];
    if i == 0 {
      assert after[1..] == workers[1..];
    } else {
      SumLeftAt(workers[1..], i - 1, phase, first);
      assert after[1..] == workers[1..][i - 1 := phase];
    }
  }

  /** A lower minimum sets each worker back by one retry at most. */
  lemma {:induction false} SumLeftSetBack(workers: seq<Phase>, first: nat, lower: nat)
    ensures SumLeft(workers, lower) <= SumLeft(workers, first) + 2 * |workers|
  {
    if workers != [] {
      SumLeftSetBack(workers[1..], first, lower);
    }
  }

  lemma {:induction false} SumLeftBound(workers: seq<Phase>, first: nat)
    ensures SumLeft(workers, first) <= 6 * |workers|
  {
    if workers != [] {
      SumLeftBound(workers[1..], first);
    }
  }

  /** The loop's turns, the workers', and a retry of every worker's for each value of the minimum. */
  function Rank(qs: seq<Question>, s: State): nat {
    (if s.next <= |qs| then |qs| - s.next else 0) + (if s.open then 1 else 0)
    + SumLeft(s.workers, s.first) + (2 * |qs| + 1) * s.first
  }

  lemma SpawnRanks(qs: seq<Question>, s: State)
    requires Inv(qs, s) && s.open
    ensures Rank(qs, Spawned(qs, s)) < Rank(qs, s)
  {
    var s' := Spawned(qs, s);
    if s'.workers != s.workers {
      assert PlaceOk(qs[s.next], s.workers[s.next], s.answers[s.next], false, s.first, s.next);
      SumLeftAt(s.workers, s.next, s'.workers[s.next], s.first);
    }
  }

  lemma WorkRanks(qs: seq<Question>, s: State, i: nat)
    requires Inv(qs, s) && i < |qs| && s.workers[i].Running()
    ensures Rank(qs, Worked(qs, s, i)) < Rank(qs, s)
  {
    hide SumLeft, PlaceOk;
    var s' := Worked(qs, s, i);
    WorkerAdvances(qs, s, i);
    SumLeftAt(s.workers, i, s'.workers[i], s.first);
    if s'.first < s.first {
      SumLeftSetBack(s'.workers, s.first, s'.first);
      LowerRanks(2 * |qs| + 1, s.first, s'.first);
    }
  }

  lemma {:induction false} LowerRanks(k: nat, first: nat, lower: nat)
    requires lower < first
    ensures k * lower + k <= k * first
  {
    if lower + 1 < first {
      LowerRanks(k, first - 1, lower);
    }
    assert k * first == k * (first - 1) + k;
  }

  /** Every interleaving ends: a run of n questions has at most 2n(n + 4) + 1 turns. */
  lemma {:induction false} EveryRunEnds(qs: seq<Question>, run: seq<State>)
    requires Run(qs, run)
    ensures |run| - 1 + Rank(qs, run[|run| - 1]) <= 2 * |qs| * (|qs| + 4) + 1
    decreases |run|
  {
    if |run| == 1 {
      SumLeftBound(run[0].workers, |qs|);
    } else {
      hide Inv, Rank, Spawned, Worked;
      var s, s' := run[|run| - 2], run[|run| - 1];
      EveryRunEnds(qs, run[..|run| - 1]);
      RunKeeps(qs, run[..|run| - 1]);
      assert Next(qs, s, s');
      if s.open && s' == Spawned(qs, s) {
        SpawnRanks(qs, s);
      } else {
        var i :| 0 <= i < |qs| && s.workers[i].Running() && s' == Worked(qs, s, i);
        WorkRanks(qs, s, i);
      }
    }
  }
}
