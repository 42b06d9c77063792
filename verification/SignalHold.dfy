/** Signals, the goroutine that reads them, the hand-back and the end of the run as one machine,
    explored over all interleavings. */
module SignalHold {
  import opened Options

  datatype Sig = Int | Term

  /** Who hands back: the hold's goroutine, for the signal in its hand, or a node that stops itself. */
  datatype Caller = Watcher(sig: Sig) | SelfStop

  /** The hand-back under its once: release of SIGTERM's channel, then, where SIGINT was not
      inherited ignored, of SIGINT's; each stops the channel, then drains it. */
  datatype HandBack = NotYet | StopTerm(who: Caller) | DrainTerm(who: Caller) | StopInt(who: Caller) | DrainInt(who: Caller) | Done(who: Caller)
  {
    predicate UnderWay() { !NotYet? && !Done? }
  }

  /** The hold's goroutine: selecting, with a signal in hand, back from the hand-back it won or
      lost, its context cancelled for one it lost, or returned. */
  datatype Watch = Selecting | InHand(s: Sig) | Won | Lost(s: Sig) | Second(s: Sig) | Gone

  /** A node that stops itself: not in a hand-back, calling it, or back from it. */
  datatype Stopping = Idle | Calling | Back

  /** late, wins and asked are histories, as caughtInt and caughtTerm are of the signals the channels
      took: whether one came after the context was cancelled, the hand-backs that did it, and whether any
      was called for. */
  datatype State = State(os: Os, handBack: HandBack, watch: Watch, stopping: Stopping,
                         cancelled: bool, ending: bool, late: bool, wins: nat, asked: bool)

  /** What the operating system has of the hold: whether SIGINT was inherited ignored, each
      signal's channel, stopped or holding one at most, and whether the process has ended. */
  datatype Os = Os(ignored: bool, onInt: bool, onTerm: bool, pendingInt: bool, pendingTerm: bool, dead: bool,
                  caughtInt: nat, caughtTerm: nat)

  function Init(ignored: bool): State {
    State(Os(ignored, true, true, false, false, false, 0, 0), NotYet, Selecting, Idle, false, false, false, 0, false)
  }

  predicate On(os: Os, sig: Sig) {
    if sig.Int? then os.onInt else os.onTerm
  }

  predicate Pending(os: Os, sig: Sig) {
    if sig.Int? then os.pendingInt else os.pendingTerm
  }

  function WithPending(os: Os, sig: Sig, pending: bool): Os {
    if sig.Int? then os.(pendingInt := pending) else os.(pendingTerm := pending)
  }

  function CaughtOf(os: Os, sig: Sig): nat {
    if sig.Int? then os.caughtInt else os.caughtTerm
  }

  function Caught(os: Os, sig: Sig): Os {
    if sig.Int? then os.(caughtInt := os.caughtInt + 1) else os.(caughtTerm := os.caughtTerm + 1)
  }

  /** Delivery: into an open channel if it is empty, lost if it is full; with the channel closed,
      death, or nothing for an ignored Int. */
  function Delivered(os: Os, sig: Sig): Os {
    if On(os, sig) then (if Pending(os, sig) then os else Caught(WithPending(os, sig, true), sig))
    else if sig.Int? && os.ignored then os
    else os.(dead := true)
  }

  datatype Turn = Press(sig: Sig) | Take(sig: Sig) | CallWatch | CallStop | Release | BackWatch | BackStop | Answer | End | LeaveWatch | Unhook

  predicate Enabled(s: State, t: Turn) {
    && !s.os.dead
    && match t
       case Press(_) => true
       case Take(sig) => s.watch.Selecting? && Pending(s.os, sig)
       case CallWatch => s.watch.InHand? && !s.handBack.UnderWay()
       case CallStop => s.stopping.Idle? || s.stopping.Calling?
       case Release => s.handBack.UnderWay()
       case BackWatch => s.watch.Won? || s.watch.Lost?
       case BackStop => s.stopping.Back?
       case Answer => s.watch.Second?
       case End => true
       case LeaveWatch => s.ending && s.watch.Selecting?
       case Unhook => s.ending && s.watch.Gone?
  }

  /** What the caller of a hand-back that is over goes on as. */
  function Over(s: State, who: Caller): State {
    s.(handBack := Done(who), wins := s.wins + 1,
       watch := if who.Watcher? then Won else s.watch,
       stopping := if who.SelfStop? then Back else s.stopping)
  }

  function Released(s: State): State
    requires s.handBack.UnderWay()
  {
    match s.handBack
    case StopTerm(who) => s.(os := s.os.(onTerm := false), handBack := DrainTerm(who))
    case DrainTerm(who) =>
      if s.os.pendingTerm then s.(os := Delivered(WithPending(s.os, Term, false), Term))
      else if s.os.ignored then Over(s, who) else s.(handBack := StopInt(who))
    case StopInt(who) => s.(os := s.os.(onInt := false), handBack := DrainInt(who))
    case DrainInt(who) =>
      if s.os.pendingInt then s.(os := Delivered(WithPending(s.os, Int, false), Int)) else Over(s, who)
  }

  function Taken(s: State, t: Turn): State
    requires Enabled(s, t)
  {
    match t
    case Press(sig) => s.(os := Delivered(s.os, sig), late := s.late || s.cancelled)
    case Take(sig) => s.(os := WithPending(s.os, sig, false), watch := InHand(sig))
    case CallWatch =>
      if s.handBack.NotYet? then s.(handBack := StopTerm(Watcher(s.watch.s)), asked := true)
      else s.(watch := Lost(s.watch.s), asked := true)
    case CallStop =>
      if s.handBack.NotYet? then s.(handBack := StopTerm(SelfStop), stopping := Calling, asked := true)
      else s.(stopping := if s.handBack.UnderWay() then Calling else Back, asked := true)
    case Release => Released(s)
    case BackWatch => s.(cancelled := true, watch := if s.watch.Won? then Selecting else Second(s.watch.s))
    case BackStop => s.(cancelled := true, stopping := Idle)
    case Answer =>
      s.(os := if s.watch.s.Int? && s.os.ignored then s.os.(dead := true) else Delivered(s.os, s.watch.s), watch := Selecting)
    case End => s.(ending := true)
    case LeaveWatch => s.(watch := Gone)
    case Unhook => s.(os := s.os.(onInt := false, onTerm := false), cancelled := true)
  }

  // ---- what holds throughout -------------------------------------------------------------

  function One(b: bool): nat { if b then 1 else 0 }

  /** The hand-back has been won by the goroutine, for this signal. */
  predicate SpentOnHandBack(s: State, sig: Sig) {
    !s.handBack.NotYet? && s.handBack.who == Watcher(sig)
  }

  predicate InWatch(s: State, sig: Sig) {
    || (s.watch == InHand(sig) && !(s.handBack.UnderWay() && s.handBack.who.Watcher?))
    || s.watch == Lost(sig) || s.watch == Second(sig)
  }

  predicate HooksOk(s: State) {
    && (s.os.onTerm <==> s.handBack.NotYet? || s.handBack.StopTerm?)
    && (s.os.onInt <==> s.os.ignored || s.handBack.NotYet? || s.handBack.StopTerm? || s.handBack.DrainTerm? || s.handBack.StopInt?)
    && (s.handBack.StopInt? || s.handBack.DrainInt? ==> !s.os.ignored)
    && (s.handBack.Done? ==> !s.os.pendingTerm && (!s.os.ignored ==> !s.os.pendingInt))
    && (s.handBack.StopInt? || s.handBack.DrainInt? ==> !s.os.pendingTerm)
  }

  predicate CallersOk(s: State) {
    && (s.handBack.UnderWay() && s.handBack.who.Watcher? ==> s.watch == InHand(s.handBack.who.sig))
    && (s.handBack.UnderWay() && s.handBack.who.SelfStop? ==> s.stopping.Calling?)
    && (s.stopping.Calling? ==> !s.handBack.NotYet?)
    && (s.watch.Won? || s.watch.Lost? || s.watch.Second? || s.stopping.Back? ==> s.handBack.Done?)
    && (s.watch.Won? ==> s.handBack.who.Watcher?)
  }

  /** Until the run ends and while the process lives: every signal of a kind its channel took is still
      in it, in the goroutine's hand, or the one that handed back. */
  predicate CountedOf(s: State, sig: Sig) {
    CaughtOf(s.os, sig) == One(Pending(s.os, sig)) + One(InWatch(s, sig)) + One(SpentOnHandBack(s, sig))
  }

  predicate Counted(s: State) {
    CountedOf(s, Int) && CountedOf(s, Term)
  }

  /** One that came after the context was cancelled is in the channel kept, or in hand. */
  predicate LateOk(s: State) {
    s.late ==> s.handBack.Done? && (s.os.pendingInt || InWatch(s, Int) || InWatch(s, Term))
  }

  predicate OnceOk(s: State) {
    && s.wins == One(s.handBack.Done?) && (s.cancelled && !s.ending ==> s.handBack.Done?)
    && (s.handBack.NotYet? <==> !s.asked)
    // Whoever handed back has cancelled, or is about to.
    && (s.handBack.Done? && !s.cancelled ==> if s.handBack.who.Watcher? then s.watch.Won? else s.stopping.Back?)
  }

  predicate Running(s: State) {
    !s.ending && !s.os.dead
  }

  predicate Inv(s: State) {
    && CallersOk(s) && OnceOk(s)
    && (Running(s) ==> !s.watch.Gone? && HooksOk(s) && Counted(s) && LateOk(s))
  }

  lemma InitOk(ignored: bool)
    ensures Inv(Init(ignored))
  {
  }

  lemma CallersKept(s: State, t: Turn)
    requires CallersOk(s) && OnceOk(s) && Enabled(s, t)
    ensures CallersOk(Taken(s, t)) && OnceOk(Taken(s, t))
  {
    hide Delivered, WithPending, On, Pending;
  }

  lemma HooksKept(s: State, t: Turn)
    requires HooksOk(s) && !s.watch.Gone? && Running(s) && Enabled(s, t) && Running(Taken(s, t))
    ensures HooksOk(Taken(s, t)) && !Taken(s, t).watch.Gone?
  {
    if t.Release? {
      HooksInRelease(s);
    } else if t.Press? || t.Answer? || t.Take? {
      HooksInChannels(s, t);
    } else {
      HooksElsewhere(s, t);
    }
  }

  lemma HooksInRelease(s: State)
    requires HooksOk(s) && !s.watch.Gone? && Enabled(s, Release) && Running(Released(s))
    ensures HooksOk(Released(s)) && !Released(s).watch.Gone?
  {
  }

  lemma HooksInChannels(s: State, t: Turn)
    requires HooksOk(s) && !s.watch.Gone? && Enabled(s, t) && Running(Taken(s, t)) && (t.Press? || t.Answer? || t.Take?)
    ensures HooksOk(Taken(s, t)) && !Taken(s, t).watch.Gone?
  {
    if t.Press? {
      HooksOfChannels(s, s.(os := Delivered(s.os, t.sig)));
    } else if t.Answer? {
      HooksOfChannels(s, s.(os := Delivered(s.os, s.watch.s)));
    }
    hide Delivered;
  }

  lemma HooksElsewhere(s: State, t: Turn)
    requires HooksOk(s) && !s.watch.Gone? && Running(s) && Enabled(s, t) && Running(Taken(s, t))
    requires !t.Release? && !t.Press? && !t.Answer? && !t.Take?
    ensures HooksOk(Taken(s, t)) && !Taken(s, t).watch.Gone?
  {
    hide Delivered, WithPending, Released, On, Pending;
  }

  lemma HooksOfChannels(s: State, s': State)
    requires HooksOk(s) && (s' == s.(os := Delivered(s.os, Int)) || s' == s.(os := Delivered(s.os, Term)))
    ensures HooksOk(s')
  {
  }

  lemma CountInChannels(s: State, t: Turn, sig: Sig)
    requires CallersOk(s) && CountedOf(s, sig) && Running(s) && Enabled(s, t) && Running(Taken(s, t)) && (t.Press? || t.Take?)
    ensures CountedOf(Taken(s, t), sig)
  {
    if t.Press? {
      assert SameHands(s, Taken(s, t), sig);
    }
  }

  lemma CountInRelease(s: State, sig: Sig)
    requires CallersOk(s) && HooksOk(s) && CountedOf(s, sig) && Running(s) && Enabled(s, Release) && Running(Released(s))
    ensures CountedOf(Released(s), sig)
  {
    hide Released, Delivered, WithPending;
    DrainedAlive(s);
    if s.handBack.StopTerm? || s.handBack.StopInt? {
      assert SameHands(s, Released(s), sig);
    }
  }

  /** A hand-back goes on in a live process only from a channel that is empty: what it finds in one ends it. */
  lemma DrainedAlive(s: State)
    requires HooksOk(s) && Running(s) && Enabled(s, Release) && Running(Released(s))
    ensures s.handBack.DrainTerm? ==> !s.os.pendingTerm
    ensures s.handBack.DrainInt? ==> !s.os.pendingInt
    ensures var who := s.handBack.who;
      Released(s) == match s.handBack
        case StopTerm(_) => s.(os := s.os.(onTerm := false), handBack := DrainTerm(who))
        case DrainTerm(_) => if s.os.ignored then Over(s, who) else s.(handBack := StopInt(who))
        case StopInt(_) => s.(os := s.os.(onInt := false), handBack := DrainInt(who))
        case DrainInt(_) => Over(s, who)
  {
  }

  predicate SameHands(s: State, s': State, sig: Sig) {
    InWatch(s, sig) == InWatch(s', sig) && SpentOnHandBack(s, sig) == SpentOnHandBack(s', sig)
  }

  lemma CountInHand(s: State, t: Turn, sig: Sig)
    requires CallersOk(s) && HooksOk(s) && CountedOf(s, sig) && Running(s) && Enabled(s, t) && Running(Taken(s, t))
    requires !t.Press? && !t.Take? && !t.Release? && !s.watch.Gone?
    ensures CountedOf(Taken(s, t), sig)
  {
  }

  lemma CountKept(s: State, t: Turn, sig: Sig)
    requires Inv(s) && CountedOf(s, sig) && Enabled(s, t) && Running(s) && Running(Taken(s, t))
    ensures CountedOf(Taken(s, t), sig)
  {
    hide CountedOf, Counted, Released, LateOk, OnceOk, CallersOk, HooksOk;
    if t.Press? || t.Take? {
      CountInChannels(s, t, sig);
    } else if t.Release? {
      CountInRelease(s, sig);
    } else {
      CountInHand(s, t, sig);
    }
  }

  lemma LateKept(s: State, t: Turn)
    requires Inv(s) && Enabled(s, t) && Running(Taken(s, t))
    ensures LateOk(Taken(s, t))
  {
    hide Counted;
  }

  lemma StillRunning(s: State, t: Turn)
    requires Enabled(s, t) && Running(Taken(s, t))
    ensures Running(s)
  {
  }

  lemma TakenKeeps(s: State, t: Turn)
    requires Inv(s) && Enabled(s, t)
    ensures Inv(Taken(s, t))
  {
    hide CallersOk, OnceOk, HooksOk, CountedOf, LateOk, Taken, Enabled;
    CallersKept(s, t);
    if Running(Taken(s, t)) {
      StillRunning(s, t);
      HooksKept(s, t);
      CountKept(s, t, Int);
      CountKept(s, t, Term);
      LateKept(s, t);
    }
  }

  ghost predicate Next(s: State, s': State) {
    exists t :: Enabled(s, t) && s' == Taken(s, t)
  }

  ghost predicate Run(ignored: bool, run: seq<State>) {
    run != [] && run[0] == Init(ignored) && forall k :: 0 < k < |run| ==> Next(run[k - 1], run[k])
  }

  lemma {:induction false} RunKeeps(ignored: bool, run: seq<State>)
    requires Run(ignored, run)
    ensures Inv(run[|run| - 1])
    decreases |run|
  {
    hide Inv, Enabled, Taken;
    if |run| == 1 {
      InitOk(ignored);
    } else {
      RunKeeps(ignored, run[..|run| - 1]);
      assert Next(run[|run| - 2], run[|run| - 1]);
      var t :| Enabled(run[|run| - 2], t) && run[|run| - 1] == Taken(run[|run| - 2], t);
      TakenKeeps(run[|run| - 2], t);
    }
  }

  // ---- what it means ------------------------------------------------------------------------

  /** Short of the run's end the context is cancelled only once the hand-back is over, by which
      a signal no longer reaches a handler, but for a SIGINT inherited ignored; and exactly one
      call of the hand-back is the one that did it. */
  lemma CancelledIsHandedBack(ignored: bool, run: seq<State>)
    requires Run(ignored, run)
    ensures var s := run[|run| - 1];
      && s.wins <= 1
      && (s.cancelled && Running(s) ==> s.handBack.Done? && s.wins == 1 && !s.os.onTerm && (!s.os.ignored ==> !s.os.onInt))
  {
    RunKeeps(ignored, run);
  }

  /** The hold's own turns, once nobody presses and nobody ends the run. */
  predicate Internal(s: State, t: Turn) {
    t.Take? || t.CallWatch? || t.Release? || t.BackWatch? || t.BackStop? || t.Answer?
    || (t.CallStop? && s.stopping.Calling? && s.handBack.Done?)
  }

  ghost predicate Quiet(s: State) {
    forall t :: Enabled(s, t) ==> !Internal(s, t)
  }

  /** Once the hold has nothing left to do, a process still alive has taken no signal but the
      one that handed back, and none after its context was cancelled: every other has ended it. And it is
      cancelled exactly where somebody asked for the hand-back, the node that stops itself included. */
  lemma EveryOtherSignalEndsTheProcess(ignored: bool, run: seq<State>)
    requires Run(ignored, run) && Running(run[|run| - 1]) && Quiet(run[|run| - 1])
    ensures var s := run[|run| - 1];
      && (forall sig :: CaughtOf(s.os, sig) == One(SpentOnHandBack(s, sig)) && !Pending(s.os, sig)) && !s.late
      && s.stopping.Idle? && (s.cancelled <==> s.asked) && (s.os.caughtInt + s.os.caughtTerm > 0 ==> s.cancelled)
  {
    var s := run[|run| - 1];
    RunKeeps(ignored, run);
    assert !(Enabled(s, Release) && Internal(s, Release));
    assert !(Enabled(s, CallWatch) && Internal(s, CallWatch));
    assert !(Enabled(s, BackWatch) && Internal(s, BackWatch));
    assert !(Enabled(s, BackStop) && Internal(s, BackStop));
    assert !(Enabled(s, CallStop) && Internal(s, CallStop));
    assert !(Enabled(s, Answer) && Internal(s, Answer));
    assert !(Enabled(s, Take(Int)) && Internal(s, Take(Int)));
    assert !(Enabled(s, Take(Term)) && Internal(s, Take(Term)));
  }

  /** A run that has ended, with nothing left in hand, gives both signals back: its goroutine returns, its
      context is cancelled, and from then on a press is the process's own, one of a SIGINT inherited ignored nothing. */
  lemma EndsBare(ignored: bool, run: seq<State>, sig: Sig)
    requires Run(ignored, run) && run[|run| - 1].ending && !run[|run| - 1].os.dead && Quiet(run[|run| - 1])
    ensures var s := run[|run| - 1]; s.watch.Gone? || Enabled(s, LeaveWatch)
    ensures var s := run[|run| - 1]; var gone := if s.watch.Gone? then s else Taken(s, LeaveWatch);
      && Enabled(gone, Unhook) && Taken(gone, Unhook).cancelled
      && Delivered(Taken(gone, Unhook).os, sig) == Taken(gone, Unhook).os.(dead := !(sig.Int? && s.os.ignored))
  {
    hide Counted, LateOk, HooksOk, InWatch, SpentOnHandBack, Released, Over;
    var s := run[|run| - 1];
    RunKeeps(ignored, run);
    assert !(Enabled(s, Release) && Internal(s, Release));
    assert !(Enabled(s, CallWatch) && Internal(s, CallWatch));
    assert !(Enabled(s, BackWatch) && Internal(s, BackWatch));
    assert !(Enabled(s, Answer) && Internal(s, Answer));
  }

  /** While the process lives, a press, a node's stopping itself and the run's end may come at any time. */
  lemma AnythingMayCome(s: State, sig: Sig)
    requires !s.os.dead
    ensures Enabled(s, Press(sig)) && Enabled(s, End) && (s.stopping.Idle? ==> Enabled(s, CallStop))
    ensures s.watch.Selecting? && Pending(s.os, sig) ==> Enabled(s, Take(sig))
  {
  }

  /** The hold lets the signals go only once its goroutine has returned: nothing of it is answered after. */
  lemma NothingAfterUnhook(ignored: bool, run: seq<State>)
    requires Run(ignored, run) && Enabled(run[|run| - 1], Unhook)
    ensures var s' := Taken(run[|run| - 1], Unhook);
      s'.watch.Gone? && forall t :: Enabled(s', t) ==> !t.Take? && !t.CallWatch? && !t.BackWatch? && !t.Answer? && !t.LeaveWatch?
  {
  }

  /** How far the hold is from having nothing left to do. */
  function Rank(s: State): nat {
    5 * One(s.os.pendingInt) + 5 * One(s.os.pendingTerm)
    + (match s.handBack case NotYet => 6 case StopTerm(_) => 5 case DrainTerm(_) => 4 case StopInt(_) => 3 case DrainInt(_) => 2 case Done(_) => 0)
    + (match s.watch case InHand(_) => 4 case Lost(_) => 3 case Won => 2 case Second(_) => 1 case Selecting => 0 case Gone => 0)
    + (match s.stopping case Calling => 2 case Back => 1 case Idle => 0)
  }

  /** Each of its turns brings it nearer, or ends the process: so it gets there. */
  lemma InternalTurnsEnd(s: State, t: Turn)
    requires Inv(s) && Running(s) && Enabled(s, t) && Internal(s, t)
    ensures Taken(s, t).os.dead || Rank(Taken(s, t)) < Rank(s)
  {
    hide Inv, Rank, Released, Delivered, Taken;
    if t.Answer? {
      AnswerEnds(s);
    } else if t.Release? {
      ReleaseRanks(s);
    } else {
      OtherRanks(s, t);
    }
  }

  lemma AnswerEnds(s: State)
    requires Inv(s) && Running(s) && Enabled(s, Answer)
    ensures Taken(s, Answer).os.dead
  {
    hide Counted, LateOk, OnceOk;
  }

  lemma ReleaseRanks(s: State)
    requires Inv(s) && Running(s) && Enabled(s, Release)
    ensures Taken(s, Release).os.dead || Rank(Taken(s, Release)) < Rank(s)
  {
    hide Counted, LateOk, OnceOk;
    if Running(Released(s)) {
      hide Released, Delivered;
      DrainedAlive(s);
    }
  }

  lemma OtherRanks(s: State, t: Turn)
    requires Enabled(s, t) && Internal(s, t) && !t.Answer? && !t.Release?
    ensures Rank(Taken(s, t)) < Rank(s)
  {
    hide Delivered, Released;
  }

  /** A press is lost exactly where its channel still holds one before it, unread; and ends the process
      exactly where its channel is closed, which a SIGINT's that was inherited ignored is not. */
  lemma PressIsLostIff(s: State, sig: Sig)
    requires Inv(s) && Running(s)
    ensures Delivered(s.os, sig) == s.os <==> On(s.os, sig) && Pending(s.os, sig)
    ensures Delivered(s.os, sig).dead <==> !On(s.os, sig)
    ensures sig.Int? && s.os.ignored ==> On(s.os, sig)
  {
    hide Counted, LateOk, OnceOk, CallersOk;
  }

  lemma Extends(ignored: bool, run: seq<State>, t: Turn, s': State)
    requires Run(ignored, run) && Enabled(run[|run| - 1], t) && Taken(run[|run| - 1], t) == s'
    ensures Run(ignored, run + [s'])
  {
    var longer := run + [s'];
    forall k | 0 < k < |longer| ensures Next(longer[k - 1], longer[k]) {
      if k < |run| {
        assert Next(run[k - 1], run[k]);
      } else {
        assert Enabled(longer[k - 1], t) && longer[k] == Taken(longer[k - 1], t);
      }
    }
  }

  /** Two presses before the first is read. */
  lemma PressedTwice() returns (run: seq<State>)
    ensures Run(false, run) && |run| == 4 && run[2] == run[1] == Taken(run[0], Press(Int))
    ensures var os := run[3].os;
      run[3] == Init(false).(os := os, watch := InHand(Int)) && os == Os(false, true, true, false, false, false, 1, 0)
  {
    hide Run;
    var s0 := Init(false);
    var s1, s3 := Taken(s0, Press(Int)), s0.(os := s0.os.(caughtInt := 1), watch := InHand(Int));
    AloneIsRun(s0);
    Extends(false, [s0], Press(Int), s1);
    Extends(false, [s0] + [s1], Press(Int), s1);
    Extends(false, [s0] + [s1] + [s1], Take(Int), s3);
    run := [s0] + [s1] + [s1] + [s3];
  }

  lemma AloneIsRun(s: State)
    requires s == Init(s.os.ignored)
    ensures Run(s.os.ignored, [s])
  {
  }

  /** A signal in hand, and no other, hands both back and cancels. */
  lemma HandsBack(run: seq<State>) returns (longer: seq<State>)
    requires run != [] && Run(false, run)
    requires var s := run[|run| - 1];
      s.watch == InHand(Int) && s.handBack.NotYet? && s.stopping.Idle? && s.os == Os(false, true, true, false, false, false, 1, 0) && !s.ending
    ensures longer != [] && Run(false, longer) && run <= longer
    ensures var s := longer[|longer| - 1];
      s.cancelled && s.handBack.Done? && s.watch.Selecting? && s.stopping.Idle?
      && s.os == Os(false, false, false, false, false, false, 1, 0) && !s.ending
  {
    hide Run;
    var s3 := run[|run| - 1];
    var s4 := s3.(handBack := StopTerm(Watcher(Int)), asked := true);
    Extends(false, run, CallWatch, s4);
    var s5 := s4.(os := s4.os.(onTerm := false), handBack := DrainTerm(Watcher(Int)));
    Extends(false, run + [s4], Release, s5);
    var s6 := s5.(handBack := StopInt(Watcher(Int)));
    Extends(false, run + [s4] + [s5], Release, s6);
    var s7 := s6.(os := s6.os.(onInt := false), handBack := DrainInt(Watcher(Int)));
    Extends(false, run + [s4] + [s5] + [s6], Release, s7);
    longer := run + [s4] + [s5] + [s6] + [s7];
    longer := WonAndCancels(longer);
  }

  lemma WonAndCancels(run: seq<State>) returns (longer: seq<State>)
    requires run != [] && Run(false, run)
    requires var s := run[|run| - 1]; s.handBack == DrainInt(Watcher(Int)) && !s.os.pendingInt && !s.os.dead
    ensures longer != [] && Run(false, longer) && run <= longer
    ensures var s, s' := run[|run| - 1], longer[|longer| - 1];
      s' == s.(handBack := Done(Watcher(Int)), wins := s.wins + 1, watch := Selecting, cancelled := true)
  {
    hide Run;
    var s := run[|run| - 1];
    var s8 := Over(s, Watcher(Int));
    Extends(false, run, Release, s8);
    var s9 := s8.(cancelled := true, watch := Selecting);
    Extends(false, run + [s8], BackWatch, s9);
    longer := run + [s8] + [s9];
  }

  /** So two presses before the first is read are one: the run drains, and lives on. */
  lemma TwoPressesAtOnceAreOne() returns (run: seq<State>)
    ensures Run(false, run) && |run| > 2 && run[2] == run[1] == Taken(run[0], Press(Int))
    ensures var s := run[|run| - 1]; Running(s) && s.cancelled && Quiet(s)
  {
    hide Run, Taken;
    var pressed := PressedTwice();
    run := HandsBack(pressed);
    QuietAfterwards(run[|run| - 1]);
  }

  lemma QuietAfterwards(s: State)
    requires s.handBack.Done? && s.watch.Selecting? && s.stopping.Idle? && !s.os.pendingInt && !s.os.pendingTerm
    ensures Quiet(s)
  {
  }
}
