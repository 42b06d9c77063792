/** Boots without offers around a pointer that was lost: they end under every interleaving, and the
    pointer they leave is the newest known exactly under the conditions stated here. */
module BootConvergence {
  import opened BootPublish
  import opened Options

  /** A node booting without an offer: the company it knows, and the revisions it holds. */
  datatype Node = Node(known: Revision, held: set<RevisionId>)

  datatype Phase = Reading | Sending(seen: Facts, publish: Publish) | Done

  /** readAt, races, lands and turns are histories: the landings there had been when a node last
      read, the compare-and-sets it lost, its own landings, and the turns it took. */
  datatype State = State(pointer: Option<Activation>, epoch: nat, phases: seq<Phase>,
                         readAt: seq<nat>, races: seq<nat>, lands: seq<nat>, turns: seq<nat>)

  function Init(nodes: seq<Node>, epoch: nat): State {
    State(None, epoch, seq(|nodes|, i => Reading), seq(|nodes|, i => 0), seq(|nodes|, i => 0), seq(|nodes|, i => 0), seq(|nodes|, i => 0))
  }

  datatype Turn = Read(i: nat, now: Instant) | Send(i: nat)

  predicate Sized(nodes: seq<Node>, s: State) {
    |s.phases| == |s.readAt| == |s.races| == |s.lands| == |s.turns| == |nodes|
  }

  predicate Enabled(nodes: seq<Node>, s: State, t: Turn) {
    && Sized(nodes, s) && t.i < |nodes|
    && match t
       case Read(i, now) => s.phases[i].Reading? && now > 0
       case Send(i) => s.phases[i].Sending?
  }

  function FactsRead(n: Node, s: State, now: Instant): Facts {
    Facts(None, Some(n.known), s.pointer, s.pointer.Some? && s.pointer.value.revision in n.held, now)
  }

  function Taken(nodes: seq<Node>, epoch0: nat, s: State, t: Turn): State
    requires Enabled(nodes, s, t)
  {
    var i := t.i;
    var s := s.(turns := s.turns[i := s.turns[i] + 1]);
    match t
    case Read(_, now) =>
      var facts := FactsRead(nodes[i], s, now);
      var d := Decide(facts);
      s.(readAt := s.readAt[i := if s.epoch >= epoch0 then s.epoch - epoch0 else 0],
         phases := s.phases[i := if d.publish.Some? then Sending(facts, d.publish.value) else Done])
    case Send(_) =>
      var o := Activate(s.pointer, s.epoch, s.phases[i].publish.request);
      if o.Landed? then s.(pointer := Some(o.activation), epoch := o.activation.epoch, lands := s.lands[i := s.lands[i] + 1],
                           phases := s.phases[i := Done])
      else s.(races := s.races[i := s.races[i] + 1], phases := s.phases[i := Reading])
  }

  /** Every node knows some company. */
  ghost predicate Named(nodes: seq<Node>) {
    forall n :: n in nodes ==> n.known.id != NoRevision
  }

  // ---- what holds throughout ------------------------------------------------------------

  /** A publish under way is the one decided on what was read, and the pointer has moved on
      from that, or is that very activation. */
  ghost predicate PhaseOk(n: Node, pointer: Option<Activation>, phase: Phase) {
    phase.Sending? ==>
      var seen := phase.seen;
      && FactsOk(seen) && seen == Facts(None, Some(n.known), seen.target, seen.targetHeld, seen.now)
      && (seen.target.Some? ==> (seen.targetHeld <==> seen.target.value.revision in n.held))
      && Decide(seen).publish == Some(phase.publish)
      && (seen.target.Some? ==> pointer.Some? && (seen.target.value.epoch < pointer.value.epoch || seen.target == pointer))
  }

  ghost predicate PointerOk(epoch0: nat, s: State) {
    && s.epoch >= epoch0 && (s.pointer.None? <==> s.epoch == epoch0)
    && (s.pointer.Some? ==> s.pointer.value.epoch == s.epoch && s.pointer.value.revision != NoRevision && s.pointer.value.at > 0)
  }

  ghost predicate Inv(nodes: seq<Node>, epoch0: nat, s: State) {
    && Sized(nodes, s) && PointerOk(epoch0, s)
    && forall i :: 0 <= i < |nodes| ==> PhaseOk(nodes[i], s.pointer, s.phases[i])
  }

  lemma ReadKeeps(nodes: seq<Node>, epoch0: nat, s: State, t: Turn)
    requires Named(nodes) && Inv(nodes, epoch0, s) && Enabled(nodes, s, t) && t.Read?
    ensures Inv(nodes, epoch0, Taken(nodes, epoch0, s, t))
  {
    hide Decide;
    var s' := Taken(nodes, epoch0, s, t);
    assert nodes[t.i] in nodes;
    forall j | 0 <= j < |nodes| ensures PhaseOk(nodes[j], s'.pointer, s'.phases[j]) {
      assert PhaseOk(nodes[j], s.pointer, s.phases[j]);
    }
  }

  /** What a publish finds: it lands over exactly what was read, or loses to a landing since. */
  lemma SendFinds(n: Node, epoch0: nat, s: State, phase: Phase)
    requires PointerOk(epoch0, s) && PhaseOk(n, s.pointer, phase) && phase.Sending?
    ensures var o := Activate(s.pointer, s.epoch, phase.publish.request);
      && !o.Refused?
      && (o.Landed? ==> phase.seen.target == s.pointer && o.activation.epoch == s.epoch + 1
                        && o.activation.revision == n.known.id && o.activation.restored && o.activation.at > 0)
      && (o.Raced? ==> phase.seen.target != s.pointer && s.pointer.Some?)
  {
    DecisionIsPinned(phase.seen, s.pointer, s.epoch);
    hide Decide;
    if s.pointer.Some? {
      ActivationIsLater(phase.publish.request.at, s.pointer.value.at);
    }
    DecidesOnKnown(phase.seen);
  }

  lemma DecidesOnKnown(f: Facts)
    requires f.boot.None? && f.fleets.Some? && Decide(f).publish.Some?
    ensures Decide(f).publish.value.revision == f.fleets.value && Decide(f).publish.value.over.None?
  {
  }

  lemma SendKeeps(nodes: seq<Node>, epoch0: nat, s: State, t: Turn)
    requires Named(nodes) && Inv(nodes, epoch0, s) && Enabled(nodes, s, t) && t.Send?
    ensures Inv(nodes, epoch0, Taken(nodes, epoch0, s, t))
  {
    hide Decide, Activate;
    var s' := Taken(nodes, epoch0, s, t);
    var n := nodes[t.i];
    assert n in nodes;
    SendFinds(n, epoch0, s, s.phases[t.i]);
    forall j | 0 <= j < |nodes| ensures PhaseOk(nodes[j], s'.pointer, s'.phases[j]) {
      assert PhaseOk(nodes[j], s.pointer, s.phases[j]);
    }
  }

  // ---- how long it takes ------------------------------------------------------------------

  ghost function Ended(phases: seq<Phase>): nat {
    if phases == [] then 0 else (if phases[0].Done? then 1 else 0) + Ended(phases[1..])
  }

  lemma {:induction false} EndedAt(phases: seq<Phase>, i: nat, phase: Phase)
    requires i < |phases| && !phases[i].Done?
    ensures Ended(phases) < |phases|
    ensures Ended(phases[i := phase]) == Ended(phases) + if phase.Done? then 1 else 0
  {
    var after := phases[i := phase];
    if i == 0 {
      assert after[1..] == phases[1..];
      EndedWithin(phases[1..]);
    } else {
      EndedAt(phases[1..], i - 1, phase);
      assert after[1..] == phases[1..][i - 1 := phase];
    }
  }

  lemma {:induction false} EndedWithin(phases: seq<Phase>)
    ensures Ended(phases) <= |phases|
  {
    if phases != [] {
      EndedWithin(phases[1..]);
    }
  }

  ghost function TurnsNow(phase: Phase): nat {
    match phase case Reading => 0 case Sending(_, _) => 1 case Done => 2
  }

  /** Each landing ends a node's boot; each race is a landing of another's since the read. */
  ghost predicate CountsOk(nodes: seq<Node>, epoch0: nat, s: State) {
    && Sized(nodes, s) && s.epoch >= epoch0
    && s.epoch - epoch0 <= Ended(s.phases)
    && forall i :: 0 <= i < |nodes| ==>
         && s.turns[i] <= 2 * s.races[i] + TurnsNow(s.phases[i])
         && s.races[i] < |nodes| && s.races[i] + s.lands[i] <= s.epoch - epoch0
         && (!s.phases[i].Done? ==> s.lands[i] == 0) && s.lands[i] <= 1
         && (s.phases[i].Sending? ==> s.races[i] <= s.readAt[i] <= s.epoch - epoch0)
         && (s.phases[i].Sending? && s.readAt[i] == s.epoch - epoch0 ==> s.phases[i].seen.target == s.pointer)
  }

  lemma CountsKept(nodes: seq<Node>, epoch0: nat, s: State, t: Turn)
    requires Named(nodes) && Inv(nodes, epoch0, s) && CountsOk(nodes, epoch0, s) && Enabled(nodes, s, t)
    ensures CountsOk(nodes, epoch0, Taken(nodes, epoch0, s, t))
  {
    hide Decide, Activate, Ended, PhaseOk, Named;
    var s' := Taken(nodes, epoch0, s, t);
    EndedAt(s.phases, t.i, s'.phases[t.i]);
    assert s'.phases == s.phases[t.i := s'.phases[t.i]];
    if t.Send? {
      SendFinds(nodes[t.i], epoch0, s, s.phases[t.i]);
    }
  }

  // ---- runs ---------------------------------------------------------------------------------

  function Sum(s: seq<nat>): nat {
    if s == [] then 0 else s[0] + Sum(s[1..])
  }

  lemma {:induction false} SumAt(s: seq<nat>, i: nat)
    requires i < |s|
    ensures Sum(s[i := s[i] + 1]) == Sum(s) + 1
  {
    var after := s[i := s[i] + 1];
    if i == 0 {
      assert after[1..] == s[1..];
    } else {
      SumAt(s[1..], i - 1);
      assert after[1..] == s[1..][i - 1 := s[i] + 1];
    }
  }

  lemma {:induction false} SumBound(s: seq<nat>, most: nat)
    requires forall i :: 0 <= i < |s| ==> s[i] <= most
    ensures Sum(s) <= |s| * most
  {
    if s != [] {
      SumBound(s[1..], most);
      assert |s| * most == most + (|s| - 1) * most;
    }
  }

  ghost predicate Next(nodes: seq<Node>, epoch0: nat, s: State, s': State) {
    exists t :: Enabled(nodes, s, t) && s' == Taken(nodes, epoch0, s, t)
  }

  ghost predicate Run(nodes: seq<Node>, epoch0: nat, run: seq<State>) {
    && run != [] && run[0] == Init(nodes, epoch0)
    && forall k :: 0 < k < |run| ==> Next(nodes, epoch0, run[k - 1], run[k])
  }

  lemma InitOk(nodes: seq<Node>, epoch0: nat)
    ensures var s := Init(nodes, epoch0); Inv(nodes, epoch0, s) && CountsOk(nodes, epoch0, s) && Sum(s.turns) == 0
  {
    SumBound(Init(nodes, epoch0).turns, 0);
  }

  lemma {:induction false} RunKeeps(nodes: seq<Node>, epoch0: nat, run: seq<State>)
    requires Named(nodes) && Run(nodes, epoch0, run)
    ensures var s := run[|run| - 1];
      Inv(nodes, epoch0, s) && CountsOk(nodes, epoch0, s) && Sum(s.turns) == |run| - 1
    decreases |run|
  {
    hide Inv, CountsOk, Named, Sum, Ended, Decide, Activate;
    if |run| == 1 {
      InitOk(nodes, epoch0);
    } else {
      var s, s' := run[|run| - 2], run[|run| - 1];
      RunKeeps(nodes, epoch0, run[..|run| - 1]);
      assert Next(nodes, epoch0, s, s');
      var t :| Enabled(nodes, s, t) && s' == Taken(nodes, epoch0, s, t);
      CountsKept(nodes, epoch0, s, t);
      SumAt(s.turns, t.i);
      if t.Read? {
        ReadKeeps(nodes, epoch0, s, t);
      } else {
        SendKeeps(nodes, epoch0, s, t);
      }
    }
  }

  ghost predicate Complete(s: State) {
    forall i :: 0 <= i < |s.phases| ==> s.phases[i].Done?
  }

  /** Every interleaving ends, whatever the nodes know and hold: a node lands once at most, loses
      no more compare-and-sets than the others landed, fewer than there are nodes, and takes at
      most two turns for each and two more. */
  lemma EveryRunEnds(nodes: seq<Node>, epoch0: nat, run: seq<State>)
    requires Named(nodes) && Run(nodes, epoch0, run)
    ensures var s := run[|run| - 1];
      && Sized(nodes, s) && s.epoch >= epoch0
      && (forall i :: 0 <= i < |nodes| ==>
            s.races[i] < |nodes| && s.lands[i] <= 1 && s.races[i] <= s.epoch - epoch0 - s.lands[i] && s.turns[i] <= 2 * s.races[i] + 2)
      && |run| - 1 <= |nodes| * (2 * |nodes|)
  {
    var s := run[|run| - 1];
    RunKeeps(nodes, epoch0, run);
    SumBound(s.turns, 2 * |nodes|);
  }

  lemma NeverStuck(nodes: seq<Node>, epoch0: nat, run: seq<State>) returns (t: Turn)
    requires Named(nodes) && Run(nodes, epoch0, run) && !Complete(run[|run| - 1])
    ensures Enabled(nodes, run[|run| - 1], t)
  {
    var s := run[|run| - 1];
    RunKeeps(nodes, epoch0, run);
    var i :| 0 <= i < |nodes| && !s.phases[i].Done?;
    t := if s.phases[i].Reading? then Read(i, 1) else Send(i);
  }

  // ---- what it ends on ----------------------------------------------------------------------

  /** A revision of the greatest instant any node remembers. */
  ghost predicate IsNewest(nodes: seq<Node>, id: RevisionId) {
    exists n :: n in nodes && n.known.id == id && forall m :: m in nodes ==> m.known.activatedAt <= n.known.activatedAt
  }

  ghost predicate OnTheNewest(nodes: seq<Node>, pointer: Option<Activation>) {
    pointer.Some? && IsNewest(nodes, pointer.value.revision)
  }

  ghost predicate AlwaysConverges(nodes: seq<Node>, epoch0: nat) {
    forall run: seq<State> :: Run(nodes, epoch0, run) && Complete(run[|run| - 1]) ==> OnTheNewest(nodes, run[|run| - 1].pointer)
  }

  /** The node at i landed at this instant. */
  datatype Landing = Landing(i: nat, at: Instant)

  /** Reading a restore of id at that instant, n publishes over it. */
  predicate PublishesOver(n: Node, id: RevisionId, at: Instant) {
    id in n.held && id != n.known.id && n.known.activatedAt > at
  }

  predicate PublishesAfter(nodes: seq<Node>, i: nat, l: Landing) {
    i < |nodes| && l.i < |nodes| && PublishesOver(nodes[i], nodes[l.i].known.id, l.at)
  }

  /** The landings of boots one after another: the first restores what it knows, at its instant
      or, where nothing activated it, at any; each after it publishes over the one before. */
  ghost predicate Course(nodes: seq<Node>, c: seq<Landing>) {
    && (forall k :: 0 <= k < |c| ==> c[k].i < |nodes| && c[k].at > 0)
    && (c != [] ==> nodes[c[0].i].known.activatedAt == 0 || c[0].at == nodes[c[0].i].known.activatedAt)
    && forall k :: 0 < k < |c| ==>
         PublishesAfter(nodes, c[k].i, c[k - 1]) && c[k].at == ActivationAt(nodes[c[k].i].known.activatedAt, c[k - 1].at)
  }

  ghost predicate Lands(c: seq<Landing>, i: nat) {
    exists k :: 0 <= k < |c| && c[k].i == i
  }

  ghost predicate Declines(nodes: seq<Node>, c: seq<Landing>, i: nat) {
    exists k :: 0 <= k < |c| && !PublishesAfter(nodes, i, c[k])
  }

  /** Every node lands in it, or at some landing of it had nothing to publish. */
  ghost predicate Settled(nodes: seq<Node>, c: seq<Landing>) {
    Course(nodes, c) && c != [] && forall i :: 0 <= i < |nodes| ==> Lands(c, i) || Declines(nodes, c, i)
  }

  ghost function LastOf(nodes: seq<Node>, c: seq<Landing>): RevisionId
    requires Course(nodes, c) && c != []
  {
    nodes[c[|c| - 1].i].known.id
  }

  /** Every boot leaves the fleet, one after another, on the newest. */
  ghost predicate EveryCourseConverges(nodes: seq<Node>) {
    forall c :: Settled(nodes, c) ==> IsNewest(nodes, LastOf(nodes, c))
  }

  // ---- every interleaving is a course ---------------------------------------------------------

  ghost predicate Follows(nodes: seq<Node>, epoch0: nat, s: State, c: seq<Landing>) {
    && Sized(nodes, s) && Course(nodes, c) && s.epoch == epoch0 + |c|
    && s.pointer == (if c == [] then None else Some(Activation(s.epoch, LastOf(nodes, c), c[|c| - 1].at, true)))
    && forall i :: 0 <= i < |nodes| && s.phases[i].Done? ==> Lands(c, i) || Declines(nodes, c, i)
  }

  lemma Longer(nodes: seq<Node>, c: seq<Landing>, l: Landing)
    requires Course(nodes, c) && l.i < |nodes| && l.at > 0
    requires if c == [] then nodes[l.i].known.activatedAt == 0 || l.at == nodes[l.i].known.activatedAt
             else PublishesAfter(nodes, l.i, c[|c| - 1]) && l.at == ActivationAt(nodes[l.i].known.activatedAt, c[|c| - 1].at)
    ensures Course(nodes, c + [l]) && Lands(c + [l], l.i)
    ensures forall i :: (Lands(c, i) ==> Lands(c + [l], i)) && (Declines(nodes, c, i) ==> Declines(nodes, c + [l], i))
  {
    var longer := c + [l];
    assert longer[|c|] == l;
    forall i | Lands(c, i) ensures Lands(longer, i) {
      var k :| 0 <= k < |c| && c[k].i == i;
      assert longer[k] == c[k];
    }
    forall i | Declines(nodes, c, i) ensures Declines(nodes, longer, i) {
      var k :| 0 <= k < |c| && !PublishesAfter(nodes, i, c[k]);
      assert longer[k] == c[k];
    }
  }

  /** A boot that publishes nothing declined the pointer it read. */
  lemma ReadFollows(nodes: seq<Node>, epoch0: nat, s: State, t: Turn, c: seq<Landing>)
    requires Named(nodes) && Follows(nodes, epoch0, s, c) && Enabled(nodes, s, t) && t.Read?
    ensures Follows(nodes, epoch0, Taken(nodes, epoch0, s, t), c)
  {
    var s' := Taken(nodes, epoch0, s, t);
    if s'.phases[t.i].Done? {
      assert !PublishesAfter(nodes, t.i, c[|c| - 1]);
    }
  }

  /** What a node asks for over what it read. */
  lemma AsksFor(n: Node, f: Facts)
    requires f == Facts(None, Some(n.known), f.target, f.targetHeld, f.now) && FactsOk(f) && Decide(f).publish.Some?
    requires f.target.Some? ==> (f.targetHeld <==> f.target.value.revision in n.held)
    ensures var at := Decide(f).publish.value.request.at;
      && at > 0
      && (if f.target.Some? then PublishesOver(n, f.target.value.revision, f.target.value.at) && at == n.known.activatedAt
          else n.known.activatedAt == 0 || at == n.known.activatedAt)
  {
  }

  lemma SendFollows(nodes: seq<Node>, epoch0: nat, s: State, t: Turn, c: seq<Landing>) returns (c': seq<Landing>)
    requires Named(nodes) && Inv(nodes, epoch0, s) && Follows(nodes, epoch0, s, c) && Enabled(nodes, s, t) && t.Send?
    ensures Follows(nodes, epoch0, Taken(nodes, epoch0, s, t), c')
  {
    var phase := s.phases[t.i];
    SendFinds(nodes[t.i], epoch0, s, phase);
    AsksFor(nodes[t.i], phase.seen);
    LandsAt(s.pointer, s.epoch, phase.publish.request);
    hide Activate, Decide, Named;
    var o := Activate(s.pointer, s.epoch, phase.publish.request);
    if o.Landed? {
      var l := Landing(t.i, o.activation.at);
      c' := c + [l];
      Longer(nodes, c, l);
      hide Lands, Declines;
      assert LastOf(nodes, c') == nodes[t.i].known.id;
    } else {
      c' := c;
    }
  }

  lemma LandsAt(pointer: Option<Activation>, epoch: nat, r: Request)
    ensures var o := Activate(pointer, epoch, r);
      o.Landed? ==> o.activation.at == ActivationAt(r.at, if pointer.Some? then pointer.value.at else 0)
  {
  }

  lemma {:induction false} RunFollows(nodes: seq<Node>, epoch0: nat, run: seq<State>) returns (c: seq<Landing>)
    requires Named(nodes) && Run(nodes, epoch0, run)
    ensures Follows(nodes, epoch0, run[|run| - 1], c)
    decreases |run|
  {
    hide Inv, CountsOk, Named, Sum, Decide, Activate;
    if |run| == 1 {
      c := [];
    } else {
      hide Follows;
      var s, s' := run[|run| - 2], run[|run| - 1];
      c := RunFollows(nodes, epoch0, run[..|run| - 1]);
      RunKeeps(nodes, epoch0, run[..|run| - 1]);
      assert Next(nodes, epoch0, s, s');
      var t :| Enabled(nodes, s, t) && s' == Taken(nodes, epoch0, s, t);
      if t.Read? {
        ReadFollows(nodes, epoch0, s, t, c);
      } else {
        c := SendFollows(nodes, epoch0, s, t, c);
      }
    }
  }

  // ---- every course is an interleaving ---------------------------------------------------------

  ghost predicate Reached(nodes: seq<Node>, epoch0: nat, s: State) {
    exists run: seq<State> :: Run(nodes, epoch0, run) && run[|run| - 1] == s
  }

  lemma ReachedNext(nodes: seq<Node>, epoch0: nat, s: State, t: Turn)
    requires Reached(nodes, epoch0, s) && Enabled(nodes, s, t)
    ensures Reached(nodes, epoch0, Taken(nodes, epoch0, s, t))
  {
    hide Enabled, Taken;
    var run :| Run(nodes, epoch0, run) && run[|run| - 1] == s;
    var longer := run + [Taken(nodes, epoch0, s, t)];
    forall k | 0 < k < |longer| ensures Next(nodes, epoch0, longer[k - 1], longer[k]) {
      if k < |run| {
        assert Next(nodes, epoch0, run[k - 1], run[k]);
      }
    }
    assert Run(nodes, epoch0, longer);
  }

  /** The node at i reads and then, where it decided to publish, sends, no other between. */
  function Booted(nodes: seq<Node>, epoch0: nat, s: State, i: nat, now: Instant): (s': State)
    requires Sized(nodes, s) && i < |nodes| && s.phases[i].Reading? && now > 0
  {
    var read := Taken(nodes, epoch0, s, Read(i, now));
    if read.phases[i].Sending? then Taken(nodes, epoch0, read, Send(i)) else read
  }

  lemma BootedIsReached(nodes: seq<Node>, epoch0: nat, s: State, i: nat, now: Instant)
    requires Reached(nodes, epoch0, s)
    requires Sized(nodes, s) && i < |nodes| && s.phases[i].Reading? && now > 0
    ensures Reached(nodes, epoch0, Booted(nodes, epoch0, s, i, now))
  {
    hide Reached;
    var read := Taken(nodes, epoch0, s, Read(i, now));
    ReachedNext(nodes, epoch0, s, Read(i, now));
    if read.phases[i].Sending? {
      ReachedNext(nodes, epoch0, read, Send(i));
    }
  }

  /** Booted alone, a node restores a lost pointer, publishes over one it would, and leaves any other. */
  lemma BootedLeaves(nodes: seq<Node>, epoch0: nat, s: State, i: nat, now: Instant)
    requires Sized(nodes, s) && PointerOk(epoch0, s) && i < |nodes| && s.phases[i].Reading? && now > 0
    requires nodes[i].known.id != NoRevision && (s.pointer.Some? ==> s.pointer.value.restored)
    ensures var s' := Booted(nodes, epoch0, s, i, now); var n := nodes[i]; var a := n.known.activatedAt;
      && Sized(nodes, s') && s'.phases == s.phases[i := Done]
      && (if s.pointer.None? then
            s'.epoch == s.epoch + 1 && s'.pointer == Some(Activation(s.epoch + 1, n.known.id, if a == 0 then now else a, true))
          else if PublishesOver(n, s.pointer.value.revision, s.pointer.value.at) then
            s'.epoch == s.epoch + 1 && s'.pointer == Some(Activation(s.epoch + 1, n.known.id, ActivationAt(a, s.pointer.value.at), true))
          else s'.epoch == s.epoch && s'.pointer == s.pointer)
  {
    var read := Taken(nodes, epoch0, s, Read(i, now));
    if read.phases[i].Sending? {
      var s' := Taken(nodes, epoch0, read, Send(i));
      assert s'.phases == s.phases[i := Done];
    } else {
      assert read.phases == s.phases[i := Done];
    }
  }

  /** The first k landings of a course have been: those that landed are done, those still to
      land are not, and of the rest those that declined one are. */
  ghost predicate Along(nodes: seq<Node>, epoch0: nat, s: State, c: seq<Landing>, k: nat)
  {
    && Sized(nodes, s) && Course(nodes, c) && k <= |c| && s.epoch == epoch0 + k
    && s.pointer == (if k == 0 then None else Some(Activation(s.epoch, nodes[c[k - 1].i].known.id, c[k - 1].at, true)))
    && (forall i :: 0 <= i < |nodes| ==> s.phases[i].Reading? || s.phases[i].Done?)
    && (forall j :: 0 <= j < |c| ==> (s.phases[c[j].i].Done? <==> j < k))
  }

  ghost predicate DeclinersDone(nodes: seq<Node>, s: State, c: seq<Landing>, k: nat)
    requires Sized(nodes, s) && k <= |c|
  {
    forall i :: 0 <= i < |nodes| && !Lands(c, i) && Declines(nodes, c[..k], i) ==> s.phases[i].Done?
  }

  /** No node lands twice: each landing is past the instant of every one before it. */
  lemma {:induction false} LandsOnce(nodes: seq<Node>, c: seq<Landing>, j: nat, k: nat)
    requires Course(nodes, c) && j < k < |c|
    ensures c[j].i != c[k].i && c[j].at < c[k].at && nodes[c[j].i].known.activatedAt < nodes[c[k].i].known.activatedAt
    decreases k
  {
    assert PublishesAfter(nodes, c[k].i, c[k - 1]);
    ActivationIsLater(nodes[c[k].i].known.activatedAt, c[k - 1].at);
    AtLeastItsOwn(nodes, c, k - 1);
    if j < k - 1 {
      LandsOnce(nodes, c, j, k - 1);
    }
  }

  lemma AtLeastItsOwn(nodes: seq<Node>, c: seq<Landing>, k: nat)
    requires Course(nodes, c) && k < |c|
    ensures c[k].at >= nodes[c[k].i].known.activatedAt
  {
    if k > 0 {
      ActivationIsLater(nodes[c[k].i].known.activatedAt, c[k - 1].at);
    }
  }

  lemma LandingBoots(nodes: seq<Node>, epoch0: nat, s: State, c: seq<Landing>, k: nat)
    requires Named(nodes) && Along(nodes, epoch0, s, c, k) && k < |c|
    ensures var l := c[k]; var s' := Booted(nodes, epoch0, s, l.i, l.at);
      && Sized(nodes, s') && s'.phases == s.phases[l.i := Done] && s'.epoch == s.epoch + 1
      && s'.pointer == Some(Activation(s.epoch + 1, nodes[l.i].known.id, l.at, true))
  {
    var l := c[k];
    assert nodes[l.i] in nodes && s.phases[l.i].Reading?;
    if k > 0 {
      assert nodes[c[k - 1].i] in nodes && PublishesAfter(nodes, l.i, c[k - 1]);
    }
    BootedLeaves(nodes, epoch0, s, l.i, l.at);
    hide Booted, ActivationAt;
  }

  lemma NextLands(nodes: seq<Node>, epoch0: nat, s: State, c: seq<Landing>, k: nat) returns (s': State)
    requires Named(nodes) && Reached(nodes, epoch0, s) && Along(nodes, epoch0, s, c, k) && k < |c|
    requires DeclinersDone(nodes, s, c, k)
    ensures Reached(nodes, epoch0, s') && Along(nodes, epoch0, s', c, k + 1) && DeclinersDone(nodes, s', c, k)
  {
    hide Booted, Reached, Declines, Lands;
    s' := Booted(nodes, epoch0, s, c[k].i, c[k].at);
    BootedIsReached(nodes, epoch0, s, c[k].i, c[k].at);
    LandingBoots(nodes, epoch0, s, c, k);
    forall j | 0 <= j < |c| ensures s'.phases[c[j].i].Done? <==> j < k + 1 {
      if j < k { LandsOnce(nodes, c, j, k); }
      if j > k { LandsOnce(nodes, c, k, j); }
    }
    hide Course;
  }

  /** The nodes before the i-th that decline what has just landed boot, and leave it. */
  lemma Decliners(nodes: seq<Node>, epoch0: nat, s: State, c: seq<Landing>, k: nat) returns (s': State)
    requires Named(nodes) && Reached(nodes, epoch0, s) && Along(nodes, epoch0, s, c, k + 1) && DeclinersDone(nodes, s, c, k)
    ensures Reached(nodes, epoch0, s') && Along(nodes, epoch0, s', c, k + 1) && DeclinersDone(nodes, s', c, k + 1)
  {
    hide Lands, Declines, Course, Reached;
    s' := s;
    for i := 0 to |nodes|
      invariant Reached(nodes, epoch0, s') && Along(nodes, epoch0, s', c, k + 1) && DeclinersDone(nodes, s', c, k)
      invariant forall j :: 0 <= j < i && !Lands(c, j) && !PublishesAfter(nodes, j, c[k]) ==> s'.phases[j].Done?
    {
      if s'.phases[i].Reading? && !Lands(c, i) && !PublishesAfter(nodes, i, c[k]) {
        s' := DeclinerBoots(nodes, epoch0, s', c, k, i);
      }
    }
    forall i | 0 <= i < |nodes| && !Lands(c, i) && Declines(nodes, c[..k + 1], i) ensures s'.phases[i].Done? {
      DeclinedBefore(nodes, c, k, i);
    }
  }

  lemma DeclinedBefore(nodes: seq<Node>, c: seq<Landing>, k: nat, i: nat)
    requires k < |c| && Declines(nodes, c[..k + 1], i)
    ensures Declines(nodes, c[..k], i) || !PublishesAfter(nodes, i, c[k])
  {
    var at :| 0 <= at < k + 1 && !PublishesAfter(nodes, i, c[..k + 1][at]);
    if at < k {
      assert c[..k][at] == c[..k + 1][at];
    }
  }

  lemma DeclinerBoots(nodes: seq<Node>, epoch0: nat, s: State, c: seq<Landing>, k: nat, i: nat) returns (s': State)
    requires Named(nodes) && Reached(nodes, epoch0, s) && Along(nodes, epoch0, s, c, k + 1) && DeclinersDone(nodes, s, c, k)
    requires i < |nodes| && s.phases[i].Reading? && !Lands(c, i) && !PublishesAfter(nodes, i, c[k])
    ensures Reached(nodes, epoch0, s') && Along(nodes, epoch0, s', c, k + 1) && DeclinersDone(nodes, s', c, k)
    ensures s'.phases == s.phases[i := Done]
  {
    assert nodes[i] in nodes && nodes[c[k].i] in nodes;
    s' := Booted(nodes, epoch0, s, i, 1);
    BootedIsReached(nodes, epoch0, s, i, 1);
    BootedLeaves(nodes, epoch0, s, i, 1);
    hide Booted, Declines;
    forall j | 0 <= j < |c| ensures s'.phases[c[j].i].Done? <==> j < k + 1 {
      assert c[j].i != i;
    }
  }

  /** So a settled course is how some interleaving runs, to its end. */
  lemma CourseRuns(nodes: seq<Node>, epoch0: nat, c: seq<Landing>) returns (run: seq<State>)
    requires Named(nodes) && Settled(nodes, c)
    ensures Run(nodes, epoch0, run) && Complete(run[|run| - 1])
    ensures var last := run[|run| - 1].pointer; last.Some? && last.value.revision == LastOf(nodes, c)
  {
    hide Declines;
    var s := Init(nodes, epoch0);
    assert Run(nodes, epoch0, [s]) && [s][|[s]| - 1] == s;
    assert DeclinersDone(nodes, s, c, 0) by { NoneDeclinesYet(nodes, c[..0]); }
    for k := 0 to |c|
      invariant Reached(nodes, epoch0, s) && Along(nodes, epoch0, s, c, k) && DeclinersDone(nodes, s, c, k)
    {
      hide Reached, Along, DeclinersDone, Settled;
      s := NextLands(nodes, epoch0, s, c, k);
      s := Decliners(nodes, epoch0, s, c, k);
    }
    assert c[..|c|] == c;
    run :| Run(nodes, epoch0, run) && run[|run| - 1] == s;
  }

  lemma NoneDeclinesYet(nodes: seq<Node>, none: seq<Landing>)
    requires none == []
    ensures forall i :: !Declines(nodes, none, i)
  {
  }

  /** It always ends on the newest exactly where one boot after another always does. */
  lemma ConvergesIffEveryCourseDoes(nodes: seq<Node>, epoch0: nat)
    requires Named(nodes) && nodes != []
    ensures AlwaysConverges(nodes, epoch0) <==> EveryCourseConverges(nodes)
  {
    if EveryCourseConverges(nodes) {
      forall run: seq<State> | Run(nodes, epoch0, run) && Complete(run[|run| - 1]) ensures OnTheNewest(nodes, run[|run| - 1].pointer) {
        var c := RunFollows(nodes, epoch0, run);
        assert run[|run| - 1].phases[0].Done?;
        assert Settled(nodes, c);
      }
    }
    if AlwaysConverges(nodes, epoch0) {
      forall c: seq<Landing> | Settled(nodes, c) ensures IsNewest(nodes, LastOf(nodes, c)) {
        var run := CourseRuns(nodes, epoch0, c);
      }
    }
  }

  // ---- where the fleet's memory is in order ---------------------------------------------------

  ghost predicate Activated(nodes: seq<Node>) {
    forall n :: n in nodes ==> n.known.id != NoRevision && n.known.activatedAt > 0
  }

  ghost predicate OneInstantEach(nodes: seq<Node>) {
    forall m, n :: m in nodes && n in nodes && m.known.id == n.known.id ==> m.known.activatedAt == n.known.activatedAt
  }

  ghost predicate MillisecondsApart(nodes: seq<Node>) {
    forall m, n :: m in nodes && n in nodes && m.known.activatedAt < n.known.activatedAt ==>
                     Milli(m.known.activatedAt) < Milli(n.known.activatedAt)
  }

  /** Every revision anybody knows was activated, at one instant, a millisecond from any other. */
  ghost predicate InOrder(nodes: seq<Node>) {
    Activated(nodes) && OneInstantEach(nodes) && MillisecondsApart(nodes)
  }

  ghost predicate EveryoneHolds(nodes: seq<Node>) {
    forall m, n :: m in nodes && n in nodes ==> n.known.id in m.held
  }

  predicate Newest(nodes: seq<Node>, i: nat)
    requires i < |nodes|
  {
    forall j :: 0 <= j < |nodes| ==> nodes[j].known.activatedAt <= nodes[i].known.activatedAt
  }

  /** Nodes none of which is newest, of rising instants, each holding the revision before it. */
  ghost predicate OldChain(nodes: seq<Node>, c: seq<nat>) {
    && c != [] && (forall k :: 0 <= k < |c| ==> c[k] < |nodes| && !Newest(nodes, c[k]))
    && forall k :: 0 < k < |c| ==> Succeeds(nodes, c[k - 1], c[k])
  }

  predicate Succeeds(nodes: seq<Node>, i: nat, j: nat)
    requires i < |nodes| && j < |nodes|
  {
    nodes[i].known.id in nodes[j].held && nodes[i].known.activatedAt < nodes[j].known.activatedAt
  }

  predicate HoldsAll(nodes: seq<Node>, x: nat, c: seq<nat>)
    requires x < |nodes| && forall k :: 0 <= k < |c| ==> c[k] < |nodes|
  {
    forall k :: 0 <= k < |c| ==> nodes[c[k]].known.id in nodes[x].held
  }

  /** Of every such chain some newest node holds every revision. */
  ghost predicate NewestHoldsEveryChain(nodes: seq<Node>) {
    forall c :: OldChain(nodes, c) ==> exists x :: 0 <= x < |nodes| && Newest(nodes, x) && HoldsAll(nodes, x, c)
  }

  lemma NewestIs(nodes: seq<Node>, i: nat)
    requires OneInstantEach(nodes) && i < |nodes|
    ensures IsNewest(nodes, nodes[i].known.id) <==> Newest(nodes, i)
  {
    assert nodes[i] in nodes;
    if IsNewest(nodes, nodes[i].known.id) {
      var n :| n in nodes && n.known.id == nodes[i].known.id && forall m :: m in nodes ==> m.known.activatedAt <= n.known.activatedAt;
      assert forall j :: 0 <= j < |nodes| ==> nodes[j] in nodes;
    }
  }

  /** Each landing is then at the instant its node remembers. */
  lemma {:induction false} LandsAsRemembered(nodes: seq<Node>, c: seq<Landing>, k: nat)
    requires InOrder(nodes) && Course(nodes, c) && k < |c|
    ensures c[k].at == nodes[c[k].i].known.activatedAt
  {
    assert nodes[c[k].i] in nodes;
    if k > 0 {
      LandsAsRemembered(nodes, c, k - 1);
      assert nodes[c[k - 1].i] in nodes && PublishesAfter(nodes, c[k].i, c[k - 1]);
    }
  }

  /** Reading another's landing, a later node leaves it exactly where it does not hold it. */
  lemma LeavesIff(nodes: seq<Node>, x: nat, l: Landing)
    requires InOrder(nodes) && x < |nodes| && l.i < |nodes| && l.at == nodes[l.i].known.activatedAt < nodes[x].known.activatedAt
    ensures PublishesAfter(nodes, x, l) <==> nodes[l.i].known.id in nodes[x].held
  {
    assert nodes[x] in nodes && nodes[l.i] in nodes;
  }

  function Landers(c: seq<Landing>): (who: seq<nat>)
    ensures |who| == |c| && forall k :: 0 <= k < |c| ==> who[k] == c[k].i
  {
    seq(|c|, k requires 0 <= k < |c| => c[k].i)
  }

  /** A course that ends on an older revision is a chain of older ones. */
  lemma OldCourseIsChain(nodes: seq<Node>, c: seq<Landing>)
    requires InOrder(nodes) && Course(nodes, c) && c != [] && !Newest(nodes, c[|c| - 1].i)
    ensures OldChain(nodes, Landers(c))
  {
    hide InOrder;
    forall k | 0 <= k < |c| ensures !Newest(nodes, c[k].i) {
      if k < |c| - 1 {
        LandsOnce(nodes, c, k, |c| - 1);
      }
    }
    forall k | 0 < k < |c| ensures Succeeds(nodes, c[k - 1].i, c[k].i) {
      LandsOnce(nodes, c, k - 1, k);
      assert PublishesAfter(nodes, c[k].i, c[k - 1]);
    }
  }

  /** And a newest node that holds all of it neither landed in it nor declined any of it. */
  lemma HolderWouldPublish(nodes: seq<Node>, c: seq<Landing>, x: nat)
    requires InOrder(nodes) && Course(nodes, c) && OldChain(nodes, Landers(c))
    requires x < |nodes| && Newest(nodes, x) && HoldsAll(nodes, x, Landers(c))
    ensures !Lands(c, x) && !Declines(nodes, c, x)
  {
    hide InOrder, PublishesAfter;
    var who := Landers(c);
    forall k | 0 <= k < |c| ensures c[k].i != x && PublishesAfter(nodes, x, c[k]) {
      assert !Newest(nodes, who[k]) && nodes[who[k]].known.id in nodes[x].held;
      LandsAsRemembered(nodes, c, k);
      LeavesIff(nodes, x, c[k]);
    }
  }

  /** Enough: no course settles on an older revision where a newest node would publish over it. */
  lemma HeldConverges(nodes: seq<Node>, c: seq<Landing>)
    requires InOrder(nodes) && NewestHoldsEveryChain(nodes) && Settled(nodes, c)
    ensures Newest(nodes, c[|c| - 1].i)
  {
    hide InOrder, Lands, Declines, OldChain, Newest, HoldsAll;
    if !Newest(nodes, c[|c| - 1].i) {
      OldCourseIsChain(nodes, c);
      var x :| 0 <= x < |nodes| && Newest(nodes, x) && HoldsAll(nodes, x, Landers(c));
      HolderWouldPublish(nodes, c, x);
      assert false;
    }
  }

  function Landings(nodes: seq<Node>, c: seq<nat>): (ls: seq<Landing>)
    requires forall k :: 0 <= k < |c| ==> c[k] < |nodes|
    ensures |ls| == |c| && forall k :: 0 <= k < |c| ==> ls[k] == Landing(c[k], nodes[c[k]].known.activatedAt)
  {
    seq(|c|, k requires 0 <= k < |c| => Landing(c[k], nodes[c[k]].known.activatedAt))
  }

  lemma ChainIsCourse(nodes: seq<Node>, c: seq<nat>)
    requires InOrder(nodes) && OldChain(nodes, c)
    ensures Course(nodes, Landings(nodes, c))
  {
    var ls := Landings(nodes, c);
    forall k | 0 <= k < |c| ensures ls[k].i < |nodes| && ls[k].at > 0 {
      assert nodes[c[k]] in nodes;
    }
    forall k | 0 < k < |c|
      ensures PublishesAfter(nodes, ls[k].i, ls[k - 1]) && ls[k].at == ActivationAt(nodes[ls[k].i].known.activatedAt, ls[k - 1].at)
    {
      assert Succeeds(nodes, c[k - 1], c[k]) && nodes[c[k - 1]] in nodes && nodes[c[k]] in nodes;
      LeavesIff(nodes, c[k], ls[k - 1]);
    }
  }

  /** A newest node that lacks one of a chain's revisions leaves it. */
  lemma LackerDeclines(nodes: seq<Node>, c: seq<nat>, x: nat)
    requires InOrder(nodes) && OldChain(nodes, c) && x < |nodes| && Newest(nodes, x) && !HoldsAll(nodes, x, c)
    ensures Declines(nodes, Landings(nodes, c), x)
  {
    var ls := Landings(nodes, c);
    var k :| 0 <= k < |c| && nodes[c[k]].known.id !in nodes[x].held;
    assert !PublishesAfter(nodes, x, ls[k]);
  }

  /** The nodes later than an instant, which each further landing leaves fewer of. */
  function Later(nodes: seq<Node>, at: Instant): set<nat> {
    set i: nat | i < |nodes| && nodes[i].known.activatedAt > at
  }

  lemma FewerLater(nodes: seq<Node>, at: Instant, i: nat)
    requires i < |nodes| && nodes[i].known.activatedAt > at
    ensures |Later(nodes, nodes[i].known.activatedAt)| < |Later(nodes, at)|
  {
    var fewer, more := Later(nodes, nodes[i].known.activatedAt), Later(nodes, at);
    assert fewer <= more - {i} && i in more;
    Fewer(fewer, more - {i});
  }

  lemma Fewer(a: set<nat>, b: set<nat>)
    requires a <= b
    ensures |a| <= |b|
  {
    assert b == a + (b - a);
  }

  ghost predicate NewestDecline(nodes: seq<Node>, c: seq<Landing>) {
    forall x :: 0 <= x < |nodes| && Newest(nodes, x) ==> Declines(nodes, c, x)
  }

  /** Where every newest node has declined some of a course, the rest settle it on an older one. */
  lemma OthersSettle(nodes: seq<Node>, c: seq<Landing>) returns (settled: seq<Landing>)
    requires InOrder(nodes) && Course(nodes, c) && c != [] && !Newest(nodes, c[|c| - 1].i) && NewestDecline(nodes, c)
    ensures Settled(nodes, settled) && !Newest(nodes, settled[|settled| - 1].i)
    decreases |Later(nodes, c[|c| - 1].at)|, 1
  {
    hide InOrder, Newest, Lands, Declines;
    if i: nat :| i < |nodes| && !Lands(c, i) && !Declines(nodes, c, i) {
      settled := OneMoreSettles(nodes, c, i);
    } else {
      settled := c;
    }
  }

  lemma OneMoreSettles(nodes: seq<Node>, c: seq<Landing>, i: nat) returns (settled: seq<Landing>)
    requires InOrder(nodes) && Course(nodes, c) && c != [] && NewestDecline(nodes, c)
    requires i < |nodes| && !Lands(c, i) && !Declines(nodes, c, i)
    ensures Settled(nodes, settled) && !Newest(nodes, settled[|settled| - 1].i)
    decreases |Later(nodes, c[|c| - 1].at)|, 0
  {
    hide InOrder, Newest, Later;
    var last := c[|c| - 1];
    assert PublishesAfter(nodes, i, last);
    var l := Landing(i, ActivationAt(nodes[i].known.activatedAt, last.at));
    ActivationIsLater(nodes[i].known.activatedAt, last.at);
    Longer(nodes, c, l);
    hide Lands, Declines;
    LandsAsRemembered(nodes, c + [l], |c|);
    FewerLater(nodes, last.at, i);
    settled := OthersSettle(nodes, c + [l]);
  }

  lemma UnheldSettles(nodes: seq<Node>, c: seq<nat>) returns (settled: seq<Landing>)
    requires InOrder(nodes) && OldChain(nodes, c) && forall x :: 0 <= x < |nodes| && Newest(nodes, x) ==> !HoldsAll(nodes, x, c)
    ensures Settled(nodes, settled) && !Newest(nodes, settled[|settled| - 1].i)
  {
    hide InOrder, Newest, Declines, Settled, HoldsAll;
    ChainIsCourse(nodes, c);
    forall x: nat | x < |nodes| && Newest(nodes, x) ensures Declines(nodes, Landings(nodes, c), x) {
      LackerDeclines(nodes, c, x);
    }
    settled := OthersSettle(nodes, Landings(nodes, c));
  }

  lemma SomeUnheld(nodes: seq<Node>) returns (c: seq<nat>)
    requires !NewestHoldsEveryChain(nodes)
    ensures OldChain(nodes, c) && forall x :: 0 <= x < |nodes| && Newest(nodes, x) ==> !HoldsAll(nodes, x, c)
  {
    hide Newest, HoldsAll;
    c :| OldChain(nodes, c) && !exists x :: 0 <= x < |nodes| && Newest(nodes, x) && HoldsAll(nodes, x, c);
  }

  /** It always ends on the newest exactly where, of every chain of older nodes, some newest
      node holds every revision. */
  lemma ConvergesIffHeld(nodes: seq<Node>, epoch0: nat)
    requires InOrder(nodes) && nodes != []
    ensures AlwaysConverges(nodes, epoch0) <==> NewestHoldsEveryChain(nodes)
  {
    hide IsNewest, Newest, HoldsAll, OldChain, MillisecondsApart, AlwaysConverges, Lands, Declines;
    assert Named(nodes);
    ConvergesIffEveryCourseDoes(nodes, epoch0);
    if NewestHoldsEveryChain(nodes) {
      forall c: seq<Landing> | Settled(nodes, c) ensures IsNewest(nodes, LastOf(nodes, c)) {
        HeldConverges(nodes, c);
        NewestIs(nodes, c[|c| - 1].i);
      }
    } else {
      var c := SomeUnheld(nodes);
      var settled := UnheldSettles(nodes, c);
      NewestIs(nodes, settled[|settled| - 1].i);
    }
  }

  /** With one newest node: exactly where it holds what every other knows. */
  lemma ConvergesIffTheNewestHolds(nodes: seq<Node>, epoch0: nat, x: nat)
    requires InOrder(nodes) && x < |nodes|
    requires forall y :: 0 <= y < |nodes| && y != x ==> nodes[y].known.activatedAt < nodes[x].known.activatedAt
    ensures AlwaysConverges(nodes, epoch0) <==>
      forall y :: 0 <= y < |nodes| && y != x ==> nodes[y].known.id in nodes[x].held
  {
    hide InOrder, AlwaysConverges;
    ConvergesIffHeld(nodes, epoch0);
    assert forall y :: 0 <= y < |nodes| ==> (Newest(nodes, y) <==> y == x);
    if NewestHoldsEveryChain(nodes) {
      forall y | 0 <= y < |nodes| && y != x ensures nodes[y].known.id in nodes[x].held {
        var c: seq<nat> := [y];
        assert OldChain(nodes, c);
        assert HoldsAll(nodes, x, c) && nodes[c[0]].known.id in nodes[x].held;
      }
    }
    if forall y :: 0 <= y < |nodes| && y != x ==> nodes[y].known.id in nodes[x].held {
      forall c | OldChain(nodes, c) ensures Newest(nodes, x) && HoldsAll(nodes, x, c) {
      }
    }
  }

  /** So wherever every node holds every revision another knows. */
  lemma EveryRunConverges(nodes: seq<Node>, epoch0: nat, run: seq<State>)
    requires InOrder(nodes) && EveryoneHolds(nodes) && nodes != [] && Run(nodes, epoch0, run) && Complete(run[|run| - 1])
    ensures OnTheNewest(nodes, run[|run| - 1].pointer)
  {
    hide InOrder, Run, Complete, OnTheNewest;
    ConvergesIffHeld(nodes, epoch0);
    var x := SomeNewest(nodes);
    forall c | OldChain(nodes, c) ensures Newest(nodes, x) && HoldsAll(nodes, x, c) {
      forall k | 0 <= k < |c| ensures nodes[c[k]].known.id in nodes[x].held {
        assert nodes[c[k]] in nodes && nodes[x] in nodes;
      }
    }
  }

  lemma SomeNewest(nodes: seq<Node>) returns (x: nat)
    requires nodes != []
    ensures x < |nodes| && Newest(nodes, x)
  {
    x := 0;
    for i := 1 to |nodes|
      invariant x < |nodes| && forall j :: 0 <= j < i ==> nodes[j].known.activatedAt <= nodes[x].known.activatedAt
    {
      if nodes[i].known.activatedAt > nodes[x].known.activatedAt {
        x := i;
      }
    }
  }

  // ---- and where it is not ----------------------------------------------------------------------

  function Knows(id: RevisionId, at: Instant, held: set<RevisionId>): Node {
    Node(Revision(id, at, None), held)
  }

  lemma OfThree(nodes: seq<Node>)
    requires |nodes| == 3
    ensures forall n :: n in nodes <==> n == nodes[0] || n == nodes[1] || n == nodes[2]
  {
  }

  /** A settled course on an older one is an interleaving that ends there. */
  lemma EndsOnAnOlder(nodes: seq<Node>, c: seq<Landing>) returns (run: seq<State>)
    requires Named(nodes) && Settled(nodes, c) && !IsNewest(nodes, LastOf(nodes, c))
    ensures Run(nodes, 0, run) && Complete(run[|run| - 1]) && !OnTheNewest(nodes, run[|run| - 1].pointer)
  {
    hide Run, Complete, Settled;
    run := CourseRuns(nodes, 0, c);
  }

  const Close: seq<Node> := [Knows(1, 1000, {1, 2, 3}), Knows(2, 1200, {1, 2, 3}), Knows(3, 1900, {1, 2, 3})]

  lemma CloseIs()
    ensures Named(Close) && Activated(Close) && EveryoneHolds(Close) && OneInstantEach(Close) && !MillisecondsApart(Close)
  {
    OfThree(Close);
  }

  /** Two restores within a millisecond: the second is pushed past a third that is newer. */
  lemma WithinAMillisecondItNeedNot() returns (run: seq<State>)
    ensures Activated(Close) && EveryoneHolds(Close) && OneInstantEach(Close) && !MillisecondsApart(Close)
    ensures Run(Close, 0, run) && Complete(run[|run| - 1]) && !OnTheNewest(Close, run[|run| - 1].pointer)
  {
    hide Run, Complete, OnTheNewest, Activated, Named, EveryoneHolds, OneInstantEach, MillisecondsApart;
    CloseIs();
    OfThree(Close);
    var c := [Landing(0, 1000), Landing(1, 2000)];
    assert c[0].i == 0 && c[1].i == 1 && !PublishesAfter(Close, 2, c[1]);
    run := EndsOnAnOlder(Close, c);
  }

  const OneUnactivated: seq<Node> := [Knows(1, 0, {1, 2, 3}), Knows(2, 2000, {1, 2, 3}), Knows(3, 3000, {1, 2, 3})]

  lemma OneUnactivatedIs()
    ensures Named(OneUnactivated) && !Activated(OneUnactivated) && EveryoneHolds(OneUnactivated) && OneInstantEach(OneUnactivated) && MillisecondsApart(OneUnactivated)
  {
    OfThree(OneUnactivated);
  }

  /** A revision nothing ever activated is restored at the clock's instant, past every other. */
  lemma UnactivatedItNeedNot() returns (run: seq<State>)
    ensures !Activated(OneUnactivated) && EveryoneHolds(OneUnactivated) && OneInstantEach(OneUnactivated) && MillisecondsApart(OneUnactivated)
    ensures Run(OneUnactivated, 0, run) && Complete(run[|run| - 1]) && !OnTheNewest(OneUnactivated, run[|run| - 1].pointer)
  {
    hide Run, Complete, OnTheNewest, Activated, Named, EveryoneHolds, OneInstantEach, MillisecondsApart;
    OneUnactivatedIs();
    OfThree(OneUnactivated);
    var c := [Landing(0, 5000)];
    assert c[0].i == 0 && !PublishesAfter(OneUnactivated, 1, c[0]) && !PublishesAfter(OneUnactivated, 2, c[0]);
    run := EndsOnAnOlder(OneUnactivated, c);
  }

  const OneTwice: seq<Node> := [Knows(1, 1000, {1, 2}), Knows(1, 3000, {1, 2}), Knows(2, 2000, {1, 2})]

  lemma OneTwiceIs()
    ensures Named(OneTwice) && Activated(OneTwice) && EveryoneHolds(OneTwice) && !OneInstantEach(OneTwice) && MillisecondsApart(OneTwice)
  {
    OfThree(OneTwice);
  }

  /** A revision remembered at two instants: a node leaves the older standing as its own. */
  lemma AtTwoInstantsItNeedNot() returns (run: seq<State>)
    ensures Activated(OneTwice) && EveryoneHolds(OneTwice) && !OneInstantEach(OneTwice) && MillisecondsApart(OneTwice)
    ensures Run(OneTwice, 0, run) && Complete(run[|run| - 1]) && !OnTheNewest(OneTwice, run[|run| - 1].pointer)
  {
    hide Run, Complete, OnTheNewest, Activated, Named, EveryoneHolds, OneInstantEach, MillisecondsApart;
    OneTwiceIs();
    OfThree(OneTwice);
    var c := [Landing(0, 1000), Landing(2, 2000)];
    assert c[0].i == 0 && c[1].i == 2 && !PublishesAfter(OneTwice, 1, c[0]);
    run := EndsOnAnOlder(OneTwice, c);
  }

  const Apart: seq<Node> := [Knows(1, 1000, {1}), Knows(2, 2000, {2}), Knows(3, 3000, {3})]

  lemma ApartIs()
    ensures Named(Apart) && InOrder(Apart) && !EveryoneHolds(Apart)
  {
    OfThree(Apart);
  }

  /** A node that does not hold the revision restored leaves it, however old. */
  lemma NotHeldItNeedNot() returns (run: seq<State>)
    ensures InOrder(Apart) && !EveryoneHolds(Apart)
    ensures Run(Apart, 0, run) && Complete(run[|run| - 1]) && !OnTheNewest(Apart, run[|run| - 1].pointer)
  {
    hide Run, Complete, OnTheNewest, Activated, Named, EveryoneHolds, OneInstantEach, MillisecondsApart;
    ApartIs();
    OfThree(Apart);
    var c := [Landing(0, 1000)];
    assert c[0].i == 0 && !PublishesAfter(Apart, 1, c[0]) && !PublishesAfter(Apart, 2, c[0]);
    run := EndsOnAnOlder(Apart, c);
  }
}
