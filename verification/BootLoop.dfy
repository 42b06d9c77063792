/** A boot's own publish, step by step over its store and the fleet's pointer, while the fleet's
    other nodes and everybody else take any turns of theirs between its calls: one run of the
    fleet's turns. The boot's own node is the fleet's first. */
module BootLoop {
  import opened BootPublish
  import opened BootFleet
  import opened Options

  /** The fleet's turns, each taken from the fleet before it. */
  ghost predicate Turns(run: seq<Fleet>) {
    run != [] && Inv(run[0]) && forall k :: 0 < k < |run| ==> Next(run[k - 1], run[k])
  }

  lemma HasTurns(run: seq<Fleet>)
    requires Turns(run)
    ensures run != []
  {
  }

  ghost function Last(run: seq<Fleet>): Fleet
    requires run != []
  {
    run[|run| - 1]
  }

  ghost function Then(run: seq<Fleet>, t: Turn): (longer: seq<Fleet>)
    requires run != [] && Enabled(Last(run), t)
    ensures |longer| == |run| + 1 && run <= longer && Last(longer) == Taken(Last(run), t)
  {
    run + [Taken(Last(run), t)]
  }

  /** The first node's compare-and-set was lost in this turn. */
  ghost predicate LostAt(f: Fleet, f': Fleet) {
    f.nodes != [] && f'.nodes != [] && f.nodes[0].phase.Sending? && f'.nodes[0].phase.Deciding?
  }

  ghost function Losses(run: seq<Fleet>): nat {
    if |run| < 2 then 0
    else Losses(run[..|run| - 1]) + if LostAt(run[|run| - 2], run[|run| - 1]) then 1 else 0
  }

  lemma LossesThen(run: seq<Fleet>, t: Turn)
    requires run != [] && Enabled(Last(run), t)
    ensures Losses(Then(run, t)) == Losses(run) + if LostAt(Last(run), Taken(Last(run), t)) then 1 else 0
  {
    hide Enabled, Taken, LostAt;
    assert Then(run, t)[..|run|] == run;
  }

  lemma ThenIsTurns(run: seq<Fleet>, t: Turn)
    requires Turns(run) && Inv(Last(run)) && Enabled(Last(run), t)
    ensures Turns(Then(run, t)) && Inv(Last(Then(run, t)))
    ensures Losses(Then(run, t)) == Losses(run) + if LostAt(Last(run), Taken(Last(run), t)) then 1 else 0
  {
    hide Inv, Enabled, Taken, LostAt;
    LossesThen(run, t);
    var longer := Then(run, t);
    TakenKeeps(Last(run), t);
    forall k | 0 < k < |longer| ensures Next(longer[k - 1], longer[k]) {
      if k < |run| {
        assert Next(run[k - 1], run[k]);
      }
    }
  }

  /** A turn that is not the first node's. */
  predicate Theirs(t: Turn) {
    t.Write? || t.Lose? || t.i > 0
  }

  function WithOwn(f: Fleet, own: Node): Fleet
    requires f.nodes != []
  {
    f.(nodes := f.nodes[0 := own])
  }

  /** Others' turns are the same whatever the first node is at, and leave it there. */
  lemma TheirTurn(f: Fleet, own: Node, t: Turn)
    requires f.nodes != [] && Theirs(t)
    ensures Enabled(f, t) <==> Enabled(WithOwn(f, own), t)
    ensures Enabled(f, t) ==>
      && Taken(f, t).nodes != [] && Taken(f, t).nodes[0] == f.nodes[0]
      && Taken(WithOwn(f, own), t) == WithOwn(Taken(f, t), own)
  {
    if Enabled(f, t) && !t.Write? && !t.Lose? {
      assert f.nodes[t.i := Taken(f, t).nodes[t.i]][0 := own] == f.nodes[0 := own][t.i := Taken(f, t).nodes[t.i]];
    }
  }

  /** The fleet's activation pointer, its history, and everybody but the node that boots: the
      other nodes, and the turns that are theirs to take before each of its calls is answered.
      One that cannot be taken then is passed over. */
  class Plane {
    var pointer: Option<Activation>
    var history: seq<Activation>
    var peers: seq<Node>
    var others: seq<seq<Turn>>
    /** How many of their turns moved the pointer. */
    ghost var moved: nat

    function AsFleet(own: Node): Fleet
      reads this
    {
      Fleet(pointer, history, [own] + peers)
    }

    ghost predicate Is(f: Fleet)
      reads this
    {
      f.nodes != [] && f == AsFleet(f.nodes[0])
    }

    method Others(ghost run: seq<Fleet>) returns (ghost after: seq<Fleet>)
      requires Turns(run) && Inv(Last(run)) && Is(Last(run))
      modifies this
      ensures Turns(after) && Inv(Last(after)) && Is(Last(after)) && run <= after
      ensures Last(after).nodes[0] == Last(run).nodes[0] && Losses(after) == Losses(run)
      ensures others == if old(others) == [] then [] else old(others)[1..]
      ensures moved >= old(moved) && (pointer != old(pointer) ==> moved > old(moved) && old(others) != [])
    {
      after := run;
      if others == [] {
        return;
      }
      var batch := others[0];
      others := others[1..];
      for k := 0 to |batch|
        invariant Turns(after) && Inv(Last(after)) && Is(Last(after)) && run <= after
        invariant Last(after).nodes[0] == Last(run).nodes[0] && Losses(after) == Losses(run)
        invariant others == old(others)[1..]
        invariant moved >= old(moved) && (pointer != old(pointer) ==> moved > old(moved))
      {
        hide Inv, Turns;
        after := Take(batch[k], after);
      }
    }

    /** One turn of theirs, where it is one and can be taken. */
    method Take(t: Turn, ghost run: seq<Fleet>) returns (ghost after: seq<Fleet>)
      requires Turns(run) && Inv(Last(run)) && Is(Last(run))
      modifies this
      ensures Turns(after) && Inv(Last(after)) && Is(Last(after)) && run <= after
      ensures Last(after).nodes[0] == Last(run).nodes[0] && Losses(after) == Losses(run)
      ensures others == old(others) && moved == old(moved) + if pointer == old(pointer) then 0 else 1
    {
      hide Inv, Turns, Enabled, Taken, Losses;
      HasTurns(run);
      after := run;
      var anybody := Node(Store(None, None, map[]), Down, None, Chose(0, Offer(0, 0, 0), None, None, 0));
      var f := AsFleet(anybody);
      if Theirs(t) && Enabled(f, t) {
        assert f == WithOwn(Last(run), anybody);
        TheirTurn(Last(run), anybody, t);
        TheirTurn(f, anybody, t);
        ThenIsTurns(run, t);
        after := Then(run, t);
        var f' := Taken(f, t);
        moved := moved + if f'.pointer == pointer then 0 else 1;
        pointer, history, peers := f'.pointer, f'.history, f'.nodes[1..];
      }
    }

    method Target(ghost run: seq<Fleet>) returns (target: Option<Activation>, ghost after: seq<Fleet>)
      requires Turns(run) && Inv(Last(run)) && Is(Last(run))
      modifies this
      ensures Turns(after) && Inv(Last(after)) && Is(Last(after)) && run <= after
      ensures Last(after).nodes[0] == Last(run).nodes[0] && Losses(after) == Losses(run) && target == pointer
      ensures others == (if old(others) == [] then [] else old(others)[1..])
      ensures moved >= old(moved) && (pointer != old(pointer) ==> moved > old(moved))
    {
      after := Others(run);
      target := pointer;
    }

    /** One compare-and-set over the pointer as it then stands. */
    method Activate(r: Request, ghost run: seq<Fleet>) returns (o: Outcome, ghost after: seq<Fleet>)
      requires Turns(run) && Inv(Last(run)) && Is(Last(run))
      modifies this
      ensures Turns(after) && Inv(Last(after)) && run <= after && Last(after).nodes != []
      ensures Last(after).nodes[0] == Last(run).nodes[0] && Losses(after) == Losses(run) && Last(after).nodes[1..] == peers
      ensures others == if old(others) == [] then [] else old(others)[1..]
      ensures moved >= old(moved) && (Last(after).pointer != old(pointer) ==> moved > old(moved) && old(others) != [])
      ensures o == BootPublish.Activate(Last(after).pointer, |Last(after).history|, r)
      ensures pointer == if o.Landed? then Some(o.activation) else Last(after).pointer
      ensures history == Last(after).history + if o.Landed? then [o.activation] else []
    {
      hide Inv, Turns;
      after := Others(run);
      o := BootPublish.Activate(pointer, |history|, r);
      if o.Landed? {
        pointer, history := Some(o.activation), history + [o.activation];
      }
    }
  }

  /** A node's config history: the row it boots on, the fleet's row it last saw, and every
      revision it holds. */
  class Configs {
    var boot: Option<Revision>
    var fleets: Option<Revision>
    var held: map<RevisionId, Instant>

    function AsStore(): Store
      reads this
    {
      Store(boot, fleets, held)
    }

    /** Records the instant a publish of the offer is about to ask for, and over what; nothing
        where the row is no offer. */
    method PlanOffer(id: RevisionId, at: Instant, over: RevisionId) returns (ok: bool)
      modifies this`boot
      ensures ok <==> old(boot).Some? && old(boot).value.id == id && old(boot).value.offer.Some?
      ensures boot == if ok then Some(old(boot).value.(offer := Some(Offer(over, NoRevision, at)))) else old(boot)
    {
      ok := boot.Some? && boot.value.id == id && boot.value.offer.Some?;
      if ok {
        boot := Some(boot.value.(offer := Some(Offer(over, NoRevision, at))));
      }
    }

    /** Records the offer as taken: a revision, and no offer any longer. */
    method ConfirmOffer(id: RevisionId) returns (ok: bool)
      modifies this`boot
      ensures ok <==> old(boot).Some? && old(boot).value.id == id && old(boot).value.offer.Some?
      ensures boot == if ok then Settled(old(boot)) else old(boot)
    {
      ok := boot.Some? && boot.value.id == id && boot.value.offer.Some?;
      if ok {
        boot := Some(boot.value.(offer := None));
      }
    }

    /** Raises the instant of a revision held, in every row marked of it. */
    method NoteActivation(a: Activation)
      modifies this
      ensures AsStore() == Noted(old(AsStore()), a)
    {
      if a.revision !in held {
        return;
      }
      if held[a.revision] < a.at {
        held := held[a.revision := a.at];
      }
      if boot.Some? && boot.value.id == a.revision && boot.value.activatedAt < a.at {
        boot := Some(boot.value.(activatedAt := a.at));
      }
      if fleets.Some? && fleets.value.id == a.revision && fleets.value.activatedAt < a.at {
        fleets := Some(fleets.value.(activatedAt := a.at));
      }
    }
  }

  // ---- the boot's publish --------------------------------------------------------------------

  /** A run of the fleet's turns up to now, and where the first node is. */
  ghost predicate Going(run: seq<Fleet>, plane: Plane, configs: Configs, phase: Phase)
    reads plane, configs
  {
    && run != [] && Turns(run) && Inv(Last(run)) && plane.Is(Last(run))
    && Last(run).nodes[0].store == configs.AsStore() && Last(run).nodes[0].phase == phase
  }

  /** A turn of the node's own that leaves the pointer alone. */
  lemma OwnTurn(run: seq<Fleet>, t: Turn)
    requires Turns(run) && Inv(Last(run)) && Last(run).nodes != []
    requires (t.Read? || t.Confirm? || t.Plan? || t.Record?) && t.i == 0 && Enabled(Last(run), t)
    ensures var f, f' := Last(run), Last(Then(run, t));
      Turns(Then(run, t)) && Inv(f') && f' == WithOwn(f, Alone(f, f.nodes[0], t)) && Losses(Then(run, t)) == Losses(run)
  {
    ThenIsTurns(run, t);
    hide Inv, Alone;
  }

  lemma PlanTurn(run: seq<Fleet>)
    requires run != [] && Turns(run) && Inv(Last(run)) && Last(run).nodes != [] && Last(run).nodes[0].phase.Planning?
    ensures Enabled(Last(run), Plan(0))
    ensures var f, f' := Last(run), Last(Then(run, Plan(0))); var n := f.nodes[0]; var p := n.phase.publish;
      && Losses(Then(run, Plan(0))) == Losses(run)
      && Turns(Then(run, Plan(0))) && Inv(f')
      && f' == WithOwn(f, n.(store := n.store.(boot := if p.over.Some? then Planned(n.store.boot, p) else n.store.boot),
                             phase := Sending(n.phase.boot, n.phase.fleets, n.phase.seen, p)))
  {
    assert Enabled(Last(run), Plan(0));
    OwnTurn(run, Plan(0));
    hide Inv, Turns;
  }

  lemma SendTurn(run: seq<Fleet>)
    requires run != [] && Turns(run) && Inv(Last(run)) && Last(run).nodes != [] && Last(run).nodes[0].phase.Sending?
    ensures Enabled(Last(run), Send(0))
    ensures Turns(Then(run, Send(0))) && Inv(Last(Then(run, Send(0))))
    ensures Losses(Then(run, Send(0))) == Losses(run) + if Outcomes(Last(run), Last(run).nodes[0]).Landed? then 0 else 1
    ensures var f, f' := Last(run), Last(Then(run, Send(0))); var n := f.nodes[0]; var o := Outcomes(f, n);
      && f'.nodes != [] && f'.nodes[1..] == f.nodes[1..] && f'.nodes[0].store == n.store
      && (if o.Landed? then
            f'.pointer == Some(o.activation) && f'.history == f.history + [o.activation] && f'.nodes[0].phase == Sent(n.phase.publish, o.activation)
          else f'.pointer == f.pointer && f'.history == f.history
               && f'.nodes[0].phase == Deciding(Planned(n.phase.boot, n.phase.publish), n.phase.fleets))
  {
    assert Enabled(Last(run), Send(0));
    ThenIsTurns(run, Send(0));
    hide Inv, Turns, Outcomes;
  }

  lemma RecordTurn(run: seq<Fleet>)
    requires run != [] && Turns(run) && Inv(Last(run)) && Last(run).nodes != [] && Last(run).nodes[0].phase.Sent?
    ensures Enabled(Last(run), Record(0, true))
    ensures var f, f' := Last(run), Last(Then(run, Record(0, true))); var n := f.nodes[0]; var a := n.phase.landed;
      && Losses(Then(run, Record(0, true))) == Losses(run)
      && Turns(Then(run, Record(0, true))) && Inv(f') && f'.pointer == f.pointer && f'.history == f.history
      && f'.nodes != [] && f'.nodes[1..] == f.nodes[1..] && f'.nodes[0].phase == Up
      && f'.nodes[0].store == if n.phase.publish.over.Some? then n.store.(boot := Settled(n.store.boot))
                              else Noted(n.store, a)
  {
    assert Enabled(Last(run), Record(0, true));
    OwnTurn(run, Record(0, true));
    hide Inv, Turns;
  }

  lemma ConfirmingOffer(f: Fleet, i: nat)
    requires Inv(f) && i < |f.nodes| && f.nodes[i].phase.Confirming?
    ensures var n := f.nodes[i]; && n.phase.boot == n.store.boot && n.store.boot.Some? && n.store.boot.value.offer.Some?
  {
    assert NodeOk(f.pointer, f.history, f.nodes[i]);
  }

  lemma PlanningOffer(f: Fleet, i: nat)
    requires Inv(f) && i < |f.nodes| && f.nodes[i].phase.Planning? && f.nodes[i].phase.publish.over.Some?
    ensures var n := f.nodes[i];
      && n.phase.boot == n.store.boot == Some(n.phase.publish.revision) && n.phase.publish.revision.offer.Some?
  {
    var n := f.nodes[i];
    assert NodeOk(f.pointer, f.history, n);
    DecisionIsPinned(n.phase.seen, f.pointer, 0);
  }

  lemma SendingOffer(f: Fleet, i: nat)
    requires Inv(f) && i < |f.nodes| && f.nodes[i].phase.Sending? && f.nodes[i].phase.publish.over.Some?
    ensures var n := f.nodes[i]; n.phase.boot == Some(n.phase.publish.revision)
  {
    var n := f.nodes[i];
    assert NodeOk(f.pointer, f.history, n);
    DecisionIsPinned(n.phase.seen, f.pointer, 0);
  }

  /** A publish decided is never refused as malformed, and it races only where the pointer has
      moved since it was read. */
  lemma OnlyAMoveRaces(f: Fleet, i: nat)
    requires Inv(f) && i < |f.nodes| && f.nodes[i].phase.Sending?
    ensures var o := Outcomes(f, f.nodes[i]); && !o.Refused? && (o.Raced? ==> f.pointer != f.nodes[i].phase.seen.target)
  {
    var n := f.nodes[i];
    assert NodeOk(f.pointer, f.history, n);
    DecisionIsPinned(n.phase.seen, f.pointer, |f.history|);
  }

  datatype Ended = Published(activation: Activation) | Lost | NothingToPublish | NoLongerOffered

  /** One decision's publish: planned in the store, asked of the pointer, and recorded. Only a
      move of the pointer since it was read makes it lose. */
  method PublishDecided(plane: Plane, configs: Configs, ghost seen: Facts, p: Publish, ghost before: seq<Fleet>)
      returns (ended: Ended, ghost run: seq<Fleet>)
    requires Going(before, plane, configs, Planning(configs.boot, configs.fleets, seen, p)) && plane.pointer == seen.target
    modifies plane, configs
    ensures before <= run && (ended.Published? || ended.Lost?) && Losses(run) == Losses(before) + if ended.Lost? then 1 else 0
    ensures plane.others == (if old(plane.others) == [] then [] else old(plane.others)[1..]) && plane.moved >= old(plane.moved)
    ensures ended.Published? ==> Going(run, plane, configs, Up) && plane.pointer == Some(ended.activation)
    // What stands in the pointer is what was asked, and the store has it so.
    ensures ended.Published? ==> ended.activation.revision == p.request.revision && ended.activation.restored == p.request.restore
    ensures ended.Published? ==>
      configs.AsStore() == if p.over.Some? then old(configs.AsStore()).(boot := Settled(old(configs.boot)))
                           else Noted(old(configs.AsStore()), ended.activation)
    ensures ended.Lost? ==>
      && Going(run, plane, configs, Deciding(configs.boot, configs.fleets)) && old(plane.others) != []
      && plane.moved > old(plane.moved) && configs.boot == Planned(old(configs.boot), p) && configs.fleets == old(configs.fleets) && configs.held == old(configs.held)
  {
    hide Inv, Turns, Decide, Enabled, Taken, Outcomes;
    var boot, fleets := configs.boot, configs.fleets;
    if p.over.Some? {
      PlanningOffer(Last(before), 0);
      var ok := configs.PlanOffer(p.revision.id, p.request.at, p.over.value);
      if !ok {
        return NoLongerOffered, before;
      }
    }
    PlanTurn(before);
    run := Then(before, Plan(0));
    assert Going(run, plane, configs, Sending(boot, fleets, seen, p));
    ended, run := SendPlanned(plane, configs, boot, fleets, seen, p, run);
  }

  /** The compare-and-set, and the record of it where it lands. */
  method SendPlanned(plane: Plane, configs: Configs, ghost boot: Option<Revision>, ghost fleets: Option<Revision>,
                     ghost seen: Facts, p: Publish, ghost before: seq<Fleet>)
      returns (ended: Ended, ghost run: seq<Fleet>)
    requires Going(before, plane, configs, Sending(boot, fleets, seen, p)) && plane.pointer == seen.target
    requires configs.boot == Planned(boot, p) && configs.fleets == fleets
    modifies plane, configs
    ensures before <= run && (ended.Published? || ended.Lost?) && Losses(run) == Losses(before) + if ended.Lost? then 1 else 0
    ensures plane.others == (if old(plane.others) == [] then [] else old(plane.others)[1..]) && plane.moved >= old(plane.moved)
    ensures ended.Published? ==> Going(run, plane, configs, Up) && plane.pointer == Some(ended.activation)
    // What stands in the pointer is what was asked, and the store has it so.
    ensures ended.Published? ==> ended.activation.revision == p.request.revision && ended.activation.restored == p.request.restore
    ensures ended.Published? ==>
      configs.AsStore() == if p.over.Some? then old(configs.AsStore()).(boot := Settled(old(configs.boot)))
                           else Noted(old(configs.AsStore()), ended.activation)
    ensures ended.Lost? ==>
      && Going(run, plane, configs, Deciding(configs.boot, configs.fleets)) && old(plane.others) != []
      && plane.moved > old(plane.moved) && configs.AsStore() == old(configs.AsStore())
  {
    hide Inv, Turns, Decide, Enabled, Taken, Losses, LostAt, Alone;
    var o;
    o, run := plane.Activate(p.request, before);
    assert Last(run).nodes[0].phase == Sending(boot, fleets, seen, p);
    assert o == Outcomes(Last(run), Last(run).nodes[0]);
    hide Outcomes, BootPublish.Activate;
    OnlyAMoveRaces(Last(run), 0);
    ghost var sent := Last(run);
    SendTurn(run);
    run := Then(run, Send(0));
    if o.Raced? {
      return Ended.Lost, run;
    }
    if p.over.Some? {
      SendingOffer(sent, 0);
      var ok := configs.ConfirmOffer(p.revision.id);
    } else {
      configs.NoteActivation(o.activation);
    }
    RecordTurn(run);
    run := Then(run, Record(0, true));
    ended := Published(o.activation);
  }

  /** What a boot has read, it decides on, and its store is as it was. */
  lemma ReadTurn(run: seq<Fleet>, facts: Facts)
    requires run != [] && Turns(run) && Inv(Last(run)) && Last(run).nodes != [] && facts.now > 0
    requires Last(run).nodes[0].phase == Deciding(facts.boot, facts.fleets)
    requires facts == FactsRead(Last(run), Last(run).nodes[0], facts.now)
    ensures Enabled(Last(run), Read(0, facts.now))
    ensures var f, f' := Last(run), Last(Then(run, Read(0, facts.now))); var d := Decide(facts);
      && Losses(Then(run, Read(0, facts.now))) == Losses(run)
      && Turns(Then(run, Read(0, facts.now))) && Inv(f') && f'.pointer == f.pointer && f'.history == f.history
      && f'.nodes != [] && f'.nodes[1..] == f.nodes[1..] && f'.nodes[0].store == f.nodes[0].store
      && f'.nodes[0].phase == if d.confirm then Confirming(facts.boot, facts.fleets, facts)
                              else if d.publish.Some? then Planning(facts.boot, facts.fleets, facts, d.publish.value)
                              else Up
  {
    assert Enabled(Last(run), Read(0, facts.now));
    OwnTurn(run, Read(0, facts.now));
    hide Inv, Turns, Decide;
  }

  /** A landed offer found on reading: its confirmation finds it in the store, always. */
  method ConfirmOffer(plane: Plane, configs: Configs, ghost seen: Facts, ghost before: seq<Fleet>)
      returns (ok: bool, ghost run: seq<Fleet>)
    requires Going(before, plane, configs, Confirming(configs.boot, configs.fleets, seen))
    modifies configs`boot
    ensures ok && Going(run, plane, configs, Deciding(configs.boot, configs.fleets)) && before <= run && Losses(run) == Losses(before)
    ensures old(configs.boot).Some? && old(configs.boot).value.offer.Some? && configs.boot == Settled(old(configs.boot))
  {
    hide Inv, Turns, Decide, Losses, LostAt;
    assert before != [];
    ConfirmingOffer(Last(before), 0);
    ok := configs.ConfirmOffer(configs.boot.value.id);
    assert Enabled(Last(before), Confirm(0));
    OwnTurn(before, Confirm(0));
    run := Then(before, Confirm(0));
  }

  /** What a boot would read now. */
  ghost function FactsNow(plane: Plane, configs: Configs, now: Instant): Facts
    reads plane, configs
  {
    Facts(configs.boot, configs.fleets, plane.pointer, plane.pointer.Some? && plane.pointer.value.revision in configs.held, now)
  }

  /** The pointer as it stands leaves this boot nothing to publish, nor to confirm: there is one, or no
      row to publish; this node's offer is none, or one the fleet moved on from; and what it knows of the company is
      no newer than a stale restore. */
  ghost predicate NothingLeft(plane: Plane, configs: Configs, now: Instant)
    reads plane, configs
  {
    var f := FactsNow(plane, configs, now);
    && (plane.pointer.Some? || (configs.boot.None? && configs.fleets.None?))
    && !IsTaken(f) && !IsOfferDue(f) && !IsRestoreDue(f)
  }

  /** The revision a boot owes the fleet. */
  ghost predicate IsDue(f: Facts, id: RevisionId) {
    (IsOfferDue(f) && id == f.boot.value.id) || (IsRestoreDue(f) && id == Known(f).value.id)
  }

  /** What a boot decides on once an offer the fleet took is confirmed. */
  ghost function Confirmed(f: Facts): Facts {
    if IsTaken(f) then f.(boot := Settled(f.boot)) else f
  }

  ghost function Decided(seen: Facts): Phase {
    var d := Decide(seen);
    if d.confirm then Confirming(seen.boot, seen.fleets, seen)
    else if d.publish.Some? then Planning(seen.boot, seen.fleets, seen, d.publish.value)
    else Up
  }

  /** One reading of the pointer, and of whether its revision is held. */
  method Look(plane: Plane, configs: Configs, now: Instant, ghost before: seq<Fleet>) returns (facts: Facts, ghost run: seq<Fleet>)
    requires Going(before, plane, configs, Deciding(configs.boot, configs.fleets)) && now > 0
    modifies plane
    ensures facts == Facts(configs.boot, configs.fleets, plane.pointer,
                           plane.pointer.Some? && plane.pointer.value.revision in configs.held, now)
    ensures before <= run && Losses(run) == Losses(before) && Going(run, plane, configs, Decided(facts))
    ensures plane.others == (if old(plane.others) == [] then [] else old(plane.others)[1..])
    ensures plane.moved >= old(plane.moved) && (plane.pointer != old(plane.pointer) ==> plane.moved > old(plane.moved))
  {
    hide Inv, Turns, Decide, Enabled, Taken, Losses, LostAt, Alone;
    var target;
    target, run := plane.Target(before);
    facts := Facts(configs.boot, configs.fleets, target, target.Some? && target.value.revision in configs.held, now);
    ReadTurn(run, facts);
    run := Then(run, Read(0, facts.now));
  }

  /** A boot decides, publishes and decides again until nothing is left for it to publish or
      its publish has landed. Whatever turns the other nodes take meanwhile, their own boots and
      restores among them, what it does is a run of the fleet's turns; it is never refused its
      own offer; each race it loses is to a move of the pointer by somebody else; and it ends. What it publishes
      is owed on what it read; and where nobody else moved the pointer, it publishes exactly where something
      is owed over the pointer it found. */
  method PublishBoot(plane: Plane, configs: Configs, clock: nat -> Instant, ghost start: Fleet)
      returns (ended: Ended, races: nat, ghost run: seq<Fleet>)
    requires Going([start], plane, configs, Deciding(configs.boot, configs.fleets)) && forall k :: clock(k) > 0
    modifies plane, configs
    ensures Going(run, plane, configs, Up) && [start] <= run
    ensures ended.Published? || ended.NothingToPublish?
    ensures ended.Published? ==> plane.pointer == Some(ended.activation)
    ensures ended.Published? ==> exists seen: Facts ::
      IsDue(seen, ended.activation.revision) && seen.fleets == old(configs.fleets) && IdOf(seen.boot) == IdOf(old(configs.boot))
    // A choice landed is an offer no longer.
    ensures ended.Published? && !ended.activation.restored ==> configs.boot.Some? && configs.boot.value.offer.None?
    ensures ended.NothingToPublish? ==> NothingLeft(plane, configs, clock(0))
    ensures plane.moved == old(plane.moved) ==>
      var f := Confirmed(old(FactsNow(plane, configs, clock(0))));
      if ended.Published? then IsDue(f, ended.activation.revision)
      else !IsOfferDue(f) && !IsRestoreDue(f) && plane.pointer == old(plane.pointer) && configs.boot == f.boot
    ensures races == Losses(run) <= plane.moved - old(plane.moved)
  {
    hide Inv, Turns, Going, Decide, IsTaken, IsOfferDue, IsRestoreDue, IsDue, Confirmed, Known, Noted;
    run := [start];
    races := 0;
    var looks: nat := 0;
    ghost var found := FactsNow(plane, configs, clock(0));
    while true
      invariant Going(run, plane, configs, Deciding(configs.boot, configs.fleets)) && [start] <= run
      invariant races == Losses(run) <= plane.moved - old(plane.moved)
      invariant configs.fleets == old(configs.fleets) && IdOf(configs.boot) == IdOf(old(configs.boot))
      invariant plane.moved == old(plane.moved) ==>
        && plane.pointer == old(plane.pointer) && configs.held == old(configs.held)
        && (configs.boot == found.boot || (IsTaken(found) && configs.boot == Settled(found.boot)))
      decreases |plane.others|, if configs.boot.Some? && configs.boot.value.offer.Some? then 1 else 0
    {
      var facts;
      facts, run := Look(plane, configs, clock(looks), run);
      looks := looks + 1;
      var decision := Decide(facts);
      WhatIsDue(facts, found);
      if decision.confirm {
        var ok;
        ok, run := ConfirmOffer(plane, configs, facts, run);
        if !ok {
          return NoLongerOffered, races, run;
        }
      } else if decision.publish.None? {
        return NothingToPublish, races, run;
      } else {
        ended, run := PublishDecided(plane, configs, facts, decision.publish.value, run);
        if !ended.Lost? {
          return ended, races, run;
        }
        races := races + 1;
      }
    }
  }

  /** What is decided is what is owed, whatever the clock reads; and with nothing to publish there is a
      pointer, or no row. */
  lemma WhatIsDue(facts: Facts, found: Facts)
    ensures var d := Decide(facts);
      && (d.confirm <==> IsTaken(facts))
      && (d.publish.Some? ==> IsDue(facts, d.publish.value.request.revision))
      && (d.publish.Some? ==> (d.publish.value.request.restore <==> d.publish.value.over.None?))
      && (d.publish.Some? && d.publish.value.over.Some? ==> facts.boot.Some?)
      && (d.publish.None? && !d.confirm ==>
            var f := facts.(now := found.now);
            && !IsTaken(f) && !IsOfferDue(f) && !IsRestoreDue(f) && (f.target.Some? || (f.boot.None? && f.fleets.None?)))
      // Read once, or again once the offer it took is confirmed.
      && (facts.(now := found.now) == found || (IsTaken(found) && facts.(now := found.now) == found.(boot := Settled(found.boot))) ==>
            && (d.confirm ==> IsTaken(found))
            && (!d.confirm ==> Confirmed(found) == facts.(now := found.now))
            && (d.publish.Some? ==> IsDue(Confirmed(found), d.publish.value.request.revision)))
  {
    EachRuleIff(facts);
    if facts.target.None? && (facts.boot.Some? || facts.fleets.Some?) {
      NoPointerNeverStays(facts);
    }
  }
}
