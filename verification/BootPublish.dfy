/** What a boot publishes over the fleet's activation pointer, and the compare-and-set it
    publishes under. Instants are microseconds, the store's resolution; 0 is none. */
module BootPublish {
  import opened Options

  type Instant = nat
  type RevisionId = nat
  const NoRevision: RevisionId := 0

  /** An offline choice not yet published: what it was built on, the unconfirmed offer it
      replaced, and the instant a boot asked the pointer for. */
  datatype Offer = Offer(base: RevisionId, unconfirmed: RevisionId, plannedAt: Instant) {
    predicate Over(id: RevisionId) {
      id == base || (unconfirmed != NoRevision && id == unconfirmed)
    }
  }

  datatype Revision = Revision(id: RevisionId, activatedAt: Instant, offer: Option<Offer>)

  /** One entry of the fleet's pointer. */
  datatype Activation = Activation(epoch: nat, revision: RevisionId, at: Instant, restored: bool)

  // ---- the pointer's register ---------------------------------------------------------

  function Milli(t: Instant): nat { t / 1000 }

  /** A request's instant stands if its millisecond is later than the previous one's; otherwise the
      next millisecond is taken. */
  function ActivationAt(requested: Instant, previous: Instant): Instant {
    if previous == 0 || Milli(requested) > Milli(previous) then requested else (Milli(previous) + 1) * 1000
  }

  lemma ActivationIsLater(requested: Instant, previous: Instant)
    requires previous > 0
    ensures ActivationAt(requested, previous) > previous
    ensures Milli(ActivationAt(requested, previous)) > Milli(previous)
    // It is what was asked where that is later, and else the first whole millisecond that is.
    ensures Milli(requested) > Milli(previous) ==> ActivationAt(requested, previous) == requested
    ensures Milli(requested) <= Milli(previous) ==>
      ActivationAt(requested, previous) % 1000 == 0 && forall t: Instant :: Milli(t) > Milli(previous) ==> ActivationAt(requested, previous) <= t
    // Asked for again, over the same activation, it is what was asked.
    ensures ActivationAt(ActivationAt(requested, previous), previous) == ActivationAt(requested, previous)
  {
  }

  datatype Request = Request(revision: RevisionId, at: Instant, expected: RevisionId, expectEpoch: nat,
                             expectAbsent: bool, restore: bool)

  datatype Outcome = Landed(activation: Activation) | Raced | Refused

  /** One compare-and-set: epoch is the last the store has minted. */
  function Activate(pointer: Option<Activation>, epoch: nat, r: Request): (o: Outcome)
    ensures o.Landed? ==>
              && o.activation.epoch == epoch + 1 && o.activation.revision == r.revision
              && o.activation.restored == r.restore
  {
    if r.revision == NoRevision || (r.expected != NoRevision && r.expectAbsent) || (r.expectEpoch != 0 && r.expected == NoRevision)
    then Refused
    else if r.expected != NoRevision && pointer.None? then Raced
    else if r.expected != NoRevision && pointer.value.revision != r.expected then Raced
    else if r.expectEpoch != 0 && pointer.value.epoch != r.expectEpoch then Raced
    else if r.expectAbsent && pointer.Some? then Raced
    else Landed(Activation(epoch + 1, r.revision, ActivationAt(r.at, if pointer.Some? then pointer.value.at else 0), r.restore))
  }

  /** A request lands exactly where the pointer is the one it was built on: of its revision and, where
      it names one, its epoch; or none, where it was built on none. It is refused exactly where it says it
      was built on both, or on an epoch of no revision. */
  lemma ActivateLandsIff(pointer: Option<Activation>, epoch: nat, r: Request)
    ensures Activate(pointer, epoch, r).Refused? <==>
      r.revision == NoRevision || (r.expected == NoRevision && r.expectEpoch != 0) || (r.expected != NoRevision && r.expectAbsent)
    ensures Activate(pointer, epoch, r).Landed? <==>
      && r.revision != NoRevision && (r.expected == NoRevision ==> r.expectEpoch == 0)
      && (r.expectAbsent ==> r.expected == NoRevision && pointer.None?)
      && (r.expected != NoRevision ==> pointer.Some? && pointer.value.revision == r.expected && r.expectEpoch in {0, pointer.value.epoch})
    ensures Activate(pointer, epoch, r).Landed? && (pointer.None? || Milli(r.at) > Milli(pointer.value.at)) ==>
      Activate(pointer, epoch, r).activation.at == r.at
  {
  }

  // ---- the decision -------------------------------------------------------------------

  datatype Rule = OfferLandedRule | OfferOverBase | OfferWithheld | OfferFirst | OfferRestore
                | Restore | RestoreNewer | FleetPublishes | NothingToBoot

  datatype Facts = Facts(boot: Option<Revision>, fleets: Option<Revision>, target: Option<Activation>,
                         targetHeld: bool, now: Instant)

  /** over is set for the boot's offer alone. */
  datatype Publish = Publish(revision: Revision, request: Request, over: Option<RevisionId>)

  datatype Decision = Decision(rule: Rule, publish: Option<Publish>, confirm: bool, withheld: bool)

  function Nothing(rule: Rule): Decision {
    Decision(rule, None, false, false)
  }

  /** Rule 1b: the pointer holds the offer at the instant planned, or the fleet's row names it
      and it was not built on itself. */
  predicate OfferLanded(f: Facts)
    requires f.boot.Some? && f.boot.value.offer.Some?
  {
    var id, offer := f.boot.value.id, f.boot.value.offer.value;
    || (f.target.Some? && f.target.value.revision == id && offer.plannedAt != 0 && f.target.value.at == offer.plannedAt)
    || (f.fleets.Some? && f.fleets.value.id == id && !offer.Over(id))
  }

  predicate MovedOn(f: Facts)
    requires f.boot.Some? && f.boot.value.offer.Some?
  {
    f.fleets.Some? && !f.boot.value.offer.value.Over(f.fleets.value.id)
  }

  /** Rules 2a to 2c. */
  function DecideKnown(f: Facts, known: Revision): Decision {
    if f.target.None? then
      var at := if known.activatedAt == 0 then f.now else known.activatedAt;
      Nothing(Restore).(publish := Some(Publish(known, Request(known.id, at, NoRevision, 0, true, true), None)))
    else if f.target.value.restored && f.targetHeld && f.target.value.revision != known.id
            && known.activatedAt > f.target.value.at then
      Nothing(RestoreNewer).(publish := Some(Publish(known,
        Request(known.id, known.activatedAt, f.target.value.revision, f.target.value.epoch, false, true), None)))
    else Nothing(FleetPublishes)
  }

  function DecideOffer(f: Facts): Decision
    requires f.boot.Some? && f.boot.value.offer.Some?
  {
    var boot, offer := f.boot.value, f.boot.value.offer.value;
    if OfferLanded(f) then Nothing(OfferLandedRule).(confirm := true)
    else if f.target.Some? && offer.Over(f.target.value.revision) && (!MovedOn(f) || !f.target.value.restored) then
      var t := f.target.value;
      Nothing(OfferOverBase).(publish := Some(Publish(boot,
        Request(boot.id, ActivationAt(f.now, t.at), t.revision, t.epoch, false, false), Some(t.revision))))
    else if f.target.None? && !MovedOn(f) then
      Nothing(OfferFirst).(publish := Some(Publish(boot, Request(boot.id, f.now, NoRevision, 0, true, false),
        Some(if f.fleets.Some? then f.fleets.value.id else offer.base))))
    else if f.fleets.Some? && DecideKnown(f, f.fleets.value).publish.Some? then
      DecideKnown(f, f.fleets.value).(rule := OfferRestore, withheld := true)
    else Nothing(OfferWithheld).(withheld := true)
  }

  function Decide(f: Facts): Decision {
    if f.boot.Some? && f.boot.value.offer.Some? then DecideOffer(f)
    else if f.fleets.Some? then DecideKnown(f, f.fleets.value)
    else if f.boot.Some? then DecideKnown(f, f.boot.value)
    else Nothing(NothingToBoot)
  }

  // ---- when each rule publishes ---------------------------------------------------------

  /** What an offer may replace: the revision it was built on, or the unconfirmed offer it was made over. */
  ghost predicate Accepts(o: Offer, id: RevisionId) {
    id == o.base || (o.unconfirmed != NoRevision && id == o.unconfirmed)
  }

  ghost predicate IsOffered(f: Facts) {
    f.boot.Some? && f.boot.value.offer.Some?
  }

  /** The fleet took the boot's offer already. */
  ghost predicate IsTaken(f: Facts) {
    && IsOffered(f)
    && var id, offer := f.boot.value.id, f.boot.value.offer.value;
       || (f.target.Some? && f.target.value.revision == id && f.target.value.at == offer.plannedAt != 0)
       || (f.fleets.Some? && f.fleets.value.id == id && !Accepts(offer, id))
  }

  /** An offer not taken yet is owed to a fleet this node has seen nothing else of: over no pointer, or
      over one it accepts; and over such a pointer that somebody chose, whatever this node has seen. */
  ghost predicate IsOfferDue(f: Facts) {
    && IsOffered(f) && !IsTaken(f)
    && var offer := f.boot.value.offer.value;
       var unseen := f.fleets.None? || Accepts(offer, f.fleets.value.id);
       if f.target.None? then unseen
       else Accepts(offer, f.target.value.revision) && (unseen || !f.target.value.restored)
  }

  /** The company this node knows: the fleet's row, or what it boots on where that is no offer. */
  ghost function Known(f: Facts): Option<Revision> {
    if f.fleets.Some? then f.fleets else if IsOffered(f) then None else f.boot
  }

  /** It is owed to a fleet with no pointer, or with a stale restore of another revision held here. */
  ghost predicate IsRestoreDue(f: Facts) {
    && Known(f).Some? && !IsTaken(f) && !IsOfferDue(f)
    && (f.target.Some? ==>
          && f.target.value.restored && f.targetHeld
          && f.target.value.revision != Known(f).value.id && f.target.value.at < Known(f).value.activatedAt)
  }

  /** Each rule fires exactly there, and asks for exactly that: what is published, over which activation
      or over none, and at what instant. */
  lemma EachRuleIff(f: Facts)
    ensures Decide(f).confirm <==> IsTaken(f)
    ensures var p := Decide(f).publish; p.Some? && p.value.over.Some? <==> IsOfferDue(f)
    ensures var p := Decide(f).publish; p.Some? && p.value.over.None? <==> IsRestoreDue(f)
    ensures Decide(f).withheld <==> IsOffered(f) && !IsTaken(f) && !IsOfferDue(f)
    ensures Decide(f).publish.Some? ==>
      var p := Decide(f).publish.value; var at := if f.target.Some? then f.target.value.at else 0;
      && (if p.over.Some? then f.boot == Some(p.revision) else Known(f) == Some(p.revision))
      && p.request == Request(p.revision.id, p.request.at,
           if f.target.Some? then f.target.value.revision else NoRevision,
           if f.target.Some? then f.target.value.epoch else 0, f.target.None?, p.over.None?)
      && (if p.over.None? && p.revision.activatedAt > 0 then p.request.at == p.revision.activatedAt
          else if f.target.None? || Milli(f.now) > Milli(at) then p.request.at == f.now
          else p.request.at == (Milli(at) + 1) * 1000 || (at == 0 && p.request.at == f.now))
      && (p.over.Some? ==> p.over == Some(if f.target.Some? then f.target.value.revision
                                          else if f.fleets.Some? then f.fleets.value.id else p.revision.offer.value.base))
  {
  }

  /** With no pointer a boot that has a row to publish publishes, or confirms first. */
  lemma NoPointerNeverStays(f: Facts)
    requires f.target.None? && (f.boot.Some? || f.fleets.Some?)
    ensures Decide(f).publish.Some? || Decide(f).confirm
  {
  }

  ghost predicate FactsOk(f: Facts) {
    && (f.boot.Some? ==> f.boot.value.id != NoRevision)
    && (f.fleets.Some? ==> f.fleets.value.id != NoRevision)
    && (f.target.Some? ==> f.target.value.revision != NoRevision && f.target.value.epoch > 0 && f.target.value.at > 0)
    && f.now > 0
  }

  /** What a landed publish may do: create an absent pointer, or replace one. An offer replaces
      only what it was built on; a restore, only a restore of an earlier instant. */
  ghost predicate MayReplace(f: Facts, p: Publish, target: Activation) {
    if p.over.Some?
    then f.boot.Some? && f.boot.value.offer.Some? && p.revision == f.boot.value
         && f.boot.value.offer.value.Over(target.revision) && p.over == Some(target.revision)
    else target.restored && target.at < p.revision.activatedAt && target.revision != p.revision.id
  }

  /** Whatever is decided is pinned to what was read: it lands only over that very activation,
      or only where there is none, and only where it may; and never unconditionally. */
  lemma DecisionIsPinned(f: Facts, now: Option<Activation>, epoch: nat)
    requires FactsOk(f) && Decide(f).publish.Some?
    ensures var p := Decide(f).publish.value; var o := Activate(now, epoch, p.request);
      && !o.Refused? && (p.request.restore <==> p.over.None?) && p.request.at > 0
      && p.request.revision == p.revision.id != NoRevision
      && (p.over.Some? ==> f.boot == Some(p.revision) && p.revision.offer.Some?)
      && (f.target.None? ==> (o.Landed? <==> now.None?))
      && (f.target.Some? ==> (o.Landed? <==> now.Some? && now.value.revision == f.target.value.revision
                                              && now.value.epoch == f.target.value.epoch))
      && (f.target.Some? ==> MayReplace(f, p, f.target.value))
  {
  }

  /** An offer lands at exactly the instant it planned, later than what it replaces. */
  lemma OfferLandsAsPlanned(f: Facts, epoch: nat)
    requires FactsOk(f) && Decide(f).publish.Some? && Decide(f).publish.value.over.Some?
    ensures var p := Decide(f).publish.value;
      Activate(f.target, epoch, p.request) == Landed(Activation(epoch + 1, p.revision.id, p.request.at, false))
  {
    if f.target.Some? {
      ActivationIsLater(f.now, f.target.value.at);
    }
  }

  /** A restore lands at the instant it is remembered at exactly where that is a later
      millisecond than the restore it replaces; else at the next millisecond. */
  lemma RestoreLandsAsRememberedIff(f: Facts, epoch: nat)
    requires FactsOk(f) && Decide(f).publish.Some? && Decide(f).publish.value.over.None? && f.target.Some?
    ensures var p := Decide(f).publish.value; var o := Activate(f.target, epoch, p.request);
      && o.Landed? && o.activation.at > f.target.value.at
      && (o.activation.at == p.revision.activatedAt <==> Milli(p.revision.activatedAt) > Milli(f.target.value.at))
      && o.activation.at >= p.revision.activatedAt
  {
    ActivationIsLater(Decide(f).publish.value.revision.activatedAt, f.target.value.at);
  }
}
