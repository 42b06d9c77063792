/** A fleet's boots around one pointer: every node's store and boot, with a crash between any
    two of their writes, the writes of everybody else, and the loss of the pointer. */
module BootFleet {
  import opened BootPublish
  import opened Options

  /** One node's rows: every revision stored, with the last instant it is known to have been
      activated at (0 for none), and two of them marked: its boot row and its fleet row. */
  datatype Store = Store(boot: Option<Revision>, fleets: Option<Revision>, held: map<RevisionId, Instant>)

  /** Where a boot is. boot and fleets are what it read of the store, the offer as it stands. */
  datatype Phase =
    | Down
    | Deciding(boot: Option<Revision>, fleets: Option<Revision>)
    | Confirming(boot: Option<Revision>, fleets: Option<Revision>, seen: Facts)
    | Planning(boot: Option<Revision>, fleets: Option<Revision>, seen: Facts, publish: Publish)
    | Sending(boot: Option<Revision>, fleets: Option<Revision>, seen: Facts, publish: Publish)
    | Sent(publish: Publish, landed: Activation)
    | Up

  /** An offline choice as it was made: its revision and offer, the fleet's revision the node
      knew, the pointer, and the activations there had been. */
  datatype Chose = Chose(id: RevisionId, offer: Offer, knew: Option<RevisionId>, at: Option<Activation>, landings: nat)

  /** took and chose are histories: the activation a publish of the node's present offer landed
      as, and its last choice. */
  datatype Node = Node(store: Store, phase: Phase, took: Option<Activation>, chose: Chose)

  /** history is every activation there has been, in order: the store mints its epochs from it. */
  datatype Fleet = Fleet(pointer: Option<Activation>, history: seq<Activation>, nodes: seq<Node>)

  datatype Turn =
    | Boot(i: nat)
    | Read(i: nat, now: Instant)
    | Confirm(i: nat)
    | Plan(i: nat)
    | Send(i: nat)
    | Record(i: nat, confirmed: bool)
    | Crash(i: nat)
    | Offline(i: nat, id: RevisionId)
    | Reconcile(i: nat, applied: bool)
    | Write(revision: RevisionId, at: Instant)
    | Lose

  function Settled(r: Option<Revision>): Option<Revision> {
    if r.Some? then Some(r.value.(offer := None)) else None
  }

  function Planned(r: Option<Revision>, p: Publish): Option<Revision> {
    if r.Some? && p.over.Some? then Some(r.value.(offer := Some(Offer(p.over.value, NoRevision, p.request.at)))) else r
  }

  /** The company as a node knows it: an offer made on the fleet's revision, else that revision,
      else what the node boots on. */
  function Restorable(s: Store): Option<Revision> {
    if s.boot.Some? && s.boot.value.offer.Some? && (s.fleets.None? || s.boot.value.offer.value.Over(s.fleets.value.id)) then s.boot
    else if s.fleets.Some? then s.fleets
    else s.boot
  }

  /** What a change made on it is built on: a revision; an offer that was sent and its base; or
      what an offer nobody sent was built on. */
  function OfferOn(known: Option<Revision>): Offer {
    if known.None? then Offer(NoRevision, NoRevision, 0)
    else if known.value.offer.None? then Offer(known.value.id, NoRevision, 0)
    else
      var o := known.value.offer.value;
      if o.plannedAt != 0 && o.base != known.value.id then Offer(o.base, known.value.id, 0)
      else Offer(o.base, o.unconfirmed, 0)
  }

  function IdOf(r: Option<Revision>): Option<RevisionId> {
    if r.Some? then Some(r.value.id) else None
  }

  function Later(a: Instant, b: Instant): Instant {
    if a < b then b else a
  }

  /** The instant a node has of a revision: none for one it does not hold. */
  function Remembered(s: Store, id: RevisionId): Instant {
    if id in s.held then s.held[id] else 0
  }

  /** A row's instant rises and never falls, under whichever marks it carries. */
  function Raised(r: Option<Revision>, a: Activation): Option<Revision> {
    if r.Some? && r.value.id == a.revision then Some(r.value.(activatedAt := Later(r.value.activatedAt, a.at))) else r
  }

  /** A note of an activation, of a revision held. */
  function Noted(s: Store, a: Activation): Store {
    if a.revision in s.held
    then Store(Raised(s.boot, a), Raised(s.fleets, a), s.held[a.revision := Later(s.held[a.revision], a.at)])
    else s
  }

  /** The pointer's revision recorded as the fleet's and, where it was applied, booted on: a new
      row, or the one held with its instant raised. */
  function Recorded(s: Store, a: Activation, applied: bool): Store {
    var seen := Revision(a.revision, Later(Remembered(s, a.revision), a.at), None);
    Store(if applied then Some(seen) else Raised(s.boot, a), Some(seen), s.held[seen.id := seen.activatedAt])
  }

  /** An offline choice: a revision new to the node, or one held, at the instant it has of it. */
  function WithChoice(s: Store, id: RevisionId, offer: Offer): Store {
    s.(boot := Some(Revision(id, Remembered(s, id), Some(offer))), held := s.held[id := Remembered(s, id)])
  }

  function FactsRead(f: Fleet, n: Node, now: Instant): Facts
    requires n.phase.Deciding?
  {
    Facts(n.phase.boot, n.phase.fleets, f.pointer, f.pointer.Some? && f.pointer.value.revision in n.store.held, now)
  }

  /** A boot's reading of the pointer, and what it decides on it. */
  function AfterRead(f: Fleet, n: Node, now: Instant): Node
    requires n.phase.Deciding?
  {
    var facts := FactsRead(f, n, now);
    var d := Decide(facts);
    n.(phase := if d.confirm then Confirming(n.phase.boot, n.phase.fleets, facts)
                else if d.publish.Some? then Planning(n.phase.boot, n.phase.fleets, facts, d.publish.value)
                else Up)
  }

  predicate Enabled(f: Fleet, t: Turn) {
    match t
    case Boot(i) => i < |f.nodes| && f.nodes[i].phase.Down?
    case Read(i, now) => i < |f.nodes| && f.nodes[i].phase.Deciding? && now > 0
    case Confirm(i) => i < |f.nodes| && f.nodes[i].phase.Confirming?
    case Plan(i) => i < |f.nodes| && f.nodes[i].phase.Planning?
    case Send(i) => i < |f.nodes| && f.nodes[i].phase.Sending?
    case Record(i, _) => i < |f.nodes| && f.nodes[i].phase.Sent?
    case Crash(i) => i < |f.nodes|
    case Offline(i, id) => i < |f.nodes| && f.nodes[i].phase.Down? && id != NoRevision
    case Reconcile(i, _) => i < |f.nodes| && f.nodes[i].phase.Up? && f.pointer.Some?
    case Write(revision, at) => revision != NoRevision && at > 0
    case Lose => true
  }

  /** One node's turn that leaves the pointer alone. */
  function Alone(f: Fleet, n: Node, t: Turn): Node
    requires Enabled(f, t) && (t.Boot? || t.Read? || t.Confirm? || t.Plan? || t.Record? || t.Crash? || t.Offline? || t.Reconcile?)
    requires t.i < |f.nodes| && n == f.nodes[t.i]
  {
    match t
    case Boot(_) => n.(phase := Deciding(n.store.boot, n.store.fleets))
    case Read(_, now) => AfterRead(f, n, now)
    case Confirm(_) =>
      n.(store := n.store.(boot := Settled(n.store.boot)), phase := Deciding(Settled(n.phase.boot), n.phase.fleets))
    case Plan(_) =>
      var p := n.phase.publish;
      n.(store := n.store.(boot := if p.over.Some? then Planned(n.store.boot, p) else n.store.boot),
         phase := Sending(n.phase.boot, n.phase.fleets, n.phase.seen, p))
    case Record(_, confirmed) =>
      var p, a := n.phase.publish, n.phase.landed;
      if p.over.Some?
      then n.(phase := Up, store := if confirmed then n.store.(boot := Settled(n.store.boot)) else n.store)
      else n.(phase := Up, store := Noted(n.store, a))
    case Crash(_) => n.(phase := Down)
    case Offline(_, id) =>
      var offer := OfferOn(Restorable(n.store));
      n.(store := WithChoice(n.store, id, offer), took := None,
         chose := Chose(id, offer, IdOf(n.store.fleets), f.pointer, |f.history|))
    case Reconcile(_, applied) =>
      n.(store := Recorded(n.store, f.pointer.value, applied))
  }

  function Outcomes(f: Fleet, n: Node): Outcome
    requires n.phase.Sending?
  {
    Activate(f.pointer, |f.history|, n.phase.publish.request)
  }

  function AfterSend(f: Fleet, i: nat): Fleet
    requires i < |f.nodes| && f.nodes[i].phase.Sending?
  {
    var n := f.nodes[i];
    var p, o := n.phase.publish, Outcomes(f, n);
    if o.Landed? then
      Fleet(Some(o.activation), f.history + [o.activation],
            f.nodes[i := n.(phase := Sent(p, o.activation), took := if p.over.Some? then Some(o.activation) else n.took)])
    else f.(nodes := f.nodes[i := n.(phase := Deciding(Planned(n.phase.boot, p), n.phase.fleets))])
  }

  function Written(f: Fleet, revision: RevisionId, at: Instant): Activation {
    Activation(|f.history| + 1, revision, ActivationAt(at, if f.pointer.Some? then f.pointer.value.at else 0), false)
  }

  function Taken(f: Fleet, t: Turn): Fleet
    requires Enabled(f, t)
  {
    match t
    case Send(i) => AfterSend(f, i)
    case Write(revision, at) => f.(pointer := Some(Written(f, revision, at)), history := f.history + [Written(f, revision, at)])
    case Lose => f.(pointer := None)
    case _ => f.(nodes := f.nodes[t.i := Alone(f, f.nodes[t.i], t)])
  }

  // ---- what holds throughout ----------------------------------------------------------

  ghost predicate InHistory(history: seq<Activation>, a: Activation) {
    0 < a.epoch <= |history| && history[a.epoch - 1] == a && a.revision != NoRevision && a.at > 0
  }

  ghost predicate Named(history: seq<Activation>, id: RevisionId) {
    id != NoRevision && exists a :: a in history && a.revision == id
  }

  /** The offer is this landing's, recorded as planned: or there is no offer any longer. */
  ghost predicate TookIt(boot: Option<Revision>, a: Activation) {
    boot.Some? && boot.value.offer.Some? ==> boot.value.id == a.revision && boot.value.offer.value.plannedAt == a.at
  }

  ghost predicate RowOk(r: Option<Revision>) {
    r.Some? ==> r.value.id != NoRevision
  }

  /** A marked row is one held, at the instant held. */
  ghost predicate RowsOk(s: Store) {
    && (s.boot.Some? ==> s.boot.value.id in s.held && s.held[s.boot.value.id] == s.boot.value.activatedAt)
    && (s.fleets.Some? ==> s.fleets.value.id in s.held && s.held[s.fleets.value.id] == s.fleets.value.activatedAt)
  }

  /** A fleet row is of a revision activated at some time, and is never an offer. */
  ghost predicate FleetsOk(history: seq<Activation>, fleets: Option<Revision>) {
    RowOk(fleets) && (fleets.Some? ==> Named(history, fleets.value.id) && fleets.value.offer.None?)
  }

  // ---- what holds since a node's choice -------------------------------------------------

  /** The pointer has named id at some moment since the choice. */
  ghost predicate NamedSince(history: seq<Activation>, c: Chose, id: RevisionId) {
    exists a :: a in history && a.revision == id && IsSince(c, a)
  }

  predicate IsSince(c: Chose, a: Activation) {
    a.epoch > c.landings || c.at == Some(a)
  }

  /** The fleet's row is as it was at the choice, or the reconciler's record of the pointer since. */
  ghost predicate KnownSince(history: seq<Activation>, c: Chose, fleets: Option<Revision>) {
    && (c.knew.Some? ==> fleets.Some?)
    && (fleets.Some? ==> c.knew == Some(fleets.value.id) || NamedSince(history, c, fleets.value.id))
  }

  /** An offer is as it was chosen, or as a boot planned it over what the choice accepts. */
  ghost predicate OfferSince(c: Chose, boot: Option<Revision>) {
    boot.Some? && boot.value.offer.Some? ==>
      var o := boot.value.offer.value;
      && boot.value.id == c.id && c.offer.plannedAt == 0 && (c.knew.Some? ==> c.offer.Over(c.knew.value))
      && (o == c.offer || (o.unconfirmed == NoRevision && o.plannedAt != 0 && c.offer.Over(o.base)
                           && (c.knew.Some? ==> o.base != NoRevision)))
  }

  ghost predicate SeenSince(c: Chose, seen: Facts) {
    seen.target.Some? ==> IsSince(c, seen.target.value)
  }

  ghost predicate PhaseSince(history: seq<Activation>, n: Node) {
    match n.phase
    case Deciding(_, fleets) => KnownSince(history, n.chose, fleets)
    case Confirming(_, fleets, seen) => KnownSince(history, n.chose, fleets) && SeenSince(n.chose, seen)
    case Planning(_, fleets, seen, _) => KnownSince(history, n.chose, fleets) && SeenSince(n.chose, seen)
    case Sending(_, fleets, seen, _) => KnownSince(history, n.chose, fleets)
    case _ => true
  }

  ghost predicate SinceOk(pointer: Option<Activation>, history: seq<Activation>, n: Node) {
    && n.chose.landings <= |history| && (pointer.Some? ==> IsSince(n.chose, pointer.value))
    && KnownSince(history, n.chose, n.store.fleets) && OfferSince(n.chose, n.store.boot) && PhaseSince(history, n)
  }

  /** A decision held is the one its facts make, on an activation that was. */
  ghost predicate SeenOk(history: seq<Activation>, boot: Option<Revision>, fleets: Option<Revision>, seen: Facts) {
    && FactsOk(seen) && seen.boot == boot && seen.fleets == fleets
    && (seen.target.Some? ==> InHistory(history, seen.target.value))
  }

  ghost predicate PhaseOk(history: seq<Activation>, n: Node) {
    match n.phase
    case Down => true
    case Up => true
    case Deciding(boot, fleets) =>
      RowOk(boot) && FleetsOk(history, fleets)
    case Confirming(boot, fleets, seen) =>
      SeenOk(history, boot, fleets, seen) && FleetsOk(history, fleets) && Decide(seen).confirm
    case Planning(boot, fleets, seen, p) =>
      SeenOk(history, boot, fleets, seen) && FleetsOk(history, fleets) && Decide(seen).publish == Some(p)
    case Sending(boot, fleets, seen, p) =>
      && SeenOk(history, boot, fleets, seen) && FleetsOk(history, fleets) && Decide(seen).publish == Some(p)
      // What the boot plans is recorded before it is sent.
      && n.store.boot == Planned(boot, p)
    case Sent(p, a) =>
      InHistory(history, a)
  }

  /** While the pointer is what the node's offer landed as, nothing the node holds would
      publish over it, and its store and its boot know the offer by its planned instant. */
  ghost predicate TookOk(pointer: Option<Activation>, n: Node) {
    n.took.Some? && pointer == n.took ==>
      && !n.took.value.restored && TookIt(n.store.boot, n.took.value)
      && !n.phase.Planning? && !n.phase.Sending?
      && (n.phase.Deciding? || n.phase.Confirming? ==> TookIt(n.phase.boot, n.took.value))
  }

  ghost predicate NodeOk(pointer: Option<Activation>, history: seq<Activation>, n: Node) {
    && RowOk(n.store.boot) && RowsOk(n.store)
    && FleetsOk(history, n.store.fleets)
    && PhaseOk(history, n) && TookOk(pointer, n)
    && (n.took.Some? ==> InHistory(history, n.took.value))
    // Between the read and the record the boot's offer is the store's.
    && (n.phase.Deciding? || n.phase.Confirming? || n.phase.Planning? ==> n.phase.boot == n.store.boot)
  }

  ghost predicate Inv(f: Fleet) {
    && (forall k :: 0 <= k < |f.history| ==> InHistory(f.history, f.history[k]) && f.history[k].epoch == k + 1)
    && (f.pointer.Some? ==> InHistory(f.history, f.pointer.value))
    && forall i :: 0 <= i < |f.nodes| ==> NodeOk(f.pointer, f.history, f.nodes[i]) && SinceOk(f.pointer, f.history, f.nodes[i])
  }

  /** A fleet whose nodes are all down, with whatever they stored of the activations there were. */
  ghost predicate Start(f: Fleet) {
    && (forall k :: 0 <= k < |f.history| ==> InHistory(f.history, f.history[k]) && f.history[k].epoch == k + 1)
    && (f.pointer.Some? ==> InHistory(f.history, f.pointer.value))
    && forall n :: n in f.nodes ==>
         && n.phase.Down? && n.took.None? && RowOk(n.store.boot) && RowsOk(n.store) && FleetsOk(f.history, n.store.fleets)
         && SinceOk(f.pointer, f.history, n)
  }

  lemma StartOk(f: Fleet)
    requires Start(f)
    ensures Inv(f)
  {
    forall i | 0 <= i < |f.nodes| ensures NodeOk(f.pointer, f.history, f.nodes[i]) && SinceOk(f.pointer, f.history, f.nodes[i]) {
      assert f.nodes[i] in f.nodes;
    }
  }

  /** The history grown by at most one activation, and the pointer left, lost or moved to it. */
  ghost predicate Moves(pointer: Option<Activation>, history: seq<Activation>, pointer': Option<Activation>, history': seq<Activation>) {
    || (history' == history && (pointer' == pointer || pointer'.None?))
    || (pointer'.Some? && history' == history + [pointer'.value] && pointer'.value.epoch == |history| + 1)
  }

  lemma GrownHistory(history: seq<Activation>, history': seq<Activation>, a: Activation)
    requires history <= history' && InHistory(history, a)
    ensures InHistory(history', a)
  {
  }

  lemma GrownNamed(history: seq<Activation>, history': seq<Activation>, id: RevisionId)
    requires history <= history' && Named(history, id)
    ensures Named(history', id)
  {
    var a :| a in history && a.revision == id;
    assert a in history';
  }

  /** What others do to the pointer leaves a node as it should be. */
  lemma Stable(pointer: Option<Activation>, history: seq<Activation>, pointer': Option<Activation>, history': seq<Activation>, n: Node)
    requires NodeOk(pointer, history, n) && Moves(pointer, history, pointer', history')
    ensures NodeOk(pointer', history', n)
  {
    hide Named, FactsOk, Decide;
    forall id | Named(history, id) ensures Named(history', id) {
      GrownNamed(history, history', id);
    }
    assert n.took.Some? && pointer' == n.took ==> pointer' == pointer;
  }

  lemma NamedSinceGrows(history: seq<Activation>, history': seq<Activation>, c: Chose, id: RevisionId)
    requires history <= history' && NamedSince(history, c, id)
    ensures NamedSince(history', c, id)
  {
    var a :| a in history && a.revision == id && IsSince(c, a);
    assert a in history';
  }

  lemma StableSince(pointer: Option<Activation>, history: seq<Activation>, pointer': Option<Activation>, history': seq<Activation>, n: Node)
    requires SinceOk(pointer, history, n) && Moves(pointer, history, pointer', history')
    ensures SinceOk(pointer', history', n)
  {
    hide NamedSince, OfferSince;
    forall id | NamedSince(history, n.chose, id) ensures NamedSince(history', n.chose, id) {
      NamedSinceGrows(history, history', n.chose, id);
    }
  }

  /** An offer is planned over what it accepts. */
  lemma PlannedOverItsOwn(f: Facts)
    requires FactsOk(f) && Decide(f).publish.Some? && Decide(f).publish.value.over.Some?
    ensures f.boot.Some? && f.boot.value.offer.Some? && Decide(f).publish.value.request.at > 0
    ensures f.boot.value.offer.value.Over(Decide(f).publish.value.over.value)
    ensures f.fleets.Some? ==> Decide(f).publish.value.over.value != NoRevision
  {
  }

  /** Whatever a new choice is built on accepts the fleet row's revision. */
  lemma BuiltOnWhatItKnew(s: Store)
    requires s.fleets.Some? && s.fleets.value.offer.None?
    // A boot that plans an offer forgets the unconfirmed one it was over.
    requires s.boot.Some? && s.boot.value.offer.Some? && s.boot.value.offer.value.plannedAt != 0 ==>
               s.boot.value.offer.value.unconfirmed == NoRevision
    ensures OfferOn(Restorable(s)).Over(s.fleets.value.id)
  {
  }

  lemma ReadOk(f: Fleet, n: Node, now: Instant)
    requires Inv(f) && NodeOk(f.pointer, f.history, n) && n.phase.Deciding? && now > 0
    ensures NodeOk(f.pointer, f.history, AfterRead(f, n, now))
  {
    hide Named;
    var facts := FactsRead(f, n, now);
    assert FactsOk(facts);
    if n.took.Some? && f.pointer == n.took {
      TookIsConfirmed(facts, n.took.value);
    }
  }

  /** The table's answer over a node's own landing: confirm while it is an offer, and never publish,
      not even for an offer built on itself. */
  lemma TookIsConfirmed(f: Facts, a: Activation)
    requires f.target == Some(a) && a.at > 0 && !a.restored && TookIt(f.boot, a)
    ensures Decide(f).publish.None?
    ensures f.boot.Some? && f.boot.value.offer.Some? ==> Decide(f).confirm
  {
  }

  lemma AloneOk(f: Fleet, t: Turn)
    requires Inv(f) && Enabled(f, t) && !t.Send? && !t.Write? && !t.Lose?
    ensures t.i < |f.nodes| && NodeOk(f.pointer, f.history, Alone(f, f.nodes[t.i], t))
  {
    var n := f.nodes[t.i];
    assert NodeOk(f.pointer, f.history, n);
    match t {
      case Read(i, now) => ReadOk(f, n, now);
      case Reconcile(_, _) => ReconcileOk(f, n, t);
      case Offline(_, _) => OfflineOk(f, n, t);
      case Record(_, _) => RecordOk(f, n, t);
      case _ => BootOk(f, n, t);
    }
  }

  lemma ReconcileOk(f: Fleet, n: Node, t: Turn)
    requires t.Reconcile? && Enabled(f, t) && n == f.nodes[t.i] && NodeOk(f.pointer, f.history, n) && InHistory(f.history, f.pointer.value)
    ensures NodeOk(f.pointer, f.history, Alone(f, n, t))
  {
    assert f.pointer.value in f.history;
    hide Decide, SeenOk;
  }

  lemma OfflineOk(f: Fleet, n: Node, t: Turn)
    requires t.Offline? && Enabled(f, t) && n == f.nodes[t.i] && NodeOk(f.pointer, f.history, n)
    ensures NodeOk(f.pointer, f.history, Alone(f, n, t))
  {
    hide Decide, SeenOk, Named, OfferOn, Restorable;
  }

  lemma RecordOk(f: Fleet, n: Node, t: Turn)
    requires t.Record? && Enabled(f, t) && n == f.nodes[t.i] && NodeOk(f.pointer, f.history, n)
    ensures NodeOk(f.pointer, f.history, Alone(f, n, t))
  {
    hide Decide, SeenOk, Named;
  }

  lemma BootOk(f: Fleet, n: Node, t: Turn)
    requires (t.Boot? || t.Confirm? || t.Plan? || t.Crash?) && Enabled(f, t) && n == f.nodes[t.i] && NodeOk(f.pointer, f.history, n)
    ensures NodeOk(f.pointer, f.history, Alone(f, n, t))
  {
    hide Decide, Named;
  }

  lemma AloneSince(f: Fleet, t: Turn)
    requires Inv(f) && Enabled(f, t) && !t.Send? && !t.Write? && !t.Lose?
    ensures t.i < |f.nodes| && SinceOk(f.pointer, f.history, Alone(f, f.nodes[t.i], t))
  {
    hide Named;
    var n := f.nodes[t.i];
    assert NodeOk(f.pointer, f.history, n) && SinceOk(f.pointer, f.history, n);
    if t.Offline? {
      ChoiceSince(f, n, t);
    } else if t.Reconcile? {
      ReconcileSince(f, n, t);
    } else if t.Plan? {
      PlanSince(f, n, t);
    } else {
      hide NamedSince, Decide, TookOk, SeenOk;
    }
  }

  lemma ChoiceSince(f: Fleet, n: Node, t: Turn)
    requires t.Offline? && Enabled(f, t) && n == f.nodes[t.i] && NodeOk(f.pointer, f.history, n) && SinceOk(f.pointer, f.history, n) && (f.pointer.Some? ==> InHistory(f.history, f.pointer.value))
    ensures SinceOk(f.pointer, f.history, Alone(f, n, t))
  {
    hide NamedSince, Named, PhaseOk, TookOk;
    if n.store.fleets.Some? {
      BuiltOnWhatItKnew(n.store);
    }
  }

  lemma ReconcileSince(f: Fleet, n: Node, t: Turn)
    requires t.Reconcile? && Enabled(f, t) && n == f.nodes[t.i] && SinceOk(f.pointer, f.history, n) && InHistory(f.history, f.pointer.value)
    ensures SinceOk(f.pointer, f.history, Alone(f, n, t))
  {
    assert f.pointer.value in f.history;
    assert NamedSince(f.history, n.chose, f.pointer.value.revision);
  }

  lemma PlanSince(f: Fleet, n: Node, t: Turn)
    requires t.Plan? && Enabled(f, t) && n == f.nodes[t.i] && SinceOk(f.pointer, f.history, n) && NodeOk(f.pointer, f.history, n)
    ensures SinceOk(f.pointer, f.history, Alone(f, n, t))
  {
    if n.phase.publish.over.Some? {
      PlannedOverItsOwn(n.phase.seen);
    }
    hide NamedSince, Named, Decide, TookOk;
  }

  lemma SendSince(f: Fleet, i: nat)
    requires Inv(f) && i < |f.nodes| && f.nodes[i].phase.Sending?
    ensures var f' := AfterSend(f, i); SinceOk(f'.pointer, f'.history, f'.nodes[i])
  {
    var n, f' := f.nodes[i], AfterSend(f, i);
    assert NodeOk(f.pointer, f.history, n) && SinceOk(f.pointer, f.history, n);
    hide NamedSince, Named, Decide, TookOk, SeenOk, InHistory;
    if f'.history != f.history {
      forall id | NamedSince(f.history, n.chose, id) ensures NamedSince(f'.history, n.chose, id) {
        NamedSinceGrows(f.history, f'.history, n.chose, id);
      }
    }
  }

  /** A landed publish replaces exactly what was read: the same activation, or none. */
  lemma SendIsPinned(f: Fleet, i: nat)
    requires Inv(f) && i < |f.nodes| && f.nodes[i].phase.Sending? && Outcomes(f, f.nodes[i]).Landed?
    ensures f.pointer == f.nodes[i].phase.seen.target
  {
    var seen := f.nodes[i].phase.seen;
    assert NodeOk(f.pointer, f.history, f.nodes[i]);
    DecisionIsPinned(seen, f.pointer, |f.history|);
  }

  lemma SendOk(f: Fleet, i: nat)
    requires Inv(f) && i < |f.nodes| && f.nodes[i].phase.Sending?
    ensures var f' := AfterSend(f, i);
      && Moves(f.pointer, f.history, f'.pointer, f'.history)
      && (f'.pointer != f.pointer ==> InHistory(f'.history, f'.pointer.value))
      && NodeOk(f'.pointer, f'.history, f'.nodes[i])
  {
    hide Named, Decide;
    var n := f.nodes[i];
    assert NodeOk(f.pointer, f.history, n);
    var seen, p, o := n.phase.seen, n.phase.publish, Outcomes(f, n);
    DecisionIsPinned(seen, f.pointer, |f.history|);
    if o.Landed? {
      SendIsPinned(f, i);
      var history' := f.history + [o.activation];
      assert InHistory(history', o.activation);
      if n.store.fleets.Some? {
        GrownNamed(f.history, history', n.store.fleets.value.id);
      }
      if p.over.Some? {
        OfferLandsAsPlanned(seen, |f.history|);
      }
    }
  }

  lemma TakenKeeps(f: Fleet, t: Turn)
    requires Inv(f) && Enabled(f, t)
    ensures Inv(Taken(f, t))
  {
    hide NodeOk, SinceOk, Alone, AfterSend;
    var f' := Taken(f, t);
    if t.Send? {
      SendOk(f, t.i);
      SendSince(f, t.i);
    } else if !t.Write? && !t.Lose? {
      AloneOk(f, t);
      AloneSince(f, t);
    } else if t.Write? && f.pointer.Some? {
      ActivationIsLater(t.at, f.pointer.value.at);
    }
    SendShape(f, t);
    assert Moves(f.pointer, f.history, f'.pointer, f'.history);
    forall k | 0 <= k < |f'.history| ensures InHistory(f'.history, f'.history[k]) && f'.history[k].epoch == k + 1 {
      if k < |f.history| {
        GrownHistory(f.history, f'.history, f.history[k]);
      }
    }
    forall j | 0 <= j < |f'.nodes| ensures NodeOk(f'.pointer, f'.history, f'.nodes[j]) && SinceOk(f'.pointer, f'.history, f'.nodes[j]) {
      if f'.nodes[j] == f.nodes[j] {
        Stable(f.pointer, f.history, f'.pointer, f'.history, f.nodes[j]);
        StableSince(f.pointer, f.history, f'.pointer, f'.history, f.nodes[j]);
      }
    }
  }

  /** A turn moves one node at most. */
  lemma SendShape(f: Fleet, t: Turn)
    requires Enabled(f, t)
    ensures var f' := Taken(f, t);
      && |f'.nodes| == |f.nodes|
      && forall j :: 0 <= j < |f.nodes| && (t.Write? || t.Lose? || j != t.i) ==> f'.nodes[j] == f.nodes[j]
  {
  }

  // ---- safety -----------------------------------------------------------------------------

  /** Every landed publish replaces exactly the activation it was decided on, or creates an
      absent one; an offer replaces only what its Over accepts, and lands as planned; a restore
      replaces only a restore of an earlier instant. */
  lemma LandedPublishIsSafe(f: Fleet, i: nat)
    requires Inv(f) && i < |f.nodes| && f.nodes[i].phase.Sending? && Outcomes(f, f.nodes[i]).Landed?
    ensures var n := f.nodes[i]; var p, a := n.phase.publish, Outcomes(f, n).activation;
      && AfterSend(f, i).pointer == Some(a) && f.pointer == n.phase.seen.target
      && a.revision == p.revision.id && (a.restored <==> p.over.None?)
      && (f.pointer.Some? ==> a.at > f.pointer.value.at)
      && (f.pointer.Some? ==> MayReplace(n.phase.seen, p, f.pointer.value))
      && (p.over.Some? ==> a.at == p.request.at)
  {
    var n := f.nodes[i];
    assert NodeOk(f.pointer, f.history, n);
    SendIsPinned(f, i);
    DecisionIsPinned(n.phase.seen, f.pointer, |f.history|);
    if n.phase.publish.over.Some? {
      OfferLandsAsPlanned(n.phase.seen, |f.history|);
    }
    if f.pointer.Some? {
      ActivationIsLater(n.phase.publish.request.at, f.pointer.value.at);
    }
  }

  /** One turn after another: the pointer's instant and epoch only rise while it is not lost,
      and what somebody chose is never replaced by a restore. */
  ghost predicate Forward(a: Option<Activation>, b: Option<Activation>) {
    a.Some? && b.Some? && a != b ==>
      a.value.at < b.value.at && a.value.epoch < b.value.epoch && (b.value.restored ==> a.value.restored)
  }

  lemma TurnIsForward(f: Fleet, t: Turn)
    requires Inv(f) && Enabled(f, t)
    ensures Forward(f.pointer, Taken(f, t).pointer)
  {
    hide NodeOk;
    if t.Send? && Outcomes(f, f.nodes[t.i]).Landed? {
      LandedPublishIsSafe(f, t.i);
    } else if t.Write? && f.pointer.Some? {
      ActivationIsLater(t.at, f.pointer.value.at);
    }
  }

  ghost predicate Next(f: Fleet, f': Fleet) {
    exists t :: Enabled(f, t) && f' == Taken(f, t)
  }

  ghost predicate Run(run: seq<Fleet>) {
    run != [] && Start(run[0]) && forall k :: 0 < k < |run| ==> Next(run[k - 1], run[k])
  }

  lemma {:induction false} RunKeeps(run: seq<Fleet>, k: nat)
    requires Run(run) && k < |run|
    ensures Inv(run[k])
  {
    if k == 0 {
      StartOk(run[0]);
    } else {
      RunKeeps(run, k - 1);
      assert Next(run[k - 1], run[k]);
      var t :| Enabled(run[k - 1], t) && run[k] == Taken(run[k - 1], t);
      TakenKeeps(run[k - 1], t);
    }
  }

  /** Along any run through which the pointer is never gone: instants strictly increase from
      one activation to the next, and no restore follows a choice. */
  lemma {:induction false} RunIsForward(run: seq<Fleet>, j: nat, k: nat)
    requires Run(run) && j <= k < |run| && forall m :: j <= m <= k ==> run[m].pointer.Some?
    ensures Forward(run[j].pointer, run[k].pointer)
  {
    hide Inv, Enabled, Taken;
    if j < k {
      RunIsForward(run, j, k - 1);
      RunKeeps(run, k - 1);
      assert Next(run[k - 1], run[k]);
      var t :| Enabled(run[k - 1], t) && run[k] == Taken(run[k - 1], t);
      TurnIsForward(run[k - 1], t);
    }
  }

  /** Whatever turn is taken, no node forgets a revision or an instant: what it has of each only rises. */
  lemma InstantsOnlyRise(f: Fleet, t: Turn, j: nat, id: RevisionId)
    requires Enabled(f, t) && j < |f.nodes| && id in f.nodes[j].store.held
    ensures j < |Taken(f, t).nodes|
    ensures var before, after := f.nodes[j].store, Taken(f, t).nodes[j].store;
      id in after.held && after.held[id] >= before.held[id]
  {
    SendShape(f, t);
  }

  /** A crash, somebody else's write and the pointer's loss may come at any time, and a node that is
      down may boot, or be chosen for; whatever phase its boot is in, it may go on, at any reading of its clock. */
  lemma AnythingMayCome(f: Fleet, i: nat, id: RevisionId, at: Instant, flag: bool)
    requires i < |f.nodes| && id != NoRevision && at > 0
    ensures Enabled(f, Crash(i)) && Enabled(f, Write(id, at)) && Enabled(f, Lose)
    ensures match f.nodes[i].phase
      case Down => Enabled(f, Boot(i)) && Enabled(f, Offline(i, id))
      case Deciding(_, _) => Enabled(f, Read(i, at))
      case Confirming(_, _, _) => Enabled(f, Confirm(i))
      case Planning(_, _, _, _) => Enabled(f, Plan(i))
      case Sending(_, _, _, _) => Enabled(f, Send(i))
      case Sent(_, _) => Enabled(f, Record(i, flag))
      case Up => f.pointer.Some? ==> Enabled(f, Reconcile(i, flag))
  {
  }

  // ---- crash recovery -------------------------------------------------------------------

  function Booted(f: Fleet, i: nat, now: Instant): Node
    requires i < |f.nodes|
  {
    var n := f.nodes[i];
    var read := n.(phase := Deciding(n.store.boot, n.store.fleets));
    AfterRead(f, read, now)
  }

  /** The offer landed and is in the pointer still: wherever between the plan, the
      activation and the confirmation the node crashed, its next boot publishes nothing for
      it, and confirms it where it was not yet confirmed. */
  lemma NextBootConfirms(f: Fleet, i: nat, now: Instant)
    requires Inv(f) && i < |f.nodes| && now > 0
    requires f.nodes[i].took.Some? && f.pointer == f.nodes[i].took
    ensures !f.nodes[i].phase.Planning? && !f.nodes[i].phase.Sending?
    ensures var boot, after := f.nodes[i].store.boot, Booted(f, i, now);
      if boot.Some? && boot.value.offer.Some?
      then after.phase.Confirming?
      else after.phase.Up?
    ensures var n := f.nodes[i];
      // And once confirmed, the same boot reads on, and leaves the pointer alone.
      AfterRead(f, n.(phase := Deciding(Settled(n.store.boot), n.store.fleets)), now).phase.Up?
  {
    var n := f.nodes[i];
    var a := n.took.value;
    assert NodeOk(f.pointer, f.history, n);
    var crashed := n.(phase := Deciding(n.store.boot, n.store.fleets));
    TookIsConfirmed(FactsRead(f, crashed, now), a);
    TookIsConfirmed(FactsRead(f, n.(phase := Deciding(Settled(n.store.boot), n.store.fleets)), now), a);
  }

  /** A node whose reconciler has recorded what the pointer holds knows it, at its instant or a later one
      it remembers, and boots on it where it applied it; and booted again over that pointer, with no offer of its
      own left, it leaves it alone. */
  lemma ReconciledIsAtRest(f: Fleet, i: nat, applied: bool, now: Instant)
    requires Inv(f) && Enabled(f, Reconcile(i, applied)) && now > 0
    ensures i < |f.nodes| && f.pointer.Some? && i < |Taken(f, Reconcile(i, applied)).nodes|
    ensures var f' := Taken(f, Reconcile(i, applied)); var s, s', a := f.nodes[i].store, f'.nodes[i].store, f.pointer.value;
      && s'.fleets == Some(Revision(a.revision, Remembered(s', a.revision), None))
      && a.revision in s'.held && a.at <= Remembered(s', a.revision)
      && (forall id :: id != a.revision ==> (id in s'.held <==> id in s.held) && Remembered(s', id) == Remembered(s, id))
      && (if applied then s'.boot == s'.fleets
          else IdOf(s'.boot) == IdOf(s.boot) && (s.boot.Some? ==> s'.boot.value.offer == s.boot.value.offer))
      && (s'.boot.None? || s'.boot.value.offer.None? ==> Booted(f', i, now).phase.Up?)
  {
    assert NodeOk(f.pointer, f.history, f.nodes[i]);
  }

  /** What a boot recorded of its landing: an offer is a revision, and of a restore the instant it landed
      at, or a later one. */
  lemma RecordedIsKnown(f: Fleet, i: nat)
    requires Inv(f) && i < |f.nodes| && f.nodes[i].phase.Sent?
    ensures Enabled(f, Record(i, true)) && i < |Taken(f, Record(i, true)).nodes|
    ensures var n, s' := f.nodes[i], Taken(f, Record(i, true)).nodes[i].store; var a := n.phase.landed;
      if n.phase.publish.over.Some?
      then s'.boot.Some? ==> s'.boot.value.offer.None? && IdOf(s'.boot) == IdOf(n.store.boot) && s'.held == n.store.held
      else s'.held.Keys == n.store.held.Keys && (a.revision in n.store.held ==> a.at <= Remembered(s', a.revision))
           && (forall id :: id != a.revision ==> Remembered(s', id) == Remembered(n.store, id))
           && IdOf(s'.boot) == IdOf(n.store.boot) && IdOf(s'.fleets) == IdOf(n.store.fleets)
  {
    assert NodeOk(f.pointer, f.history, f.nodes[i]);
  }

  /** What a node's offer landed as is what it recorded before it asked for it. */
  lemma LandingIsRemembered(f: Fleet, i: nat)
    requires Inv(f) && i < |f.nodes| && f.nodes[i].phase.Sending? && Outcomes(f, f.nodes[i]).Landed?
    requires f.nodes[i].phase.publish.over.Some?
    ensures var n := AfterSend(f, i).nodes[i]; var a := Outcomes(f, f.nodes[i]).activation;
      && n.took == Some(a) == AfterSend(f, i).pointer
      && n.store.boot.Some? && n.store.boot.value.id == a.revision
      && n.store.boot.value.offer == Some(Offer(n.phase.publish.over.value, NoRevision, a.at))
  {
    var n := f.nodes[i];
    assert NodeOk(f.pointer, f.history, n);
    LandedPublishIsSafe(f, i);
    DecisionIsPinned(n.phase.seen, f.pointer, |f.history|);
  }

  /** A choice the fleet's row cannot be mistaken for the landing of: of another revision than
      the fleet's the node knew, or built on that one alone. */
  ghost predicate Tells(c: Chose) {
    c.knew == Some(c.id) ==> forall b :: b != NoRevision && c.offer.Over(b) ==> b == c.id
  }

  /** Rule 1b fires only where the pointer has named the offer since its choice, if the choice
      is one the row tells; at the instant planned it always has. */
  lemma ConfirmIsOfALanding(f: Fleet, i: nat)
    requires Inv(f) && i < |f.nodes| && f.nodes[i].phase.Confirming?
    ensures var boot := f.nodes[i].phase.boot; boot.Some? && boot.value.offer.Some? && boot.value.id == f.nodes[i].chose.id
    ensures Tells(f.nodes[i].chose) ==> NamedSince(f.history, f.nodes[i].chose, f.nodes[i].chose.id)
    ensures var n := f.nodes[i];
      !NamedSince(f.history, n.chose, n.chose.id) ==>
        n.chose.knew == Some(n.chose.id) && n.phase.boot.value.offer.value.plannedAt != 0 && !n.phase.boot.value.offer.value.Over(n.chose.id)
  {
    hide Named, TookOk;
    var n := f.nodes[i];
    assert NodeOk(f.pointer, f.history, n) && SinceOk(f.pointer, f.history, n);
    var seen := n.phase.seen;
    if seen.target.Some? && seen.target.value.revision == n.chose.id {
      assert seen.target.value in f.history && IsSince(n.chose, seen.target.value);
    }
  }

  /** The node is down, on a choice nothing has planned yet, made of what its rows still say. */
  ghost predicate Chosen(f: Fleet, i: nat)
    requires i < |f.nodes|
  {
    var n := f.nodes[i];
    && n.phase.Down? && IdOf(n.store.fleets) == n.chose.knew
    && n.store.boot.Some? && n.store.boot.value.id == n.chose.id && n.store.boot.value.offer == Some(n.chose.offer)
  }

  /** And nothing has moved the pointer since. */
  ghost predicate JustChosen(f: Fleet, i: nat)
    requires i < |f.nodes|
  {
    Chosen(f, i) && f.nodes[i].chose.landings == |f.history| && f.nodes[i].chose.at == f.pointer
  }

  /** The pointer held the choice's own revision as it was made. */
  predicate NamedThen(c: Chose) {
    c.at.Some? && c.at.value.revision == c.id
  }

  ghost predicate RunFrom(f: Fleet, run: seq<Fleet>) {
    run != [] && run[0] == f && forall k :: 0 < k < |run| ==> Next(run[k - 1], run[k])
  }

  ghost predicate Confirms(f: Fleet, i: nat, c: Chose) {
    i < |f.nodes| && f.nodes[i].phase.Confirming? && f.nodes[i].chose == c
  }

  /** Whatever happens after a choice, rule 1b fires for it only once the pointer has held it. */
  ghost predicate ConfirmsOnlyALanding(f: Fleet, i: nat)
    requires i < |f.nodes|
  {
    forall run: seq<Fleet> :: RunFrom(f, run) && Confirms(run[|run| - 1], i, f.nodes[i].chose) ==>
      NamedSince(run[|run| - 1].history, f.nodes[i].chose, f.nodes[i].chose.id)
  }

  lemma {:induction false} RunFromKeeps(f: Fleet, run: seq<Fleet>)
    requires Inv(f) && RunFrom(f, run)
    ensures Inv(run[|run| - 1]) && f.history <= run[|run| - 1].history
    decreases |run|
  {
    hide Inv, Enabled, Taken;
    if |run| > 1 {
      var before := run[|run| - 2];
      RunFromKeeps(f, run[..|run| - 1]);
      assert Next(before, run[|run| - 1]);
      var t :| Enabled(before, t) && run[|run| - 1] == Taken(before, t);
      TakenKeeps(before, t);
      HistoryGrows(before, t);
    }
  }

  lemma HistoryGrows(f: Fleet, t: Turn)
    requires Enabled(f, t)
    ensures f.history <= Taken(f, t).history
  {
  }

  /** So it is, exactly where the choice is one the fleet's row tells, or the pointer held it
      already. */
  lemma ConfirmsOnlyALandingIff(f: Fleet, i: nat)
    requires Inv(f) && i < |f.nodes| && JustChosen(f, i)
    ensures ConfirmsOnlyALanding(f, i) <==> Tells(f.nodes[i].chose) || NamedThen(f.nodes[i].chose)
  {
    var c := f.nodes[i].chose;
    if Tells(c) || NamedThen(c) {
      forall run: seq<Fleet> | RunFrom(f, run) && Confirms(run[|run| - 1], i, c) ensures NamedSince(run[|run| - 1].history, c, c.id) {
        RunFromKeeps(f, run);
        if Tells(c) {
          ConfirmIsOfALanding(run[|run| - 1], i);
        } else {
          NamedThenIsSince(f, i, run[|run| - 1].history);
        }
      }
    } else {
      hide Inv, NamedSince, RunFrom, Chosen;
      var b :| b != NoRevision && c.offer.Over(b) && b != c.id;
      var run := UntoldItNeedNot(f, i, b, 1);
      var untold := run[..8];
      assert RunFrom(f, untold) by { RunFromPrefix(f, run, 8); }
      assert untold[|untold| - 1] == run[7];
    }
  }

  lemma RunFromPrefix(f: Fleet, run: seq<Fleet>, k: nat)
    requires RunFrom(f, run) && 0 < k <= |run|
    ensures RunFrom(f, run[..k])
  {
  }

  lemma NamedThenIsSince(f: Fleet, i: nat, history: seq<Activation>)
    requires Inv(f) && i < |f.nodes| && JustChosen(f, i) && NamedThen(f.nodes[i].chose) && f.history <= history
    ensures NamedSince(history, f.nodes[i].chose, f.nodes[i].chose.id)
  {
    var a := f.pointer.value;
    assert InHistory(f.history, a) && history[a.epoch - 1] == a && IsSince(f.nodes[i].chose, a);
  }

  /** Any other choice, written over by another revision it may be published over: a boot plans
      it over that one and crashes before it asks, and the next takes it for landed, though the
      pointer has not held it since it was made; and publishes nothing for it. */
  lemma UntoldItNeedNot(f: Fleet, i: nat, b: RevisionId, now: Instant) returns (run: seq<Fleet>)
    requires Inv(f) && i < |f.nodes| && now > 0 && JustChosen(f, i) && !NamedThen(f.nodes[i].chose)
    requires f.nodes[i].chose.knew == Some(f.nodes[i].chose.id)
    requires b != NoRevision && b != f.nodes[i].chose.id && f.nodes[i].chose.offer.Over(b)
    ensures RunFrom(f, run) && |run| == 10
    ensures Confirms(run[7], i, f.nodes[i].chose) && !NamedSince(run[7].history, f.nodes[i].chose, f.nodes[i].chose.id)
    ensures var last := run[9];
      && i < |last.nodes| && last.nodes[i].phase.Up? && last.nodes[i].store.boot == Settled(f.nodes[i].store.boot)
      && last.pointer.Some? && last.pointer.value.revision == b && last.history == run[7].history
  {
    var written := Taken(f, Write(b, 1));
    assert Enabled(f, Write(b, 1)) && Next(f, written);
    TakenKeeps(f, Write(b, 1));
    assert written.nodes == f.nodes && written.pointer.Some? && written.pointer.value.revision == b && !written.pointer.value.restored;
    assert !NamedSince(written.history, f.nodes[i].chose, f.nodes[i].chose.id) by { OnlyTheOtherSince(f, i, b); }
    assert Chosen(written, i);
    hide Inv, NamedSince, Chosen, Taken;
    var rest := ConfirmedUnpublished(written, i, now);
    run := [f] + rest;
    forall k | 0 < k < |run| ensures Next(run[k - 1], run[k]) {
      if k > 1 { assert Next(rest[k - 2], rest[k - 1]); }
    }
  }

  lemma OnlyTheOtherSince(f: Fleet, i: nat, b: RevisionId)
    requires Inv(f) && i < |f.nodes| && JustChosen(f, i) && !NamedThen(f.nodes[i].chose) && b != NoRevision && b != f.nodes[i].chose.id
    ensures !NamedSince(Taken(f, Write(b, 1)).history, f.nodes[i].chose, f.nodes[i].chose.id)
  {
    var history := Taken(f, Write(b, 1)).history;
    forall a | a in history && a.revision == f.nodes[i].chose.id ensures !IsSince(f.nodes[i].chose, a) {
      var k :| 0 <= k < |history| && history[k] == a;
      assert k < |f.history| && f.history[k] == a;
    }
  }

  /** With the pointer at another revision the choice may be published over: planned, crashed,
      confirmed by the next boot, and left at that. */
  lemma ConfirmedUnpublished(f: Fleet, i: nat, now: Instant) returns (run: seq<Fleet>)
    requires Inv(f) && i < |f.nodes| && now > 0 && Chosen(f, i) && f.pointer.Some? && !f.pointer.value.restored
    requires f.nodes[i].chose.knew == Some(f.nodes[i].chose.id) && f.nodes[i].chose.offer.Over(f.pointer.value.revision)
    requires f.pointer.value.revision != f.nodes[i].chose.id
    ensures |run| == 9 && RunFrom(f, run)
    ensures forall k :: 0 <= k < |run| ==> run[k].pointer == f.pointer && run[k].history == f.history && |run[k].nodes| == |f.nodes|
    ensures Confirms(run[6], i, f.nodes[i].chose)
    ensures run[8].nodes[i].phase.Up? && run[8].nodes[i].store.boot == Settled(f.nodes[i].store.boot)
  {
    var n := f.nodes[i];
    var n6, first := PlannedThenConfirming(f, i, now);
    var n7 := n6.(store := n6.store.(boot := Settled(n6.store.boot)), phase := Deciding(Settled(n6.phase.boot), n6.phase.fleets));
    var n8 := n7.(phase := Up);
    OwnStep(f, i, n6, n7, Confirm(i));
    OwnStep(f, i, n7, n8, Read(i, now));
    run := first + [With(f, i, n7), With(f, i, n8)];
    forall k | 0 < k < |run| ensures Next(run[k - 1], run[k]) {
      if k < 7 { assert Next(first[k - 1], first[k]); }
    }
  }

  /** A fleet in which the i-th node alone is different. */
  function With(f: Fleet, i: nat, n: Node): Fleet
    requires i < |f.nodes|
  {
    f.(nodes := f.nodes[i := n])
  }

  lemma OwnStep(f: Fleet, i: nat, n: Node, n': Node, t: Turn)
    requires i < |f.nodes| && Enabled(With(f, i, n), t) && (t.Boot? || t.Read? || t.Confirm? || t.Plan? || t.Crash?) && t.i == i
    requires Alone(With(f, i, n), n, t) == n'
    ensures Next(With(f, i, n), With(f, i, n'))
  {
    hide Alone;
    assert Taken(With(f, i, n), t) == With(f, i, n');
  }

  lemma PlannedOverTheOther(f: Fleet, n: Node, facts: Facts)
    requires f.pointer.Some? && facts == Facts(n.store.boot, n.store.fleets, f.pointer, facts.targetHeld, facts.now) && FactsOk(facts)
    requires n.store.boot.Some? && n.store.boot.value.offer.Some? && n.store.fleets.Some? && n.store.fleets.value.id == n.store.boot.value.id
    requires var id, o := n.store.boot.value.id, n.store.boot.value.offer.value;
      o.plannedAt == 0 && o.Over(id) && o.Over(f.pointer.value.revision) && f.pointer.value.revision != id
    ensures var d := Decide(facts);
      && !d.confirm && d.publish.Some? && d.publish.value.over == Some(f.pointer.value.revision) && d.publish.value.request.at > 0
  {
  }

  lemma TakenForLanded(n: Node, facts: Facts)
    requires facts.boot.Some? && facts.boot.value.offer.Some? && facts.fleets.Some? && facts.fleets.value.id == facts.boot.value.id
    requires !facts.boot.value.offer.value.Over(facts.boot.value.id)
    ensures Decide(facts).confirm
  {
  }

  /** A choice back to the fleet's revision, made while an offer sent over it stands unconfirmed
      and has landed, is one. */
  lemma ChoosingBackIsUntold(f: Fleet, i: nat)
    requires Inv(f) && i < |f.nodes| && f.nodes[i].phase.Down? && f.pointer.Some?
    requires var s := f.nodes[i].store;
      && s.boot.Some? && s.boot.value.offer.Some? && s.fleets.Some? && s.fleets.value.id != s.boot.value.id
      && s.boot.value.offer.value.plannedAt != 0 && s.boot.value.offer.value.base == s.fleets.value.id
      && f.pointer.value.revision == s.boot.value.id
    ensures var id := f.nodes[i].store.fleets.value.id;
      && Enabled(f, Offline(i, id))
      && var f' := Taken(f, Offline(i, id)); var c := f'.nodes[i].chose;
         JustChosen(f', i) && !NamedThen(c) && c.knew == Some(c.id) && c.offer.Over(f'.pointer.value.revision) && f'.pointer.value.revision != c.id && !Tells(c)
  {
    var n := f.nodes[i];
    assert NodeOk(f.pointer, f.history, n) && SinceOk(f.pointer, f.history, n);
    var t := Offline(i, n.store.fleets.value.id);
    var n' := Taken(f, t).nodes[i];
    assert n' == Alone(f, n, t);
    assert n'.chose.offer == Offer(n.store.fleets.value.id, n.store.boot.value.id, 0);
    assert f.pointer.value.revision != NoRevision && n'.chose.offer.Over(f.pointer.value.revision);
  }

  /** The first boot plans it, and crashes. */
  lemma PlannedThenDown(f: Fleet, i: nat, now: Instant) returns (n4: Node, run: seq<Fleet>)
    requires Inv(f) && i < |f.nodes| && now > 0 && Chosen(f, i) && f.pointer.Some?
    requires f.nodes[i].chose.knew == Some(f.nodes[i].chose.id) && f.nodes[i].chose.offer.Over(f.pointer.value.revision)
    requires f.pointer.value.revision != f.nodes[i].chose.id
    ensures |run| == 5 && run[0] == f && run[4] == With(f, i, n4) && forall k :: 0 < k < |run| ==> Next(run[k - 1], run[k])
    ensures forall k :: 0 <= k < |run| ==> run[k].pointer == f.pointer && run[k].history == f.history && |run[k].nodes| == |f.nodes|
    ensures n4 == f.nodes[i].(store := f.nodes[i].store.(boot := n4.store.boot)) && Settled(n4.store.boot) == Settled(f.nodes[i].store.boot)
    ensures n4.store.boot.Some? && n4.store.boot.value.offer.Some? && !n4.store.boot.value.offer.value.Over(f.nodes[i].chose.id)
  {
    var n := f.nodes[i];
    assert NodeOk(f.pointer, f.history, n) && SinceOk(f.pointer, f.history, n);
    var boot, fleets := n.store.boot, n.store.fleets;
    var n1 := n.(phase := Deciding(boot, fleets));
    var facts := FactsRead(f, n1, now);
    var p := Decide(facts).publish.value;
    var n2 := n.(phase := Planning(boot, fleets, facts, p));
    var n3 := n.(store := n.store.(boot := Planned(boot, p)), phase := Sending(boot, fleets, facts, p));
    n4 := n3.(phase := Down);
    assert With(f, i, n) == f;
    PlannedOverTheOther(f, n, facts);
    hide Decide, Inv, NodeOk, SinceOk, NamedSince;
    OwnStep(f, i, n, n1, Boot(i));
    OwnStep(f, i, n1, n2, Read(i, now));
    OwnStep(f, i, n2, n3, Plan(i));
    OwnStep(f, i, n3, n4, Crash(i));
    run := [f, With(f, i, n1), With(f, i, n2), With(f, i, n3), With(f, i, n4)];
  }

  /** The next takes it for landed. */
  lemma PlannedThenConfirming(f: Fleet, i: nat, now: Instant) returns (n6: Node, run: seq<Fleet>)
    requires Inv(f) && i < |f.nodes| && now > 0 && Chosen(f, i) && f.pointer.Some?
    requires f.nodes[i].chose.knew == Some(f.nodes[i].chose.id) && f.nodes[i].chose.offer.Over(f.pointer.value.revision)
    requires f.pointer.value.revision != f.nodes[i].chose.id
    ensures |run| == 7 && run[0] == f && run[6] == With(f, i, n6) && forall k :: 0 < k < |run| ==> Next(run[k - 1], run[k])
    ensures forall k :: 0 <= k < |run| ==> run[k].pointer == f.pointer && run[k].history == f.history && |run[k].nodes| == |f.nodes|
    ensures n6.phase.Confirming? && Settled(n6.phase.boot) == Settled(n6.store.boot) == Settled(f.nodes[i].store.boot)
    ensures n6.store.fleets == n6.phase.fleets == f.nodes[i].store.fleets && n6.store.fleets.Some? && n6.chose == f.nodes[i].chose
  {
    hide Inv, NamedSince, Decide;
    var n4, first := PlannedThenDown(f, i, now);
    var n5 := n4.(phase := Deciding(n4.store.boot, n4.store.fleets));
    var facts := FactsRead(f, n5, now);
    n6 := n4.(phase := Confirming(n4.store.boot, n4.store.fleets, facts));
    TakenForLanded(n4, facts);
    OwnStep(f, i, n4, n5, Boot(i));
    OwnStep(f, i, n5, n6, Read(i, now));
    run := first + [With(f, i, n5), With(f, i, n6)];
    forall k | 0 < k < |run| ensures Next(run[k - 1], run[k]) {
      if k < 5 { assert Next(first[k - 1], first[k]); }
    }
  }

  // ---- one such choice, from a fleet's start ------------------------------------------------

  const First := Activation(1, 1, 1000, false)
  const Second := Activation(2, 2, 5000, false)

  /** A node that boots on the fleet's revision 1. */
  const Fresh := Node(Store(Some(Revision(1, 1000, None)), Some(Revision(1, 1000, None)), map[1 := 1000]), Down, None,
                      Chose(1, Offer(NoRevision, NoRevision, 0), Some(1), Some(First), 1))

  const OneNode := Fleet(Some(First), [First], [Fresh])

  lemma OneNodeStarts()
    ensures Start(OneNode)
  {
    assert First in OneNode.history;
  }

  /** Revision 2 chosen offline on it. */
  const OnTwo := Fresh.(store := Store(Some(Revision(2, 0, Some(Offer(1, NoRevision, 0)))), Fresh.store.fleets, map[1 := 1000, 2 := 0]),
                        chose := Chose(2, Offer(1, NoRevision, 0), Some(1), Some(First), 1))

  /** Sent, landed, and the node crashed before it confirmed it. */
  const Crashed := OnTwo.(store := OnTwo.store.(boot := Some(Revision(2, 0, Some(Offer(1, NoRevision, 5000))))), took := Some(Second))

  lemma TwoIsChosen()
    ensures Next(OneNode, Fleet(Some(First), [First], [OnTwo]))
  {
    assert Taken(OneNode, Offline(0, 2)) == Fleet(Some(First), [First], [OnTwo]);
  }

  const Published := Publish(Revision(2, 0, Some(Offer(1, NoRevision, 0))), Request(2, 5000, 1, 1, false, false), Some(1))

  lemma TwoIsDecided()
    ensures var d := Decide(Facts(OnTwo.store.boot, OnTwo.store.fleets, Some(First), true, 5000));
      d.publish == Some(Published) && !d.confirm
  {
  }

  lemma TwoIsPlanned() returns (n3: Node, run: seq<Fleet>)
    ensures RunFrom(Fleet(Some(First), [First], [OnTwo]), run) && |run| == 4 && run[3] == Fleet(Some(First), [First], [n3])
    ensures n3.store == Crashed.store && n3.chose == OnTwo.chose && n3.phase.Sending? && n3.phase.publish == Published
  {
    var f := Fleet(Some(First), [First], [OnTwo]);
    var n1 := OnTwo.(phase := Deciding(OnTwo.store.boot, OnTwo.store.fleets));
    var facts := FactsRead(f, n1, 5000);
    var n2 := OnTwo.(phase := Planning(OnTwo.store.boot, OnTwo.store.fleets, facts, Published));
    n3 := OnTwo.(store := Crashed.store, phase := Sending(OnTwo.store.boot, OnTwo.store.fleets, facts, Published));
    TwoIsDecided();
    hide Decide;
    assert With(f, 0, OnTwo) == f && With(f, 0, n3) == Fleet(Some(First), [First], [n3]);
    OwnStep(f, 0, OnTwo, n1, Boot(0));
    OwnStep(f, 0, n1, n2, Read(0, 5000));
    OwnStep(f, 0, n2, n3, Plan(0));
    run := [f, With(f, 0, n1), With(f, 0, n2), With(f, 0, n3)];
  }

  lemma TwoLandsAndCrashes() returns (run: seq<Fleet>)
    ensures RunFrom(Fleet(Some(First), [First], [OnTwo]), run) && |run| == 6
    ensures run[5] == Fleet(Some(Second), [First, Second], [Crashed])
  {
    var n3, planned := TwoIsPlanned();
    var n4 := Crashed.(phase := Sent(Published, Second));
    var sent := Fleet(Some(Second), [First, Second], [n4]);
    assert Taken(planned[3], Send(0)) == sent && Enabled(planned[3], Send(0));
    assert With(sent, 0, n4) == sent && With(sent, 0, Crashed) == Fleet(Some(Second), [First, Second], [Crashed]);
    OwnStep(sent, 0, n4, Crashed, Crash(0));
    run := planned + [sent, With(sent, 0, Crashed)];
    hide Taken, Enabled;
    forall k | 0 < k < |run| ensures Next(run[k - 1], run[k]) {
      if k < 4 { assert Next(planned[k - 1], planned[k]); }
    }
  }

  lemma CrashedOnTwo() returns (run: seq<Fleet>)
    ensures Run(run) && run[0] == OneNode && |run| == 7 && run[6] == Fleet(Some(Second), [First, Second], [Crashed]) && Inv(run[6])
  {
    OneNodeStarts();
    TwoIsChosen();
    var landing := TwoLandsAndCrashes();
    run := [OneNode] + landing;
    forall k | 0 < k < |run| ensures Next(run[k - 1], run[k]) {
      if k > 1 { assert Next(landing[k - 2], landing[k - 1]); }
    }
    RunKeeps(run, 6);
  }

  const Back := Crashed.(store := WithChoice(Crashed.store, 1, Offer(1, 2, 0)), took := None,
                         chose := Chose(1, Offer(1, 2, 0), Some(1), Some(Second), 2))

  lemma OneIsChosenBack()
    requires Inv(Fleet(Some(Second), [First, Second], [Crashed]))
    ensures var f := Fleet(Some(Second), [First, Second], [Back]);
      && Next(Fleet(Some(Second), [First, Second], [Crashed]), f) && Inv(f) && Chosen(f, 0)
      && !NamedSince(f.history, Back.chose, 1)
  {
    var crashed := Fleet(Some(Second), [First, Second], [Crashed]);
    assert Taken(crashed, Offline(0, 1)) == Fleet(Some(Second), [First, Second], [Back]);
    TakenKeeps(crashed, Offline(0, 1));
    hide Inv;
  }

  /** Revision 1 chosen again: from there it is confirmed and dropped, and 2 stays the fleet's. */
  lemma ChoosingBackFromTheStart() returns (run: seq<Fleet>)
    ensures Run(run) && run[0] == OneNode && |run| == 16
    ensures Confirms(run[13], 0, Back.chose) && !NamedSince(run[13].history, Back.chose, Back.chose.id)
    ensures run[15].pointer == Some(Second) && |run[15].nodes| == 1 && run[15].nodes[0].phase.Up?
    ensures run[15].nodes[0].store.boot == Some(Revision(1, 1000, None))
  {
    var first := CrashedOnTwo();
    OneIsChosenBack();
    hide Inv, Chosen, NamedSince, Start, Taken, Enabled;
    var rest := ConfirmedUnpublished(Fleet(Some(Second), [First, Second], [Back]), 0, 6000);
    run := first + rest;
    forall k | 0 < k < |run| ensures Next(run[k - 1], run[k]) {
      if k < 7 { assert Next(first[k - 1], first[k]); }
      if k > 7 { assert Next(rest[k - 8], rest[k - 7]); }
    }
    assert run[13] == rest[6] && run[15] == rest[8];
  }
}
