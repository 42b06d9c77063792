/** A source's refs, the repository's refs as planned, and what one push does to them. */
module Refs {
  import opened Commits

  type Ref = string

  datatype Kind = Commit | Tag | Tree | Blob

  datatype SourceRef = SourceRef(ref: Ref, oid: Oid, kind: Kind) {
    /** Under refs/heads and naming a commit. */
    predicate IsBranch() {
      "refs/heads/" <= ref && kind.Commit?
    }
  }

  /** A ref update. */
  datatype Cmd = Cmd(oid: Oid, ref: Ref)

  type RefMap = map<Ref, Oid>

  /** The source's kept refs, by name. */
  type Source = map<Ref, SourceRef>

  ghost predicate SourceOk(g: Graph, want: Source) {
    forall r :: r in want ==> want[r].ref == r && want[r].oid in g.parents
  }

  // ---- what the repository holds -----------------------------------------------

  /** The ref values present in the graph. */
  function Negatives(g: Graph, refs: RefMap): set<Oid> {
    set r | r in refs && refs[r] in g.parents :: refs[r]
  }

  /** Every object those values reach. */
  function Have(g: Graph, refs: RefMap): set<Oid> {
    Reach(g, Negatives(g, refs))
  }

  predicate AtValue(refs: RefMap, s: SourceRef) {
    s.ref in refs && refs[s.ref] == s.oid
  }

  /** A ref an import can start or go on from: absent, done, or a branch at an earlier commit. */
  predicate Resumable(g: Graph, refs: RefMap, s: SourceRef) {
    s.ref !in refs || AtValue(refs, s) || (s.IsBranch() && IsAncestor(g, refs[s.ref], s.oid))
  }

  ghost predicate AllResumable(g: Graph, want: Source, refs: RefMap) {
    forall r :: r in want ==> Resumable(g, refs, want[r])
  }

  /** What the proof after the last step checks. */
  ghost predicate Complete(want: Source, refs: RefMap) {
    forall r :: r in want ==> AtValue(refs, want[r])
  }

  // ---- one push ----------------------------------------------------------------

  function Apply(refs: RefMap, cmds: seq<Cmd>): RefMap
    decreases |cmds|
  {
    if cmds == [] then refs else Apply(refs[cmds[0].ref := cmds[0].oid], cmds[1..])
  }

  ghost predicate DistinctRefs(cmds: seq<Cmd>) {
    forall i, j :: 0 <= i < j < |cmds| ==> cmds[i].ref != cmds[j].ref
  }

  /** A command a push may carry: a kept ref short of its source value, created or
      fast-forwarded, to that value or to an earlier commit of its branch the repository
      does not reach yet. */
  ghost predicate CommandOk(g: Graph, want: Source, refs: RefMap, c: Cmd) {
    && c.ref in want && c.oid in g.parents
    && !AtValue(refs, want[c.ref])
    && (c.ref in refs ==> want[c.ref].IsBranch() && IsAncestor(g, refs[c.ref], c.oid))
    && (c.oid == want[c.ref].oid
        || (want[c.ref].IsBranch() && IsAncestor(g, c.oid, want[c.ref].oid) && c.oid !in Have(g, refs)))
  }

  ghost predicate PushOk(g: Graph, want: Source, refs: RefMap, cmds: seq<Cmd>) {
    && cmds != [] && DistinctRefs(cmds)
    && forall c :: c in cmds ==> CommandOk(g, want, refs, c)
  }

  lemma {:induction false} ApplyAt(refs: RefMap, cmds: seq<Cmd>)
    requires DistinctRefs(cmds)
    ensures forall c :: c in cmds ==> c.ref in Apply(refs, cmds) && Apply(refs, cmds)[c.ref] == c.oid
    ensures forall r :: (forall c :: c in cmds ==> c.ref != r) ==>
                          (r in Apply(refs, cmds) <==> r in refs) && (r in refs ==> Apply(refs, cmds)[r] == refs[r])
    decreases |cmds|
  {
    if cmds != [] {
      ApplyAt(refs[cmds[0].ref := cmds[0].oid], cmds[1..]);
      assert forall c :: c in cmds ==> c == cmds[0] || c in cmds[1..];
    }
  }

  // ---- histories under pushes -----------------------------------------------------

  lemma InHave(g: Graph, refs: RefMap, r: Ref)
    requires r in refs && refs[r] in g.parents
    ensures refs[r] in Have(g, refs)
  {
    assert refs[r] in Negatives(g, refs);
    assert refs[r] in History(g, refs[r]);
  }

  /** A push gives the repository what its commands name and loses it nothing. */
  lemma HaveGrows(g: Graph, want: Source, refs: RefMap, cmds: seq<Cmd>)
    requires PushOk(g, want, refs, cmds)
    ensures Have(g, refs) <= Have(g, Apply(refs, cmds))
    ensures forall c :: c in cmds ==> c.oid in Have(g, Apply(refs, cmds))
  {
    ApplyAt(refs, cmds);
    var after := Apply(refs, cmds);
    forall a | a in Have(g, refs) ensures a in Have(g, after) {
      var r :| r in refs && refs[r] in g.parents && a in History(g, refs[r]);
      if c :| c in cmds && c.ref == r {
        HistoryTransitive(g, a, refs[r], c.oid);
        assert after[r] in Negatives(g, after);
      } else {
        assert after[r] in Negatives(g, after);
      }
    }
    forall c | c in cmds ensures c.oid in Have(g, after) {
      InHave(g, after, c.ref);
    }
  }

  /** Nothing appears but the histories of what was pushed. */
  lemma HaveOnlyGrowsBy(g: Graph, refs: RefMap, ref: Ref, oid: Oid, a: Oid)
    requires a in Have(g, refs[ref := oid])
    ensures a in Have(g, refs) || IsAncestor(g, a, oid)
  {
    var after := refs[ref := oid];
    var r :| r in after && after[r] in g.parents && a in History(g, after[r]);
    if r != ref {
      assert refs[r] in Negatives(g, refs);
    }
  }

  // ---- how much is left -------------------------------------------------------------

  ghost function Unreached(g: Graph, refs: RefMap): set<Oid> {
    g.parents.Keys - Have(g, refs)
  }

  ghost function Unfinished(want: Source, refs: RefMap): set<Ref> {
    set r | r in want && !AtValue(refs, want[r])
  }

  /** Commits the repository does not reach and refs not at their source value. */
  ghost function Work(g: Graph, want: Source, refs: RefMap): nat {
    |Unreached(g, refs)| + |Unfinished(want, refs)|
  }

  lemma Smaller<T>(a: set<T>, b: set<T>)
    requires a <= b
    ensures |a| <= |b|
    ensures a != b ==> |a| < |b|
  {
    assert b == a + (b - a);
    if b - a == {} {
      assert a == b;
    }
  }

  /** A push finishes refs and never undoes one: none it does not name changes, and none it
      names was finished. */
  lemma FinishedStays(g: Graph, want: Source, refs: RefMap, cmds: seq<Cmd>)
    requires SourceOk(g, want) && PushOk(g, want, refs, cmds)
    ensures Unfinished(want, Apply(refs, cmds)) <= Unfinished(want, refs)
  {
    hide Apply, Have, IsAncestor;
    var after := Apply(refs, cmds);
    ApplyAt(refs, cmds);
    forall r | r in want && !AtValue(after, want[r]) ensures !AtValue(refs, want[r]) {
      var ref := want[r].ref;
      if c :| c in cmds && c.ref == ref {
        assert CommandOk(g, want, refs, c) && want[ref].ref == ref;
      } else {
        assert forall c :: c in cmds ==> c.ref != ref;
      }
    }
  }

  /** A command either finishes its ref or gives the repository a commit it did not reach. */
  lemma CommandShrinksWork(g: Graph, want: Source, refs: RefMap, cmds: seq<Cmd>, c: Cmd)
    requires SourceOk(g, want) && PushOk(g, want, refs, cmds) && c in cmds
    ensures || (c.ref in Unfinished(want, refs) && c.ref !in Unfinished(want, Apply(refs, cmds)))
            || (c.oid in Unreached(g, refs) && c.oid !in Unreached(g, Apply(refs, cmds)))
  {
    hide Apply, Have, IsAncestor;
    assert CommandOk(g, want, refs, c);
    ApplyAt(refs, cmds);
    HaveGrows(g, want, refs, cmds);
  }

  /** Every push shrinks the work: so a run is at most as many steps as the work it starts with. */
  lemma PushShrinksWork(g: Graph, want: Source, refs: RefMap, cmds: seq<Cmd>)
    requires SourceOk(g, want) && PushOk(g, want, refs, cmds)
    ensures Work(g, want, Apply(refs, cmds)) < Work(g, want, refs)
  {
    hide Apply, Have, SourceOk, Unfinished, CommandOk, DistinctRefs;
    var after := Apply(refs, cmds);
    HaveGrows(g, want, refs, cmds);
    FinishedStays(g, want, refs, cmds);
    CommandShrinksWork(g, want, refs, cmds, cmds[0]);
    Smaller(Unreached(g, after), Unreached(g, refs));
    Smaller(Unfinished(want, after), Unfinished(want, refs));
  }

  /** A push leaves every kept ref one an import can go on from. */
  lemma PushKeepsResumable(g: Graph, want: Source, refs: RefMap, cmds: seq<Cmd>)
    requires SourceOk(g, want) && AllResumable(g, want, refs) && PushOk(g, want, refs, cmds)
    ensures AllResumable(g, want, Apply(refs, cmds))
  {
    ApplyAt(refs, cmds);
    forall r | r in want ensures Resumable(g, Apply(refs, cmds), want[r]) {
      if c :| c in cmds && c.ref == r {
        assert CommandOk(g, want, refs, c);
      }
    }
  }

  // ---- runs of pushes -----------------------------------------------------------------

  function Replay(refs: RefMap, pushes: seq<seq<Cmd>>): RefMap {
    if pushes == [] then refs else Apply(Replay(refs, pushes[..|pushes| - 1]), pushes[|pushes| - 1])
  }

  /** Every push is one the repository takes, in turn. */
  ghost predicate RunOk(g: Graph, want: Source, refs: RefMap, pushes: seq<seq<Cmd>>) {
    forall k :: 0 <= k < |pushes| ==> PushOk(g, want, Replay(refs, pushes[..k]), pushes[k])
  }

  lemma {:induction false} RunPrefix(g: Graph, want: Source, refs: RefMap, pushes: seq<seq<Cmd>>, k: nat)
    requires RunOk(g, want, refs, pushes) && k <= |pushes|
    ensures RunOk(g, want, refs, pushes[..k])
  {
    forall j | 0 <= j < k ensures PushOk(g, want, Replay(refs, pushes[..k][..j]), pushes[..k][j]) {
      assert pushes[..k][..j] == pushes[..j];
    }
  }

  /** What every run of pushes keeps: refs the source does not name, and resumability;
      and how long it can be. */
  lemma {:induction false} RunKeeps(g: Graph, want: Source, refs: RefMap, pushes: seq<seq<Cmd>>)
    requires SourceOk(g, want) && AllResumable(g, want, refs) && RunOk(g, want, refs, pushes)
    ensures AllResumable(g, want, Replay(refs, pushes))
    ensures forall r :: r !in want ==>
                          (r in Replay(refs, pushes) <==> r in refs) && (r in refs ==> Replay(refs, pushes)[r] == refs[r])
    ensures |pushes| + Work(g, want, Replay(refs, pushes)) <= Work(g, want, refs)
    decreases |pushes|
  {
    if pushes != [] {
      var init, last := pushes[..|pushes| - 1], pushes[|pushes| - 1];
      RunPrefix(g, want, refs, pushes, |pushes| - 1);
      RunKeeps(g, want, refs, init);
      PushKeepsResumable(g, want, Replay(refs, init), last);
      PushShrinksWork(g, want, Replay(refs, init), last);
      ApplyAt(Replay(refs, init), last);
    }
  }
}
