/** The mutable ref table and its cache of negatives. */
module RemoteRefs {
  import opened Commits
  import opened Options
  import opened Refs

  class Remote {
    var refs: RefMap
    var held: set<Oid>
    /** The negatives git is asked under, built once a state; none once stale. */
    var negs: Option<set<Oid>>

    /** held says which of the refs' values the clone has, and what is cached is current. */
    ghost predicate Valid(g: Graph)
      reads this
    {
      && (forall r :: r in refs ==> (refs[r] in held <==> refs[r] in g.parents))
      && (negs.Some? ==> negs.value == Negatives(g, refs))
    }

    constructor (ghost g: Graph, theirs: RefMap, present: set<Oid>)
      requires forall r :: r in theirs ==> (theirs[r] in present <==> theirs[r] in g.parents)
      ensures Valid(g) && refs == theirs && held == present
    {
      refs, held, negs := theirs, present, None;
    }

    /** One update; the cache is dropped. */
    method Set(ghost g: Graph, ref: Ref, oid: Oid)
      requires Valid(g) && oid in g.parents
      modifies this
      ensures Valid(g) && refs == old(refs)[ref := oid]
    {
      refs := refs[ref := oid];
      held := held + {oid};
      negs := None;
    }

    method NegativesNow(ghost g: Graph) returns (n: set<Oid>)
      requires Valid(g)
      modifies this`negs
      ensures Valid(g) && n == Negatives(g, refs)
    {
      if negs.None? {
        negs := Some(set r | r in refs && refs[r] in held :: refs[r]);
      }
      n := negs.value;
    }
  }
}
