/** The stored values a run reads: what the store answered, each name asked for once, under
    what the run itself has recorded or forgot since. */
module ValueCache {
  import opened Options
  import opened Names

  type Value = string

  predicate Letter(c: char) { 'a' <= c <= 'z' || 'A' <= c <= 'Z' || c == '_' }

  /** A name an environment variable can have. */
  predicate ValidName(name: Name) {
    && name != "" && Letter(name[0])
    && forall i :: 0 <= i < |name| ==> Letter(name[i]) || '0' <= name[i] <= '9'
  }

  /** The engine's own. */
  predicate Reserved(name: Name) { "iam/" <= name || "mcp/" <= name }

  /** A name the store may be asked for. */
  predicate Readable(name: Name) { ValidName(name) && !Reserved(name) }

  /** The same, written out: letters, digits and underscores, no digit first, and none of the engine's. */
  ghost predicate MayBeAsked(name: Name) {
    && name != "" && !('0' <= name[0] <= '9') && !("iam/" <= name) && !("mcp/" <= name)
    && forall c :: c in name ==> c == '_' || '0' <= c <= '9' || 'A' <= c <= 'Z' || 'a' <= c <= 'z'
  }

  lemma ReadableIs(name: Name)
    ensures Readable(name) <==> MayBeAsked(name)
  {
    assert forall i :: 0 <= i < |name| ==> name[i] in name;
  }

  function Row<V>(rows: map<Name, V>, name: Name): Option<V> {
    if name in rows then Some(rows[name]) else None
  }

  datatype Answer = Is(value: Option<Value>) | ReadFailed

  /** What the chain answers over a store of these rows: the run's own last word, or the row. */
  ghost function Resolved(rows: map<Name, Value>, said: map<Name, Option<Value>>, name: Name): Option<Value> {
    if name in said then said[name]
    else if MayBeAsked(name) then Row(rows, name)
    else None
  }

  function HeldNames(rows: map<Name, Value>, said: map<Name, Option<Value>>): set<Name> {
    set n | n in rows.Keys + said.Keys && (if n in said then said[n].Some? else n in rows) :: n
  }

  function Only(names: seq<Name>, held: set<Name>): seq<Name> {
    if names == [] then []
    else (if names[|names| - 1] in held then Only(names[..|names| - 1], held) + [names[|names| - 1]]
          else Only(names[..|names| - 1], held))
  }

  lemma {:induction false} OnlyIs(names: seq<Name>, held: set<Name>)
    ensures forall n :: n in Only(names, held) <==> n in names && n in held
  {
    if names != [] {
      OnlyIs(names[..|names| - 1], held);
      assert names == names[..|names| - 1] + [names[|names| - 1]];
    }
  }

  ghost predicate NoRepeats(names: seq<Name>) {
    forall i, j :: 0 <= i < j < |names| ==> names[i] != names[j]
  }

  lemma AscendingHasNoRepeats(names: seq<Name>)
    requires Ascending(names)
    ensures NoRepeats(names)
  {
    forall i, j | 0 <= i < j < |names| ensures names[i] != names[j] {
      OneIsBefore(names[i], names[j]);
    }
  }

  /** What is known of one name is the run's own last word of it, or else the store's, and a
      name either answers absent is held no longer. */
  ghost predicate Right(value: Option<Value>, held: bool, listed: bool, got: Option<Option<Value>>, said: Option<Option<Value>>) {
    if said.Some? then value == said.value && held == value.Some?
    else if got.Some? then value == got.value && held == value.Some?
    else value == None && held == listed
  }

  ghost function WithAnswers(got: map<Name, Option<Value>>, ask: seq<Name>, rows: map<Name, Value>): (after: map<Name, Option<Value>>)
    ensures forall n :: Row(after, n) == if n in ask then Some(Row(rows, n)) else Row(got, n)
    ensures forall n :: n in after <==> n in got || n in ask
    ensures forall n :: n in after ==> after[n] == if n in ask then Row(rows, n) else got[n]
  {
    got + map n | n in ask :: Row(rows, n)
  }

  /** What the store answers of names nothing is known of is right of them, and of the rest as before. */
  lemma AnswersAreRight(values0: map<Name, Value>, held0: set<Name>, got0: map<Name, Option<Value>>,
                        values: map<Name, Value>, held: set<Name>, got: map<Name, Option<Value>>,
                        listed: set<Name>, said: map<Name, Option<Value>>, ask: seq<Name>, rows: map<Name, Value>)
    requires forall n :: Right(Row(values0, n), n in held0, n in listed, Row(got0, n), Row(said, n))
    requires forall n :: n in ask ==> n !in said
    requires forall n :: Row(got, n) == if n in ask then Some(Row(rows, n)) else Row(got0, n)
    requires forall n :: n !in ask ==> Row(values, n) == Row(values0, n) && (n in held <==> n in held0)
    requires forall n :: n in ask ==> Row(values, n) == Row(rows, n) && (n in held <==> n in rows)
    ensures forall n :: Right(Row(values, n), n in held, n in listed, Row(got, n), Row(said, n))
  {
    forall n ensures Right(Row(values, n), n in held, n in listed, Row(got, n), Row(said, n)) {
      assert Right(Row(values0, n), n in held0, n in listed, Row(got0, n), Row(said, n));
    }
  }

  /** One request: the names it asked for, and whether the store answered it. */
  datatype Request = Request(names: seq<Name>, ok: bool)

  ghost predicate Answered(requests: seq<Request>, name: Name) {
    exists k :: 0 <= k < |requests| && requests[k].ok && name in requests[k].names
  }

  /** A name asked for again was in requests that failed alone. */
  ghost predicate OnceAnswered(requests: seq<Request>) {
    forall i, j, n :: 0 <= i < j < |requests| && n in requests[i].names && n in requests[j].names ==> !requests[i].ok
  }

  lemma OneMoreRequest(requests: seq<Request>, r: Request)
    requires OnceAnswered(requests) && forall n :: n in r.names ==> !Answered(requests, n)
    ensures OnceAnswered(requests + [r])
    ensures forall n :: Answered(requests + [r], n) <==> Answered(requests, n) || (r.ok && n in r.names)
  {
    var more := requests + [r];
    assert more[|requests|] == r;
    forall n ensures Answered(more, n) <==> Answered(requests, n) || (r.ok && n in r.names) {
      if Answered(requests, n) {
        var k :| 0 <= k < |requests| && requests[k].ok && n in requests[k].names;
        assert more[k] == requests[k];
      }
    }
  }

  /** The request made for one name, where it was wanted, and whether it was answered. */
  ghost predicate AskedOnly(before: seq<Request>, after: seq<Request>, name: Name, wanted: bool, ok: bool) {
    if wanted then
      && |after| == |before| + 1 && before <= after && after[|before|].ok == ok
      && forall n :: n in after[|before|].names <==> n == name
    else after == before
  }

  class StoredValues {
    /** The names the store listed, which reads no value. */
    const listed: set<Name>
    /** The store's answer to the n-th request for these names: their rows, or none. */
    const store: (nat, seq<Name>) -> Option<map<Name, Value>>

    var values: map<Name, Value>
    var held: set<Name>
    /** The values said to have been read as they were asked for. */
    var notes: seq<Name>
    /** Requests made. */
    var asks: nat

    /** Those requests, and the store's answers by name. */
    ghost var requests: seq<Request>
    ghost var got: map<Name, Option<Value>>
    /** The run's own last word of each name it recorded or forgot. */
    ghost var said: map<Name, Option<Value>>

    /** A name nothing has answered for that the store may hold. */
    ghost predicate Pending(name: Name)
      reads this
    {
      name in listed && MayBeAsked(name) && name !in got && name !in said
    }

    /** The store's rows stay as they were listed. */
    ghost predicate FixedStore(rows: map<Name, Value>) {
      && listed == rows.Keys
      && forall k, names, n :: n in names && store(k, names).Some? ==> Row(store(k, names).value, n) == Row(rows, n)
    }

    ghost predicate NeverFails() {
      forall k, names :: store(k, names).Some?
    }

    ghost predicate RequestOk(k: nat, r: Request) {
      && r.names != [] && NoRepeats(r.names) && r.ok == store(k, r.names).Some?
      && forall n :: n in r.names ==> n in listed && MayBeAsked(n)
    }

    ghost predicate Valid()
      reads this
    {
      && asks == |requests|
      // No name is asked for unlisted or that no store may hold, nor again once answered for.
      && (forall k :: 0 <= k < |requests| ==> RequestOk(k, requests[k])) && OnceAnswered(requests)
      && (forall n :: n in got <==> Answered(requests, n))
      && (forall n :: Right(Row(values, n), n in held, n in listed, Row(got, n), Row(said, n)))
      && (forall rows, n | FixedStore(rows) && n in got :: got[n] == Row(rows, n))
    }

    constructor (listed: set<Name>, store: (nat, seq<Name>) -> Option<map<Name, Value>>)
      ensures Valid() && said == map[] && got == map[] && requests == [] && notes == [] && values == map[] && held == listed
      ensures this.listed == listed && this.store == store
    {
      this.listed, this.store := listed, store;
      values, held, notes, asks := map[], listed, [], 0;
      requests, got, said := [], map[], map[];
    }

    /** Every value held is of a held name. */
    lemma ValuesAreHeld()
      requires Valid()
      ensures values.Keys <= held
    {
      forall n | n in values ensures n in held {
        assert Right(Row(values, n), n in held, n in listed, Row(got, n), Row(said, n));
      }
    }

    /** A name the run has no value of yet is worth asking the store for exactly where nothing has answered for it. */
    lemma UnreadIsPending(name: Name)
      requires Valid()
      ensures (name !in values && name in held && Readable(name)) <==> Pending(name)
    {
      ReadableIs(name);
      assert Right(Row(values, name), name in held, name in listed, Row(got, name), Row(said, name));
    }

    /** The names of these to ask the store for, each once, sorted. */
    method Unread(names: seq<Name>) returns (ask: seq<Name>)
      requires Valid()
      ensures forall n :: n in ask <==> n in names && Pending(n)
      ensures NoRepeats(ask)
    {
      var wanted: seq<Name> := [];
      for i := 0 to |names|
        invariant forall n :: n in wanted <==> n in names[..i] && Pending(n)
      {
        assert names[..i + 1] == names[..i] + [names[i]];
        UnreadIsPending(names[i]);
        if names[i] !in values && names[i] in held && Readable(names[i]) {
          wanted := wanted + [names[i]];
        }
      }
      assert names[..|names|] == names;
      SortedIs(wanted);
      ask := Sorted(wanted);
      AscendingHasNoRepeats(ask);
    }

    method Put(ask: seq<Name>, rows: map<Name, Value>)
      requires forall n :: n in ask ==> n !in values && n in held
      modifies this`values, this`held
      ensures forall n :: n !in ask ==> Row(values, n) == Row(old(values), n) && (n in held <==> n in old(held))
      ensures forall n :: n in ask ==> Row(values, n) == Row(rows, n) && (n in held <==> n in rows)
    {
      for i := 0 to |ask|
        invariant forall n :: n !in ask[..i] ==> Row(values, n) == Row(old(values), n) && (n in held <==> n in old(held))
        invariant forall n :: n in ask[..i] ==> Row(values, n) == Row(rows, n) && (n in held <==> n in rows)
      {
        assert ask[..i + 1] == ask[..i] + [ask[i]];
        if ask[i] in rows {
          values := values[ask[i] := rows[ask[i]]];
        } else {
          held := held - {ask[i]};
        }
      }
      assert ask[..|ask|] == ask;
    }

    lemma FixedAnswers(k: nat, ask: seq<Name>)
      ensures forall rows, n | FixedStore(rows) && n in ask && store(k, ask).Some? :: Row(store(k, ask).value, n) == Row(rows, n)
    {
    }

    /** Keeps an answer: the rows it has, and the names it lacks held no longer. */
    method Keep(ask: seq<Name>, rows: map<Name, Value>)
      requires Valid() && NoRepeats(ask) && ask != [] && (forall n :: n in ask ==> Pending(n)) && store(asks, ask) == Some(rows)
      modifies this`values, this`held, this`asks, this`requests, this`got
      ensures Valid() && requests == old(requests) + [Request(ask, true)]
      ensures forall n :: Row(got, n) == if n in ask then Some(Row(rows, n)) else Row(old(got), n)
      ensures forall n :: n in got <==> n in old(got) || n in ask
    {
      FixedAnswers(asks, ask);
      hide NoRepeats, MayBeAsked, OnceAnswered, Answered, FixedStore, Right, WithAnswers, Row;
      forall n | n in ask ensures n !in values && n in held {
        UnreadIsPending(n);
      }
      Put(ask, rows);
      OneMoreRequest(requests, Request(ask, true));
      asks, requests := asks + 1, requests + [Request(ask, true)];
      got := WithAnswers(got, ask, rows);
      AnswersAreRight(old(values), old(held), old(got), values, held, got, listed, said, ask, rows);
    }

    /** Whether the store is asked for anything of these. */
    ghost predicate AnyPending(names: seq<Name>)
      reads this
    {
      exists n :: n in names && Pending(n)
    }

    /** Reads the names asked that are held and not read yet in one request; none where there
        are none. The count of the names asked for, or none where the request failed, which
        changes nothing of what is known. */
    method ReadLocked(names: seq<Name>) returns (count: Option<nat>)
      requires Valid()
      modifies this`values, this`held, this`asks, this`requests, this`got
      ensures Valid()
      ensures !old(AnyPending(names)) ==>
        count == Some(0) && requests == old(requests) && values == old(values) && held == old(held) && got == old(got)
      ensures old(AnyPending(names)) ==>
        && |requests| == |old(requests)| + 1 && old(requests) <= requests
        && var r := requests[|old(requests)|];
           && (forall n :: n in r.names <==> n in names && old(Pending(n)))
           && count == (if r.ok then Some(|r.names|) else None)
      ensures forall n :: n in got <==> n in old(got) || (count.Some? && n in names && old(Pending(n)))
      ensures forall n :: n in old(got) ==> Row(got, n) == Row(old(got), n)
      ensures count.None? ==> values == old(values) && held == old(held) && got == old(got) && !NeverFails()
    {
      hide NoRepeats, Right, MayBeAsked, OnceAnswered, Answered;
      var ask := Unread(names);
      if |ask| == 0 {
        assert forall n :: n in names ==> n !in ask;
        return Some(0);
      }
      assert ask[0] in ask;
      var answer := store(asks, ask);
      if answer.None? {
        OneMoreRequest(requests, Request(ask, false));
        asks, requests := asks + 1, requests + [Request(ask, false)];
        return None;
      }
      Keep(ask, answer.value);
      return Some(|ask|);
    }

    /** A name asked for before is asked for again, where a call names it, exactly where every
        request it was in failed and the run has not recorded or forgot it since. */
    lemma AskedAgainIff(name: Name, k: nat)
      requires Valid() && k < |requests| && name in requests[k].names
      ensures Pending(name) <==> (forall j :: 0 <= j < |requests| && name in requests[j].names ==> !requests[j].ok) && name !in said
    {
      assert RequestOk(k, requests[k]);
      assert Answered(requests, name) <==> exists j :: 0 <= j < |requests| && requests[j].ok && name in requests[j].names;
    }

    /** So over a store that never fails no name is in two requests. */
    lemma NoneTwice(i: nat, j: nat, name: Name)
      requires Valid() && i < j < |requests| && name in requests[i].names && name in requests[j].names
      ensures !requests[i].ok && !NeverFails() && name in listed && MayBeAsked(name)
    {
      assert RequestOk(i, requests[i]);
    }

    /** Once nothing is left to ask about a name, what is known of it is what a store of
        unchanging rows resolves it to; and what is held is known without asking. */
    lemma KnownIsResolved(rows: map<Name, Value>, name: Name)
      requires Valid() && FixedStore(rows)
      ensures !Pending(name) ==> Row(values, name) == Resolved(rows, said, name)
      ensures name in held <==> name in HeldNames(rows, said)
    {
      hide NoRepeats, MayBeAsked;
      assert Right(Row(values, name), name in held, name in listed, Row(got, name), Row(said, name));
      assert name in got ==> got[name] == Row(rows, name);
    }

    /** A read beyond the scope, said on notes where it found a value. */
    method Lookup(name: Name) returns (answer: Answer)
      requires Valid()
      modifies this`values, this`held, this`asks, this`requests, this`got, this`notes
      ensures Valid()
      ensures answer.Is? ==> forall rows | FixedStore(rows) :: answer == Is(Resolved(rows, said, name))
      ensures answer.ReadFailed? ==> !NeverFails() && old(Pending(name)) && values == old(values) && held == old(held)
      ensures answer.Is? ==> !Pending(name) && answer == Is(Row(values, name))
      ensures AskedOnly(old(requests), requests, name, old(Pending(name)), answer.Is?)
      ensures notes == old(notes) + if old(Pending(name)) && answer.Is? && answer.value.Some? then [name] else []
    {
      hide NoRepeats, MayBeAsked;
      UnreadIsPending(name);
      assert Right(Row(values, name), name in held, name in listed, Row(got, name), Row(said, name));
      if name in values {
        forall rows | FixedStore(rows) { KnownIsResolved(rows, name); }
        return Is(Some(values[name]));
      }
      if name !in held {
        forall rows | FixedStore(rows) { KnownIsResolved(rows, name); }
        return Is(None);
      }
      var count := ReadLocked([name]);
      if count.None? {
        return ReadFailed;
      }
      forall rows | FixedStore(rows) { KnownIsResolved(rows, name); }
      if name !in values {
        return Is(None);
      }
      notes := notes + [name];
      return Is(Some(values[name]));
    }

    /** A sink's read back of what the store holds, which finds nothing where there is none. */
    method Get(name: Name) returns (answer: Answer)
      requires Valid()
      modifies this`values, this`held, this`asks, this`requests, this`got
      ensures Valid()
      ensures answer.Is? ==> forall rows | FixedStore(rows) :: answer == Is(Resolved(rows, said, name))
      ensures answer.ReadFailed? ==> !NeverFails() && old(Pending(name)) && values == old(values) && held == old(held)
      ensures answer.Is? ==> !Pending(name) && answer == Is(Row(values, name))
      ensures AskedOnly(old(requests), requests, name, old(Pending(name)), answer.Is?)
    {
      hide NoRepeats, MayBeAsked;
      UnreadIsPending(name);
      if name in values {
        forall rows | FixedStore(rows) { KnownIsResolved(rows, name); }
        return Is(Some(values[name]));
      }
      if name in held {
        var count := ReadLocked([name]);
        if count.None? {
          return ReadFailed;
        }
        if name in values {
          forall rows | FixedStore(rows) { KnownIsResolved(rows, name); }
          return Is(Some(values[name]));
        }
      }
      forall rows | FixedStore(rows) { KnownIsResolved(rows, name); }
      return Is(None);
    }

    /** The names of these the store holds, each once, sorted; no value is read. */
    method Holding(names: seq<Name>) returns (sorted: seq<Name>)
      requires Valid()
      ensures Ascending(sorted) && forall n :: n in sorted <==> n in names && n in held
      ensures forall rows | FixedStore(rows) :: sorted == Sorted(Only(names, HeldNames(rows, said)))
    {
      var found: seq<Name> := [];
      for i := 0 to |names|
        invariant found == Only(names[..i], held)
      {
        assert names[..i + 1][..i] == names[..i];
        if names[i] in held {
          found := found + [names[i]];
        }
      }
      assert names[..|names|] == names;
      SortedIs(found);
      OnlyIs(names, held);
      forall rows | FixedStore(rows) ensures held == HeldNames(rows, said) {
        forall n { KnownIsResolved(rows, n); }
      }
      return Sorted(found);
    }

    /** The name becomes held with this value. */
    method Recorded(name: Name, value: Value)
      requires Valid()
      modifies this`values, this`held, this`said
      ensures Valid() && said == old(said)[name := Some(value)]
    {
      hide NoRepeats, MayBeAsked, FixedStore;
      values, held := values[name := value], held + {name};
      said := said[name := Some(value)];
      forall n ensures Right(Row(values, n), n in held, n in listed, Row(got, n), Row(said, n)) {
        assert Right(Row(old(values), n), n in old(held), n in listed, Row(got, n), Row(old(said), n));
      }
    }

    /** One it removed is neither held nor asked of the store again. */
    method Forgot(name: Name)
      requires Valid()
      modifies this`values, this`held, this`said
      ensures Valid() && said == old(said)[name := None]
    {
      hide NoRepeats, MayBeAsked, FixedStore;
      values, held := values - {name}, held - {name};
      said := said[name := None];
      forall n ensures Right(Row(values, n), n in held, n in listed, Row(got, n), Row(said, n)) {
        assert Right(Row(old(values), n), n in old(held), n in listed, Row(got, n), Row(old(said), n));
      }
    }
  }

  // ---- any sequence of reads and writes -----------------------------------------------------

  datatype Call =
    | Lookup(name: Name) | Get(name: Name) | Read(names: seq<Name>) | Holding(names: seq<Name>)
    | Recorded(name: Name, value: Value) | Forgot(name: Name)

  datatype Reply = ValueIs(value: Option<Value>) | HeldAre(names: seq<Name>) | Done | Failed

  /** The run's own last word of each name after the first k calls. */
  function SaidAfter(calls: seq<Call>, k: nat): map<Name, Option<Value>>
    requires k <= |calls|
  {
    if k == 0 then map[] else SaidBy(SaidAfter(calls, k - 1), calls[k - 1])
  }

  /** What a store read afresh at every call, with no cache, replies. */
  ghost function ReplyOf(rows: map<Name, Value>, said: map<Name, Option<Value>>, call: Call): Reply {
    match call
    case Lookup(name) => ValueIs(Resolved(rows, said, name))
    case Get(name) => ValueIs(Resolved(rows, said, name))
    case Holding(names) => HeldAre(Sorted(Only(names, HeldNames(rows, said))))
    case _ => Done
  }

  /** What the run has said after one more call. */
  function SaidBy(said: map<Name, Option<Value>>, call: Call): map<Name, Option<Value>> {
    match call
    case Recorded(name, value) => said[name := Some(value)]
    case Forgot(name) => said[name := None]
    case _ => said
  }

  /** A reply is a store of unchanging rows' own, or says that the store failed. */
  ghost predicate RightReply(v: StoredValues, said: map<Name, Option<Value>>, call: Call, reply: Reply) {
    forall rows | v.FixedStore(rows) :: reply.Failed? || reply == ReplyOf(rows, said, call)
  }

  method One(v: StoredValues, call: Call) returns (reply: Reply)
    requires v.Valid()
    modifies v
    ensures v.Valid() && v.said == SaidBy(old(v.said), call)
    ensures reply.Failed? ==> !v.NeverFails()
    ensures RightReply(v, old(v.said), call, reply)
  {
    match call
    case Lookup(name) =>
      var answer := v.Lookup(name);
      reply := if answer.Is? then ValueIs(answer.value) else Failed;
    case Get(name) =>
      var answer := v.Get(name);
      reply := if answer.Is? then ValueIs(answer.value) else Failed;
    case Read(names) =>
      var count := v.ReadLocked(names);
      reply := if count.Some? then Done else Failed;
    case Holding(names) =>
      var held := v.Holding(names);
      reply := HeldAre(held);
    case Recorded(name, value) =>
      v.Recorded(name, value);
      reply := Done;
    case Forgot(name) =>
      v.Forgot(name);
      reply := Done;
  }

  /** A run of calls over one cache: every reply is the one a store of unchanging rows, read
      afresh under the run's own writes, gives, or says that the store failed; only a failed
      lookup ends the run; and (Valid) no name was answered for twice. */
  method Run(v: StoredValues, calls: seq<Call>) returns (replies: seq<Reply>)
    requires v.Valid() && v.said == map[]
    modifies v
    ensures v.Valid() && |replies| <= |calls|
    ensures forall k | 0 <= k < |replies| :: RightReply(v, SaidAfter(calls, k), calls[k], replies[k])
    ensures v.NeverFails() ==> |replies| == |calls| && Failed !in replies
    ensures forall k | 0 <= k < |replies| - 1 :: !(replies[k].Failed? && calls[k].Lookup?)
    ensures |replies| < |calls| ==> replies != [] && replies[|replies| - 1].Failed? && calls[|replies| - 1].Lookup?
  {
    hide SaidBy, RightReply, StoredValues.Valid, StoredValues.NeverFails;
    replies := [];
    while |replies| < |calls|
      invariant |replies| <= |calls|
      invariant v.Valid() && v.said == SaidAfter(calls, |replies|)
      invariant forall k | 0 <= k < |replies| :: RightReply(v, SaidAfter(calls, k), calls[k], replies[k])
      invariant forall k | 0 <= k < |replies| :: !(replies[k].Failed? && calls[k].Lookup?)
      invariant v.NeverFails() ==> Failed !in replies
    {
      var call := calls[|replies|];
      var reply := One(v, call);
      replies := replies + [reply];
      if reply.Failed? && call.Lookup? {
        return;
      }
    }
  }

  /** A store of one row that fails the first time it is asked, and answers from then on. */
  function FailsFirst(name: Name, value: Value): (nat, seq<Name>) -> Option<map<Name, Value>> {
    (k, names) => if k == 0 then None else Some(map n | n in names && n == name :: value)
  }

  /** Read back by a sink and then looked up, its name is asked for twice. */
  method AskedTwice(name: Name, value: Value) returns (v: StoredValues, back: Answer, found: Answer)
    requires MayBeAsked(name)
    ensures v.Valid() && fresh(v) && v.FixedStore(map[name := value]) && v.said == map[]
    ensures back.ReadFailed? && found == Is(Some(value))
    ensures |v.requests| == 2 && name in v.requests[0].names && name in v.requests[1].names
    ensures !v.requests[0].ok && v.requests[1].ok
  {
    hide MayBeAsked, NoRepeats, Right, OnceAnswered, Answered;
    v := new StoredValues({name}, FailsFirst(name, value));
    assert v.FixedStore(map[name := value]);
    back := v.Get(name);
    assert v.RequestOk(0, v.requests[0]);
    v.AskedAgainIff(name, 0);
    found := v.Lookup(name);
    assert v.RequestOk(1, v.requests[1]);
  }
}
