/** Names in the order a sort puts them, each once. */
module Names {

  type Name = string

  /** a strictly before b, character by character. */
  predicate Before(a: Name, b: Name) {
    if b == "" then false
    else if a == "" then true
    else a[0] < b[0] || (a[0] == b[0] && Before(a[1..], b[1..]))
  }

  predicate Ascending(names: seq<Name>) {
    forall i, j :: 0 <= i < j < |names| ==> Before(names[i], names[j])
  }

  lemma {:induction false} OneIsBefore(a: Name, b: Name)
    ensures Before(a, b) || a == b || Before(b, a)
    ensures !(Before(a, b) && Before(b, a)) && !Before(a, a)
  {
    if a != "" && b != "" {
      OneIsBefore(a[1..], b[1..]);
      assert a == [a[0]] + a[1..] && b == [b[0]] + b[1..];
    }
    if a != "" { OneIsBefore(a[1..], a[1..]); }
  }

  lemma {:induction false} BeforeChains(a: Name, b: Name, c: Name)
    requires Before(a, b) && Before(b, c)
    ensures Before(a, c)
  {
    if a != "" && a[0] == b[0] == c[0] {
      BeforeChains(a[1..], b[1..], c[1..]);
    }
  }

  /** names with name in its place, unless it is there. */
  function Inserted(names: seq<Name>, name: Name): seq<Name> {
    if names == [] || Before(name, names[0]) then [name] + names
    else if name == names[0] then names
    else [names[0]] + Inserted(names[1..], name)
  }

  function Sorted(names: seq<Name>): seq<Name> {
    if names == [] then [] else Inserted(Sorted(names[1..]), names[0])
  }

  lemma {:induction false} InsertedIs(names: seq<Name>, name: Name)
    requires Ascending(names)
    ensures Ascending(Inserted(names, name))
    ensures forall x :: x in Inserted(names, name) <==> x == name || x in names
  {
    if names == [] {
    } else if Before(name, names[0]) {
      forall j | 0 <= j < |names| ensures Before(name, names[j]) {
        if j > 0 { BeforeChains(name, names[0], names[j]); }
      }
    } else if name != names[0] {
      OneIsBefore(name, names[0]);
      InsertedIs(names[1..], name);
      var rest := Inserted(names[1..], name);
      assert names == [names[0]] + names[1..];
      forall j | 0 <= j < |rest| ensures Before(names[0], rest[j]) {
        if rest[j] != name {
          assert rest[j] in names[1..];
          var k :| 0 <= k < |names[1..]| && names[1..][k] == rest[j];
          assert Before(names[0], names[k + 1]);
        } else { assert rest[j] in rest; }
      }
    }
  }

  /** A sort keeps the same names, each once, in order. */
  lemma {:induction false} SortedIs(names: seq<Name>)
    ensures Ascending(Sorted(names))
    ensures forall x :: x in Sorted(names) <==> x in names
  {
    if names != [] {
      SortedIs(names[1..]);
      InsertedIs(Sorted(names[1..]), names[0]);
      assert names == [names[0]] + names[1..];
    }
  }

  lemma AscendingHead(names: seq<Name>)
    requires Ascending(names) && names != []
    ensures Ascending(names[1..]) && names[0] !in names[1..]
    ensures forall x :: x in names <==> x == names[0] || x in names[1..]
  {
    assert names == [names[0]] + names[1..];
    forall k | 0 <= k < |names[1..]| ensures names[1..][k] != names[0] {
      assert Before(names[0], names[k + 1]);
      OneIsBefore(names[0], names[0]);
    }
  }

  /** The same names come out in the same order, however they came. */
  lemma {:induction false} OneOrder(a: seq<Name>, b: seq<Name>)
    requires Ascending(a) && Ascending(b) && forall x :: x in a <==> x in b
    ensures a == b
  {
    assert (a != [] ==> a[0] in a) && (b != [] ==> b[0] in b);
    if a != [] {
      AscendingHead(a);
      AscendingHead(b);
      OneIsBefore(a[0], b[0]);
      assert b[0] in a && a[0] in b;
      assert a[0] == b[0] by {
        var i :| 0 <= i < |a| && a[i] == b[0];
        var j :| 0 <= j < |b| && b[j] == a[0];
      }
      OneOrder(a[1..], b[1..]);
    }
  }
}
