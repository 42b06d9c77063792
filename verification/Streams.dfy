/** What the import reads of git's output: lines, however they arrive; a pack's length and
    header; and the tail of what git said. */
module Streams {

  type Byte = b: nat | b < 256
  type Bytes = seq<Byte>
  const Newline: Byte := 10

  // ---- lines ----------------------------------------------------------------------------

  /** A reading's end so far: it goes on, a line was past its bound, or its reader stopped it. */
  datatype Status = Reading | TooLong | Stopped

  /** The lines handed over, what is held of the line being read, and how it stands. */
  datatype Outcome = Outcome(lines: seq<Bytes>, partial: Bytes, status: Status)

  /** The first newline, or the end. */
  function LineEnd(s: Bytes): (i: nat)
    ensures i <= |s| && (i < |s| ==> s[i] == Newline) && forall j :: 0 <= j < i ==> s[j] != Newline
  {
    if s == [] || s[0] == Newline then 0 else 1 + LineEnd(s[1..])
  }

  /** A whole stream split at its newlines, after the lines already handed over: what reading
      it in any pieces is held to. stops is the reader's answer to the lines it was handed. */
  function Split(lines: seq<Bytes>, s: Bytes, max: nat, stops: seq<Bytes> -> bool): Outcome
    decreases |s|
  {
    var i := LineEnd(s);
    if i > max then Outcome(lines, [], TooLong)
    else if i == |s| then Outcome(lines, s, Reading)
    else if stops(lines + [s[..i]]) then Outcome(lines + [s[..i]], [], Stopped)
    else Split(lines + [s[..i]], s[i + 1..], max, stops)
  }

  lemma LineEndOf(s: Bytes, i: nat)
    requires i <= |s| && (i < |s| ==> s[i] == Newline) && forall j :: 0 <= j < i ==> s[j] != Newline
    ensures LineEnd(s) == i
  {
  }

  lemma {:induction false} LineEndGrows(s: Bytes, more: Bytes)
    ensures LineEnd(s) <= LineEnd(s + more)
  {
    if s != [] && s[0] != Newline {
      assert (s + more)[1..] == s[1..] + more;
      LineEndGrows(s[1..], more);
    }
  }

  /** What is left of the stream goes on from the line being read, the lines before it done. */
  lemma {:induction false} SplitGoesOn(lines: seq<Bytes>, s: Bytes, more: Bytes, max: nat, stops: seq<Bytes> -> bool)
    requires Split(lines, s, max, stops).status.Reading?
    ensures var o := Split(lines, s, max, stops);
      && Split(lines, s + more, max, stops) == Split(o.lines, o.partial + more, max, stops)
      && |o.partial| <= max && Newline !in o.partial
    decreases |s|
  {
    hide LineEnd;
    var i := LineEnd(s);
    if i == |s| {
      assert s == Split(lines, s, max, stops).partial;
    } else {
      LineEndOf(s + more, i);
      assert (s + more)[..i] == s[..i] && (s + more)[i + 1..] == s[i + 1..] + more;
      SplitGoesOn(lines + [s[..i]], s[i + 1..], more, max, stops);
    }
  }

  /** A reading that has ended is ended the same way whatever comes after. */
  lemma {:induction false} SplitStaysEnded(lines: seq<Bytes>, s: Bytes, more: Bytes, max: nat, stops: seq<Bytes> -> bool)
    requires !Split(lines, s, max, stops).status.Reading?
    ensures Split(lines, s + more, max, stops) == Split(lines, s, max, stops)
    decreases |s|
  {
    hide LineEnd;
    var i := LineEnd(s);
    LineEndGrows(s, more);
    if i <= max {
      LineEndOf(s + more, i);
      assert (s + more)[..i] == s[..i] && (s + more)[i + 1..] == s[i + 1..] + more;
      if !stops(lines + [s[..i]]) {
        SplitStaysEnded(lines + [s[..i]], s[i + 1..], more, max, stops);
      }
    }
  }

  lemma EmptyIsRead(lines: seq<Bytes>, max: nat, stops: seq<Bytes> -> bool)
    ensures Split(lines, [], max, stops) == Outcome(lines, [], Reading)
  {
  }

  lemma NothingHeld(rest: Bytes)
    ensures [] + rest == rest
  {
  }

  lemma SplitAt(lines: seq<Bytes>, s: Bytes, max: nat, stops: seq<Bytes> -> bool)
    ensures var i := LineEnd(s);
      Split(lines, s, max, stops) ==
        if i > max then Outcome(lines, [], TooLong)
        else if i == |s| then Outcome(lines, s, Reading)
        else if stops(lines + [s[..i]]) then Outcome(lines + [s[..i]], [], Stopped)
        else Split(lines + [s[..i]], s[i + 1..], max, stops)
  {
    hide LineEnd;
  }

  /** One turn of a write: what the line being read becomes with the next piece's first line end. */
  lemma SplitPiece(lines: seq<Bytes>, partial: Bytes, rest: Bytes, max: nat, stops: seq<Bytes> -> bool)
    requires Newline !in partial
    ensures var i := LineEnd(rest);
      Split(lines, partial + rest, max, stops) ==
        if |partial| + i > max then Outcome(lines, [], TooLong)
        else if i == |rest| then Outcome(lines, partial + rest, Reading)
        else if stops(lines + [partial + rest[..i]]) then Outcome(lines + [partial + rest[..i]], [], Stopped)
        else Split(lines + [partial + rest[..i]], rest[i + 1..], max, stops)
  {
    hide LineEnd, Split;
    var i := LineEnd(rest);
    LineEndOf(partial + rest, |partial| + i);
    SplitAt(lines, partial + rest, max, stops);
    assert (partial + rest)[..|partial| + i] == partial + rest[..i];
    if i < |rest| {
      assert (partial + rest)[|partial| + i + 1..] == rest[i + 1..];
    }
  }

  /** More than max bytes without a newline, from the one at from. */
  ghost predicate PastFrom(s: Bytes, from: nat, max: nat) {
    from + max < |s| && forall j :: from <= j <= from + max ==> s[j] != Newline
  }

  /** Some line, ended or not, is longer than max. */
  ghost predicate HasLongLine(s: Bytes, max: nat) {
    exists from: nat :: PastFrom(s, from, max)
  }

  lemma LongLineAfter(s: Bytes, max: nat, i: nat)
    requires i < |s| && s[i] == Newline && i <= max && HasLongLine(s, max)
    ensures HasLongLine(s[i + 1..], max)
  {
    var from: nat :| PastFrom(s, from, max);
    assert from > i;
    var rest := s[i + 1..];
    var next: nat := from - (i + 1);
    forall j | next <= j <= next + max ensures rest[j] != Newline {
      assert rest[j] == s[j + i + 1];
    }
    assert PastFrom(rest, next, max);
  }

  lemma LongLineLater(s: Bytes, max: nat, i: nat)
    requires i <= |s| && HasLongLine(s[i..], max)
    ensures HasLongLine(s, max)
  {
    var rest := s[i..];
    var from: nat :| PastFrom(rest, from, max);
    var at: nat := from + i;
    forall j | at <= j <= at + max ensures s[j] != Newline {
      assert s[j] == rest[j - i];
    }
    assert PastFrom(s, at, max);
  }

  lemma LongLineFirst(s: Bytes, max: nat)
    ensures LineEnd(s) > max ==> HasLongLine(s, max)
    ensures LineEnd(s) == |s| <= max ==> !HasLongLine(s, max)
  {
    hide LineEnd;
    if LineEnd(s) > max {
      assert PastFrom(s, 0, max);
    }
  }

  /** A line past the bound is the first line or in what follows it. */
  lemma LongLineIs(s: Bytes, max: nat)
    ensures var i := LineEnd(s);
      HasLongLine(s, max) <==> i > max || (i < |s| && HasLongLine(s[i + 1..], max))
  {
    hide LineEnd, HasLongLine;
    var i := LineEnd(s);
    LongLineFirst(s, max);
    if i < |s| && i <= max {
      if HasLongLine(s, max) {
        LongLineAfter(s, max, i);
      }
      if HasLongLine(s[i + 1..], max) {
        LongLineLater(s, max, i + 1);
      }
    }
  }

  /** It refuses exactly where a line is longer than its bound, unless its reader stopped it
      at a line before. */
  lemma {:induction false} RefusesLongLinesOnly(lines: seq<Bytes>, s: Bytes, max: nat, stops: seq<Bytes> -> bool)
    ensures Split(lines, s, max, stops).status.TooLong? ==> HasLongLine(s, max)
    ensures Split(lines, s, max, stops).status.Reading? ==> !HasLongLine(s, max)
    decreases |s|
  {
    var i := LineEnd(s);
    LongLineIs(s, max);
    if i < |s| && i <= max && !stops(lines + [s[..i]]) {
      RefusesLongLinesOnly(lines + [s[..i]], s[i + 1..], max, stops);
    }
  }

  /** Its reader is asked of every line as it is handed over, and stops it at the first it says so of. */
  lemma {:induction false} StopsAtTheFirst(lines: seq<Bytes>, s: Bytes, max: nat, stops: seq<Bytes> -> bool)
    ensures var o := Split(lines, s, max, stops);
      && lines <= o.lines
      && (forall k :: |lines| < k < |o.lines| ==> !stops(o.lines[..k]))
      && (|o.lines| > |lines| ==> (stops(o.lines) <==> o.status.Stopped?))
      && (|o.lines| == |lines| ==> !o.status.Stopped?)
    decreases |s|
  {
    var i := LineEnd(s);
    if i < |s| && i <= max && !stops(lines + [s[..i]]) {
      var next := lines + [s[..i]];
      StopsAtTheFirst(next, s[i + 1..], max, stops);
      var o := Split(next, s[i + 1..], max, stops);
      assert o.lines[..|next|] == next;
      assert |o.lines| == |next| ==> o.lines == next;
    }
  }

  function Joined(lines: seq<Bytes>): Bytes {
    if lines == [] then [] else Joined(lines[..|lines| - 1]) + lines[|lines| - 1] + [Newline]
  }

  /** Nothing is lost: the lines handed over, each with its newline, and what is held, are the stream. */
  lemma {:induction false} SplitJoins(lines: seq<Bytes>, s: Bytes, max: nat, stops: seq<Bytes> -> bool)
    ensures var o := Split(lines, s, max, stops);
      && (o.status.Reading? ==> Joined(o.lines) + o.partial == Joined(lines) + s)
      && Joined(o.lines) <= Joined(lines) + s
    decreases |s|
  {
    var i := LineEnd(s);
    if i < |s| && i <= max {
      var next := lines + [s[..i]];
      assert next[..|lines|] == lines;
      assert Joined(next) == Joined(lines) + s[..i] + [Newline];
      assert s == s[..i] + [Newline] + s[i + 1..];
      assert Joined(next) + s[i + 1..] == Joined(lines) + s;
      if !stops(next) {
        SplitJoins(next, s[i + 1..], max, stops);
      }
    }
  }

  class LineWriter {
    const max: nat
    /** The reader's answer once it has been handed the lines so far. */
    const stops: seq<Bytes> -> bool
    var partial: Bytes
    var lines: seq<Bytes>
    /** Everything written so far. */
    ghost var seen: Bytes

    ghost predicate Valid()
      reads this
    {
      Split([], seen, max, stops) == Outcome(lines, partial, Reading)
    }

    constructor (max: nat, stops: seq<Bytes> -> bool)
      ensures Valid() && seen == [] && lines == [] && this.max == max && this.stops == stops
    {
      this.max, this.stops := max, stops;
      partial, lines, seen := [], [], [];
    }

    /** One write: what is handed over, held and refused after it is what splitting everything
        written so far, at once, hands over, holds and refuses. */
    method Write(p: Bytes) returns (status: Status)
      requires Valid()
      modifies this
      ensures seen == old(seen) + p
      ensures var o := Split([], seen, max, stops); o.status == status && o.lines == lines
      ensures status.Reading? ==> Valid()
    {
      SplitGoesOn([], seen, p, max, stops);
      ghost var all := seen + p;
      ghost var whole := Split([], all, max, stops);
      assert p == [] ==> all == seen;
      hide Split, LineEnd;
      seen := all;
      var rest := p;
      while rest != []
        invariant seen == all
        invariant Split(lines, partial + rest, max, stops) == whole && Newline !in partial
        invariant rest == [] ==> whole == Outcome(lines, partial, Reading)
        decreases |rest|
      {
        var i := LineEnd(rest);
        SplitPiece(lines, partial, rest, max, stops);
        if |partial| + i > max {
          return TooLong;
        }
        if i == |rest| {
          partial := partial + rest;
          break;
        }
        lines := lines + [partial + rest[..i]];
        if stops(lines) {
          return Stopped;
        }
        EmptyIsRead(lines, max, stops);
        partial, rest := [], rest[i + 1..];
        NothingHeld(rest);
      }
      status := Reading;
    }

    /** A last line ended without a newline is handed over as one. */
    method Flush() returns (status: Status)
      requires Valid()
      modifies this
      ensures partial == []
      ensures lines == old(lines) + if old(partial) == [] then [] else [old(partial)]
      ensures status == if old(partial) != [] && stops(lines) then Stopped else Reading
    {
      if partial == [] {
        return Reading;
      }
      lines := lines + [partial];
      partial := [];
      status := if stops(lines) then Stopped else Reading;
    }
  }

  function Concat(pieces: seq<Bytes>): Bytes {
    if pieces == [] then [] else Concat(pieces[..|pieces| - 1]) + pieces[|pieces| - 1]
  }

  /** What the whole of a stream is read as once its end is reached: a last line without a
      newline is a line. */
  function Whole(s: Bytes, max: nat, stops: seq<Bytes> -> bool): Outcome {
    var o := Split([], s, max, stops);
    if !o.status.Reading? || o.partial == [] then o
    else
      var lines := o.lines + [o.partial];
      Outcome(lines, [], if stops(lines) then Stopped else Reading)
  }

  /** A stream written in any pieces, each while the writer takes them, and flushed: the lines
      handed over, and the refusal, are those of the whole stream split at once. */
  method ReadAll(pieces: seq<Bytes>, max: nat, stops: seq<Bytes> -> bool) returns (lines: seq<Bytes>, status: Status)
    ensures var o := Whole(Concat(pieces), max, stops); o.status == status && o.lines == lines
  {
    var w := new LineWriter(max, stops);
    var k := 0;
    assert pieces[..0] == [];
    while k < |pieces|
      invariant 0 <= k <= |pieces| && w.Valid() && w.seen == Concat(pieces[..k])
      invariant w.max == max && w.stops == stops && fresh(w)
    {
      status := w.Write(pieces[k]);
      assert pieces[..k + 1][..k] == pieces[..k];
      k := k + 1;
      if !status.Reading? {
        EndedEarly(pieces, k, max, stops);
        return w.lines, status;
      }
    }
    assert pieces[..|pieces|] == pieces;
    status := w.Flush();
    lines := w.lines;
  }

  lemma {:induction false} EndedEarly(pieces: seq<Bytes>, k: nat, max: nat, stops: seq<Bytes> -> bool)
    requires k <= |pieces| && !Split([], Concat(pieces[..k]), max, stops).status.Reading?
    ensures Split([], Concat(pieces), max, stops) == Split([], Concat(pieces[..k]), max, stops)
    decreases |pieces|
  {
    if k == |pieces| {
      assert pieces[..k] == pieces;
    } else {
      var init := pieces[..|pieces| - 1];
      assert init[..k] == pieces[..k];
      EndedEarly(init, k, max, stops);
      SplitStaysEnded([], Concat(init), pieces[|pieces| - 1], max, stops);
    }
  }

  // ---- a pack's length and header ---------------------------------------------------------

  const PackHeaderBytes: nat := 12

  class CountingWriter {
    var n: nat
    const limit: nat
    const head: array<Byte>
    /** What was written on, where the writer writes on to a file. */
    var to: Bytes
    const writesOn: bool
    ghost var seen: Bytes

    ghost predicate Valid()
      reads this, head
    {
      && n == |seen| && head.Length == PackHeaderBytes
      // The header is the stream's first bytes, however they arrived.
      && forall k :: 0 <= k < PackHeaderBytes && k < n ==> head[k] == seen[k]
    }

    constructor (limit: nat, writesOn: bool)
      ensures Valid() && fresh(head) && seen == [] && to == [] && this.limit == limit && this.writesOn == writesOn
    {
      this.limit, this.writesOn, n, to, seen := limit, writesOn, 0, [], [];
      head := new Byte[PackHeaderBytes](_ => 0);
    }

    method Write(p: Bytes) returns (ok: bool)
      requires Valid()
      modifies this, head
      ensures Valid() && seen == old(seen) + p
      ensures ok <==> |seen| <= limit
      ensures to == if ok && writesOn then old(to) + p else old(to)
    {
      if n < PackHeaderBytes {
        var room := PackHeaderBytes - n;
        var most := if |p| < room then |p| else room;
        for k := 0 to most
          invariant n == old(n) && seen == old(seen) && to == old(to)
          invariant forall j :: 0 <= j < n ==> head[j] == seen[j]
          invariant forall j :: 0 <= j < k ==> head[n + j] == p[j]
        {
          head[n + k] := p[k];
        }
      }
      seen := seen + p;
      n := n + |p|;
      ok := n <= limit;
      if ok && writesOn {
        to := to + p;
      }
    }
  }

  // ---- the tail of what git said ------------------------------------------------------------

  /** What a write leaves of a tail: all of it, or its last max bytes past twice that. */
  function TailOf(s: Bytes, max: nat): Bytes {
    if |s| > 2 * max then s[|s| - max..] else s
  }

  ghost predicate IsSuffix(t: Bytes, s: Bytes) {
    |t| <= |s| && s[|s| - |t|..] == t
  }

  class TailBuffer {
    var buf: Bytes
    const max: nat
    ghost var seen: Bytes
    /** Bytes moved by compactions. */
    ghost var moved: nat

    ghost predicate Valid()
      reads this
    {
      && IsSuffix(buf, seen) && |buf| <= 2 * max
      && (|buf| < max ==> buf == seen)
      && moved + |buf| <= |seen|
    }

    constructor (max: nat)
      ensures Valid() && seen == [] && this.max == max
    {
      this.max, buf, seen, moved := max, [], [], 0;
    }

    /** It keeps the last max bytes at least and twice that at most, and moves no more bytes in
        compacting than were written. */
    method Write(p: Bytes)
      requires Valid()
      modifies this
      ensures Valid() && seen == old(seen) + p && buf == TailOf(old(buf) + p, max)
      ensures |buf| >= (if |seen| < max then |seen| else max)
      ensures moved <= |seen|
    {
      seen := seen + p;
      buf := buf + p;
      if |buf| > 2 * max {
        buf := buf[|buf| - max..];
        moved := moved + max;
      }
    }
  }
}
