/** Console input: a line editor in front of a byte stream. */
module Console {

  import opened Wrap

  const SIZE := 128
  const CTRL_D := 4
  const CTRL_H := 8
  const CTRL_U := 21
  const DEL := 127
  const NL := 10
  const CR := 13

  // ---- what the console is ----

  /** lines: the bytes committed so far, of which the first `taken` have been read; edit: the line being typed. */
  datatype A = A(taken: nat, lines: seq<nat>, edit: seq<nat>)

  predicate Ends(c: nat) { c == NL || c == CTRL_D }

  predicate AOk(a: A) {
    && a.taken <= |a.lines| && |a.lines| + |a.edit| <= a.taken + SIZE
    && (a.edit != [] ==> |a.lines| + |a.edit| < a.taken + SIZE)
    && forall k {:trigger a.edit[k]} :: 0 <= k < |a.edit| ==> !Ends(a.edit[k])
  }

  /** The effect of a key. */
  function Typed(a: A, c: nat): A {
    if c == CTRL_U then a.(edit := [])
    else if c == CTRL_H || c == DEL then (if a.edit == [] then a else a.(edit := a.edit[..|a.edit| - 1]))
    else if c == 0 || |a.lines| + |a.edit| >= a.taken + SIZE then a
    else
      var x := if c == CR then NL else c;
      if Ends(x) || |a.lines| + |a.edit| + 1 == a.taken + SIZE then a.(lines := a.lines + a.edit + [x], edit := [])
      else a.(edit := a.edit + [x])
  }

  /** A read of up to n bytes, of which target - n have been delivered before: what it delivers now, whether it is
      finished or must wait, and the console after it. */
  datatype Got = Got(a: A, bytes: seq<nat>, finished: bool)

  function Delivery(a: A, target: nat, n: nat): (g: Got)
    requires a.taken <= |a.lines|
    decreases n
  {
    if n == 0 then Got(a, [], true)
    else if a.taken == |a.lines| then Got(a, [], false)
    else
      var c := a.lines[a.taken];
      var next := a.(taken := a.taken + 1);
      if c == CTRL_D then Got(if n < target then a else next, [], true)
      else if c == NL then Got(next, [c], true)
      else var g := Delivery(next, target, n - 1); g.(bytes := [c] + g.bytes)
  }

  // ---- what every run keeps ----

  lemma TypedOk(a: A, c: nat)
    requires AOk(a)
    ensures AOk(Typed(a, c)) && a.lines <= Typed(a, c).lines && Typed(a, c).taken == a.taken
  {}

  /** A read takes what is next in the committed stream, and nothing else changes; a ^D is taken only by a read that
      has delivered nothing. */
  lemma {:induction false} ReadTakes(a: A, target: nat, n: nat)
    requires AOk(a) && n <= target
    ensures var g := Delivery(a, target, n);
            && AOk(g.a) && g.a.lines == a.lines && g.a.edit == a.edit
            && |g.bytes| <= n && a.taken + |g.bytes| <= |a.lines| && g.bytes == a.lines[a.taken..a.taken + |g.bytes|]
            && (g.a.taken == a.taken + |g.bytes| ||
                (g.a.taken == a.taken + 1 && g.bytes == [] && n == target && a.lines[a.taken] == CTRL_D))
    decreases n
  {
    if n > 0 && a.taken < |a.lines| {
      var c := a.lines[a.taken];
      var next := a.(taken := a.taken + 1);
      if !Ends(c) {
        ReadTakes(next, target, n - 1);
        var g := Delivery(next, target, n - 1);
        assert [c] + g.bytes == a.lines[a.taken..a.taken + 1 + |g.bytes|];
      }
    }
  }

  /** Where a read stops: at n bytes, after a newline, before or at a ^D, or, still waiting, at the end of what is
      committed. */
  lemma {:induction false} ReadStops(a: A, target: nat, n: nat)
    requires AOk(a) && n <= target
    ensures var g := Delivery(a, target, n);
            && (forall k {:trigger g.bytes[k]} :: 0 <= k < |g.bytes| ==>
                  g.bytes[k] != CTRL_D && (g.bytes[k] == NL ==> k == |g.bytes| - 1))
            && (g.finished ==>
                  || |g.bytes| == n || (g.bytes != [] && g.bytes[|g.bytes| - 1] == NL)
                  || (a.taken + |g.bytes| < |a.lines| && a.lines[a.taken + |g.bytes|] == CTRL_D))
            && (!g.finished ==> |g.bytes| < n && a.taken + |g.bytes| == |a.lines| == g.a.taken)
    decreases n
  {
    if n > 0 && a.taken < |a.lines| {
      var next := a.(taken := a.taken + 1);
      if !Ends(a.lines[a.taken]) { ReadStops(next, target, n - 1); }
    }
  }

  datatype Event = Key(c: nat) | Reading(target: nat, n: nat)

  function Step(a: A, ev: Event): A
    requires a.taken <= |a.lines|
  {
    match ev
    case Key(c) => Typed(a, c)
    case Reading(target, n) => Delivery(a, target, n).a
  }

  /** The bytes a reader receives in a step. */
  function Received(a: A, ev: Event): seq<nat>
    requires a.taken <= |a.lines|
  {
    if ev.Key? then [] else Delivery(a, ev.target, ev.n).bytes
  }

  /** a becomes b by a run in which readers receive, together and in order, out. */
  ghost predicate Runs(a: A, es: seq<Event>, b: A, out: seq<nat>)
    decreases |es|
  {
    if es == [] then b == a && out == []
    else
      && a.taken <= |a.lines| && (es[0].Reading? ==> es[0].n <= es[0].target)
      && var x := Received(a, es[0]); |x| <= |out| && out[..|x|] == x && Runs(Step(a, es[0]), es[1..], b, out[|x|..])
  }

  /** A stream without its ^D bytes. */
  function Text(s: seq<nat>): seq<nat> {
    if s == [] then [] else (if s[0] == CTRL_D then [] else [s[0]]) + Text(s[1..])
  }

  lemma {:induction false} TextConcat(s: seq<nat>, t: seq<nat>)
    ensures Text(s + t) == Text(s) + Text(t)
  {
    if s == [] {
      assert s + t == t;
    } else {
      assert (s + t)[1..] == s[1..] + t;
      TextConcat(s[1..], t);
    }
  }

  lemma {:induction false} TextOf(s: seq<nat>)
    requires forall k {:trigger s[k]} :: 0 <= k < |s| ==> s[k] != CTRL_D
    ensures Text(s) == s
  {
    if s != [] { TextOf(s[1..]); }
  }

  /** A step takes what is next in the committed stream, and its reader receives that without a ^D. */
  lemma StepTakes(a: A, ev: Event)
    requires AOk(a) && (ev.Reading? ==> ev.n <= ev.target)
    ensures var b := Step(a, ev);
            && AOk(b) && a.lines <= b.lines && a.taken <= b.taken <= |a.lines|
            && Received(a, ev) == Text(a.lines[a.taken..b.taken])
  {
    match ev {
      case Key(c) => TypedOk(a, c);
      case Reading(target, n) =>
        ReadTakes(a, target, n);
        ReadStops(a, target, n);
        var g := Delivery(a, target, n);
        TextOf(g.bytes);
        if g.a.taken == a.taken + |g.bytes| {
          assert a.lines[a.taken..g.a.taken] == g.bytes;
        } else {
          assert a.lines[a.taken..g.a.taken] == [CTRL_D] && [CTRL_D][1..] == [];
        }
    }
  }

  /** Over any interleaving of keys and reads: what is committed is never altered, the line being typed holds no newline
      and no ^D, and what readers receive is the next part of the committed stream, in its order, without the ^D bytes
      that ended reads. */
  lemma {:induction false} RunDelivers(a: A, es: seq<Event>, b: A, out: seq<nat>)
    requires AOk(a) && Runs(a, es, b, out)
    ensures AOk(b) && a.lines <= b.lines && a.taken <= b.taken && out == Text(b.lines[a.taken..b.taken])
    decreases |es|
  {
    hide Step, Received, Text;
    if es != [] {
      var c, x := Step(a, es[0]), Received(a, es[0]);
      StepTakes(a, es[0]);
      RunDelivers(c, es[1..], b, out[|x|..]);
      TextConcat(a.lines[a.taken..c.taken], b.lines[c.taken..b.taken]);
      assert a.lines[a.taken..c.taken] == b.lines[a.taken..c.taken];
      assert b.lines[a.taken..b.taken] == b.lines[a.taken..c.taken] + b.lines[c.taken..b.taken];
      assert out == x + out[|x|..];
    } else {
      NoText();
      assert b.lines[a.taken..b.taken] == [];
    }
  }

  lemma NoText()
    ensures Text([]) == []
  {}

  // ---- typing ----

  /** The console after a sequence of keys. */
  function Types(a: A, ks: seq<nat>): A
    decreases |ks|
  {
    if ks == [] then a else Typed(Types(a, ks[..|ks| - 1]), ks[|ks| - 1])
  }

  /** The keys as they enter the stream: a carriage return is a newline. */
  function Entered(ks: seq<nat>): (r: seq<nat>)
    ensures |r| == |ks|
  {
    seq(|ks|, k requires 0 <= k < |ks| => if ks[k] == 13 then 10 else ks[k])
  }

  /** No key edits, and none is 0. */
  predicate NoEdits(ks: seq<nat>) {
    forall k {:trigger ks[k]} :: 0 <= k < |ks| ==> ks[k] != 21 && ks[k] != 8 && ks[k] != 127 && ks[k] != 0
  }

  /** Carriage return, newline and ^D. */
  predicate EndsLine(c: nat) { c == 13 || c == 10 || c == 4 }

  /** Keys without editing, for which there is room, enter the stream in order; a line end commits all of it, and no
      other key commits anything. */
  lemma {:induction false} TypesEnter(a: A, ks: seq<nat>)
    requires AOk(a) && NoEdits(ks) && |a.lines| + |a.edit| + |ks| < a.taken + 128
    ensures var b := Types(a, ks);
            && AOk(b) && b.taken == a.taken && b.lines + b.edit == a.lines + a.edit + Entered(ks)
            && (ks != [] && EndsLine(ks[|ks| - 1]) ==> b.edit == [])
            && ((forall k {:trigger ks[k]} :: 0 <= k < |ks| ==> !EndsLine(ks[k])) ==> b.lines == a.lines)
    decreases |ks|
  {
    if ks == [] {
      assert a.lines + a.edit + Entered(ks) == a.lines + a.edit;
    } else {
      var p, c := ks[..|ks| - 1], ks[|ks| - 1];
      assert NoEdits(p) by { forall k | 0 <= k < |p| ensures p[k] == ks[k] {} }
      TypesEnter(a, p);
      var b := Types(a, p);
      TypedOk(b, c);
      assert Entered(ks) == Entered(p) + [if c == 13 then 10 else c];
      assert |b.lines + b.edit| == |a.lines + a.edit| + |p|;
      assert Typed(b, c).lines + Typed(b, c).edit == b.lines + b.edit + [if c == 13 then 10 else c];
      if forall k {:trigger ks[k]} :: 0 <= k < |ks| ==> !EndsLine(ks[k]) {
        forall k | 0 <= k < |p| ensures !EndsLine(p[k]) { assert p[k] == ks[k]; }
        assert !EndsLine(ks[|ks| - 1]);
      }
    }
  }

  /** The last byte of room commits the line, whatever it is; after it no key but an editing one does anything. */
  lemma LastByteCommits(a: A, c: nat)
    requires AOk(a) && NoEdits([c])
    ensures |a.lines| + |a.edit| + 1 == a.taken + 128 ==>
              Typed(a, c) == A(a.taken, a.lines + a.edit + Entered([c]), [])
    ensures |a.lines| + |a.edit| == a.taken + 128 ==> Typed(a, c) == a
  {
    assert [c][0] == c && Entered([c]) == [if c == 13 then 10 else c];
  }

  /** A key that does not end the line, followed by DEL or ^H, leaves the console as it was. */
  lemma Rubout(a: A, c: nat, back: nat)
    requires AOk(a) && NoEdits([c]) && !EndsLine(c) && |a.lines| + |a.edit| + 1 < a.taken + 128
    requires back == 127 || back == 8
    ensures Typed(Typed(a, c), back) == a
  {
    assert [c][0] == c;
    assert (a.edit + [c])[..|a.edit|] == a.edit;
  }

  /** Keys that do not end the line, edits included, commit nothing while there is room. */
  lemma {:induction false} LineOpen(a: A, ks: seq<nat>)
    requires AOk(a) && |a.lines| + |a.edit| + |ks| < a.taken + 128
    requires forall k {:trigger ks[k]} :: 0 <= k < |ks| ==> !EndsLine(ks[k])
    ensures var b := Types(a, ks);
            && AOk(b) && b.taken == a.taken && b.lines == a.lines && |b.edit| <= |a.edit| + |ks|
    decreases |ks|
  {
    if ks != [] {
      var p := ks[..|ks| - 1];
      forall k | 0 <= k < |p| ensures !EndsLine(p[k]) { assert p[k] == ks[k]; }
      LineOpen(a, p);
      assert !EndsLine(ks[|ks| - 1]);
      TypedOk(Types(a, p), ks[|ks| - 1]);
    }
  }

  /** ^U after any keys of one line gives back the console at the start of that line. */
  lemma LineKilled(a: A, ks: seq<nat>)
    requires AOk(a) && a.edit == [] && |a.lines| + |ks| < a.taken + 128
    requires forall k {:trigger ks[k]} :: 0 <= k < |ks| ==> !EndsLine(ks[k])
    ensures Types(a, ks + [21]) == a
  {
    LineOpen(a, ks);
    assert (ks + [21])[..|ks|] == ks;
  }

  /** What is typed is what is read: a line of keys without edits, typed on a console that has been read to its end, is
      what a read that asks for enough receives. */
  lemma TypedIsRead(a: A, ks: seq<nat>, n: nat)
    requires AOk(a) && a.edit == [] && a.taken == |a.lines| && NoEdits(ks) && |ks| + 1 < 128 && |ks| < n
    requires forall k {:trigger ks[k]} :: 0 <= k < |ks| ==> !EndsLine(ks[k])
    ensures var b := Types(a, ks + [13]);
            && b.taken <= |b.lines| && Delivery(b, n, n) == Got(A(|b.lines|, b.lines, []), ks + [10], true)
  {
    var line := ks + [13];
    forall k | 0 <= k < |line| ensures line[k] != 21 && line[k] != 8 && line[k] != 127 && line[k] != 0 {}
    TypesEnter(a, line);
    var b := Types(a, line);
    assert line[|line| - 1] == 13;
    assert Entered(line) == ks + [10];
    assert b.lines == b.lines + b.edit && a.lines + a.edit == a.lines;
    assert b.lines == a.lines + (ks + [10]);
    ReadLine(b, n, n, ks);
  }

  lemma {:induction false} ReadLine(b: A, target: nat, n: nat, ks: seq<nat>)
    requires b.taken + |ks| + 1 == |b.lines| && b.lines[b.taken..] == ks + [10] && |ks| < n
    requires forall k {:trigger ks[k]} :: 0 <= k < |ks| ==> !EndsLine(ks[k])
    ensures Delivery(b, target, n) == Got(b.(taken := |b.lines|), ks + [10], true)
    decreases |ks|
  {
    assert b.lines[b.taken] == (ks + [10])[0];
    if ks == [] {
      assert b.lines[b.taken] == 10;
    } else {
      var next := b.(taken := b.taken + 1);
      assert next.lines[next.taken..] == b.lines[b.taken..][1..] == ks[1..] + [10];
      forall k | 0 <= k < |ks[1..]| ensures !EndsLine(ks[1..][k]) { assert ks[1..][k] == ks[k + 1]; }
      assert !EndsLine(ks[0]);
      ReadLine(next, target, n - 1, ks[1..]);
      assert [ks[0]] + (ks[1..] + [10]) == ks + [10];
    }
  }

  /** A ^D that is next ends a read with nothing: it is used up by a read that has delivered nothing, and kept for the
      next read by one that has. */
  lemma EndOfInput(a: A, target: nat, n: nat)
    requires AOk(a) && 0 < n <= target && a.taken < |a.lines| && a.lines[a.taken] == 4
    ensures Delivery(a, target, n) == Got(if n == target then a.(taken := a.taken + 1) else a, [], true)
  {}

  // ---- the buffer ----

  /** Byte p of the stream of committed and uncommitted bytes. */
  function At(a: A, p: nat): nat
    requires p < |a.lines| + |a.edit|
  {
    if p < |a.lines| then a.lines[p] else a.edit[p - |a.lines|]
  }

  ghost predicate Holds(buf: seq<nat>, a: A)
    requires |buf| == SIZE
  {
    forall p {:trigger At(a, p)} :: a.taken <= p < |a.lines| + |a.edit| ==> buf[p % SIZE] == At(a, p)
  }

  lemma HoldsShorter(buf: seq<nat>, a: A, k: nat)
    requires |buf| == SIZE && Holds(buf, a) && k <= |a.edit|
    ensures Holds(buf, a.(edit := a.edit[..k]))
  {
    var b := a.(edit := a.edit[..k]);
    forall p | b.taken <= p < |b.lines| + |b.edit| ensures buf[p % SIZE] == At(b, p) { assert At(b, p) == At(a, p); }
  }

  lemma HoldsTaken(buf: seq<nat>, a: A, t: nat)
    requires |buf| == SIZE && Holds(buf, a) && a.taken <= t
    ensures Holds(buf, a.(taken := t))
  {
    var b := a.(taken := t);
    forall p | b.taken <= p < |b.lines| + |b.edit| ensures buf[p % SIZE] == At(b, p) { assert At(b, p) == At(a, p); }
  }

  lemma HoldsMore(buf: seq<nat>, a: A, x: nat)
    requires |buf| == SIZE && AOk(a) && Holds(buf, a) && |a.lines| + |a.edit| < a.taken + SIZE
    ensures Holds(buf[(|a.lines| + |a.edit|) % SIZE := x], a.(edit := a.edit + [x]))
    ensures Holds(buf[(|a.lines| + |a.edit|) % SIZE := x], a.(lines := a.lines + a.edit + [x], edit := []))
  {
    var e := |a.lines| + |a.edit|;
    var buf', b, c := buf[e % SIZE := x], a.(edit := a.edit + [x]), a.(lines := a.lines + a.edit + [x], edit := []);
    forall p | a.taken <= p < e + 1 ensures buf'[p % SIZE] == At(b, p) && At(c, p) == At(b, p) {
      Slots(p, e, SIZE);
      if p < e { assert At(b, p) == At(a, p); }
    }
  }

  lemma Bounds(a: A)
    requires AOk(a)
    ensures a.taken <= |a.lines| <= a.taken + SIZE
  {}

  /** The byte at the read index is the next one of the stream. */
  lemma NextByte(buf: seq<nat>, a: A)
    requires |buf| == SIZE && AOk(a) && Holds(buf, a) && a.taken < |a.lines|
    ensures buf[Low(a.taken) % SIZE] == a.lines[a.taken]
    ensures AOk(a.(taken := a.taken + 1)) && Holds(buf, a.(taken := a.taken + 1))
  {
    SlotLow(a.taken, SIZE);
    assert At(a, a.taken) == a.lines[a.taken];
    HoldsTaken(buf, a, a.taken + 1);
  }

  class Cons {
    var buf: seq<nat>
    var r: nat
    var w: nat
    var e: nat
    ghost var a: A

    /** r, w and e are the low halves of positions r <= w <= e <= r + 128 in the stream. */
    ghost predicate Valid()
      reads this
    {
      && |buf| == SIZE && AOk(a) && Holds(buf, a)
      && r == Low(a.taken) && w == Low(|a.lines|) && e == Low(|a.lines| + |a.edit|)
    }

    constructor ()
      ensures Valid() && a == A(0, [], [])
    {
      buf, r, w, e, a := seq(SIZE, i => 0), 0, 0, 0, A(0, [], []);
    }

    /** Takes one byte of the uncommitted part back. */
    method Erase()
      requires Valid() && a.edit != []
      modifies this`e, this`a
      ensures Valid() && a == old(a).(edit := old(a).edit[..|old(a).edit| - 1])
    {
      DecLow(|a.lines| + |a.edit|);
      HoldsShorter(buf, a, |a.edit| - 1);
      e := Dec(e);
      a := a.(edit := a.edit[..|a.edit| - 1]);
    }

    method Intr(key: nat)
      requires Valid()
      modifies this
      ensures Valid() && a == Typed(old(a), key)
    {
      SubLow(|a.lines|, |a.lines| + |a.edit|);
      SubLow(a.taken, |a.lines| + |a.edit|);
      if key == CTRL_U {
        KillLine();
      } else if key == CTRL_H || key == DEL {
        if e != w { Erase(); }
      } else if key != 0 && Sub(e, r) < SIZE {
        Store(if key == CR then NL else key);
      }
    }

    /** ^U: the loop stops at a newline, but there is none in the uncommitted part, so it erases all of it. */
    method KillLine()
      requires Valid()
      modifies this`e, this`a
      ensures Valid() && a == old(a).(edit := [])
    {
      while true
        invariant Valid() && |a.edit| <= |old(a).edit| && a == old(a).(edit := old(a).edit[..|a.edit|])
        decreases |a.edit|
      {
        SubLow(|a.lines|, |a.lines| + |a.edit|);
        if e == w { break; }
        DecLow(|a.lines| + |a.edit|);
        SlotLow(|a.lines| + |a.edit| - 1, SIZE);
        assert At(a, |a.lines| + |a.edit| - 1) == a.edit[|a.edit| - 1];
        if buf[Dec(e) % SIZE] == NL { break; }
        Erase();
      }
    }

    method Store(x: nat)
      requires Valid() && |a.lines| + |a.edit| < a.taken + SIZE
      modifies this
      ensures Valid()
      ensures a == if Ends(x) || |old(a).lines| + |old(a).edit| + 1 == old(a).taken + SIZE
                   then old(a).(lines := old(a).lines + old(a).edit + [x],
                       edit := []) else old(a).(edit := old(a).edit + [x])
    {
      ghost var p := |a.lines| + |a.edit|;
      SlotLow(p, SIZE);
      IncLow(p);
      SubLow(a.taken, p + 1);
      HoldsMore(buf, a, x);
      buf := buf[e % SIZE := x];
      e := Inc(e);
      if x == NL || x == CTRL_D || Sub(e, r) == SIZE {
        w := e;
        a := a.(lines := a.lines + a.edit + [x], edit := []);
      } else {
        a := a.(edit := a.edit + [x]);
      }
    }

    /** The loop of read, up to its end or to the point where it must wait for input. */
    method Read(target: nat, n: nat) returns (out: seq<nat>, finished: bool)
      requires Valid() && n <= target
      modifies this`r, this`a
      ensures Valid() && Got(a, out, finished) == Delivery(old(a), target, n)
    {
      hide Holds, Low, Inc, Dec, AOk;
      Bounds(a);
      out, finished := [], true;
      var left := n;
      while left > 0
        invariant 0 <= left <= n && Valid() && finished && a.taken <= |a.lines| && old(a.taken <= |a.lines|)
        invariant var g, h := Delivery(old(a), target, n), Delivery(a, target, left);
                  g == Got(h.a, out + h.bytes, h.finished)
        decreases left
      {
        Bounds(a);
        SubLow(a.taken, |a.lines|);
        if r == w {
          finished := false;
          return;
        }
        NextByte(buf, a);
        IncLow(a.taken);
        var c := buf[r % SIZE];
        r := Inc(r);
        ghost var was := a;
        a := a.(taken := a.taken + 1);
        if c == CTRL_D {
          if left < target {
            DecLow(a.taken);
            r := Dec(r);
            a := was;
          }
          return;
        }
        out := out + [c];
        left := left - 1;
        if c == NL { return; }
      }
    }
  }
}
