/** Bytes, runes and the few sequence functions that every part of the model shares. */
module Bytes {

  type Byte = b: int | 0 <= b < 256

  /** A Unicode code point, including the surrogate range (Go's rune as it occurs in decoded text). */
  type Rune = r: int | 0 <= r <= 0x10FFFF

  const TAB: Byte := 9
  const NEWLINE: Byte := 10
  const SPACE: Byte := 32

  lemma Reassociate<T>(a: seq<T>, b: seq<T>, c: seq<T>)
    ensures a + b + c == a + (b + c)
  {
  }

  /** The concatenation of a list of strings. */
  function Flatten<T>(parts: seq<seq<T>>): seq<T> {
    if parts == [] then [] else parts[0] + Flatten(parts[1..])
  }

  lemma {:induction false} FlattenAppend<T>(a: seq<seq<T>>, b: seq<seq<T>>)
    ensures Flatten(a + b) == Flatten(a) + Flatten(b)
  {
    if a == [] {
      assert a + b == b;
    } else {
      assert (a + b)[1..] == a[1..] + b;
      FlattenAppend(a[1..], b);
    }
  }

  /** strings.Join(lines, "\n") */
  function Join(lines: seq<seq<Byte>>): seq<Byte> {
    if lines == [] then []
    else if |lines| == 1 then lines[0]
    else lines[0] + [NEWLINE] + Join(lines[1..])
  }

  /** Every line followed by a newline. */
  function Terminated(lines: seq<seq<Byte>>): seq<Byte> {
    if lines == [] then [] else lines[0] + [NEWLINE] + Terminated(lines[1..])
  }

  lemma {:induction false} JoinIsTerminatedThenJoin(a: seq<seq<Byte>>, b: seq<seq<Byte>>)
    requires b != []
    ensures Join(a + b) == Terminated(a) + Join(b)
  {
    if a == [] {
      assert a + b == b;
    } else {
      assert (a + b)[1..] == a[1..] + b;
      JoinIsTerminatedThenJoin(a[1..], b);
      assert a[0] + [NEWLINE] + (Terminated(a[1..]) + Join(b)) == Terminated(a) + Join(b);
    }
  }

  lemma {:induction false} TerminatedIsJoinThenNewline(a: seq<seq<Byte>>)
    requires a != []
    ensures Terminated(a) == Join(a) + [NEWLINE]
  {
    if |a| == 1 {
      assert a[1..] == [];
    } else {
      TerminatedIsJoinThenNewline(a[1..]);
    }
  }

  lemma {:induction false} TerminatedAppend(a: seq<seq<Byte>>, b: seq<seq<Byte>>)
    ensures Terminated(a + b) == Terminated(a) + Terminated(b)
  {
    if a == [] {
      assert a + b == b;
    } else {
      assert (a + b)[1..] == a[1..] + b;
      TerminatedAppend(a[1..], b);
      assert a[0] + [NEWLINE] + (Terminated(a[1..]) + Terminated(b)) == Terminated(a) + Terminated(b);
    }
  }

  lemma {:induction false} TerminatedLength(a: seq<seq<Byte>>)
    ensures |Terminated(a)| >= |a|
  {
    if a != [] {
      TerminatedLength(a[1..]);
    }
  }
}
