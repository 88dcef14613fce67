/** Decimal parsing as Go's strconv does it for 8-bit results. */
module Strconv {
  import opened Bytes

  datatype Parsed = Value(n: nat) | SyntaxError | RangeError

  predicate IsDigit(b: Byte) {
    '0' as int <= b <= '9' as int
  }

  /** The digits of s after the prefix worth acc; the first byte that decides stops the scan. */
  function Scan(s: seq<Byte>, acc: nat): (p: Parsed)
    requires acc <= 255
    ensures p.Value? ==> p.n <= 255
  {
    if s == [] then Value(acc)
    else if !IsDigit(s[0]) then SyntaxError
    else
      var n := acc * 10 + (s[0] as int - '0' as int);
      if n > 255 then RangeError else Scan(s[1..], n)
  }

  /** strconv.ParseUint(s, 10, 8) */
  function ParseUint8(s: seq<Byte>): (p: Parsed)
    ensures p.Value? ==> p.n <= 255
  {
    if s == [] then SyntaxError else Scan(s, 0)
  }

  /** The value that strconv.ParseInt(s, 10, 8) returns beside its error. */
  function ParseInt8(s: seq<Byte>): (n: int)
    ensures -128 <= n <= 127
  {
    if s == [] then 0
    else
      var negative := s[0] == '-' as int;
      var digits := if negative || s[0] == '+' as int then s[1..] else s;
      match ParseUint8(digits)
      case SyntaxError => 0
      case RangeError => if negative then -128 else 127
      case Value(un) =>
        if !negative && un >= 128 then 127
        else if negative && un > 128 then -128
        else if negative then -(un as int)
        else un
  }

  /** The bytes that can end up in an instruction: digits and the private marker '?'. */
  predicate IsParameterByte(b: Byte) {
    IsDigit(b) || b == '?' as int
  }

  predicate IsParameter(s: seq<Byte>) {
    forall i :: 0 <= i < |s| ==> IsParameterByte(s[i])
  }

  /** An instruction carries no sign, so it never counts backwards. */
  lemma ParametersAreNotNegative(s: seq<Byte>)
    requires IsParameter(s)
    ensures ParseInt8(s) >= 0
  {
    assert s != [] ==> IsParameterByte(s[0]);
  }

  /** A digit carries the scan one place further. */
  lemma ScanDigit(a: Byte, rest: seq<Byte>, acc: nat)
    requires acc <= 255 && IsDigit(a) && acc * 10 + (a as int - 48) <= 255
    ensures Scan([a] + rest, acc) == Scan(rest, acc * 10 + (a as int - 48))
  {
    assert ([a] + rest)[1..] == rest;
  }

  /** The numbers of one, two and three digits. */
  lemma ShortNumbers(a: Byte, b: Byte, c: Byte)
    requires IsDigit(a) && IsDigit(b) && IsDigit(c)
    ensures ParseUint8([a]) == Value(a as int - 48)
    ensures ParseUint8([a, b]) == Value((a as int - 48) * 10 + (b as int - 48))
    ensures var n := (a as int - 48) * 100 + (b as int - 48) * 10 + (c as int - 48);
      n <= 255 ==> ParseUint8([a, b, c]) == Value(n)
  {
    var x, y := a as int - 48, b as int - 48;
    assert [a] == [a] + [] && [b] == [b] + [] && [c] == [c] + [];
    assert [a, b] == [a] + [b] && [a, b, c] == [a] + [b, c] && [b, c] == [b] + [c];
    ScanDigit(a, [], 0);
    ScanDigit(a, [b], 0);
    ScanDigit(b, [], x);
    if x * 100 + y * 10 + (c as int - 48) <= 255 {
      ScanDigit(a, [b, c], 0);
      ScanDigit(b, [c], x);
      ScanDigit(c, [], x * 10 + y);
    }
  }

  // ----- what the scan means -----

  predicate AreDigits(s: seq<Byte>) {
    forall i :: 0 <= i < |s| ==> IsDigit(s[i])
  }

  /** The number that digits spell. */
  function Decimal(s: seq<Byte>): nat
    requires AreDigits(s)
  {
    if s == [] then 0 else Decimal(s[..|s| - 1]) * 10 + (s[|s| - 1] as int - '0' as int)
  }

  /** Some digits at the start already spell a number that does not fit. */
  ghost predicate Overflows(s: seq<Byte>) {
    exists k :: 0 <= k <= |s| && SpellsTooMuch(s[..k])
  }

  predicate SpellsTooMuch(s: seq<Byte>) {
    AreDigits(s) && Decimal(s) > 255
  }

  predicate IsNumber(s: seq<Byte>) {
    s != [] && AreDigits(s) && Decimal(s) <= 255
  }

  lemma {:induction false} ScanContinues(before: seq<Byte>, s: seq<Byte>)
    requires AreDigits(before) && Decimal(before) <= 255
    ensures match Scan(s, Decimal(before))
      case Value(n) => AreDigits(before + s) && n == Decimal(before + s)
      case SyntaxError => !AreDigits(before + s) && (Overflows(before + s) ==> Overflows(before))
      case RangeError => Overflows(before + s)
    decreases |s|
  {
    if s == [] {
      assert before + s == before;
    } else if !IsDigit(s[0]) {
      SyntaxErrorIsSeen(before, s);
    } else {
      var more := before + [s[0]];
      assert more[..|before|] == before && more + s[1..] == before + s;
      if Decimal(more) > 255 {
        assert (before + s)[..|more|] == more;
        assert SpellsTooMuch((before + s)[..|more|]);
      } else {
        ScanContinues(more, s[1..]);
        LongerOverflow(before, s[0]);
      }
    }
  }

  lemma SyntaxErrorIsSeen(before: seq<Byte>, s: seq<Byte>)
    requires s != [] && !IsDigit(s[0])
    ensures !AreDigits(before + s) && (Overflows(before + s) ==> Overflows(before))
  {
    var all := before + s;
    assert all[|before|] == s[0];
    forall k | |before| < k <= |all| ensures !AreDigits(all[..k]) {
      assert all[..k][|before|] == s[0];
    }
    forall k | 0 <= k <= |all| && SpellsTooMuch(all[..k]) ensures Overflows(before) {
      assert all[..k] == before[..k];
    }
  }

  lemma LongerOverflow(before: seq<Byte>, b: Byte)
    requires AreDigits(before + [b]) && Decimal(before + [b]) <= 255
    ensures Overflows(before + [b]) ==> Overflows(before)
  {
    var more := before + [b];
    assert more[..|more|] == more;
    forall k | 0 <= k <= |more| && SpellsTooMuch(more[..k]) ensures Overflows(before) {
      assert more[..k] == before[..k];
    }
  }

  /** Digits that spell a number which fits do so all along. */
  lemma {:induction false} NumbersDoNotOverflow(s: seq<Byte>)
    requires AreDigits(s) && Decimal(s) <= 255
    ensures !Overflows(s)
  {
    forall k | 0 <= k <= |s| ensures !SpellsTooMuch(s[..k]) {
      PrefixIsLess(s, k);
    }
  }

  lemma {:induction false} PrefixIsLess(s: seq<Byte>, k: nat)
    requires AreDigits(s) && k <= |s|
    ensures Decimal(s[..k]) <= Decimal(s)
  {
    if k == |s| {
      assert s[..k] == s;
    } else {
      PrefixIsLess(s[..|s| - 1], k);
      assert s[..|s| - 1][..k] == s[..k];
    }
  }

  /** What parsing yields: the number that the digits spell, if it fits. A text that starts with digits
      that do not is out of range whatever follows, and any other one is malformed. */
  lemma ParsesDecimals(s: seq<Byte>)
    ensures ParseUint8(s) == if Overflows(s) then RangeError else if IsNumber(s) then Value(Decimal(s)) else SyntaxError
    ensures IsNumber(s) ==> !Overflows(s)
  {
    if s == [] {
      assert !SpellsTooMuch([]);
    } else {
      ScanContinues([], s);
      assert [] + s == s && Decimal([]) == 0;
      assert !Overflows([]) by {
        assert !SpellsTooMuch([]);
      }
      if AreDigits(s) && Decimal(s) <= 255 {
        NumbersDoNotOverflow(s);
      } else if AreDigits(s) {
        assert s[..|s|] == s && SpellsTooMuch(s[..|s|]);
      }
    }
  }
}
