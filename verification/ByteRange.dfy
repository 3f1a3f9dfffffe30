/** Single byte ranges, as section 14.1.2 of RFC 9110 writes them. */
module ByteRange {
  import opened Wrappers

  const U64_MAX: nat := 0xFFFF_FFFF_FFFF_FFFF
  const UNIT: string := "bytes="

  datatype Window = Window(start: nat, length: nat)

  predicate IsDigit(c: char) { '0' <= c <= '9' }

  predicate AllDigits(s: string) { forall i :: 0 <= i < |s| ==> IsDigit(s[i]) }

  function DigitValue(c: char): nat
    requires IsDigit(c)
  {
    c as int - '0' as int
  }

  function Value(s: string): nat
    requires AllDigits(s)
  {
    if s == [] then 0 else 10 * Value(s[..|s| - 1]) + DigitValue(s[|s| - 1])
  }

  /** A decimal number of 64 bits, or nothing when there are no digits or too large a number. */
  function ParseU64(s: string): Option<nat>
    requires AllDigits(s)
  {
    if s == [] || Value(s) > U64_MAX then None else Some(Value(s))
  }

  /** The position of the first dash, or the length if there is none. */
  function FirstDash(s: string): (i: nat)
    ensures i <= |s| && (i < |s| ==> s[i] == '-') && forall k :: 0 <= k < i ==> s[k] != '-'
  {
    if s == [] || s[0] == '-' then 0 else 1 + FirstDash(s[1..])
  }

  function Min(a: nat, b: nat): nat { if a < b then a else b }

  function SingleRange(value: string, size: nat): Option<Window> {
    if size == 0 || !(UNIT <= value) then None
    else
      var spec := value[|UNIT|..];
      var dash := FirstDash(spec);
      if dash == |spec| then None
      else
        var first, last := spec[..dash], spec[dash + 1..];
        if !AllDigits(first) || !AllDigits(last) then None
        else if first == [] then
          var n := ParseU64(last);
          if n.None? || Min(n.value, size) == 0 then None
          else Some(Window(size - Min(n.value, size), Min(n.value, size)))
        else
          var s := ParseU64(first);
          if s.None? || (last != [] && ParseU64(last).None?) then None
          else
            var e := if last == [] then size - 1 else Min(ParseU64(last).value, size - 1);
            if s.value <= e && s.value < size then Some(Window(s.value, e - s.value + 1)) else None
  }

  // --- What is accepted lies inside the file ---

  /** An accepted range is a non-empty window of the file, so its last position is well defined. */
  lemma {:induction false} AcceptedIsInside(value: string, size: nat)
    ensures var r := SingleRange(value, size);
      r.Some? ==> r.value.length > 0 && r.value.start + r.value.length <= size
  {
    hide Value, FirstDash;
  }

  // --- The language ---

  /** The three ways to write a range, and the window each asks for. */
  ghost predicate Asks(first: string, last: string, size: nat, w: Window) {
    && AllDigits(first) && AllDigits(last)
    && if first == [] then
         && last != [] && 0 < Value(last) <= U64_MAX
         && w == Window(size - Min(Value(last), size), Min(Value(last), size))
       else
         && Value(first) < size && Value(first) <= U64_MAX && w.start == Value(first)
         && if last == [] then w.length == size - Value(first)
            else Value(first) <= Value(last) <= U64_MAX && w.length == Min(Value(last), size - 1) - Value(first) + 1
  }

  lemma {:induction false} DashAt(first: string, last: string)
    requires AllDigits(first)
    ensures FirstDash(first + "-" + last) == |first|
  {
    var spec := first + "-" + last;
    assert forall k :: 0 <= k < |first| ==> spec[k] == first[k];
    assert spec[|first|] == '-';
  }

  /** A string is accepted exactly when it is one of those, and then with that window. */
  lemma {:induction false} AcceptsExactly(value: string, size: nat, w: Window)
    requires size > 0
    ensures SingleRange(value, size) == Some(w) <==>
      exists first, last :: value == UNIT + first + "-" + last && Asks(first, last, size, w)
  {
    if SingleRange(value, size) == Some(w) {
      var spec := value[|UNIT|..];
      var dash := FirstDash(spec);
      var first, last := spec[..dash], spec[dash + 1..];
      assert spec == first + "-" + last;
      assert value == UNIT + spec;
      assert UNIT + spec == UNIT + first + "-" + last;
      assert Asks(first, last, size, w) by { hide Value, FirstDash; }
    }
    if exists first, last :: value == UNIT + first + "-" + last && Asks(first, last, size, w) {
      var first, last :| value == UNIT + first + "-" + last && Asks(first, last, size, w);
      AcceptsAsked(first, last, size, w);
    }
  }

  lemma {:induction false} AcceptsAsked(first: string, last: string, size: nat, w: Window)
    requires size > 0 && Asks(first, last, size, w)
    ensures SingleRange(UNIT + first + "-" + last, size) == Some(w)
  {
    hide FirstDash, Value;
    var value, spec := UNIT + first + "-" + last, first + "-" + last;
    assert value == UNIT + spec && value[|UNIT|..] == spec;
    DashAt(first, last);
    assert spec[..|first|] == first && spec[|first| + 1..] == last;
  }

  // --- Round trips ---

  function Digit(d: nat): char
    requires d < 10
  {
    '0' + d as char
  }

  /** Decimal notation. */
  function Print(n: nat): string {
    if n < 10 then [Digit(n)] else Print(n / 10) + [Digit(n % 10)]
  }

  lemma {:induction false} PrintRoundTrips(n: nat)
    ensures Print(n) != [] && AllDigits(Print(n)) && Value(Print(n)) == n
  {
    if n < 10 {
      assert Value([]) == 0;
      assert Print(n)[..0] == [];
    } else {
      PrintRoundTrips(n / 10);
      var s := Print(n);
      assert s[..|s| - 1] == Print(n / 10);
    }
  }

  /** From s to e: the exact window, cut at the end of the file. */
  lemma {:induction false} FromToRoundTrips(s: nat, e: nat, size: nat)
    requires s <= e <= U64_MAX && s < size
    ensures SingleRange(UNIT + Print(s) + "-" + Print(e), size) == Some(Window(s, Min(e, size - 1) - s + 1))
  {
    PrintRoundTrips(s);
    PrintRoundTrips(e);
    hide Print, Value, SingleRange;
    AcceptsAsked(Print(s), Print(e), size, Window(s, Min(e, size - 1) - s + 1));
  }

  /** From s on: everything after it. */
  lemma {:induction false} FromRoundTrips(s: nat, size: nat)
    requires s < size <= U64_MAX
    ensures SingleRange(UNIT + Print(s) + "-", size) == Some(Window(s, size - s))
  {
    PrintRoundTrips(s);
    hide Print, Value, SingleRange;
    AcceptsAsked(Print(s), "", size, Window(s, size - s));
    assert UNIT + Print(s) + "-" + "" == UNIT + Print(s) + "-";
  }

  /** The last n bytes, or the whole file if it is shorter. */
  lemma {:induction false} SuffixRoundTrips(n: nat, size: nat)
    requires 0 < n <= U64_MAX && size > 0
    ensures SingleRange(UNIT + "-" + Print(n), size) == Some(Window(size - Min(n, size), Min(n, size)))
  {
    PrintRoundTrips(n);
    hide Print, Value, SingleRange;
    AcceptsAsked("", Print(n), size, Window(size - Min(n, size), Min(n, size)));
    assert UNIT + "" + "-" + Print(n) == UNIT + "-" + Print(n);
  }

  /** A number past 64 bits is refused even as the end of a range, where any smaller number would be cut. */
  lemma {:induction false} OverflowIsRefused(s: nat, e: nat, size: nat)
    requires s < size && e > U64_MAX
    ensures SingleRange(UNIT + Print(s) + "-" + Print(e), size) == None
  {
    PrintRoundTrips(s);
    PrintRoundTrips(e);
    hide FirstDash, Value, Print;
    var first, last := Print(s), Print(e);
    var value, spec := UNIT + first + "-" + last, first + "-" + last;
    assert value == UNIT + spec && value[|UNIT|..] == spec;
    DashAt(first, last);
    assert spec[..|first|] == first && spec[|first| + 1..] == last;
  }
}
