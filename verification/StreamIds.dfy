/** Ids of stream entries: `<milliseconds>-<sequence>`, two decimal numbers of 64 bits, not both zero. */
module StreamIds {
  import opened Chunks

  const DASH: byte := 45
  const ZERO: byte := 48
  const NINE: byte := 57

  predicate AllDigits(s: seq<byte>) {
    forall i :: 0 <= i < |s| ==> ZERO <= s[i] <= NINE
  }

  function NumberOf(s: seq<byte>): nat
    requires AllDigits(s)
  {
    if s == [] then 0 else 10 * NumberOf(s[..|s| - 1]) + (s[|s| - 1] - ZERO)
  }

  predicate IsNumber(s: seq<byte>) {
    s != [] && AllDigits(s) && (|s| > 1 ==> s[0] != ZERO) && NumberOf(s) < TWO_64
  }

  function DashAt(s: seq<byte>): (at: nat)
    ensures at <= |s|
  {
    if s == [] || s[0] == DASH then 0 else 1 + DashAt(s[1..])
  }

  predicate IsPair(s: seq<byte>) {
    DashAt(s) < |s| && IsNumber(s[..DashAt(s)]) && IsNumber(s[DashAt(s) + 1..])
  }

  function Milliseconds(s: seq<byte>): nat
    requires IsPair(s)
  {
    NumberOf(s[..DashAt(s)])
  }

  function SequenceNo(s: seq<byte>): nat
    requires IsPair(s)
  {
    NumberOf(s[DashAt(s) + 1..])
  }

  predicate IsId(s: seq<byte>) {
    IsPair(s) && (Milliseconds(s) > 0 || SequenceNo(s) > 0)
  }

  predicate IdBefore(a: seq<byte>, b: seq<byte>) {
    && IsId(a) && IsId(b)
    && (Milliseconds(a) < Milliseconds(b) || (Milliseconds(a) == Milliseconds(b) && SequenceNo(a) < SequenceNo(b)))
  }

  lemma IdBeforeIsTransitive(a: seq<byte>, b: seq<byte>, c: seq<byte>)
    requires IdBefore(a, b) && IdBefore(b, c)
    ensures IdBefore(a, c)
  {
  }

  lemma OneDigit(s: seq<byte>)
    requires |s| == 1 && AllDigits(s)
    ensures NumberOf(s) == s[0] - ZERO
  {
    assert s[..0] == [];
  }

  /** One digit, a dash, a zero. */
  lemma SmallId(digit: byte)
    requires ZERO < digit <= NINE
    ensures IsId([digit, DASH, ZERO]) && Milliseconds([digit, DASH, ZERO]) == digit - ZERO
  {
    var s := [digit, DASH, ZERO];
    assert s[1..] == [DASH, ZERO] && DashAt([DASH, ZERO]) == 0;
    assert s[..1] == [digit] && s[2..] == [ZERO];
    OneDigit([digit]);
    OneDigit([ZERO]);
  }
}
