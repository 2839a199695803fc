/**
  The counted-motion grammar of the NORMAL mode, `^(\d*)([hjkl$])$`: a run of
  ASCII decimal digits followed by exactly one motion key. A missing count
  means 1; a count of digits is read as a decimal number, so "0l" and "00l"
  carry the count 0.
 */
module Motions {
  import opened Options

  /** The five motion keys: h, j, k, l and $. */
  datatype Motion = Left | Down | Up | Right | LineEnd

  /** A recognized counted motion. */
  datatype Counted = Counted(count: nat, motion: Motion)

  /** The motion a key stands for, if it is one of h, j, k, l, $. */
  function MotionOf(c: char): (r: Option<Motion>)
    ensures r.Some? <==> c in "hjkl$"
  {
    match c
    case 'h' => Some(Left)
    case 'j' => Some(Down)
    case 'k' => Some(Up)
    case 'l' => Some(Right)
    case '$' => Some(LineEnd)
    case _ => None
  }

  /** The key that stands for a motion. */
  function MotionKey(m: Motion): (c: char)
    ensures MotionOf(c) == Some(m)
  {
    match m
    case Left => 'h'
    case Down => 'j'
    case Up => 'k'
    case Right => 'l'
    case LineEnd => '$'
  }

  /** Each motion has exactly one key. */
  lemma MotionKeyUnique(c: char, m: Motion)
    requires MotionOf(c) == Some(m)
    ensures c == MotionKey(m)
  {
    match m
    case Left => assert c == 'h';
    case Down => assert c == 'j';
    case Up => assert c == 'k';
    case Right => assert c == 'l';
    case LineEnd => assert c == '$';
  }

  /** A character of the class `\d`. */
  predicate IsDigit(c: char)
  {
    '0' <= c <= '9'
  }

  predicate AllDigits(s: string)
  {
    forall i :: 0 <= i < |s| ==> IsDigit(s[i])
  }

  function Pow10(n: nat): nat
  {
    if n == 0 then 1 else 10 * Pow10(n - 1)
  }

  /**
    The number a run of decimal digits denotes, most significant digit first:
    it is below 10 to the number of digits, and a run of zeros denotes 0.
   */
  function DigitsValue(ds: string): (v: nat)
    requires AllDigits(ds)
    ensures v < Pow10(|ds|)
    ensures (forall k :: 0 <= k < |ds| ==> ds[k] == '0') ==> v == 0
    decreases |ds|
  {
    if ds == [] then 0
    else DigitsValue(ds[..|ds| - 1]) * 10 + (ds[|ds| - 1] - '0') as int
  }

  /** The decimal digit for `d`. */
  function DigitChar(d: nat): (c: char)
    requires d < 10
    ensures IsDigit(c) && (c - '0') as int == d
  {
    ('0' as int + d) as char
  }

  /** The shortest decimal numeral of `n`. */
  function Decimal(n: nat): (ds: string)
    ensures |ds| >= 1 && AllDigits(ds)
    decreases n
  {
    if n < 10 then [DigitChar(n)] else Decimal(n / 10) + [DigitChar(n % 10)]
  }

  /** Reading the numeral of `n` gives back `n`. */
  lemma {:induction false} DecimalValue(n: nat)
    ensures DigitsValue(Decimal(n)) == n
    decreases n
  {
    var ds := Decimal(n);
    if n < 10 {
      assert ds[..|ds| - 1] == [];
    } else {
      DecimalValue(n / 10);
      assert ds[..|ds| - 1] == Decimal(n / 10);
    }
  }

  /** Leading zeros do not change the count, as with `parseInt`. */
  lemma {:induction false} LeadingZero(ds: string)
    requires AllDigits(ds)
    ensures AllDigits("0" + ds) && DigitsValue("0" + ds) == DigitsValue(ds)
    decreases |ds|
  {
    if ds != [] {
      var zs := "0" + ds;
      assert zs[..|zs| - 1] == "0" + ds[..|ds| - 1];
      LeadingZero(ds[..|ds| - 1]);
    }
  }

  /** The recognizer for the counted-motion grammar. */
  function ParseMotion(buffer: string): (r: Option<Counted>)
    ensures r.Some? <==> |buffer| >= 1 && buffer[|buffer| - 1] in "hjkl$" && AllDigits(buffer[..|buffer| - 1])
    ensures r.Some? ==> MotionOf(buffer[|buffer| - 1]) == Some(r.value.motion)
  {
    if buffer == [] then None
    else
      match MotionOf(buffer[|buffer| - 1])
      case None => None
      case Some(m) =>
        var digits := buffer[..|buffer| - 1];
        if AllDigits(digits) then
          Some(Counted(if digits == [] then 1 else DigitsValue(digits), m))
        else None
  }

  /** Every string of the grammar is recognized, with its count. */
  lemma ParseMotionAccepts(digits: string, m: Motion)
    requires AllDigits(digits)
    ensures ParseMotion(digits + [MotionKey(m)])
            == Some(Counted(if digits == [] then 1 else DigitsValue(digits), m))
  {
    var buffer := digits + [MotionKey(m)];
    assert buffer[..|buffer| - 1] == digits;
  }

  /** Only strings of the grammar are recognized: digits, then the key of the motion. */
  lemma ParseMotionSound(buffer: string)
    requires ParseMotion(buffer).Some?
    ensures var k := ParseMotion(buffer).value;
            var digits := buffer[..|buffer| - 1];
            && |buffer| >= 1
            && AllDigits(digits)
            && buffer == digits + [MotionKey(k.motion)]
            && k.count == if digits == [] then 1 else DigitsValue(digits)
  {
    var k := ParseMotion(buffer).value;
    MotionKeyUnique(buffer[|buffer| - 1], k.motion);
    assert buffer == buffer[..|buffer| - 1] + [buffer[|buffer| - 1]];
  }

  /** A numeral followed by a motion key is recognized with exactly that count. */
  lemma CountedRoundTrip(n: nat, m: Motion)
    ensures ParseMotion(Decimal(n) + [MotionKey(m)]) == Some(Counted(n, m))
  {
    ParseMotionAccepts(Decimal(n), m);
    DecimalValue(n);
  }

  /** A bare motion key means a count of one. */
  lemma BareMotion(m: Motion)
    ensures ParseMotion([MotionKey(m)]) == Some(Counted(1, m))
  {
    ParseMotionAccepts([], m);
    assert [] + [MotionKey(m)] == [MotionKey(m)];
  }

  /** An explicit count of zero is kept: "0l" and "00l" move zero times. */
  lemma ZeroCount()
    ensures ParseMotion("0l") == Some(Counted(0, Right))
    ensures ParseMotion("00l") == Some(Counted(0, Right))
  {
    ParseMotionAccepts("0", Right);
    ParseMotionAccepts("00", Right);
    assert "00" + [MotionKey(Right)] == "00l";
    assert DigitsValue("00") == DigitsValue("0") * 10 + 0 by {
      assert "00"[..1] == "0";
    }
  }

  /** The other NORMAL-mode commands are not motions. */
  lemma CommandsAreNotMotions()
    ensures ParseMotion("i") == None && ParseMotion("gg") == None
    ensures ParseMotion("G") == None && ParseMotion("dw") == None
    ensures ParseMotion("cw") == None && ParseMotion("Escape") == None
  {
  }
}
