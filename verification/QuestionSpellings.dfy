/**
 The question however the model spells it: section 7 of RFC 8259 lets a JSON string write most characters in more than
 one way. Whatever way is chosen, the decoder gives the string, up to an escaped high surrogate that no \u escape
 follows.
 */
module QuestionSpellings {
  import opened JsText
  import opened QuestionStream

  /** One character of a JSON string as it is spelled: as it is, by a short escape, or by four hexadecimal digits. */
  datatype Spelling = Plain(unit: Unit) | Short(letter: Unit) | Long(digits: Text)

  /** The short escapes: quote, backslash, slash, and b f n r t. */
  function ShortMeaning(letter: Unit): int {
    match letter
    case 0x22 => 0x22
    case 0x5c => 0x5c
    case 0x2f => 0x2f
    case 0x62 => 0x08
    case 0x66 => 0x0c
    case 0x6e => 0x0a
    case 0x72 => 0x0d
    case 0x74 => 0x09
    case _ => -1
  }

  predicate Proper(c: Spelling) {
    match c
    case Plain(unit) => unit != QUOTE && unit != BACKSLASH
    case Short(letter) => ShortMeaning(letter) >= 0
    case Long(digits) => IsHex(digits)
  }

  function Spelled(c: Spelling): Text {
    match c
    case Plain(unit) => [unit]
    case Short(letter) => [BACKSLASH, letter]
    case Long(digits) => [BACKSLASH, LOWER_U] + digits
  }

  function Meaning(c: Spelling): Unit
    requires Proper(c)
  {
    match c
    case Plain(unit) => unit
    case Short(letter) => ShortMeaning(letter)
    case Long(digits) => HexNumber(digits)
  }

  ghost predicate AllProper(cs: seq<Spelling>) { forall i :: 0 <= i < |cs| ==> Proper(cs[i]) }

  function SpelledAll(cs: seq<Spelling>): Text {
    if cs == [] then [] else Spelled(cs[0]) + SpelledAll(cs[1..])
  }

  /** The string that is meant. */
  function Meant(cs: seq<Spelling>): Text
    requires AllProper(cs)
  {
    if cs == [] then [] else [Meaning(cs[0])] + Meant(cs[1..])
  }

  /** An escaped high surrogate that no \u escape follows. */
  predicate LoneHigh(cs: seq<Spelling>)
    requires AllProper(cs)
  {
    cs != [] && cs[0].Long? && High(Meaning(cs[0])) && (|cs| == 1 || !cs[1].Long?)
  }

  /** What the decoder gives: all up to the first of these; a \u escape after a high surrogate is taken with it. */
  function Given(cs: seq<Spelling>): Text
    requires AllProper(cs)
  {
    if cs == [] || LoneHigh(cs) then []
    else if cs[0].Long? && High(Meaning(cs[0])) then [Meaning(cs[0]), Meaning(cs[1])] + Given(cs[2..])
    else [Meaning(cs[0])] + Given(cs[1..])
  }

  // ----- one step of the decoder -----

  /** Four hexadecimal digits of either case are read as their number. */
  lemma DigitsRead(h: Text)
    requires IsHex(h)
    ensures ParseHex(h) == Number(HexNumber(h))
  {
    HexIsNoSpace(h[0]);
    LeadingFour(h);
  }

  lemma SingleStep(c: Spelling, t: Text)
    requires Proper(c) && !(c.Long? && High(Meaning(c)))
    ensures DecodeStep(Spelled(c) + t, 0) == Emit([Meaning(c)], |Spelled(c)|)
  {
    var w := Spelled(c) + t;
    match c
    case Plain(unit) => assert w[0] == unit;
    case Short(letter) => assert w[0] == BACKSLASH && w[1] == letter;
    case Long(digits) =>
      assert w[0] == BACKSLASH && w[1] == LOWER_U && w[2..6] == digits;
      DigitsRead(digits);
  }

  lemma PairStep(c: Spelling, d: Spelling, t: Text)
    requires Proper(c) && Proper(d) && c.Long? && d.Long? && High(Meaning(c))
    ensures DecodeStep(Spelled(c) + Spelled(d) + t, 0) == Emit([Meaning(c), Meaning(d)], 12)
  {
    TwoInARow(Spelled(c), Spelled(d), t);
    assert Spelled(c)[2..] == c.digits && Spelled(d)[2..] == d.digits;
    DigitsRead(c.digits);
    DigitsRead(d.digits);
    StepPair(Spelled(c) + Spelled(d) + t, Meaning(c), Meaning(d));
  }

  lemma LoneStep(c: Spelling, t: Text)
    requires Proper(c) && c.Long? && High(Meaning(c)) && !(|t| >= 2 && t[0] == BACKSLASH && t[1] == LOWER_U)
    ensures DecodeStep(Spelled(c) + t, 0) == Stop
  {
    var w := Spelled(c) + t;
    assert w[0] == BACKSLASH && w[1] == LOWER_U && w[2..6] == c.digits;
    assert forall i :: 0 <= i < |t| ==> w[6 + i] == t[i];
    DigitsRead(c.digits);
  }

  /** What follows a character is no \u escape unless the next one is spelled so. */
  lemma NextIsNoEscape(cs: seq<Spelling>, end: Text)
    requires AllProper(cs) && (cs == [] || !cs[0].Long?) && (end != [] ==> end[0] == QUOTE)
    ensures var t := SpelledAll(cs) + end; !(|t| >= 2 && t[0] == BACKSLASH && t[1] == LOWER_U)
  {
    if cs != [] {
      var t := SpelledAll(cs) + end;
      assert t[0] == Spelled(cs[0])[0];
      if cs[0].Short? {
        assert t[1] == cs[0].letter;
      }
    }
  }

  // ----- any spelling -----

  lemma {:induction false} DecodesSpelling(cs: seq<Spelling>, end: Text)
    requires AllProper(cs) && (end != [] ==> end[0] == QUOTE)
    ensures Decode(SpelledAll(cs) + end, 0) == Given(cs)
    decreases |cs|
  {
    if cs == [] {
      assert SpelledAll(cs) + end == end;
    } else {
      var rest := SpelledAll(cs[1..]) + end;
      Assoc(Spelled(cs[0]), SpelledAll(cs[1..]), end);
      if LoneHigh(cs) {
        NextIsNoEscape(cs[1..], end);
        LoneStep(cs[0], rest);
      } else if cs[0].Long? && High(Meaning(cs[0])) {
        DecodesPair(cs, end);
      } else {
        DecodesSpelling(cs[1..], end);
        SingleStep(cs[0], rest);
        DecodeOne(Spelled(cs[0]), [Meaning(cs[0])], rest);
      }
    }
  }

  lemma {:induction false} DecodesPair(cs: seq<Spelling>, end: Text)
    requires AllProper(cs) && (end != [] ==> end[0] == QUOTE)
    requires |cs| >= 2 && cs[0].Long? && High(Meaning(cs[0])) && cs[1].Long?
    ensures Decode(SpelledAll(cs) + end, 0) == Given(cs)
    decreases |cs|, 0
  {
    var a, b, rest := Spelled(cs[0]), Spelled(cs[1]), SpelledAll(cs[2..]) + end;
    assert cs[1..][1..] == cs[2..] && cs[1..][0] == cs[1];
    Assoc(a, SpelledAll(cs[1..]), end);
    Assoc(b, SpelledAll(cs[2..]), end);
    Assoc(a, b, rest);
    PairStep(cs[0], cs[1], rest);
    DecodesSpelling(cs[2..], end);
    DecodeOne(a + b, [Meaning(cs[0]), Meaning(cs[1])], rest);
  }

  /** Every escaped high surrogate has a \u escape after it. */
  predicate NoLoneHigh(cs: seq<Spelling>)
    requires AllProper(cs)
  {
    if cs == [] then true
    else if LoneHigh(cs) then false
    else if cs[0].Long? && High(Meaning(cs[0])) then NoLoneHigh(cs[2..])
    else NoLoneHigh(cs[1..])
  }

  lemma {:induction false} GivenIsMeant(cs: seq<Spelling>)
    requires AllProper(cs)
    ensures Given(cs) <= Meant(cs) && (Given(cs) == Meant(cs) <==> NoLoneHigh(cs))
    decreases |cs|
  {
    if cs != [] && !LoneHigh(cs) {
      if cs[0].Long? && High(Meaning(cs[0])) {
        GivenIsMeant(cs[2..]);
        assert cs[1..][1..] == cs[2..];
        assert Meant(cs) == [Meaning(cs[0]), Meaning(cs[1])] + Meant(cs[2..]);
        assert Given(cs)[2..] == Given(cs[2..]) && Meant(cs)[2..] == Meant(cs[2..]);
      } else {
        GivenIsMeant(cs[1..]);
        assert Given(cs)[1..] == Given(cs[1..]) && Meant(cs)[1..] == Meant(cs[1..]);
      }
    }
  }

  /**
   However a JSON string is spelled, whole or cut off after any of its characters, the decoder gives a beginning of what
   it means, and all of it if and only if every escaped high surrogate has a \u escape after it.
   */
  lemma AnySpelling(cs: seq<Spelling>, end: Text)
    requires AllProper(cs) && (end != [] ==> end[0] == QUOTE)
    ensures Decode(SpelledAll(cs) + end, 0) <= Meant(cs)
    ensures Decode(SpelledAll(cs) + end, 0) == Meant(cs) <==> NoLoneHigh(cs)
  {
    DecodesSpelling(cs, end);
    GivenIsMeant(cs);
  }
}
