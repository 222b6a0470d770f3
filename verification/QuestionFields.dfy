/**
 The question among other fields. The decoder looks for the quoted key in the text; in JSON text, with or without spaces
 between its tokens, that is the first string equal to the key, be it a field's name or some value.
 */
module QuestionFields {
  import opened JsText
  import opened QuestionStream

  /** JSON text in pieces: quoted strings, and the single units of everything else. */
  datatype Piece = Mark(unit: Unit) | Str(text: Text)

  function PieceText(p: Piece): Text {
    if p.Mark? then [p.unit] else Quote(p.text)
  }

  function Printed(pieces: seq<Piece>): Text {
    if pieces == [] then [] else PieceText(pieces[0]) + Printed(pieces[1..])
  }

  /** White space between tokens, by section 2 of RFC 8259: space, tab, line feed, carriage return. */
  predicate Blank(u: Unit) { u in [0x20, 0x09, 0x0a, 0x0d] }

  /** What may follow a string: a colon, a comma, the end of an object or a list, or space. */
  predicate Ends(u: Unit) { u == COLON || u == COMMA || u == RBRACE || u == RBRACKET || Blank(u) }

  predicate GoodMark(u: Unit) { u != QUOTE && u != BACKSLASH }

  /** Text with a string only before what may follow one, or at the end. */
  predicate WellQuoted(pieces: seq<Piece>) {
    pieces == [] || (
      && (pieces[0].Mark? ==> GoodMark(pieces[0].unit))
      && (pieces[0].Str? && |pieces| > 1 ==> pieces[1].Mark? && Ends(pieces[1].unit))
      && WellQuoted(pieces[1..]))
  }

  /** A key that is printed as it is and does not start like something that follows a string. */
  predicate PlainKey(key: Text) { key != [] && QuoteBody(key) == key && !Ends(key[0]) }

  // ----- quotes inside printed strings are escaped -----

  lemma QuoteUnitEscapes(u: Unit, j: nat)
    requires j < |QuoteUnit(u)| && QuoteUnit(u)[j] == QUOTE
    ensures j > 0 && QuoteUnit(u)[j - 1] == BACKSLASH
  {
    if LongEscape(u) && ShortEscape(u) < 0 {
      Hex4Value(u);
    }
  }

  lemma {:induction false} QuotesEscaped(s: Text, j: nat)
    requires j < |QuoteBody(s)| && QuoteBody(s)[j] == QUOTE
    ensures j > 0 && QuoteBody(s)[j - 1] == BACKSLASH
    decreases |s|
  {
    var head := if Paired(s) then s[..2] else QuoteUnit(s[0]);
    var rest := if Paired(s) then s[2..] else s[1..];
    assert QuoteBody(s) == head + QuoteBody(rest);
    if j >= |head| {
      assert QuoteBody(rest)[j - |head|] == QUOTE;
      QuotesEscaped(rest, j - |head|);
      assert QuoteBody(s)[j - 1] == QuoteBody(rest)[j - 1 - |head|];
    } else if !Paired(s) {
      QuoteUnitEscapes(s[0], j);
    }
  }

  // ----- where the key stands -----

  /** The text does not end in a backslash. */
  predicate NoBackslash(t: Text) { t == [] || t[|t| - 1] != BACKSLASH }

  /** The key stands at the start of what follows: that is a string equal to the key. */
  lemma KeyAtString(before: Text, s: Text, rest: Text, key: Text)
    requires PlainKey(key) && KeyAt(before + Quote(s) + rest, key, |before|)
    ensures s == key
  {
    var raw, n := before + Quote(s) + rest, |Needle(key)|;
    var tail := Quote(s) + rest;
    assert raw == before + tail;
    assert tail[..n] == raw[|before|..|before| + n] == Quote(key);
    assert tail == Quote(key) + tail[n..];
    QuotePrefixFree(s, key, rest, tail[n..]);
  }

  lemma KeyStarts(raw: Text, key: Text, at: nat)
    requires key != [] && KeyAt(raw, key, at)
    ensures at + 1 < |raw| && raw[at] == QUOTE && raw[at + 1] == key[0] && (at > 0 ==> raw[at - 1] != BACKSLASH)
  {
    var stand := raw[at..at + |Needle(key)|];
    assert stand[0] == QUOTE && stand[1] == key[0];
  }

  /** Inside a printed string a quote comes after a backslash; the one at its end comes before what may follow. */
  lemma InsideString(before: Text, s: Text, rest: Text, at: nat)
    requires |before| < at < |before| + |Quote(s)| && (rest != [] ==> Ends(rest[0]))
    ensures var raw := before + Quote(s) + rest;
            raw[at] == QUOTE ==> raw[at - 1] == BACKSLASH || at + 1 >= |raw| || Ends(raw[at + 1])
  {
    var raw, j := before + Quote(s) + rest, at - |before|;
    assert raw[at] == Quote(s)[j] && raw[at - 1] == Quote(s)[j - 1];
    if j < |Quote(s)| - 1 && raw[at] == QUOTE {
      assert QuoteBody(s)[j - 1] == QUOTE;
      QuotesEscaped(s, j - 1);
      assert Quote(s)[j - 1] == QuoteBody(s)[j - 2];
    }
  }

  /** The key does not stand at another place in a printed string. */
  lemma NoKeyInside(before: Text, s: Text, rest: Text, key: Text, at: nat)
    requires PlainKey(key) && |before| < at < |before| + |Quote(s)| && (rest != [] ==> Ends(rest[0]))
    ensures !KeyAt(before + Quote(s) + rest, key, at)
  {
    InsideString(before, s, rest, at);
    if KeyAt(before + Quote(s) + rest, key, at) {
      KeyStarts(before + Quote(s) + rest, key, at);
    }
  }

  /** The first string equal to the key, or the number of pieces. */
  function FirstKey(pieces: seq<Piece>, key: Text): (k: nat)
    ensures k <= |pieces|
  {
    if pieces == [] || pieces[0] == Str(key) then 0 else 1 + FirstKey(pieces[1..], key)
  }

  lemma PieceEnd(before: Text, p: Piece)
    requires p.Mark? ==> GoodMark(p.unit)
    ensures PieceText(p) != [] && NoBackslash(before + PieceText(p))
  {
    if p.Str? {
      assert Quote(p.text)[|Quote(p.text)| - 1] == QUOTE;
    }
  }

  lemma AfterString(pieces: seq<Piece>)
    requires pieces != [] && pieces[0].Str? && WellQuoted(pieces) && Printed(pieces[1..]) != []
    ensures Ends(Printed(pieces[1..])[0])
  {
    assert pieces[1..] != [] && pieces[1..][0] == pieces[1];
  }

  lemma Regroup(a: Text, b: Text, c: Text)
    ensures a + (b + c) == a + b + c
  {
  }

  /** In what is printed the key stands first where its first string starts. */
  lemma {:induction false} FirstStand(before: Text, pieces: seq<Piece>, key: Text, at: nat)
    requires WellQuoted(pieces) && PlainKey(key) && NoBackslash(before) && |before| <= at
    requires FirstKey(pieces, key) < |pieces| ==> at < |before| + |Printed(pieces[..FirstKey(pieces, key)])|
    ensures !KeyAt(before + Printed(pieces), key, at)
    decreases |pieces|
  {
    if pieces == [] {
      assert before + [] == before;
    } else {
      var p, rest := pieces[0], pieces[1..];
      var more := before + PieceText(p);
      PieceEnd(before, p);
      Regroup(before, PieceText(p), Printed(rest));
      if p.Str? && Printed(rest) != [] { AfterString(pieces); }
      if p != Str(key) {
        assert FirstKey(pieces, key) == 1 + FirstKey(rest, key);
        assert pieces[..1 + FirstKey(rest, key)][1..] == rest[..FirstKey(rest, key)];
        if at >= |more| {
          FirstStand(more, rest, key, at);
        } else {
          NoKeyInPiece(before, p, Printed(rest), key, at);
        }
      }
    }
  }

  lemma NoKeyInPiece(before: Text, p: Piece, rest: Text, key: Text, at: nat)
    requires PlainKey(key) && p != Str(key) && (p.Mark? ==> GoodMark(p.unit))
    requires p.Str? && rest != [] ==> Ends(rest[0])
    requires |before| <= at < |before| + |PieceText(p)|
    ensures !KeyAt(before + PieceText(p) + rest, key, at)
  {
    var raw := before + PieceText(p) + rest;
    if p.Mark? {
      assert raw[at] == p.unit;
      if KeyAt(raw, key, at) {
        KeyStarts(raw, key, at);
      }
    } else if at == |before| {
      if KeyAt(raw, key, at) {
        KeyAtString(before, p.text, rest, key);
      }
    } else {
      NoKeyInside(before, p.text, rest, key, at);
    }
  }

  lemma {:induction false} PrintedSplit(pieces: seq<Piece>, k: nat)
    requires k <= |pieces|
    ensures Printed(pieces) == Printed(pieces[..k]) + Printed(pieces[k..])
  {
    if k == 0 {
      assert pieces[0..] == pieces;
    } else {
      PrintedSplit(pieces[1..], k - 1);
      assert pieces[..k][1..] == pieces[1..][..k - 1] && pieces[1..][k - 1..] == pieces[k..];
      Regroup(PieceText(pieces[0]), Printed(pieces[1..][..k - 1]), Printed(pieces[k..]));
    }
  }

  lemma {:induction false} FirstKeyIs(pieces: seq<Piece>, key: Text)
    ensures var k := FirstKey(pieces, key);
            && (k < |pieces| ==> pieces[k] == Str(key))
            && forall i :: 0 <= i < k ==> pieces[i] != Str(key)
  {
    if pieces != [] && pieces[0] != Str(key) {
      FirstKeyIs(pieces[1..], key);
    }
  }

  lemma PrintedLast(pieces: seq<Piece>, k: nat)
    requires 0 < k <= |pieces|
    ensures Printed(pieces[..k]) == Printed(pieces[..k - 1]) + PieceText(pieces[k - 1])
  {
    var p := pieces[k - 1];
    PrintedSplit(pieces[..k], k - 1);
    assert pieces[..k][..k - 1] == pieces[..k - 1] && pieces[..k][k - 1..] == [p] && [p][1..] == [];
    assert Printed([p]) == PieceText(p) + [] == PieceText(p);
  }

  lemma {:induction false} WellQuotedFront(pieces: seq<Piece>, k: nat)
    requires WellQuoted(pieces) && k <= |pieces|
    ensures NoBackslash(Printed(pieces[..k])) && WellQuoted(pieces[k..])
    decreases k
  {
    if k == 0 {
      assert pieces[0..] == pieces;
    } else {
      WellQuotedFront(pieces, k - 1);
      var p := pieces[k - 1];
      PrintedLast(pieces, k);
      assert pieces[k - 1..][0] == p && pieces[k - 1..][1..] == pieces[k..];
      PieceEnd(Printed(pieces[..k - 1]), p);
    }
  }

  /** The decoder finds the first string equal to the key, whatever it is. */
  lemma KeyFound(pieces: seq<Piece>, key: Text)
    requires WellQuoted(pieces) && PlainKey(key)
    ensures var k := FirstKey(pieces, key);
            FindKey(Printed(pieces), key, 0) == if k < |pieces| then |Printed(pieces[..k])| else -1
  {
    var raw, k := Printed(pieces), FirstKey(pieces, key);
    assert [] + raw == raw;
    var found := FindKey(raw, key, 0);
    if k < |pieces| {
      var before := Printed(pieces[..k]);
      KeyStands(pieces, key);
      if 0 <= found < |before| { FirstStand([], pieces, key, found); }
    } else if found >= 0 {
      FirstStand([], pieces, key, found);
    }
  }

  /** The key stands where its first string starts. */
  lemma KeyStands(pieces: seq<Piece>, key: Text)
    requires WellQuoted(pieces) && PlainKey(key) && FirstKey(pieces, key) < |pieces|
    ensures KeyAt(Printed(pieces), key, |Printed(pieces[..FirstKey(pieces, key)])|)
  {
    var k := FirstKey(pieces, key);
    FirstKeyIs(pieces, key);
    AroundKey(pieces, key, k);
    WellQuotedFront(pieces, k);
    NeedleStands(Printed(pieces[..k]), key, Printed(pieces[k + 1..]));
  }

  lemma NeedleStands(before: Text, key: Text, rest: Text)
    requires NoBackslash(before)
    ensures KeyAt(before + Needle(key) + rest, key, |before|)
  {
    var raw := before + Needle(key) + rest;
    assert raw[|before|..|before| + |Needle(key)|] == Needle(key);
  }

  // ----- what is decoded -----

  /** The pieces without the space in front. */
  function Trim(pieces: seq<Piece>): seq<Piece> {
    if pieces != [] && pieces[0].Mark? && Blank(pieces[0].unit) then Trim(pieces[1..]) else pieces
  }

  /** The pieces are a colon and a string, with any space before each, and anything after. */
  predicate Assigns(pieces: seq<Piece>) {
    var t := Trim(pieces);
    t != [] && t[0] == Mark(COLON) && Trim(t[1..]) != [] && Trim(t[1..])[0].Str?
  }

  function Assigned(pieces: seq<Piece>): Text
    requires Assigns(pieces)
  {
    Trim(Trim(pieces)[1..])[0].text
  }

  /** What is read after a key: the string after the colon, as far as the decoder gets. */
  function ReadAfter(pieces: seq<Piece>): Text {
    if Assigns(pieces) then Cut(Assigned(pieces)) else []
  }

  /** What is read after the first string equal to the key. */
  function FieldValue(pieces: seq<Piece>, key: Text): Text {
    var k := FirstKey(pieces, key);
    if k < |pieces| then ReadAfter(pieces[k + 1..]) else []
  }

  lemma StringText(front: Text, s: Text, rest: Text)
    ensures var raw := front + Quote(s) + rest;
            raw[|front|] == QUOTE && raw[|front| + 1..] == QuoteBody(s) + ([QUOTE] + rest)
  {
  }

  /** The first unit of what is left after the space in front. */
  lemma FirstUnit(pieces: seq<Piece>)
    requires WellQuoted(pieces) && pieces != []
    ensures Printed(pieces) != [] && Printed(pieces)[0] == if pieces[0].Mark? then pieces[0].unit else QUOTE
  {
  }

  /** Skipping space in the text is skipping it in the pieces. */
  lemma {:induction false} SkipTrims(front: Text, pieces: seq<Piece>) returns (more: Text)
    requires WellQuoted(pieces)
    ensures WellQuoted(Trim(pieces)) && front + Printed(pieces) == more + Printed(Trim(pieces))
    ensures Skip(front + Printed(pieces), |front|) == |more|
    decreases |pieces|
  {
    var raw := front + Printed(pieces);
    if pieces != [] && pieces[0].Mark? && Blank(pieces[0].unit) {
      var u := pieces[0].unit;
      Regroup(front, [u], Printed(pieces[1..]));
      assert raw[|front|] == u;
      more := SkipTrims(front + [u], pieces[1..]);
    } else {
      more := front;
      if pieces != [] {
        FirstUnit(pieces);
        assert raw[|front|] == Printed(pieces)[0];
      }
    }
  }

  /** Where the value's string starts: after the colon, if there is one and then a string. */
  lemma ValueAtIs(raw: Text, index: nat, colon: nat, value: nat)
    requires index <= |raw| && Skip(raw, index) == colon
    requires colon < |raw| && raw[colon] == COLON ==> Skip(raw, colon + 1) == value
    ensures colon >= |raw| || raw[colon] != COLON ==> ValueAt(raw, index) == -1
    ensures colon < |raw| && raw[colon] == COLON ==>
              ValueAt(raw, index) == if value < |raw| && raw[value] == QUOTE then value + 1 else -1
  {
  }

  /** A string is decoded where it starts; anything else does not start like one. */
  lemma StringOrNot(front: Text, pieces: seq<Piece>)
    requires WellQuoted(pieces)
    ensures var raw := front + Printed(pieces);
            if pieces != [] && pieces[0].Str?
            then |front| < |raw| && raw[|front|] == QUOTE && Decode(raw, |front| + 1) == Cut(pieces[0].text)
            else |front| >= |raw| || raw[|front|] != QUOTE
  {
    var raw := front + Printed(pieces);
    if pieces != [] {
      FirstUnit(pieces);
      assert raw[|front|] == Printed(pieces)[0];
      if pieces[0].Str? {
        var s, rest := pieces[0].text, Printed(pieces[1..]);
        Regroup(front, Quote(s), rest);
        StringText(front, s, rest);
        DecodeShift(raw, |front| + 1);
        DecodeQuoted(s, [QUOTE] + rest);
      }
    }
  }

  /** What is decoded from where the key ends. */
  function DecodedAt(raw: Text, index: nat): Text
    requires index <= |raw|
  {
    if ValueAt(raw, index) < 0 then [] else Decode(raw, ValueAt(raw, index))
  }

  lemma StartIs(raw: Text, key: Text, at: int)
    requires FindKey(raw, key, 0) == at
    ensures at < 0 ==> ValueStart(raw, key) == -1
    ensures at >= 0 ==> ValueStart(raw, key) == ValueAt(raw, at + |Needle(key)|)
  {
  }

  lemma FieldIs(raw: Text, key: Text, index: nat)
    requires index <= |raw| && ValueStart(raw, key) == ValueAt(raw, index)
    ensures PartialField(raw, key) == DecodedAt(raw, index)
  {
  }

  /** The value after the key's end is a string after a colon, or none. */
  lemma ValueAfterKey(front: Text, rest: seq<Piece>)
    requires WellQuoted(rest)
    ensures DecodedAt(front + Printed(rest), |front|) == ReadAfter(rest)
  {
    var raw, t := front + Printed(rest), Trim(rest);
    var before := SkipTrims(front, rest);
    if t != [] {
      FirstUnit(t);
      assert raw[|before|] == Printed(t)[0];
    }
    if t != [] && t[0] == Mark(COLON) {
      ValueAfterColon(before, t[1..], raw, |front|);
    } else {
      ValueAtIs(raw, |front|, |before|, 0);
    }
  }

  /** What is decoded if a string starts at v, else nothing. */
  function StringAt(raw: Text, v: nat): Text {
    if v < |raw| && raw[v] == QUOTE then Decode(raw, v + 1) else []
  }

  lemma StringAfterSpace(front: Text, rest: seq<Piece>)
    requires WellQuoted(rest)
    ensures var raw := front + Printed(rest);
            StringAt(raw, Skip(raw, |front|)) ==
            if Trim(rest) != [] && Trim(rest)[0].Str? then Cut(Trim(rest)[0].text) else []
  {
    var more := SkipTrims(front, rest);
    StringOrNot(more, Trim(rest));
  }

  lemma DecodedIs(raw: Text, index: nat, colon: nat, v: nat)
    requires index <= |raw| && Skip(raw, index) == colon < |raw| && raw[colon] == COLON && Skip(raw, colon + 1) == v
    ensures DecodedAt(raw, index) == StringAt(raw, v)
  {
    ValueAtIs(raw, index, colon, v);
  }

  lemma ValueAfterColon(before: Text, rest: seq<Piece>, raw: Text, index: nat)
    requires WellQuoted(rest) && raw == before + ([COLON] + Printed(rest)) && index <= |raw|
    requires Skip(raw, index) == |before|
    ensures DecodedAt(raw, index) == if Trim(rest) != [] && Trim(rest)[0].Str? then Cut(Trim(rest)[0].text) else []
  {
    ColonBetween(before, Printed(rest));
    var v := Skip(raw, |before| + 1);
    DecodedIs(raw, index, |before|, v);
    StringAfterSpace(before + [COLON], rest);
  }

  lemma ColonBetween(before: Text, rest: Text)
    ensures var raw := before + ([COLON] + rest);
            raw == before + [COLON] + rest && |before| < |raw| && raw[|before|] == COLON
  {
  }

  /** The text from the first string equal to the key on. */
  lemma AroundKey(pieces: seq<Piece>, key: Text, k: nat)
    requires WellQuoted(pieces) && PlainKey(key) && k < |pieces| && pieces[k] == Str(key)
    ensures Printed(pieces) == Printed(pieces[..k]) + Needle(key) + Printed(pieces[k + 1..])
    ensures WellQuoted(pieces[k + 1..])
  {
    PrintedSplit(pieces, k);
    WellQuotedFront(pieces, k);
    var rest := pieces[k..];
    assert rest[0] == Str(key) && rest[1..] == pieces[k + 1..];
    Regroup(Printed(pieces[..k]), Needle(key), Printed(pieces[k + 1..]));
  }

  /**
   What the decoder makes of any JSON text: the string after the first string equal to the key, if just a colon is
   between them, cut at the first lone high surrogate it cannot read; otherwise nothing.
   */
  lemma FirstStringDecides(pieces: seq<Piece>, key: Text)
    requires WellQuoted(pieces) && PlainKey(key)
    ensures PartialField(Printed(pieces), key) == FieldValue(pieces, key)
  {
    var k := FirstKey(pieces, key);
    KeyFound(pieces, key);
    if k < |pieces| {
      StringDecides(pieces, key, k);
    } else {
      StartIs(Printed(pieces), key, -1);
    }
  }

  lemma StringDecides(pieces: seq<Piece>, key: Text, k: nat)
    requires WellQuoted(pieces) && PlainKey(key) && k == FirstKey(pieces, key) < |pieces|
    requires FindKey(Printed(pieces), key, 0) == |Printed(pieces[..k])|
    ensures PartialField(Printed(pieces), key) == FieldValue(pieces, key)
  {
    FirstKeyIs(pieces, key);
    AroundKey(pieces, key, k);
    var before := Printed(pieces[..k]);
    ReadFrom(Printed(pieces), before, key, Printed(pieces[k + 1..]));
    ValueAfterKey(before + Needle(key), pieces[k + 1..]);
  }

  lemma ReadFrom(raw: Text, before: Text, key: Text, rest: Text)
    requires raw == before + Needle(key) + rest && FindKey(raw, key, 0) == |before|
    ensures PartialField(raw, key) == DecodedAt(raw, |before + Needle(key)|)
  {
    StartIs(raw, key, |before|);
    FieldIs(raw, key, |before + Needle(key)|);
  }

  /**
   A field among others: its string comes back if and only if the first string equal to the key is the field's name and
   the string round-trips, or an earlier string equal to the key is followed by one that is read as the same.
   */
  lemma FieldRoundTrip(pieces: seq<Piece>, key: Text, f: nat)
    requires WellQuoted(pieces) && PlainKey(key) && f < |pieces|
    requires pieces[f] == Str(key) && Assigns(pieces[f + 1..])
    ensures FirstKey(pieces, key) <= f
    ensures var s := Assigned(pieces[f + 1..]);
            PartialField(Printed(pieces), key) == s <==>
            if FirstKey(pieces, key) == f then RoundTrips(s) else FieldValue(pieces, key) == s
  {
    FirstStringDecides(pieces, key);
    FirstKeyIs(pieces, key);
    CutIsAll(Assigned(pieces[f + 1..]));
  }

  /** A value equal to the key in front of the field hides it: {"header":"question","question":"hi"} gives nothing. */
  lemma HiddenField(header: Text, key: Text, s: Text)
    requires PlainKey(key) && header != key
    ensures PartialField(Printed(HidingPieces(header, key, s)), key) == []
  {
    var pieces := HidingPieces(header, key, s);
    WellQuotedByPlace(pieces);
    FirstStringDecides(pieces, key);
    FirstKeyIs(pieces, key);
    var k := FirstKey(pieces, key);
    assert pieces[3] == Str(key);
    assert k == 3 by { assert pieces[0] != Str(key) && pieces[1] != Str(key) && pieces[2] != Str(key); }
    NothingAssigned(pieces[4..]);
  }

  function HidingPieces(header: Text, key: Text, s: Text): seq<Piece> {
    [Mark(LBRACE), Str(header), Mark(COLON), Str(key), Mark(COMMA), Str(key), Mark(COLON), Str(s), Mark(RBRACE)]
  }

  lemma NothingAssigned(rest: seq<Piece>)
    requires rest != [] && rest[0] == Mark(COMMA)
    ensures ReadAfter(rest) == []
  {
  }

  lemma {:induction false} WellQuotedByPlace(pieces: seq<Piece>)
    requires forall i :: 0 <= i < |pieces| && pieces[i].Mark? ==> GoodMark(pieces[i].unit)
    requires forall i :: 0 <= i < |pieces| - 1 && pieces[i].Str? ==> pieces[i + 1].Mark? && Ends(pieces[i + 1].unit)
    ensures WellQuoted(pieces)
  {
    if pieces != [] {
      var rest := pieces[1..];
      assert forall i :: 0 <= i < |rest| ==> rest[i] == pieces[i + 1];
      WellQuotedByPlace(rest);
    }
  }

  lemma {:induction false} PlainUnits(s: Text)
    requires forall i :: 0 <= i < |s| ==> ShortEscape(s[i]) < 0 && !LongEscape(s[i]) && !High(s[i])
    ensures QuoteBody(s) == s
  {
    if s != [] {
      PlainUnits(s[1..]);
      assert s == [s[0]] + s[1..];
    }
  }

  lemma LettersArePlain(s: Text)
    requires s != [] && forall i :: 0 <= i < |s| ==> 0x61 <= s[i] <= 0x7a
    ensures PlainKey(s)
  {
    PlainUnits(s);
  }

  /** All of this holds for the question's field. */
  lemma QuestionIsPlain()
    ensures PlainKey(QUESTION)
  {
    LettersArePlain(QUESTION);
  }
}
