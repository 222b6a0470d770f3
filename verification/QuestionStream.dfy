/**
 Reading ask_user's question out of a tool call's arguments while they stream in. The decoder works on any prefix of
 the JSON text; its answers only grow as the text grows, so however the text is cut into deltas, the person sees
 strictly growing beginnings of the question, and in the end the question itself.
 */
module QuestionStream {
  import opened JsText

  // ----- Number.parseInt(text, 16) on the four units after \u -----

  /** The units JavaScript trims as white space or line ends. */
  predicate WhiteSpace(u: Unit) {
    0x09 <= u <= 0x0d || u == 0x20 || u == 0xa0 || u == 0x1680 || 0x2000 <= u <= 0x200a || u == 0x2028 || u == 0x2029
    || u == 0x202f || u == 0x205f || u == 0x3000 || u == 0xfeff
  }

  function TrimStart(t: Text): Text {
    if t != [] && WhiteSpace(t[0]) then TrimStart(t[1..]) else t
  }

  /** The number the leading hexadecimal digits stand for; -1 when there is none. */
  function LeadingHex(t: Text, acc: int, any: bool): int {
    if t != [] && HexValue(t[0]) >= 0 then LeadingHex(t[1..], acc * 16 + HexValue(t[0]), true)
    else if any then acc else -1
  }

  datatype Parsed = NaN | Number(value: int)

  function ParseHex(t: Text): Parsed {
    var t := TrimStart(t);
    var negative := t != [] && t[0] == 0x2d;
    var t := if t != [] && (t[0] == 0x2d || t[0] == 0x2b) then t[1..] else t;
    var t := if |t| >= 2 && t[0] == 0x30 && (t[1] == 0x78 || t[1] == 0x58) then t[2..] else t;
    var n := LeadingHex(t, 0, false);
    if n < 0 then NaN else Number(if negative then -n else n)
  }

  /** String.fromCharCode takes its argument modulo 2^16. */
  function FromCharCode(code: int): Unit {
    code % 0x10000
  }

  // ----- the decoder: partialJSONStringField -----

  /** The name of the field, "question". */
  const QUESTION: Text := [0x71, 0x75, 0x65, 0x73, 0x74, 0x69, 0x6f, 0x6e]

  function Needle(key: Text): Text { [QUOTE] + key + [QUOTE] }

  /** The key stands at position at, and not right after a backslash. */
  predicate KeyAt(raw: Text, key: Text, at: int) {
    && 0 <= at <= |raw| - |Needle(key)|
    && raw[at..at + |Needle(key)|] == Needle(key)
    && (at == 0 || raw[at - 1] != BACKSLASH)
  }

  /** The first position from `from` on where the key stands, or -1. */
  function FindKey(raw: Text, key: Text, from: nat): (at: int)
    ensures at == -1 || (from <= at && KeyAt(raw, key, at))
    ensures forall i :: from <= i && (at < 0 || i < at) ==> !KeyAt(raw, key, i)
    decreases |raw| - from
  {
    if KeyAt(raw, key, from) then from
    else if from >= |raw| then -1
    else FindKey(raw, key, from + 1)
  }

  predicate JsonSpace(u: Unit) { u == SPACE || u == LF || u == TAB || u == CR }

  function Skip(raw: Text, index: nat): (r: nat)
    requires index <= |raw|
    ensures index <= r <= |raw|
    ensures r < |raw| ==> !JsonSpace(raw[r])
    ensures forall i :: index <= i < r ==> JsonSpace(raw[i])
    decreases |raw| - index
  {
    if index < |raw| && JsonSpace(raw[index]) then Skip(raw, index + 1) else index
  }

  /** Where the string value starts whose colon is expected at `index`, or -1. */
  function ValueAt(raw: Text, index: nat): (start: int)
    requires index <= |raw|
    ensures -1 <= start <= |raw|
  {
    var colon := Skip(raw, index);
    if colon >= |raw| || raw[colon] != COLON then -1
    else
      var quote := Skip(raw, colon + 1);
      if quote >= |raw| || raw[quote] != QUOTE then -1 else quote + 1
  }

  /** Where the string's first unit is, or -1 while it is not there (yet). */
  function ValueStart(raw: Text, key: Text): (start: int)
    ensures -1 <= start <= |raw|
  {
    var at := FindKey(raw, key, 0);
    if at < 0 then -1 else ValueAt(raw, at + |Needle(key)|)
  }

  function Unescape(e: Unit): Unit {
    if e == LOWER_N then LF
    else if e == LOWER_T then TAB
    else if e == LOWER_R then CR
    else if e == LOWER_B then 0x08
    else if e == LOWER_F then 0x0c
    else e
  }

  /** One decoding step: stop here, or add these units and go on `size` units later. */
  datatype Step = Stop | Emit(out: Text, size: nat)

  function DecodeStep(raw: Text, index: nat): (s: Step)
    requires index < |raw|
    ensures s.Emit? ==> 0 < s.size && index + s.size <= |raw| && s.out != []
  {
    var unit := raw[index];
    if unit == QUOTE then Stop
    else if unit != BACKSLASH then Emit([unit], 1)
    else if index + 1 >= |raw| then Stop
    else if raw[index + 1] != LOWER_U then Emit([Unescape(raw[index + 1])], 2)
    else if index + 6 > |raw| then Stop
    else
      var code := ParseHex(raw[index + 2..index + 6]);
      if code.NaN? then Stop
      else if 0xd800 <= code.value <= 0xdbff then
        if index + 12 > |raw| || raw[index + 6] != BACKSLASH || raw[index + 7] != LOWER_U then Stop
        else
          var low := ParseHex(raw[index + 8..index + 12]);
          if low.NaN? then Stop else Emit([FromCharCode(code.value), FromCharCode(low.value)], 12)
      else Emit([FromCharCode(code.value)], 6)
  }

  function Decode(raw: Text, index: nat): Text
    requires index <= |raw|
    decreases |raw| - index
  {
    if index == |raw| then []
    else
      var s := DecodeStep(raw, index);
      if s.Stop? then [] else s.out + Decode(raw, index + s.size)
  }

  /** The string value of a top-level key in JSON that is still streaming in. */
  function PartialField(raw: Text, key: Text): Text {
    var start := ValueStart(raw, key);
    if start < 0 then [] else Decode(raw, start)
  }

  // ----- the source's loops -----

  method FindKeyLoop(raw: Text, key: Text) returns (at: int)
    ensures at == FindKey(raw, key, 0)
  {
    var offset := 0;
    while offset < |raw|
      invariant 0 <= offset <= |raw|
      invariant FindKey(raw, key, 0) == FindKey(raw, key, offset)
    {
      if KeyAt(raw, key, offset) {
        return offset;
      }
      offset := offset + 1;
    }
    at := -1;
  }

  method SkipLoop(raw: Text, from: nat) returns (index: nat)
    requires from <= |raw|
    ensures index == Skip(raw, from)
  {
    index := from;
    while index < |raw| && JsonSpace(raw[index])
      invariant from <= index <= |raw| && Skip(raw, from) == Skip(raw, index)
    {
      index := index + 1;
    }
  }

  method DecodeLoop(raw: Text, start: nat) returns (out: Text)
    requires start <= |raw|
    ensures out == Decode(raw, start)
  {
    out := [];
    var index := start;
    while index < |raw|
      invariant start <= index <= |raw|
      invariant out + Decode(raw, index) == Decode(raw, start)
    {
      var s := DecodeStep(raw, index);
      if s.Stop? {
        return;
      }
      Assoc(out, s.out, Decode(raw, index + s.size));
      out, index := out + s.out, index + s.size;
    }
  }

  method ValueStartLoop(raw: Text, key: Text) returns (start: int)
    ensures start == ValueStart(raw, key)
  {
    var at := FindKeyLoop(raw, key);
    if at < 0 {
      return -1;
    }
    var index := SkipLoop(raw, at + |Needle(key)|);
    if index >= |raw| || raw[index] != COLON {
      return -1;
    }
    index := SkipLoop(raw, index + 1);
    if index >= |raw| || raw[index] != QUOTE {
      return -1;
    }
    return index + 1;
  }

  method PartialJSONStringField(raw: Text, key: Text) returns (text: Text)
    ensures text == PartialField(raw, key)
  {
    text := [];
    var start := ValueStartLoop(raw, key);
    if start >= 0 {
      text := DecodeLoop(raw, start);
    }
  }

  // ----- answers only grow -----

  lemma KeyAtGrows(p: Text, r: Text, key: Text, at: int)
    requires p <= r && at + |Needle(key)| <= |p|
    ensures KeyAt(p, key, at) <==> KeyAt(r, key, at)
  {
    if 0 <= at {
      assert p[at..at + |Needle(key)|] == r[at..at + |Needle(key)|];
    }
  }

  lemma FindKeyGrows(p: Text, r: Text, key: Text)
    requires p <= r && FindKey(p, key, 0) >= 0
    ensures FindKey(r, key, 0) == FindKey(p, key, 0)
  {
    var at := FindKey(p, key, 0);
    KeyAtGrows(p, r, key, at);
    forall i | 0 <= i < at ensures !KeyAt(r, key, i) {
      KeyAtGrows(p, r, key, i);
    }
  }

  lemma SkipGrows(p: Text, r: Text, index: nat)
    requires p <= r && index <= |p| && Skip(p, index) < |p|
    ensures Skip(r, index) == Skip(p, index)
  {
    var k := Skip(p, index);
    assert forall i :: index <= i < k ==> JsonSpace(r[i]) by {
      forall i | index <= i < k ensures JsonSpace(r[i]) { assert p[i] == r[i]; }
    }
    assert !JsonSpace(r[k]);
  }

  lemma ValueAtGrows(p: Text, r: Text, index: nat)
    requires p <= r && index <= |p| && ValueAt(p, index) >= 0
    ensures ValueAt(r, index) == ValueAt(p, index)
  {
    SkipGrows(p, r, index);
    var colon := Skip(p, index);
    assert r[colon] == p[colon];
    SkipGrows(p, r, colon + 1);
  }

  lemma ValueStartGrows(p: Text, r: Text, key: Text)
    requires p <= r && ValueStart(p, key) >= 0
    ensures ValueStart(r, key) == ValueStart(p, key)
  {
    FindKeyGrows(p, r, key);
    ValueAtGrows(p, r, FindKey(p, key, 0) + |Needle(key)|);
  }

  lemma StepGrows(p: Text, r: Text, index: nat)
    requires p <= r && index < |p| && DecodeStep(p, index).Emit?
    ensures DecodeStep(r, index) == DecodeStep(p, index)
  {
    if index + 6 <= |p| { assert p[index + 2..index + 6] == r[index + 2..index + 6]; }
    if index + 12 <= |p| { assert p[index + 8..index + 12] == r[index + 8..index + 12]; }
  }

  lemma {:induction false} DecodeGrows(p: Text, r: Text, index: nat)
    requires p <= r && index <= |p|
    ensures Decode(p, index) <= Decode(r, index)
    decreases |p| - index
  {
    if index < |p| && DecodeStep(p, index).Emit? {
      StepGrows(p, r, index);
      DecodeGrows(p, r, index + DecodeStep(p, index).size);
    }
  }

  /** The question read from a beginning of the arguments is a beginning of the question read from more of them. */
  lemma PrefixMonotone(p: Text, r: Text, key: Text)
    requires p <= r
    ensures PartialField(p, key) <= PartialField(r, key)
  {
    if ValueStart(p, key) >= 0 {
      ValueStartGrows(p, r, key);
      DecodeGrows(p, r, ValueStart(p, key));
    }
  }

  // ----- decoding inverts quoting -----

  lemma {:induction false} ParseHex4(u: Unit)
    ensures ParseHex(Hex4(u)) == Number(u)
  {
    var h := Hex4(u);
    Hex4Value(u);
    assert TrimStart(h) == h by { HexIsNoSpace(h[0]); }
    assert h[1] != 0x78 && h[1] != 0x58;
    assert h[1..] == [h[1], h[2], h[3]] && h[2..] == [h[2], h[3]] && h[3..] == [h[3]];
    LeadingFour(h);
  }

  lemma HexIsNoSpace(u: Unit)
    requires HexValue(u) >= 0
    ensures !WhiteSpace(u) && u != 0x2d && u != 0x2b
  {
  }

  lemma LeadingFour(h: Text)
    requires IsHex(h)
    ensures LeadingHex(h, 0, false) == HexNumber(h)
  {
    var a, b, c := h[1..], h[2..], h[3..];
    assert a[1..] == b && b[1..] == c && c[1..] == [];
    var v0 := HexValue(h[0]);
    var v1 := v0 * 16 + HexValue(a[0]);
    var v2 := v1 * 16 + HexValue(b[0]);
    var v3 := v2 * 16 + HexValue(c[0]);
    assert LeadingHex([], v3, true) == v3;
    assert LeadingHex(c, v2, true) == v3;
    assert LeadingHex(b, v1, true) == v3;
    assert LeadingHex(a, v0, true) == v3;
  }

  lemma StepShift(raw: Text, index: nat)
    requires index < |raw|
    ensures DecodeStep(raw, index) == DecodeStep(raw[index..], 0)
  {
    var t := raw[index..];
    assert forall i :: 0 <= i < |t| ==> t[i] == raw[index + i];
    if index + 6 <= |raw| { assert t[2..6] == raw[index + 2..index + 6]; }
    if index + 12 <= |raw| { assert t[8..12] == raw[index + 8..index + 12]; }
  }

  /** Decoding looks only at what follows. */
  lemma {:induction false} DecodeShift(raw: Text, index: nat)
    requires index <= |raw|
    ensures Decode(raw, index) == Decode(raw[index..], 0)
    decreases |raw| - index
  {
    if index < |raw| {
      StepShift(raw, index);
      var s := DecodeStep(raw, index);
      if s.Emit? {
        DecodeShift(raw, index + s.size);
        DecodeShift(raw[index..], s.size);
        assert raw[index..][s.size..] == raw[index + s.size..];
      }
    }
  }

  /** Decoding a text that starts with something one step reads. */
  lemma DecodeOne(head: Text, out: Text, t: Text)
    requires head != [] && DecodeStep(head + t, 0) == Emit(out, |head|)
    ensures Decode(head + t, 0) == out + Decode(t, 0)
  {
    DecodeShift(head + t, |head|);
    assert (head + t)[|head|..] == t;
  }

  /** How far a printed string decodes: up to the first lone high surrogate that no \u escape follows. */
  function Cut(s: Text): Text {
    if s == [] then []
    else if Paired(s) then s[..2] + Cut(s[2..])
    else if High(s[0]) then
      if EscapeFollows(s) then s[..2] + Cut(s[2..]) else []
    else [s[0]] + Cut(s[1..])
  }

  /** The second unit of s is printed as a \u escape. */
  predicate EscapeFollows(s: Text) {
    |s| >= 2 && LongEscape(s[1]) && !Paired(s[1..])
  }

  /** No lone high surrogate is printed as an escape that a plain character, a short escape or the end follows. */
  predicate RoundTrips(s: Text) {
    if s == [] then true
    else if Paired(s) then RoundTrips(s[2..])
    else if High(s[0]) then EscapeFollows(s) && RoundTrips(s[2..])
    else RoundTrips(s[1..])
  }

  lemma {:induction false} CutIsAll(s: Text)
    ensures Cut(s) <= s
    ensures Cut(s) == s <==> RoundTrips(s)
    decreases |s|
  {
    if s == [] {
    } else if Paired(s) || (High(s[0]) && EscapeFollows(s)) {
      CutIsAll(s[2..]);
      assert s == s[..2] + s[2..];
      assert Cut(s)[2..] == Cut(s[2..]);
    } else if !High(s[0]) {
      CutIsAll(s[1..]);
      assert s == [s[0]] + s[1..];
      assert Cut(s)[1..] == Cut(s[1..]);
    }
  }

  lemma StepPlain(u: Unit, t: Text)
    requires u != QUOTE && u != BACKSLASH
    ensures DecodeStep([u] + t, 0) == Emit([u], 1)
  {
  }

  lemma StepEscape(u: Unit, t: Text)
    requires LongEscape(u) && !High(u)
    ensures DecodeStep(QuoteUnit(u) + t, 0) == Emit([u], 6)
  {
    var w := QuoteUnit(u) + t;
    assert w[0] == BACKSLASH && w[1] == LOWER_U && w[2..6] == Hex4(u);
    ParseHex4(u);
  }

  lemma StepShort(u: Unit, t: Text)
    requires ShortEscape(u) >= 0
    ensures DecodeStep(QuoteUnit(u) + t, 0) == Emit([u], 2)
  {
    var w := QuoteUnit(u) + t;
    assert w[0] == BACKSLASH && w[1] == ShortEscape(u);
  }

  lemma TwoInARow(a: Text, b: Text, t: Text)
    requires |a| == |b| == 6
    ensures var w := a + b + t;
            && w[0] == a[0] && w[1] == a[1] && w[2..6] == a[2..] && w[6] == b[0] && w[7] == b[1] && w[8..12] == b[2..]
  {
  }

  lemma StepPair(w: Text, high: Unit, low: Unit)
    requires |w| >= 12 && w[0] == w[6] == BACKSLASH && w[1] == w[7] == LOWER_U && High(high)
    requires ParseHex(w[2..6]) == Number(high) && ParseHex(w[8..12]) == Number(low)
    ensures DecodeStep(w, 0) == Emit([high, low], 12)
  {
  }

  lemma StepTwoEscapes(u: Unit, v: Unit, t: Text)
    requires High(u) && LongEscape(v)
    ensures DecodeStep(QuoteUnit(u) + QuoteUnit(v) + t, 0) == Emit([u, v], 12)
  {
    TwoInARow(QuoteUnit(u), QuoteUnit(v), t);
    assert QuoteUnit(u)[2..] == Hex4(u) && QuoteUnit(v)[2..] == Hex4(v);
    ParseHex4(u);
    ParseHex4(v);
    StepPair(QuoteUnit(u) + QuoteUnit(v) + t, u, v);
  }

  /** A lone high surrogate's escape stops the decoder unless another \u escape follows. */
  lemma StepLoneHigh(u: Unit, t: Text)
    requires High(u) && !(|t| >= 2 && t[0] == BACKSLASH && t[1] == LOWER_U)
    ensures DecodeStep(QuoteUnit(u) + t, 0) == Stop
  {
    var w := QuoteUnit(u) + t;
    assert w[0] == BACKSLASH && w[1] == LOWER_U && w[2..6] == Hex4(u);
    ParseHex4(u);
    assert |t| >= 1 ==> w[6] == t[0];
    assert |t| >= 2 ==> w[7] == t[1];
  }

  /** What the rest of a printed string starts with. */
  lemma RestStart(s: Text, end: Text)
    requires s != [] && High(s[0]) && !Paired(s) && !EscapeFollows(s) && end != [] && end[0] == QUOTE
    ensures var t := QuoteBody(s[1..]) + end; !(|t| >= 2 && t[0] == BACKSLASH && t[1] == LOWER_U)
  {
    if |s| > 1 {
      QuoteSplit(s[1..], end);
      var u := s[1];
      if !Paired(s[1..]) && ShortEscape(u) >= 0 {
        assert QuoteUnit(u) == [BACKSLASH, ShortEscape(u)];
      }
    }
  }

  lemma {:induction false} DecodeQuoted(s: Text, end: Text)
    requires end != [] && end[0] == QUOTE
    ensures Decode(QuoteBody(s) + end, 0) == Cut(s)
    decreases |s|
  {
    if s == [] {
      assert QuoteBody(s) + end == end;
    } else {
      QuoteSplit(s, end);
      if Paired(s) {
        PairDecodes(s, end);
        DecodeQuoted(s[2..], end);
      } else {
        if !High(s[0]) {
          LowDecodes(s, end);
          DecodeQuoted(s[1..], end);
        } else if EscapeFollows(s) {
          TwoEscapesDecode(s, end);
          DecodeQuoted(s[2..], end);
        } else {
          LoneHighStops(s, end);
        }
      }
    }
  }

  lemma PairDecodes(s: Text, end: Text)
    requires Paired(s)
    ensures Decode(QuoteBody(s) + end, 0) == s[..2] + Decode(QuoteBody(s[2..]) + end, 0)
  {
    QuoteSplit(s, end);
    var t := QuoteBody(s[2..]) + end;
    StepPlain(s[0], [s[1]] + t);
    DecodeOne([s[0]], [s[0]], [s[1]] + t);
    StepPlain(s[1], t);
    DecodeOne([s[1]], [s[1]], t);
    assert s[..2] == [s[0]] + [s[1]];
    Assoc([s[0]], [s[1]], Decode(t, 0));
  }

  lemma LowDecodes(s: Text, end: Text)
    requires s != [] && !Paired(s) && !High(s[0])
    ensures Decode(QuoteBody(s) + end, 0) == [s[0]] + Decode(QuoteBody(s[1..]) + end, 0)
  {
    QuoteSplit(s, end);
    var u, t := s[0], QuoteBody(s[1..]) + end;
    if ShortEscape(u) >= 0 {
      StepShort(u, t);
    } else if LongEscape(u) {
      StepEscape(u, t);
    } else {
      StepPlain(u, t);
    }
    DecodeOne(QuoteUnit(u), [u], t);
  }

  lemma TwoEscapesDecode(s: Text, end: Text)
    requires s != [] && !Paired(s) && High(s[0]) && EscapeFollows(s)
    ensures Decode(QuoteBody(s) + end, 0) == s[..2] + Decode(QuoteBody(s[2..]) + end, 0)
  {
    QuoteSplit(s, end);
    QuoteSplit(s[1..], end);
    assert s[1..][1..] == s[2..];
    var u, v, t := s[0], s[1], QuoteBody(s[2..]) + end;
    Assoc(QuoteUnit(u), QuoteUnit(v), t);
    StepTwoEscapes(u, v, t);
    DecodeOne(QuoteUnit(u) + QuoteUnit(v), [u, v], t);
    assert s[..2] == [u, v];
  }

  lemma LoneHighStops(s: Text, end: Text)
    requires s != [] && !Paired(s) && High(s[0]) && !EscapeFollows(s) && end != [] && end[0] == QUOTE
    ensures Decode(QuoteBody(s) + end, 0) == []
  {
    QuoteSplit(s, end);
    RestStart(s, end);
    StepLoneHigh(s[0], QuoteBody(s[1..]) + end);
  }

  /** An object with one string field, as JSON.stringify prints it, up to any tail. */
  function OneField(key: Text, s: Text, tail: Text): Text {
    [LBRACE] + Needle(key) + [COLON] + Quote(s) + tail
  }

  lemma FieldPositions(needle: Text, body: Text, tail: Text)
    ensures var raw, n := [LBRACE] + needle + [COLON] + ([QUOTE] + body + [QUOTE]) + tail, |needle|;
            && |raw| >= 3 + n
            && raw[0] == LBRACE && raw[1..1 + n] == needle && raw[1 + n] == COLON && raw[2 + n] == QUOTE
            && raw[3 + n..] == body + ([QUOTE] + tail)
  {
  }

  lemma KeyIsSecond(raw: Text, key: Text)
    requires |raw| > |Needle(key)| && raw[0] == LBRACE && raw[1..1 + |Needle(key)|] == Needle(key)
    ensures FindKey(raw, key, 0) == 1
  {
    assert Needle(key)[0] == QUOTE;
    assert |raw| >= |Needle(key)| ==> raw[0..|Needle(key)|][0] == raw[0];
    assert !KeyAt(raw, key, 0);
    assert KeyAt(raw, key, 1);
  }

  lemma OneFieldStart(key: Text, s: Text, tail: Text)
    ensures var raw, start := OneField(key, s, tail), 3 + |Needle(key)|;
            start <= |raw| && ValueStart(raw, key) == start && raw[start..] == QuoteBody(s) + ([QUOTE] + tail)
  {
    var raw, n := OneField(key, s, tail), |Needle(key)|;
    FieldPositions(Needle(key), QuoteBody(s), tail);
    KeyIsSecond(raw, key);
    assert Skip(raw, 1 + n) == 1 + n && Skip(raw, 2 + n) == 2 + n;
  }

  /**
   Decoding the printed field gives the string back if and only if RoundTrips(s): every lone high surrogate is
   followed by a unit that is printed as a \u escape. Otherwise it gives a proper beginning of s.
   */
  lemma RoundTrip(key: Text, s: Text, tail: Text)
    ensures PartialField(OneField(key, s, tail), key) == s <==> RoundTrips(s)
    ensures PartialField(OneField(key, s, tail), key) <= s
  {
    var raw, start := OneField(key, s, tail), 3 + |Needle(key)|;
    OneFieldStart(key, s, tail);
    DecodeShift(raw, start);
    DecodeQuoted(s, [QUOTE] + tail);
    CutIsAll(s);
  }

  /** A string without lone surrogates always comes back. */
  ghost predicate WellFormed(s: Text) {
    if s == [] then true
    else if Paired(s) then WellFormed(s[2..])
    else !High(s[0]) && !Low(s[0]) && WellFormed(s[1..])
  }

  lemma {:induction false} WellFormedRoundTrips(key: Text, s: Text, tail: Text)
    requires WellFormed(s)
    ensures PartialField(OneField(key, s, tail), key) == s
  {
    WellFormedDecodes(s);
    RoundTrip(key, s, tail);
  }

  lemma {:induction false} WellFormedDecodes(s: Text)
    requires WellFormed(s)
    ensures RoundTrips(s)
    decreases |s|
  {
    if s != [] {
      WellFormedDecodes(if Paired(s) then s[2..] else s[1..]);
    }
  }
}
