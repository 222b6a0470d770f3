/**
 JavaScript strings as sequences of UTF-16 code units (a Dafny char cannot be a lone surrogate), and their JSON
 quoting: ECMAScript's QuoteJSONString, which prints lone surrogates as escapes, within section 7 of RFC 8259.
 */
module JsText {

  type Unit = u: int | 0 <= u < 0x10000
  type Text = seq<Unit>

  const NUL: Unit := 0x00
  const TAB: Unit := 0x09
  const LF: Unit := 0x0a
  const CR: Unit := 0x0d
  const SPACE: Unit := 0x20
  const QUOTE: Unit := 0x22
  const COMMA: Unit := 0x2c
  const COLON: Unit := 0x3a
  const LBRACKET: Unit := 0x5b
  const BACKSLASH: Unit := 0x5c
  const RBRACKET: Unit := 0x5d
  const LOWER_B: Unit := 0x62
  const LOWER_F: Unit := 0x66
  const LOWER_N: Unit := 0x6e
  const LOWER_R: Unit := 0x72
  const LOWER_T: Unit := 0x74
  const LOWER_U: Unit := 0x75
  const LBRACE: Unit := 0x7b
  const RBRACE: Unit := 0x7d

  predicate High(u: Unit) { 0xd800 <= u <= 0xdbff }
  predicate Low(u: Unit) { 0xdc00 <= u <= 0xdfff }

  /** s starts with a surrogate pair. */
  predicate Paired(s: Text) { |s| >= 2 && High(s[0]) && Low(s[1]) }

  /** A lower-case hexadecimal digit. */
  function HexDigit(d: nat): Unit
    requires d < 16
  {
    if d < 10 then 0x30 + d else 0x57 + d
  }

  function Hex4(u: Unit): (r: Text)
    ensures |r| == 4
  {
    [HexDigit(u / 4096), HexDigit(u / 256 % 16), HexDigit(u / 16 % 16), HexDigit(u % 16)]
  }

  /** The value of a hexadecimal digit of either case, or -1. */
  function HexValue(u: Unit): (v: int)
    ensures -1 <= v < 16
  {
    if 0x30 <= u <= 0x39 then u - 0x30
    else if 0x61 <= u <= 0x66 then u - 0x57
    else if 0x41 <= u <= 0x46 then u - 0x37
    else -1
  }

  lemma HexDigitValue(d: nat)
    requires d < 16
    ensures HexValue(HexDigit(d)) == d && HexDigit(d) > 0x20
  {
  }

  lemma Nibbles(u: Unit)
    ensures ((u / 4096 * 16 + u / 256 % 16) * 16 + u / 16 % 16) * 16 + u % 16 == u
  {
    var a, b := u / 16, u / 256;
    assert a / 16 == b && b / 16 == u / 4096;
  }

  predicate IsHex(h: Text) {
    |h| == 4 && HexValue(h[0]) >= 0 && HexValue(h[1]) >= 0 && HexValue(h[2]) >= 0 && HexValue(h[3]) >= 0
  }

  /** The number four hexadecimal digits stand for. */
  function HexNumber(h: Text): (v: int)
    requires IsHex(h)
    ensures 0 <= v < 0x10000
  {
    ((HexValue(h[0]) * 16 + HexValue(h[1])) * 16 + HexValue(h[2])) * 16 + HexValue(h[3])
  }

  lemma Hex4Value(u: Unit)
    ensures IsHex(Hex4(u)) && forall i :: 0 <= i < 4 ==> Hex4(u)[i] > 0x20
    ensures HexNumber(Hex4(u)) == u
  {
    HexDigitValue(u / 4096);
    HexDigitValue(u / 256 % 16);
    HexDigitValue(u / 16 % 16);
    HexDigitValue(u % 16);
    Nibbles(u);
  }

  /** The letter of a two-character escape, or -1 when the unit has none. */
  function ShortEscape(u: Unit): (e: int)
    ensures e == -1 || 0 <= e < 0x10000
  {
    if u == QUOTE || u == BACKSLASH then u
    else if u == 0x08 then LOWER_B
    else if u == TAB then LOWER_T
    else if u == LF then LOWER_N
    else if u == 0x0c then LOWER_F
    else if u == CR then LOWER_R
    else -1
  }

  /** The unit is printed as a \u escape when it is not half of a pair. */
  predicate LongEscape(u: Unit) {
    ShortEscape(u) < 0 && (u < 0x20 || High(u) || Low(u))
  }

  /** How a unit that is not half of a surrogate pair is printed. */
  function QuoteUnit(u: Unit): (r: Text)
    ensures |r| > 0
  {
    if ShortEscape(u) >= 0 then [BACKSLASH, ShortEscape(u)]
    else if LongEscape(u) then [BACKSLASH, LOWER_U] + Hex4(u)
    else [u]
  }

  function QuoteBody(s: Text): Text {
    if s == [] then []
    else if Paired(s) then s[..2] + QuoteBody(s[2..])
    else QuoteUnit(s[0]) + QuoteBody(s[1..])
  }

  /** JSON.stringify of a string. */
  function Quote(s: Text): Text {
    [QUOTE] + QuoteBody(s) + [QUOTE]
  }

  /** A reader of one quoted string: the string and what follows its closing quote. */
  datatype Read = Read(text: Text, rest: Text) | Broken

  /** One printed unit at the start of t: the unit and how many units of t it takes (0: none is there). */
  function ReadOne(t: Text): (r: (Unit, nat))
    ensures r.1 <= |t|
  {
    if t == [] || t[0] == QUOTE then (0, 0)
    else if t[0] != BACKSLASH then (t[0], 1)
    else if |t| >= 6 && t[1] == LOWER_U && IsHex(t[2..6]) then (HexNumber(t[2..6]), 6)
    else if |t| >= 2 && LongForm(t[1]) >= 0 then (LongForm(t[1]), 2)
    else (0, 0)
  }

  function ReadBody(t: Text): Read
    decreases |t|
  {
    if t != [] && t[0] == QUOTE then Read([], t[1..])
    else
      var (u, n) := ReadOne(t);
      if n == 0 then Broken else Prepend(u, ReadBody(t[n..]))
  }

  function Prepend(u: Unit, r: Read): Read {
    if r.Broken? then Broken else r.(text := [u] + r.text)
  }

  /** The unit a two-character escape stands for, or -1. */
  function LongForm(e: Unit): (u: int)
    ensures u == -1 || 0 <= u < 0x10000
  {
    if e == QUOTE || e == BACKSLASH then e
    else if e == LOWER_B then 0x08
    else if e == LOWER_T then TAB
    else if e == LOWER_N then LF
    else if e == LOWER_F then 0x0c
    else if e == LOWER_R then CR
    else -1
  }

  lemma ReadOneQuoted(u: Unit, t: Text)
    ensures ReadOne(QuoteUnit(u) + t) == (u, |QuoteUnit(u)|)
  {
    var w := QuoteUnit(u) + t;
    if ShortEscape(u) >= 0 {
      assert w[0] == BACKSLASH && w[1] == ShortEscape(u);
    } else if LongEscape(u) {
      Hex4Value(u);
      assert w[0] == BACKSLASH && w[1] == LOWER_U && w[2..6] == Hex4(u);
    } else {
      assert w[0] == u;
    }
  }

  lemma ReadUnit(u: Unit, q: Text, t: Text)
    requires q == QuoteUnit(u) || (q == [u] && u != QUOTE && u != BACKSLASH)
    ensures ReadBody(q + t) == Prepend(u, ReadBody(t))
  {
    assert (q + t)[|q|..] == t && (q + t)[0] == q[0];
    if q == QuoteUnit(u) { ReadOneQuoted(u, t); }
  }

  lemma Assoc(a: Text, b: Text, c: Text)
    ensures (a + b) + c == a + (b + c)
  {
  }

  lemma QuoteSplit(s: Text, end: Text)
    requires s != []
    ensures Paired(s) ==> QuoteBody(s) + end == [s[0]] + ([s[1]] + (QuoteBody(s[2..]) + end))
    ensures !Paired(s) ==> QuoteBody(s) + end == QuoteUnit(s[0]) + (QuoteBody(s[1..]) + end)
  {
    if Paired(s) {
      Assoc(s[..2], QuoteBody(s[2..]), end);
      Assoc([s[0]], [s[1]], QuoteBody(s[2..]) + end);
      assert s[..2] == [s[0]] + [s[1]];
    } else {
      Assoc(QuoteUnit(s[0]), QuoteBody(s[1..]), end);
    }
  }

  /** Reading a quoted string gives it back, whatever follows: a quoting is recognised by its own end. */
  lemma {:induction false} ReadQuoted(s: Text, x: Text)
    ensures ReadBody(QuoteBody(s) + ([QUOTE] + x)) == Read(s, x)
    decreases |s|
  {
    var end := [QUOTE] + x;
    if s == [] {
      assert QuoteBody(s) + end == end;
      assert end[1..] == x;
    } else {
      QuoteSplit(s, end);
      if Paired(s) {
        ReadQuoted(s[2..], x);
        ReadUnit(s[1], [s[1]], QuoteBody(s[2..]) + end);
        ReadUnit(s[0], [s[0]], [s[1]] + (QuoteBody(s[2..]) + end));
        assert [s[0]] + ([s[1]] + s[2..]) == s;
      } else {
        ReadQuoted(s[1..], x);
        ReadUnit(s[0], QuoteUnit(s[0]), QuoteBody(s[1..]) + end);
        assert [s[0]] + s[1..] == s;
      }
    }
  }

  /** Quotings are a prefix code: what follows them tells nothing about where they end. */
  lemma QuotePrefixFree(a: Text, b: Text, x: Text, y: Text)
    requires Quote(a) + x == Quote(b) + y
    ensures a == b && x == y
  {
    var p, q := QuoteBody(a) + ([QUOTE] + x), QuoteBody(b) + ([QUOTE] + y);
    assert p == q by {
      assert Quote(a) + x == [QUOTE] + p && Quote(b) + y == [QUOTE] + q;
      assert p == (Quote(a) + x)[1..] && q == (Quote(b) + y)[1..];
    }
    ReadQuoted(a, x);
    ReadQuoted(b, y);
  }

  lemma {:induction false} QuoteHasNoNul(s: Text)
    ensures NUL !in QuoteBody(s)
    decreases |s|
  {
    if s != [] {
      if Paired(s) {
        QuoteHasNoNul(s[2..]);
      } else {
        QuoteHasNoNul(s[1..]);
        if LongEscape(s[0]) { Hex4Value(s[0]); }
      }
    }
  }
}
