/**
 What `stableJson` prints is JSON, by section 2 of RFC 8259 without white space: a reader of JSON texts gets the value
 back, with the keys of every object in ascending order of their code units.
 */
module StableReading {
  import opened JsText
  import opened StableJson

  // ----- a reader of JSON texts -----

  datatype Parse = Got(value: Json, rest: Text) | Bad
  datatype Items = Items(values: seq<Json>, rest: Text) | BadItems
  datatype Fields = Fields(fields: seq<Field>, rest: Text) | BadFields

  const NULL_WORD: Text := [0x6e, 0x75, 0x6c, 0x6c]
  const TRUE_WORD: Text := [0x74, 0x72, 0x75, 0x65]
  const FALSE_WORD: Text := [0x66, 0x61, 0x6c, 0x73, 0x65]

  /** How many units at the start of the text may be in a number. */
  function NumLength(t: Text): (n: nat)
    ensures n <= |t| && (forall i :: 0 <= i < n ==> NumUnit(t[i])) && (n < |t| ==> !NumUnit(t[n]))
  {
    if t == [] || !NumUnit(t[0]) then 0 else 1 + NumLength(t[1..])
  }

  function ReadJson(t: Text): (r: Parse)
    ensures r.Got? ==> |r.rest| < |t|
    decreases |t|, 0
  {
    if t == [] then Bad
    else if NULL_WORD <= t then Got(Null, t[4..])
    else if TRUE_WORD <= t then Got(Bool(true), t[4..])
    else if FALSE_WORD <= t then Got(Bool(false), t[5..])
    else if t[0] == QUOTE then
      var s := ReadBody(t[1..]);
      if s.Broken? || |s.rest| >= |t| then Bad else Got(Str(s.text), s.rest)
    else if t[0] == LBRACKET then
      if |t| >= 2 && t[1] == RBRACKET then Got(Arr([]), t[2..])
      else
        var items := ReadItems(t[1..]);
        if items.BadItems? then Bad else Got(Arr(items.values), items.rest)
    else if t[0] == LBRACE then
      if |t| >= 2 && t[1] == RBRACE then Got(Obj([]), t[2..])
      else
        var fields := ReadFields(t[1..]);
        if fields.BadFields? then Bad else Got(Obj(fields.fields), fields.rest)
    else
      var n := NumLength(t);
      if n == 0 then Bad else Got(Num(t[..n]), t[n..])
  }

  /** Values separated by commas, up to the bracket that ends them. */
  function ReadItems(t: Text): (r: Items)
    ensures r.Items? ==> |r.rest| < |t|
    decreases |t|, 1
  {
    var first := ReadJson(t);
    if first.Bad? || first.rest == [] then BadItems
    else if first.rest[0] == RBRACKET then Items([first.value], first.rest[1..])
    else if first.rest[0] != COMMA then BadItems
    else
      var more := ReadItems(first.rest[1..]);
      if more.BadItems? then BadItems else Items([first.value] + more.values, more.rest)
  }

  /** Names and values separated by commas, up to the brace that ends them. */
  function ReadFields(t: Text): (r: Fields)
    ensures r.Fields? ==> |r.rest| < |t|
    decreases |t|, 1
  {
    if t == [] || t[0] != QUOTE then BadFields
    else
      var key := ReadBody(t[1..]);
      if key.Broken? || key.rest == [] || |key.rest| >= |t| || key.rest[0] != COLON then BadFields
      else
        var first := ReadJson(key.rest[1..]);
        if first.Bad? || first.rest == [] then BadFields
        else if first.rest[0] == RBRACE then Fields([Field(key.text, first.value)], first.rest[1..])
        else if first.rest[0] != COMMA then BadFields
        else
          var more := ReadFields(first.rest[1..]);
          if more.BadFields? then BadFields else Fields([Field(key.text, first.value)] + more.fields, more.rest)
  }

  // ----- the value as it is read back -----

  /** The value with the fields of every object sorted. */
  function Ordered(v: Json): Json
    decreases v
  {
    match v
    case Arr(items) => Arr(seq(|items|, i requires 0 <= i < |items| => Ordered(items[i])))
    case Obj(fields) =>
      var sorted := SortFields(fields);
      Obj(seq(|sorted|, i requires 0 <= i < |sorted| =>
        SortedField(fields, i);
        Field(sorted[i].key, Ordered(sorted[i].value))))
    case _ => v
  }

  // ----- reading back -----

  lemma NumEnds(digits: Text, x: Text)
    requires Delimited(x) && forall i :: 0 <= i < |digits| ==> NumUnit(digits[i])
    ensures NumLength(digits + x) == |digits|
  {
    var t := digits + x;
    var n := NumLength(t);
    assert forall i :: 0 <= i < |digits| ==> t[i] == digits[i];
    assert x != [] ==> t[|digits|] == x[0] && !NumUnit(x[0]);
  }

  lemma ReadsNum(digits: Text, x: Text)
    requires Delimited(x) && digits != [] && forall i :: 0 <= i < |digits| ==> NumUnit(digits[i])
    ensures ReadJson(digits + x) == Got(Num(digits), x)
  {
    var t := digits + x;
    assert t[0] == digits[0] && NumUnit(t[0]);
    NumEnds(digits, x);
    assert t[..|digits|] == digits && t[|digits|..] == x;
  }

  lemma ReadsStr(s: Text, x: Text)
    ensures ReadJson(Quote(s) + x) == Got(Str(s), x)
  {
    var t := Quote(s) + x;
    assert t[0] == QUOTE && t[1..] == QuoteBody(s) + ([QUOTE] + x);
    ReadQuoted(s, x);
  }

  lemma ReadsWord(v: Json, x: Text)
    requires v.Null? || v.Bool?
    ensures ReadJson(Stable(v) + x) == Got(v, x)
  {
    var t := Stable(v) + x;
    match v
    case Null => assert t[..4] == NULL_WORD && t[4..] == x;
    case Bool(b) =>
      assert t[0] == Stable(v)[0] && t[0] != NULL_WORD[0];
      if b {
        assert t[..4] == TRUE_WORD && t[4..] == x;
      } else {
        assert t[0] != TRUE_WORD[0];
        assert t[..5] == FALSE_WORD && t[5..] == x;
      }
  }

  /** The text is read as the value, whatever may follow it. */
  ghost predicate ReadsAs(text: Text, value: Json) {
    forall after :: Delimited(after) ==> ReadJson(text + after) == Got(value, after)
  }

  /** One value, before a comma and more values or before the bracket at the end. */
  lemma ReadsItem(text: Text, value: Json, after: Text, values: seq<Json>, x: Text)
    requires ReadsAs(text, value) && after != []
    requires (after[0] == RBRACKET && after[1..] == x && values == [])
             || (after[0] == COMMA && ReadItems(after[1..]) == Items(values, x))
    ensures ReadItems(text + after) == Items([value] + values, x)
  {
    assert ReadJson(text + after) == Got(value, after);
    assert [value] + [] == [value];
  }

  /** Values between the brackets of an array. */
  lemma {:induction false} ReadsItems(texts: seq<Text>, values: seq<Json>, x: Text)
    requires 0 < |texts| == |values| && forall i :: 0 <= i < |texts| ==> ReadsAs(texts[i], values[i])
    ensures ReadItems(Row(texts) + ([RBRACKET] + x)) == Items(values, x)
    decreases |texts|
  {
    var end, rest, more := [RBRACKET] + x, texts[1..], values[1..];
    var after := Tail(rest) + end;
    assert Row(texts) + end == texts[0] + after by { RowHead(texts, end); }
    assert values == [values[0]] + more;
    if rest == [] {
      assert after == end && end[1..] == x;
    } else {
      assert ReadItems(Row(rest) + end) == Items(more, x) by { ReadsItems(rest, more, x); }
      AfterComma(rest, end);
    }
    ReadsItem(texts[0], values[0], after, more, x);
  }

  lemma AfterComma(cells: seq<Text>, end: Text)
    requires cells != []
    ensures var t := Tail(cells) + end; t != [] && t[0] == COMMA && t[1..] == Row(cells) + end
  {
    TailHead(cells, end);
    RowHead(cells, end);
  }

  /** A name at the start of the text. */
  lemma ReadsKey(key: Text, x: Text)
    ensures var t := Quote(key) + x; t[0] == QUOTE && ReadBody(t[1..]) == Read(key, x) && |x| < |t|
  {
    var t := Quote(key) + x;
    assert t[0] == QUOTE && t[1..] == QuoteBody(key) + ([QUOTE] + x);
    ReadQuoted(key, x);
  }

  /** One field, before a comma and more fields or before the brace at the end. */
  lemma ReadsField(key: Text, text: Text, value: Json, after: Text, fields: seq<Field>, x: Text)
    requires ReadsAs(text, value) && after != []
    requires (after[0] == RBRACE && after[1..] == x && fields == [])
             || (after[0] == COMMA && ReadFields(after[1..]) == Fields(fields, x))
    ensures ReadFields(Quote(key) + ([COLON] + (text + after))) == Fields([Field(key, value)] + fields, x)
  {
    var colon := [COLON] + (text + after);
    ReadsKey(key, colon);
    assert colon[1..] == text + after;
    assert ReadJson(text + after) == Got(value, after);
    assert [Field(key, value)] + [] == [Field(key, value)];
  }

  function FieldCells(keys: seq<Text>, texts: seq<Text>): (r: seq<Text>)
    requires |keys| == |texts|
    ensures |r| == |keys| && forall i :: 0 <= i < |r| ==> r[i] == Quote(keys[i]) + [COLON] + texts[i]
  {
    seq(|keys|, i requires 0 <= i < |keys| => Quote(keys[i]) + [COLON] + texts[i])
  }

  function FieldsOf(keys: seq<Text>, values: seq<Json>): (r: seq<Field>)
    requires |keys| == |values|
    ensures |r| == |keys| && forall i :: 0 <= i < |r| ==> r[i] == Field(keys[i], values[i])
  {
    seq(|keys|, i requires 0 <= i < |keys| => Field(keys[i], values[i]))
  }

  /** Names and values between the braces of an object. */
  lemma {:induction false} ReadsFields(keys: seq<Text>, texts: seq<Text>, values: seq<Json>, x: Text)
    requires 0 < |keys| == |texts| == |values| && forall i :: 0 <= i < |texts| ==> ReadsAs(texts[i], values[i])
    ensures ReadFields(Row(FieldCells(keys, texts)) + ([RBRACE] + x)) == Fields(FieldsOf(keys, values), x)
    decreases |keys|
  {
    var end, cells := [RBRACE] + x, FieldCells(keys, texts);
    var rest, more := FieldCells(keys[1..], texts[1..]), FieldsOf(keys[1..], values[1..]);
    assert cells[1..] == rest;
    var after := Tail(rest) + end;
    assert Row(cells) + end == Quote(keys[0]) + ([COLON] + (texts[0] + after)) by {
      RowHead(cells, end);
      FieldHead(keys[0], texts[0], after);
    }
    assert FieldsOf(keys, values) == [Field(keys[0], values[0])] + more;
    if rest == [] {
      assert after == end && end[1..] == x;
    } else {
      assert ReadFields(Row(rest) + end) == Fields(more, x) by { ReadsFields(keys[1..], texts[1..], values[1..], x); }
      AfterComma(rest, end);
    }
    ReadsField(keys[0], texts[0], values[0], after, more, x);
  }

  lemma FieldHead(key: Text, text: Text, after: Text)
    ensures Quote(key) + [COLON] + text + after == Quote(key) + ([COLON] + (text + after))
  {
    Assoc(Quote(key) + [COLON], text, after);
    Assoc(Quote(key), [COLON], text + after);
  }

  /** Printed values followed by what may follow them are read back. */
  lemma {:induction false} ReadsBack(v: Json)
    requires IsJson(v)
    ensures ReadsAs(Stable(v), Ordered(v))
    decreases v
  {
    match v
    case Arr(items) =>
      forall i | 0 <= i < |items| ensures ReadsAs(Stable(items[i]), Ordered(items[i])) {
        ReadsBack(items[i]);
      }
      forall x | Delimited(x) ensures ReadJson(Stable(v) + x) == Got(Ordered(v), x) {
        ReadsArray(v, x);
      }
    case Obj(fields) =>
      var sorted := SortFields(fields);
      forall i | 0 <= i < |sorted| ensures ReadsAs(Stable(sorted[i].value), Ordered(sorted[i].value)) {
        SortedField(fields, i);
        ReadsBack(sorted[i].value);
      }
      forall x | Delimited(x) ensures ReadJson(Stable(v) + x) == Got(Ordered(v), x) {
        ReadsObject(v, x);
      }
    case _ =>
      forall x | Delimited(x) ensures ReadJson(Stable(v) + x) == Got(Ordered(v), x) {
        ReadsLeaf(v, x);
      }
  }

  lemma ReadsLeaf(v: Json, x: Text)
    requires IsJson(v) && !v.Arr? && !v.Obj? && Delimited(x)
    ensures ReadJson(Stable(v) + x) == Got(Ordered(v), x)
  {
    match v
    case Num(digits) => ReadsNum(digits, x);
    case Str(s) => ReadsStr(s, x);
    case _ => ReadsWord(v, x);
  }

  /** The text of an array or object after its first bracket. */
  lemma Inside(v: Json, x: Text)
    requires IsJson(v) && Container(v)
    ensures var t, body := Stable(v) + x, Row(Cells(v)) + ([Close(v)] + x);
            && t != [] && t[0] == (if v.Arr? then LBRACKET else LBRACE) && t[1..] == body
            && body != [] && t[1] == body[0]
            && (body[0] == Close(v) <==> Cells(v) == [])
            && (Cells(v) == [] ==> t[2..] == x)
  {
    BodyText(v, x);
    NoCells(v, x);
    var t, body := Stable(v) + x, Row(Cells(v)) + ([Close(v)] + x);
    assert t[1..] == body && t[1] == body[0];
    assert t[2..] == body[1..];
  }

  lemma ReadsArray(v: Json, x: Text)
    requires IsJson(v) && v.Arr? && Delimited(x)
    requires forall i :: 0 <= i < |v.items| ==> ReadsAs(Stable(v.items[i]), Ordered(v.items[i]))
    ensures ReadJson(Stable(v) + x) == Got(Ordered(v), x)
  {
    Inside(v, x);
    if v.items != [] {
      ReadsItems(Cells(v), Ordered(v).items, x);
    }
    ReadsBracket(Stable(v) + x);
  }

  /** A text that starts with a bracket. */
  lemma ReadsBracket(t: Text)
    requires |t| >= 2 && t[0] == LBRACKET
    ensures t[1] == RBRACKET ==> ReadJson(t) == Got(Arr([]), t[2..])
    ensures t[1] != RBRACKET && ReadItems(t[1..]).Items? ==>
              var items := ReadItems(t[1..]); ReadJson(t) == Got(Arr(items.values), items.rest)
  {
  }

  lemma ReadsBrace(t: Text)
    requires |t| >= 2 && t[0] == LBRACE
    ensures t[1] == RBRACE ==> ReadJson(t) == Got(Obj([]), t[2..])
    ensures t[1] != RBRACE && ReadFields(t[1..]).Fields? ==>
              var fields := ReadFields(t[1..]); ReadJson(t) == Got(Obj(fields.fields), fields.rest)
  {
  }

  function Keys(fields: seq<Field>): (r: seq<Text>)
    ensures |r| == |fields| && forall i :: 0 <= i < |r| ==> r[i] == fields[i].key
  {
    seq(|fields|, i requires 0 <= i < |fields| => fields[i].key)
  }

  function Printed(fields: seq<Field>): (r: seq<Text>)
    ensures |r| == |fields| && forall i :: 0 <= i < |r| ==> r[i] == Stable(fields[i].value)
  {
    seq(|fields|, i requires 0 <= i < |fields| => Stable(fields[i].value))
  }

  function Values(fields: seq<Field>): (r: seq<Json>)
    ensures |r| == |fields| && forall i :: 0 <= i < |r| ==> r[i] == Ordered(fields[i].value)
  {
    seq(|fields|, i requires 0 <= i < |fields| => Ordered(fields[i].value))
  }

  /** What an object prints and what it is read as, by its sorted fields. */
  lemma ObjectParts(v: Json)
    requires v.Obj?
    ensures var sorted := SortFields(v.fields);
            Cells(v) == FieldCells(Keys(sorted), Printed(sorted))
            && Ordered(v) == Obj(FieldsOf(Keys(sorted), Values(sorted)))
  {
    var sorted := SortFields(v.fields);
    assert Ordered(v).fields == FieldsOf(Keys(sorted), Values(sorted));
  }

  lemma ReadsObject(v: Json, x: Text)
    requires IsJson(v) && v.Obj? && Delimited(x)
    requires var sorted := SortFields(v.fields);
             forall i :: 0 <= i < |sorted| ==> ReadsAs(Stable(sorted[i].value), Ordered(sorted[i].value))
    ensures ReadJson(Stable(v) + x) == Got(Ordered(v), x)
  {
    var sorted := SortFields(v.fields);
    ObjectParts(v);
    Inside(v, x);
    if sorted != [] {
      ReadsFields(Keys(sorted), Printed(sorted), Values(sorted), x);
    }
    ReadsBrace(Stable(v) + x);
  }

  // ----- the same value, in order -----

  lemma {:induction false} OrderedIsSame(v: Json)
    requires IsJson(v)
    ensures Norm(Ordered(v)) == Norm(v)
    decreases v
  {
    match v
    case Arr(items) =>
      forall i | 0 <= i < |items| ensures Norm(Ordered(items[i])) == Norm(items[i]) {
        OrderedIsSame(items[i]);
      }
      assert Norm(Ordered(v)).items == Norm(v).items;
    case Obj(fields) =>
      var sorted := SortFields(fields);
      forall i | 0 <= i < |sorted| ensures Norm(Ordered(sorted[i].value)) == Norm(sorted[i].value) {
        SortedField(fields, i);
        OrderedIsSame(sorted[i].value);
      }
      OrderedFields(fields, Ordered(v).fields);
    case _ =>
  }

  lemma OrderedFields(fields: seq<Field>, ordered: seq<Field>)
    requires DistinctKeys(fields) && SameSorted(SortFields(fields), ordered)
    ensures FieldMap(ordered) == FieldMap(fields)
  {
    SortIsSorted(fields);
    forall i, j | 0 <= i < j < |ordered| ensures ordered[i].key != ordered[j].key {
      assert Less(SortFields(fields)[i].key, SortFields(fields)[j].key);
      LessTotal(ordered[i].key, ordered[i].key);
    }
    SortedMapHas(fields);
    FieldMapHas(ordered);
    SameHolds(FieldMap(fields), FieldMap(ordered), SortFields(fields), ordered);
  }

  /** The first unit in which the texts differ is smaller in a, or a is a proper beginning of b. */
  ghost predicate Before(a: Text, b: Text) {
    exists k: nat :: Differ(a, b, k)
  }

  predicate Differ(a: Text, b: Text, k: nat) {
    k <= |a| && k < |b| && a[..k] == b[..k] && (k == |a| || a[k] < b[k])
  }

  lemma {:induction false} LessIsBefore(a: Text, b: Text)
    requires Less(a, b)
    ensures Before(a, b)
  {
    if a == [] || a[0] < b[0] {
      assert Differ(a, b, 0);
    } else {
      LessIsBefore(a[1..], b[1..]);
      var k: nat :| Differ(a[1..], b[1..], k);
      assert a[..k + 1] == [a[0]] + a[1..][..k] && b[..k + 1] == [b[0]] + b[1..][..k];
      assert Differ(a, b, k + 1);
    }
  }

  /** In every object, at any depth, the keys ascend. */
  ghost predicate KeysAscend(v: Json) {
    match v
    case Arr(items) => forall i :: 0 <= i < |items| ==> KeysAscend(items[i])
    case Obj(fields) =>
      && (forall i, j :: 0 <= i < j < |fields| ==> Before(fields[i].key, fields[j].key))
      && forall i :: 0 <= i < |fields| ==> KeysAscend(fields[i].value)
    case _ => true
  }

  lemma {:induction false} OrderedAscends(v: Json)
    requires IsJson(v)
    ensures KeysAscend(Ordered(v))
    decreases v
  {
    match v
    case Arr(items) =>
      forall i | 0 <= i < |items| ensures KeysAscend(Ordered(v).items[i]) {
        OrderedAscends(items[i]);
      }
    case Obj(fields) =>
      var sorted, ordered := SortFields(fields), Ordered(v).fields;
      SortIsSorted(fields);
      forall i | 0 <= i < |ordered| ensures KeysAscend(ordered[i].value) {
        SortedField(fields, i);
        OrderedAscends(sorted[i].value);
      }
      forall i, j | 0 <= i < j < |ordered| ensures Before(ordered[i].key, ordered[j].key) {
        LessIsBefore(sorted[i].key, sorted[j].key);
      }
    case _ =>
  }

  /** What is printed for a value is JSON text of it: all of it is read back, as the same value with ascending keys. */
  lemma PrintsJson(v: Json)
    requires IsJson(v)
    ensures var r := ReadJson(Stable(v));
            r.Got? && r.rest == [] && Norm(r.value) == Norm(v) && KeysAscend(r.value)
  {
    assert Stable(v) + [] == Stable(v);
    ReadsBack(v);
    OrderedIsSame(v);
    OrderedAscends(v);
  }
}
