/**
 `stableJson`, the printer behind the run guard's flag keys: arrays as they are, objects with their keys sorted.
 Two JSON values print alike exactly when they are equal up to the order of object keys.

 A number is represented by its canonical text (what JSON.stringify prints for it). An object lists its fields in
 insertion order; `Norm` is the value it stands for, where an object is a map.
 */
module StableJson {
  import opened JsText

  datatype Field = Field(key: Text, value: Json)

  datatype Json =
    | Null
    | Bool(b: bool)
    | Num(digits: Text)
    | Str(s: Text)
    | Arr(items: seq<Json>)
    | Obj(fields: seq<Field>)

  datatype Value =
    | VNull
    | VBool(b: bool)
    | VNum(digits: Text)
    | VStr(s: Text)
    | VArr(items: seq<Value>)
    | VObj(fields: map<Text, Value>)

  /** Digits, sign, point and exponent marks: + - . 0-9 E e */
  predicate NumUnit(u: Unit) {
    u == 0x2b || u == 0x2d || u == 0x2e || 0x30 <= u <= 0x39 || u == 0x45 || u == 0x65
  }

  ghost predicate DistinctKeys(fields: seq<Field>) {
    forall i, j :: 0 <= i < j < |fields| ==> fields[i].key != fields[j].key
  }

  /** A JSON value: numbers print as numbers, objects have no key twice. */
  ghost predicate IsJson(v: Json) {
    match v
    case Num(digits) => digits != [] && (forall i :: 0 <= i < |digits| ==> NumUnit(digits[i]))
    case Arr(items) => forall i :: 0 <= i < |items| ==> IsJson(items[i])
    case Obj(fields) => DistinctKeys(fields) && forall i :: 0 <= i < |fields| ==> IsJson(fields[i].value)
    case _ => true
  }

  // ----- what a value stands for -----

  ghost function Norm(v: Json): Value {
    match v
    case Null => VNull
    case Bool(b) => VBool(b)
    case Num(digits) => VNum(digits)
    case Str(s) => VStr(s)
    case Arr(items) => VArr(seq(|items|, i requires 0 <= i < |items| => Norm(items[i])))
    case Obj(fields) => VObj(FieldMap(fields))
  }

  ghost function FieldMap(fields: seq<Field>): map<Text, Value> {
    if fields == [] then map[]
    else FieldMap(fields[..|fields| - 1])[fields[|fields| - 1].key := Norm(fields[|fields| - 1].value)]
  }

  // ----- the printer -----

  /** Lexicographic order of code units, as Array.prototype.sort compares strings. */
  predicate Less(a: Text, b: Text) {
    b != [] && (a == [] || a[0] < b[0] || (a[0] == b[0] && Less(a[1..], b[1..])))
  }

  function Insert(f: Field, fields: seq<Field>): (r: seq<Field>)
    ensures multiset(r) == multiset(fields) + multiset{f}
  {
    if fields == [] || Less(f.key, fields[0].key) then [f] + fields
    else
      assert fields == [fields[0]] + fields[1..];
      [fields[0]] + Insert(f, fields[1..])
  }

  function SortFields(fields: seq<Field>): (r: seq<Field>)
    ensures multiset(r) == multiset(fields)
  {
    if fields == [] then []
    else
      assert fields == [fields[0]] + fields[1..];
      Insert(fields[0], SortFields(fields[1..]))
  }

  lemma SortedField(fields: seq<Field>, i: nat)
    requires i < |SortFields(fields)|
    ensures SortFields(fields)[i] in fields
  {
    assert SortFields(fields)[i] in multiset(SortFields(fields));
  }

  /** The texts joined by commas. */
  function Row(cells: seq<Text>): Text {
    if cells == [] then [] else cells[0] + Tail(cells[1..])
  }

  function Tail(cells: seq<Text>): Text {
    if cells == [] then [] else [COMMA] + cells[0] + Tail(cells[1..])
  }

  const TRUE: Text := [0x74, 0x72, 0x75, 0x65]
  const FALSE: Text := [0x66, 0x61, 0x6c, 0x73, 0x65]
  const NULL: Text := [0x6e, 0x75, 0x6c, 0x6c]

  function Stable(v: Json): Text
    decreases v, 1
  {
    match v
    case Null => NULL
    case Bool(b) => if b then TRUE else FALSE
    case Num(digits) => digits
    case Str(s) => Quote(s)
    case Arr(_) => [LBRACKET] + Row(Cells(v)) + [RBRACKET]
    case Obj(_) => [LBRACE] + Row(Cells(v)) + [RBRACE]
  }

  /** What an array or object prints between its brackets, piece by piece. */
  function Cells(v: Json): (r: seq<Text>)
    decreases v, 0
  {
    match v
    case Arr(items) => seq(|items|, i requires 0 <= i < |items| => Stable(items[i]))
    case Obj(fields) =>
      var sorted := SortFields(fields);
      seq(|sorted|, i requires 0 <= i < |sorted| =>
        SortedField(fields, i);
        Quote(sorted[i].key) + [COLON] + Stable(sorted[i].value))
    case _ => []
  }

  // ----- printed values are a prefix code -----

  /** Nothing follows, or a comma or closing bracket does. */
  predicate Delimited(x: Text) {
    x == [] || x[0] == COMMA || x[0] == RBRACKET || x[0] == RBRACE
  }

  lemma FirstUnit(v: Json)
    requires IsJson(v)
    ensures var t := Stable(v); t != [] && !Delimited(t)
    ensures var u := Stable(v)[0];
            && (v.Null? <==> u == 0x6e) && (v == Bool(true) <==> u == 0x74) && (v == Bool(false) <==> u == 0x66)
            && (v.Num? <==> NumUnit(u)) && (v.Str? <==> u == QUOTE)
            && (v.Arr? <==> u == LBRACKET) && (v.Obj? <==> u == LBRACE)
  {
    match v
    case Arr(_) => assert Stable(v)[0] == LBRACKET;
    case Obj(_) => assert Stable(v)[0] == LBRACE;
    case Num(digits) => assert NumUnit(digits[0]);
    case _ =>
  }

  lemma NumFree(a: Text, b: Text, x: Text, y: Text)
    requires forall i :: 0 <= i < |a| ==> NumUnit(a[i])
    requires forall i :: 0 <= i < |b| ==> NumUnit(b[i])
    requires Delimited(x) && Delimited(y) && a + x == b + y
    ensures a == b && x == y
  {
    assert forall i :: 0 <= i < |a| ==> (b + y)[i] == a[i];
    assert forall i :: 0 <= i < |b| ==> (a + x)[i] == b[i];
    assert y != [] ==> (b + y)[|b|] == y[0];
    assert x != [] ==> (a + x)[|a|] == x[0];
    assert |a| == |b|;
    Cancel(a, b, x, y);
  }

  lemma Cancel(a: Text, b: Text, x: Text, y: Text)
    requires a + x == b + y && |a| == |b|
    ensures a == b && x == y
  {
    assert a == (a + x)[..|a|] && b == (b + y)[..|b|];
    assert x == (a + x)[|a|..] && y == (b + y)[|b|..];
  }

  predicate Container(v: Json) { v.Arr? || v.Obj? }

  function Close(v: Json): Unit {
    if v.Arr? then RBRACKET else RBRACE
  }

  function Count(v: Json): nat { |Cells(v)| }

  /** Two values of the same kind. */
  predicate SameKind(a: Json, b: Json) {
    (a.Arr? && b.Arr?) || (a.Obj? && b.Obj?)
  }

  lemma {:induction false} PrefixFree(a: Json, b: Json, x: Text, y: Text)
    requires IsJson(a) && IsJson(b) && Delimited(x) && Delimited(y)
    requires Stable(a) + x == Stable(b) + y
    ensures Stable(a) == Stable(b) && x == y
    decreases a, 2, 0
  {
    FirstUnit(a);
    FirstUnit(b);
    assert (Stable(a) + x)[0] == Stable(a)[0] && (Stable(b) + y)[0] == Stable(b)[0];
    if a.Num? {
      NumFree(a.digits, b.digits, x, y);
    } else if a.Str? {
      QuotePrefixFree(a.s, b.s, x, y);
    } else if Container(a) {
      BodyFree(a, b, x, y);
    } else {
      Cancel(Stable(a), Stable(b), x, y);
    }
  }

  lemma RowHead(cells: seq<Text>, p: Text)
    requires cells != []
    ensures Row(cells) + p == cells[0] + (Tail(cells[1..]) + p)
  {
    Assoc(cells[0], Tail(cells[1..]), p);
  }

  lemma TailHead(cells: seq<Text>, p: Text)
    requires cells != []
    ensures Tail(cells) + p == [COMMA] + (cells[0] + (Tail(cells[1..]) + p))
  {
    Assoc([COMMA] + cells[0], Tail(cells[1..]), p);
    Assoc([COMMA], cells[0], Tail(cells[1..]) + p);
  }

  lemma BodyText(v: Json, x: Text)
    requires Container(v)
    ensures Stable(v) + x == [Stable(v)[0]] + (Row(Cells(v)) + ([Close(v)] + x))
  {
    var open, body, close := [Stable(v)[0]], Row(Cells(v)), [Close(v)];
    assert Stable(v) == open + body + close;
    Assoc(open + body, close, x);
    Assoc(open, body, close + x);
  }

  lemma CellText(v: Json, i: nat, x: Text)
    requires v.Obj? && i < Count(v)
    ensures var f := SortFields(v.fields)[i]; Cells(v)[i] + x == Quote(f.key) + ([COLON] + (Stable(f.value) + x))
  {
    var f := SortFields(v.fields)[i];
    Assoc(Quote(f.key) + [COLON], Stable(f.value), x);
    Assoc(Quote(f.key), [COLON], Stable(f.value) + x);
  }

  lemma NoCells(v: Json, x: Text)
    requires IsJson(v) && Container(v)
    ensures var t := Row(Cells(v)) + ([Close(v)] + x);
            t != [] && (t[0] == Close(v) <==> Cells(v) == []) && (Cells(v) == [] ==> t == [Close(v)] + x)
  {
    if Cells(v) != [] {
      CellStart(v, 0);
      RowHead(Cells(v), [Close(v)] + x);
    }
  }

  lemma {:induction false} BodyFree(a: Json, b: Json, x: Text, y: Text)
    requires IsJson(a) && IsJson(b) && SameKind(a, b)
    requires Stable(a) + x == Stable(b) + y
    ensures Cells(a) == Cells(b) && x == y
    decreases a, 1, Count(a) + 1
  {
    var p, q := [Close(a)] + x, [Close(b)] + y;
    BodyText(a, x);
    BodyText(b, y);
    Cancel([Stable(a)[0]], [Stable(b)[0]], Row(Cells(a)) + p, Row(Cells(b)) + q);
    NoCells(a, x);
    NoCells(b, y);
    if Cells(a) == [] {
      Cancel([Close(a)], [Close(b)], x, y);
    } else {
      RowHead(Cells(a), p);
      RowHead(Cells(b), q);
      TailStart(Cells(a)[1..], p);
      TailStart(Cells(b)[1..], q);
      CellFree(a, b, 0, Tail(Cells(a)[1..]) + p, Tail(Cells(b)[1..]) + q);
      TailFree(a, b, 1, x, y);
      Regroup(Cells(a), Cells(b), 0);
    }
  }

  lemma Regroup(a: seq<Text>, b: seq<Text>, i: nat)
    requires i < |a| && i < |b| && a[i] == b[i] && a[i + 1..] == b[i + 1..]
    ensures a[i..] == b[i..] && a[0..] == a && b[0..] == b
  {
    assert a[i..] == [a[i]] + a[i + 1..] && b[i..] == [b[i]] + b[i + 1..];
  }

  lemma TailStart(cells: seq<Text>, rest: Text)
    requires rest != [] && Delimited(rest)
    ensures Delimited(Tail(cells) + rest)
  {
    if cells == [] { assert Tail(cells) + rest == rest; }
  }

  lemma CellStart(v: Json, i: nat)
    requires IsJson(v) && i < Count(v)
    ensures Cells(v)[i] != [] && !Delimited(Cells(v)[i])
  {
    if v.Arr? { FirstUnit(v.items[i]); }
  }

  lemma NoTail(cells: seq<Text>, p: Text)
    requires p != [] && p[0] != COMMA
    ensures var t := Tail(cells) + p; t != [] && (t[0] == COMMA <==> cells != []) && (cells == [] ==> t == p)
  {
    if cells != [] { TailHead(cells, p); }
  }

  lemma {:induction false} TailFree(a: Json, b: Json, i: nat, x: Text, y: Text)
    requires IsJson(a) && IsJson(b) && SameKind(a, b) && i <= Count(a) && i <= Count(b)
    requires Tail(Cells(a)[i..]) + ([Close(a)] + x) == Tail(Cells(b)[i..]) + ([Close(b)] + y)
    ensures Cells(a)[i..] == Cells(b)[i..] && x == y
    decreases a, 1, Count(a) - i
  {
    var p, q := [Close(a)] + x, [Close(b)] + y;
    var ca, cb := Cells(a)[i..], Cells(b)[i..];
    NoTail(ca, p);
    NoTail(cb, q);
    if ca == [] {
      Cancel([Close(a)], [Close(b)], x, y);
    } else {
      assert ca[1..] == Cells(a)[i + 1..] && cb[1..] == Cells(b)[i + 1..];
      var r, t := Tail(ca[1..]) + p, Tail(cb[1..]) + q;
      TailHead(ca, p);
      TailHead(cb, q);
      Cancel([COMMA], [COMMA], ca[0] + r, cb[0] + t);
      TailStart(ca[1..], p);
      TailStart(cb[1..], q);
      CellFree(a, b, i, r, t);
      TailFree(a, b, i + 1, x, y);
      Regroup(Cells(a), Cells(b), i);
    }
  }

  lemma {:induction false} CellFree(a: Json, b: Json, i: nat, x: Text, y: Text)
    requires IsJson(a) && IsJson(b) && SameKind(a, b) && i < Count(a) && i < Count(b)
    requires Delimited(x) && Delimited(y) && Cells(a)[i] + x == Cells(b)[i] + y
    ensures Cells(a)[i] == Cells(b)[i] && x == y
    decreases a, 1, 0, 1
  {
    if a.Arr? {
      PrefixFree(a.items[i], b.items[i], x, y);
    } else {
      FieldFree(a, b, i, x, y);
    }
  }

  lemma {:induction false} FieldFree(a: Json, b: Json, i: nat, x: Text, y: Text)
    requires IsJson(a) && IsJson(b) && a.Obj? && b.Obj? && i < Count(a) && i < Count(b)
    requires Delimited(x) && Delimited(y) && Cells(a)[i] + x == Cells(b)[i] + y
    ensures Cells(a)[i] == Cells(b)[i] && x == y
    ensures var f, g := SortFields(a.fields)[i], SortFields(b.fields)[i];
            f.key == g.key && Stable(f.value) == Stable(g.value)
    decreases a, 0
  {
    var f, g := SortFields(a.fields)[i], SortFields(b.fields)[i];
    SortedField(a.fields, i);
    SortedField(b.fields, i);
    CellText(a, i, x);
    CellText(b, i, y);
    QuotePrefixFree(f.key, g.key, [COLON] + (Stable(f.value) + x), [COLON] + (Stable(g.value) + y));
    Cancel([COLON], [COLON], Stable(f.value) + x, Stable(g.value) + y);
    PrefixFree(f.value, g.value, x, y);
  }

  // ----- sorting by key -----

  ghost predicate SortedByKey(fields: seq<Field>) {
    forall i, j :: 0 <= i < j < |fields| ==> Less(fields[i].key, fields[j].key)
  }

  lemma {:induction false} LessTotal(a: Text, b: Text)
    ensures a == b || Less(a, b) || Less(b, a)
    ensures !Less(a, a)
  {
    if a != [] && b != [] && a[0] == b[0] {
      LessTotal(a[1..], b[1..]);
      assert a == [a[0]] + a[1..] && b == [b[0]] + b[1..];
    } else if a != [] {
      LessTotal(a[1..], a[1..]);
    }
  }

  lemma {:induction false} LessTransitive(a: Text, b: Text, c: Text)
    requires Less(a, b) && Less(b, c)
    ensures Less(a, c)
  {
    if a != [] && a[0] == b[0] == c[0] {
      LessTransitive(a[1..], b[1..], c[1..]);
    }
  }

  lemma {:induction false} InsertSorted(f: Field, fields: seq<Field>)
    requires SortedByKey(fields) && forall i :: 0 <= i < |fields| ==> fields[i].key != f.key
    ensures SortedByKey(Insert(f, fields))
  {
    if fields == [] {
    } else if Less(f.key, fields[0].key) {
      forall i | 0 < i < |fields| ensures Less(f.key, fields[i].key) {
        LessTransitive(f.key, fields[0].key, fields[i].key);
      }
    } else {
      var rest := Insert(f, fields[1..]);
      InsertSorted(f, fields[1..]);
      LessTotal(f.key, fields[0].key);
      forall i | 0 <= i < |rest| ensures Less(fields[0].key, rest[i].key) {
        assert rest[i] in multiset(rest);
        assert rest[i] == f || rest[i] in fields[1..];
      }
    }
  }

  lemma {:induction false} SortIsSorted(fields: seq<Field>)
    requires DistinctKeys(fields)
    ensures SortedByKey(SortFields(fields))
  {
    if fields != [] {
      var rest := SortFields(fields[1..]);
      SortIsSorted(fields[1..]);
      forall i | 0 <= i < |rest| ensures rest[i].key != fields[0].key {
        SortedField(fields[1..], i);
      }
      InsertSorted(fields[0], rest);
    }
  }

  ghost predicate HasKey(fields: seq<Field>, k: Text) {
    exists i :: 0 <= i < |fields| && fields[i].key == k
  }

  lemma SortSameFields(fields: seq<Field>)
    ensures |SortFields(fields)| == |fields|
    ensures forall f :: f in SortFields(fields) <==> f in fields
    ensures forall k :: HasKey(SortFields(fields), k) <==> HasKey(fields, k)
  {
    var sorted := SortFields(fields);
    assert |multiset(sorted)| == |sorted| && |multiset(fields)| == |fields|;
    forall f ensures f in sorted <==> f in fields {
      assert f in multiset(sorted) <==> f in multiset(fields);
    }
    forall k ensures HasKey(sorted, k) <==> HasKey(fields, k) {
      if HasKey(sorted, k) {
        var i :| 0 <= i < |sorted| && sorted[i].key == k;
        assert sorted[i] in fields;
      }
      if HasKey(fields, k) {
        var i :| 0 <= i < |fields| && fields[i].key == k;
        assert fields[i] in sorted;
      }
    }
  }

  /** Two sorted field lists with the same keys have the same key sequence. */
  lemma {:induction false} SortedKeysUnique(a: seq<Field>, b: seq<Field>)
    requires SortedByKey(a) && SortedByKey(b) && forall k :: HasKey(a, k) <==> HasKey(b, k)
    ensures |a| == |b| && forall i :: 0 <= i < |a| ==> a[i].key == b[i].key
  {
    if a == [] || b == [] {
      if a != [] { assert HasKey(a, a[0].key); }
      if b != [] { assert HasKey(b, b[0].key); }
    } else {
      FirstKey(a, b);
      FirstKey(b, a);
      LessTotal(a[0].key, b[0].key);
      TailKeys(a);
      TailKeys(b);
      SortedKeysUnique(a[1..], b[1..]);
    }
  }

  lemma FirstKey(a: seq<Field>, b: seq<Field>)
    requires SortedByKey(a) && a != [] && b != [] && HasKey(a, b[0].key)
    ensures a[0].key == b[0].key || (Less(a[0].key, b[0].key) && !Less(b[0].key, a[0].key))
  {
    var i :| 0 <= i < |a| && a[i].key == b[0].key;
    if Less(b[0].key, a[0].key) && i > 0 {
      LessTransitive(a[0].key, b[0].key, a[0].key);
      LessTotal(a[0].key, a[0].key);
    }
  }

  lemma TailKeys(a: seq<Field>)
    requires SortedByKey(a) && a != []
    ensures forall k :: HasKey(a[1..], k) <==> HasKey(a, k) && k != a[0].key
  {
    forall k ensures HasKey(a[1..], k) <==> HasKey(a, k) && k != a[0].key {
      LessTotal(a[0].key, a[0].key);
      if HasKey(a[1..], k) {
        var i :| 0 <= i < |a[1..]| && a[1..][i].key == k;
        assert a[i + 1].key == k;
      }
      if HasKey(a, k) && k != a[0].key {
        var i :| 0 <= i < |a| && a[i].key == k;
        assert a[1..][i - 1].key == k;
      }
    }
  }

  // ----- the map a field list stands for -----

  lemma HasKeyMore(init: seq<Field>, last: Field, k: Text)
    ensures HasKey(init + [last], k) <==> HasKey(init, k) || last.key == k
  {
    var fields := init + [last];
    assert fields[|init|] == last;
    if HasKey(init, k) {
      var i :| 0 <= i < |init| && init[i].key == k;
      assert fields[i].key == k;
    }
    if HasKey(fields, k) && last.key != k {
      var i :| 0 <= i < |fields| && fields[i].key == k;
      assert init[i].key == k;
    }
  }

  lemma {:induction false} FieldMapHas(fields: seq<Field>)
    requires DistinctKeys(fields)
    ensures forall k :: k in FieldMap(fields) <==> HasKey(fields, k)
    ensures forall i :: 0 <= i < |fields| ==>
              fields[i].key in FieldMap(fields) && FieldMap(fields)[fields[i].key] == Norm(fields[i].value)
  {
    if fields != [] {
      var init, last := fields[..|fields| - 1], fields[|fields| - 1];
      FieldMapHas(init);
      assert fields == init + [last];
      forall k ensures k in FieldMap(fields) <==> HasKey(fields, k) {
        HasKeyMore(init, last, k);
      }
    }
  }

  lemma SortedMapHas(fields: seq<Field>)
    requires DistinctKeys(fields)
    ensures forall k :: k in FieldMap(fields) <==> HasKey(SortFields(fields), k)
    ensures forall i :: 0 <= i < |SortFields(fields)| ==>
              var f := SortFields(fields)[i]; f.key in FieldMap(fields) && FieldMap(fields)[f.key] == Norm(f.value)
  {
    FieldMapHas(fields);
    SortSameFields(fields);
    forall i | 0 <= i < |SortFields(fields)| ensures
        var f := SortFields(fields)[i]; f.key in FieldMap(fields) && FieldMap(fields)[f.key] == Norm(f.value) {
      SortedField(fields, i);
    }
  }

  ghost predicate SameSorted(sa: seq<Field>, sb: seq<Field>) {
    |sa| == |sb| && forall i :: 0 <= i < |sa| ==> sa[i].key == sb[i].key && Norm(sa[i].value) == Norm(sb[i].value)
  }

  /** A map that holds exactly the given fields; two of them with the same fields are equal. */
  ghost predicate Holds(m: map<Text, Value>, sorted: seq<Field>) {
    && (forall k :: k in m <==> HasKey(sorted, k))
    && forall i :: 0 <= i < |sorted| ==> sorted[i].key in m && m[sorted[i].key] == Norm(sorted[i].value)
  }

  lemma SameHolds(m: map<Text, Value>, n: map<Text, Value>, sa: seq<Field>, sb: seq<Field>)
    requires Holds(m, sa) && Holds(n, sb) && SameSorted(sa, sb)
    ensures m == n
  {
    forall k ensures (k in m <==> k in n) && (k in m ==> m[k] == n[k]) {
      if k in m {
        var i :| 0 <= i < |sa| && sa[i].key == k;
        assert sb[i].key == k;
      }
      if k in n {
        var i :| 0 <= i < |sb| && sb[i].key == k;
        assert sa[i].key == k;
      }
    }
  }

  // ----- canonical -----

  /** Values that print alike are equal up to key order. */
  lemma {:induction false} PrintAlike(a: Json, b: Json)
    requires IsJson(a) && IsJson(b) && Stable(a) == Stable(b)
    ensures Norm(a) == Norm(b)
    decreases a
  {
    FirstUnit(a);
    FirstUnit(b);
    if a.Str? {
      QuotePrefixFree(a.s, b.s, [], []);
    } else if a.Arr? {
      BodyFree(a, b, [], []);
      assert |a.items| == |Cells(a)| == |Cells(b)| == |b.items|;
      forall i | 0 <= i < |a.items| ensures Norm(a.items[i]) == Norm(b.items[i]) {
        assert Cells(a)[i] == Cells(b)[i];
        PrintAlike(a.items[i], b.items[i]);
      }
    } else if a.Obj? {
      ObjectsAlike(a, b);
    }
  }

  lemma {:induction false} ObjectsAlike(a: Json, b: Json)
    requires IsJson(a) && IsJson(b) && a.Obj? && b.Obj? && Stable(a) == Stable(b)
    ensures FieldMap(a.fields) == FieldMap(b.fields)
    decreases a, 0
  {
    var sa, sb := SortFields(a.fields), SortFields(b.fields);
    BodyFree(a, b, [], []);
    assert |sa| == |Cells(a)| == |Cells(b)| == |sb|;
    forall i | 0 <= i < |sa| ensures sa[i].key == sb[i].key && Norm(sa[i].value) == Norm(sb[i].value) {
      assert Cells(a)[i] == Cells(b)[i];
      FieldFree(a, b, i, [], []);
      SortedField(a.fields, i);
      SortedField(b.fields, i);
      PrintAlike(sa[i].value, sb[i].value);
    }
    SortedMapHas(a.fields);
    SortedMapHas(b.fields);
    SameHolds(FieldMap(a.fields), FieldMap(b.fields), sa, sb);
  }

  /** Values that are equal up to key order print alike. */
  lemma {:induction false} AlikePrint(a: Json, b: Json)
    requires IsJson(a) && IsJson(b) && Norm(a) == Norm(b)
    ensures Stable(a) == Stable(b)
    decreases a
  {
    if a.Arr? {
      forall i | 0 <= i < |a.items| ensures Stable(a.items[i]) == Stable(b.items[i]) {
        assert Norm(a).items[i] == Norm(b).items[i];
        AlikePrint(a.items[i], b.items[i]);
      }
      assert Cells(a) == Cells(b);
    } else if a.Obj? {
      AlikeObjects(a, b);
    }
  }

  /** Objects that stand for the same map list the same fields once sorted. */
  lemma MapFixesSorted(a: seq<Field>, b: seq<Field>)
    requires DistinctKeys(a) && DistinctKeys(b) && FieldMap(a) == FieldMap(b)
    ensures SameSorted(SortFields(a), SortFields(b))
  {
    var sa, sb := SortFields(a), SortFields(b);
    SortedMapHas(a);
    SortedMapHas(b);
    SortIsSorted(a);
    SortIsSorted(b);
    SortedKeysUnique(sa, sb);
    forall i | 0 <= i < |sa| ensures Norm(sa[i].value) == Norm(sb[i].value) {
      assert sa[i].key == sb[i].key;
    }
  }

  lemma {:induction false} AlikeObjects(a: Json, b: Json)
    requires IsJson(a) && IsJson(b) && a.Obj? && b.Obj? && FieldMap(a.fields) == FieldMap(b.fields)
    ensures Cells(a) == Cells(b)
    decreases a, 0
  {
    var sa, sb := SortFields(a.fields), SortFields(b.fields);
    MapFixesSorted(a.fields, b.fields);
    forall i | 0 <= i < |sa| ensures Stable(sa[i].value) == Stable(sb[i].value) {
      SortedField(a.fields, i);
      SortedField(b.fields, i);
      AlikePrint(sa[i].value, sb[i].value);
    }
  }

  /** stableJson is canonical: values print alike exactly when they are equal up to the order of object keys. */
  lemma Canonical(a: Json, b: Json)
    requires IsJson(a) && IsJson(b)
    ensures Stable(a) == Stable(b) <==> Norm(a) == Norm(b)
  {
    if Stable(a) == Stable(b) {
      PrintAlike(a, b);
    }
    if Norm(a) == Norm(b) {
      AlikePrint(a, b);
    }
  }
}
