/**
 The structured error flags of a run's tool calls: recorded by the MCP client under a tool and an argument object,
 taken by the run guard with the tool and the arguments' JSON text. Keys meet because stableJson is canonical, and
 each key's flags are a queue that keeps the eight newest.

 JSON.parse is a parameter: any function from texts to JSON values.
 */
module ToolFlags {
  import opened JsText
  import opened StableJson
  import opened Basics

  type Parser = Text -> Option<Json>

  /** The arguments of a call: a JSON text, a value, or nothing. */
  datatype Args = AsText(text: Text) | AsValue(value: Json) | Absent

  function OrEmpty(v: Json): Json {
    if v.Null? then Obj([]) else v
  }

  /** The JSON value the arguments stand for; None when their text is no JSON. */
  function Meaning(parse: Parser, args: Args): Option<Json> {
    match args
    case AsText(text) =>
      var parsed := parse(if text == [] then [LBRACE, RBRACE] else text);
      if parsed.None? then None else Some(OrEmpty(parsed.value))
    case AsValue(v) => Some(OrEmpty(v))
    case Absent => Some(Obj([]))
  }

  function FlagKey(parse: Parser, tool: Text, args: Args): Text {
    var v := Meaning(parse, args);
    tool + [NUL] + (if v.Some? then Stable(v.value) else if args.AsText? then args.text else [])
  }

  // ----- keys -----

  lemma {:induction false} RowNoNul(cells: seq<Text>)
    requires forall i :: 0 <= i < |cells| ==> NUL !in cells[i]
    ensures NUL !in Tail(cells) && NUL !in Row(cells)
  {
    if cells != [] {
      RowNoNul(cells[1..]);
    }
  }

  lemma {:induction false} StableNoNul(v: Json)
    requires IsJson(v)
    ensures NUL !in Stable(v)
    decreases v
  {
    match v
    case Str(s) => QuoteHasNoNul(s);
    case Num(digits) => assert !NumUnit(NUL);
    case Arr(items) =>
      forall i | 0 <= i < |Cells(v)| ensures NUL !in Cells(v)[i] {
        StableNoNul(items[i]);
      }
      RowNoNul(Cells(v));
    case Obj(fields) =>
      forall i | 0 <= i < |SortFields(fields)| ensures NUL !in Stable(SortFields(fields)[i].value) {
        SortedField(fields, i);
        StableNoNul(SortFields(fields)[i].value);
      }
      FieldsNoNul(v);
    case _ =>
  }

  lemma FieldsNoNul(v: Json)
    requires v.Obj? && IsJson(v)
    requires forall i :: 0 <= i < |SortFields(v.fields)| ==> NUL !in Stable(SortFields(v.fields)[i].value)
    ensures NUL !in Stable(v)
  {
    forall i | 0 <= i < |Cells(v)| ensures NUL !in Cells(v)[i] {
      QuoteHasNoNul(SortFields(v.fields)[i].key);
    }
    RowNoNul(Cells(v));
  }

  lemma LastNul(a: Text, b: Text, x: Text, y: Text)
    requires NUL !in x && NUL !in y && a + [NUL] + x == b + [NUL] + y
    ensures a == b && x == y
  {
    var w := a + [NUL] + x;
    assert w[|a|] == NUL && (b + [NUL] + y)[|b|] == NUL;
    assert forall i :: |a| < i < |w| ==> w[i] == x[i - |a| - 1];
    assert forall i :: |b| < i < |w| ==> w[i] == y[i - |b| - 1];
    assert |a| == |b|;
    Cancel(a + [NUL], b + [NUL], x, y);
    Cancel(a, b, [NUL], [NUL]);
  }

  /** Two calls share a key exactly when they name the same tool and their arguments are the same JSON value. */
  lemma KeysMeet(parse: Parser, tool: Text, args: Args, tool': Text, args': Args)
    requires Meaning(parse, args).Some? && Meaning(parse, args').Some?
    requires IsJson(Meaning(parse, args).value) && IsJson(Meaning(parse, args').value)
    ensures FlagKey(parse, tool, args) == FlagKey(parse, tool', args') <==>
            tool == tool' && Norm(Meaning(parse, args).value) == Norm(Meaning(parse, args').value)
  {
    var v, w := Meaning(parse, args).value, Meaning(parse, args').value;
    StableNoNul(v);
    StableNoNul(w);
    Canonical(v, w);
    if FlagKey(parse, tool, args) == FlagKey(parse, tool', args') {
      LastNul(tool, tool', Stable(v), Stable(w));
    }
  }

  // ----- the queues -----

  const UNREAD := 8

  type Flags = map<Text, seq<bool>>

  function Unread(m: Flags, key: Text): seq<bool> {
    if key in m then m[key] else []
  }

  /** The newest eight. */
  function Newest(s: seq<bool>): seq<bool> {
    if |s| <= UNREAD then s else s[|s| - UNREAD..]
  }

  function Recorded(m: Flags, key: Text, flag: bool): Flags {
    m[key := Newest(Unread(m, key) + [flag])]
  }

  function Taken(m: Flags, key: Text): Flags {
    if |Unread(m, key)| <= 1 then map k | k in m && k != key :: m[k] else m[key := m[key][1..]]
  }

  function Flag(m: Flags, key: Text): Option<bool> {
    if Unread(m, key) == [] then None else Some(Unread(m, key)[0])
  }

  class ToolErrorFlags {
    const parse: Parser
    var flags: Flags

    constructor (parse: Parser)
      ensures this.parse == parse && flags == map[]
    {
      this.parse := parse;
      flags := map[];
    }

    method Record(tool: Text, args: Args, isError: bool)
      modifies this
      ensures flags == Recorded(old(flags), FlagKey(parse, tool, args), isError)
    {
      var key := FlagKey(parse, tool, args);
      var list := if key in flags then flags[key] else [];
      list := list + [isError];
      if |list| > 8 {
        list := list[|list| - 8..];
      }
      flags := flags[key := list];
    }

    /** The flag of the earliest unread call of the tool with these arguments. */
    method Take(tool: Text, args: Args) returns (flag: Option<bool>)
      modifies this
      ensures flag == Flag(old(flags), FlagKey(parse, tool, args))
      ensures flags == Taken(old(flags), FlagKey(parse, tool, args))
    {
      var key := FlagKey(parse, tool, args);
      flag := None;
      if key in flags {
        var list := flags[key];
        if list != [] {
          flag := Some(list[0]);
          list := list[1..];
        }
        if list == [] {
          flags := map k | k in flags && k != key :: flags[k];
        } else {
          flags := flags[key := list];
        }
      }
    }
  }

  // ----- any sequence of records and takes -----

  datatype Op = Record(key: Text, flag: bool) | Take(key: Text)

  function Apply(m: Flags, op: Op): Flags {
    match op
    case Record(key, flag) => Recorded(m, key, flag)
    case Take(key) => Taken(m, key)
  }

  function After(ops: seq<Op>): Flags {
    if ops == [] then map[] else Apply(After(ops[..|ops| - 1]), ops[|ops| - 1])
  }

  /** A plain queue of the key's flags that forgets nothing. */
  function Fifo(ops: seq<Op>, key: Text): seq<bool> {
    if ops == [] then []
    else
      var q := Fifo(ops[..|ops| - 1], key);
      match ops[|ops| - 1]
      case Record(k, flag) => if k == key then q + [flag] else q
      case Take(k) => if k == key && q != [] then q[1..] else q
  }

  ghost predicate EndsWith(s: seq<bool>, t: seq<bool>) {
    |t| <= |s| && s[|s| - |t|..] == t
  }

  lemma UnreadAfter(m: Flags, op: Op, key: Text)
    ensures op.key != key ==> Unread(Apply(m, op), key) == Unread(m, key)
    ensures op.key == key && op.Record? ==> Unread(Apply(m, op), key) == Newest(Unread(m, key) + [op.flag])
    ensures op.key == key && op.Take? ==>
        Unread(Apply(m, op), key) == if Unread(m, key) == [] then [] else Unread(m, key)[1..]
  {
  }

  /** What is kept for a key is always the end of the plain queue, at most eight flags of it. */
  lemma {:induction false} KeptIsEnd(ops: seq<Op>, key: Text)
    ensures EndsWith(Fifo(ops, key), Unread(After(ops), key)) && |Unread(After(ops), key)| <= UNREAD
  {
    if ops != [] {
      var before, op := ops[..|ops| - 1], ops[|ops| - 1];
      KeptIsEnd(before, key);
      UnreadAfter(After(before), op, key);
      var q, u := Fifo(before, key), Unread(After(before), key);
      if op.key == key {
        if op.Record? { RecordedEnd(q, u, op.flag); } else { TakenEnd(q, u); }
      }
    }
  }

  lemma TakenEnd(q: seq<bool>, u: seq<bool>)
    requires EndsWith(q, u)
    ensures EndsWith(if q == [] then [] else q[1..], if u == [] then [] else u[1..])
  {
  }

  lemma RecordedEnd(q: seq<bool>, u: seq<bool>, flag: bool)
    requires EndsWith(q, u)
    ensures EndsWith(q + [flag], Newest(u + [flag]))
  {
    assert EndsWith(q + [flag], u + [flag]);
  }

  /** The key's plain queue never held more than eight unread flags. */
  ghost predicate NeverOver(ops: seq<Op>, key: Text) {
    forall n :: 0 <= n <= |ops| ==> |Fifo(ops[..n], key)| <= 8
  }

  /** The flags of a key behave as a plain queue all along, if and only if at most eight were unread all along. */
  lemma RecordOrder(ops: seq<Op>, key: Text)
    ensures NeverOver(ops, key) <==> forall n :: 0 <= n <= |ops| ==> Unread(After(ops[..n]), key) == Fifo(ops[..n], key)
  {
    if NeverOver(ops, key) {
      forall n | 0 <= n <= |ops| ensures Unread(After(ops[..n]), key) == Fifo(ops[..n], key) {
        NothingLost(ops, n, key);
      }
    }
    if forall n :: 0 <= n <= |ops| ==> Unread(After(ops[..n]), key) == Fifo(ops[..n], key) {
      forall n | 0 <= n <= |ops| ensures |Fifo(ops[..n], key)| <= 8 {
        KeptIsEnd(ops[..n], key);
      }
    }
  }

  lemma {:induction false} NothingLost(ops: seq<Op>, n: nat, key: Text)
    requires NeverOver(ops, key) && n <= |ops|
    ensures Unread(After(ops[..n]), key) == Fifo(ops[..n], key)
  {
    if n > 0 {
      NothingLost(ops, n - 1, key);
      assert ops[..n][..n - 1] == ops[..n - 1] && ops[..n][n - 1] == ops[n - 1];
      UnreadAfter(After(ops[..n - 1]), ops[n - 1], key);
      assert |Fifo(ops[..n], key)| <= 8;
    }
  }

  /** The text is JSON for the value, up to the order of keys; an empty text stands for an empty object. */
  ghost predicate StandsFor(parse: Parser, text: Text, v: Json) {
    var read := parse(if text == [] then [LBRACE, RBRACE] else text);
    read.Some? && IsJson(read.value) && Norm(read.value) == Norm(v)
  }

  /**
   A flag recorded for a tool and an argument value is what a take with any JSON text of that value reads, after the
   flags recorded before it, as long as no more than eight wait.
   */
  lemma FlagFound(parse: Parser, m: Flags, tool: Text, v: Json, text: Text, isError: bool)
    requires IsJson(v) && StandsFor(parse, text, v)
    requires |Unread(m, FlagKey(parse, tool, AsValue(v)))| < UNREAD
    ensures var key := FlagKey(parse, tool, AsText(text));
            && key == FlagKey(parse, tool, AsValue(v))
            && Unread(Recorded(m, FlagKey(parse, tool, AsValue(v)), isError), key) == Unread(m, key) + [isError]
            && Flag(Recorded(m, FlagKey(parse, tool, AsValue(v)), isError), key)
               == Some((Unread(m, key) + [isError])[0])
  {
    KeysMeet(parse, tool, AsText(text), tool, AsValue(v));
  }

  /** No arguments, null, an empty text and an empty object all share one key of the tool. */
  lemma NoArguments(parse: Parser, tool: Text)
    requires parse([LBRACE, RBRACE]) == Some(Obj([]))
    ensures var key := FlagKey(parse, tool, AsValue(Obj([])));
            && FlagKey(parse, tool, Absent) == key
            && FlagKey(parse, tool, AsValue(Null)) == key
            && FlagKey(parse, tool, AsText([])) == key
            && forall text :: text != [] && parse(text) == Some(Null) ==> FlagKey(parse, tool, AsText(text)) == key
  {
  }

  /** Texts that are no JSON share a key exactly when they and their tools are the same. */
  lemma UnreadableTexts(parse: Parser, tool: Text, text: Text, tool': Text, text': Text)
    requires text != [] && text' != [] && parse(text).None? && parse(text').None? && NUL !in text && NUL !in text'
    ensures FlagKey(parse, tool, AsText(text)) == FlagKey(parse, tool', AsText(text')) <==>
            tool == tool' && text == text'
  {
    if FlagKey(parse, tool, AsText(text)) == FlagKey(parse, tool', AsText(text')) {
      LastNul(tool, tool', text, text');
    }
  }
}
