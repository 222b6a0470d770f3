/**
 The tool calls a request records from its stream: a call is recorded as made without error, an output settles the last
 recorded call of its id. What the record says in the end is proved from the events alone.
 */
module ToolCalls {
  datatype ToolCall = ToolCall(id: string, name: string, isError: bool)

  /** What the run's stream says about tool calls: one was called, one gave its output. */
  datatype CallEvent = Called(id: string, name: string) | Returned(id: string, name: string, isError: bool)

  const WRITE_PREFIXES: seq<string> := ["save_", "delete_", "create_", "triage_", "update_", "merge_", "submit_",
    "resolve_", "restore_", "external_"]

  predicate IsWriteTool(name: string) {
    exists i :: 0 <= i < |WRITE_PREFIXES| && WRITE_PREFIXES[i] <= name
  }

  predicate Wrote(calls: seq<ToolCall>) {
    exists i :: 0 <= i < |calls| && !calls[i].isError && IsWriteTool(calls[i].name)
  }

  /** The tools that write are told by how their names begin. */
  lemma WriteTools(name: string)
    ensures IsWriteTool(name) <==>
            || "save_" <= name || "delete_" <= name || "create_" <= name || "triage_" <= name || "update_" <= name
            || "merge_" <= name || "submit_" <= name || "resolve_" <= name || "restore_" <= name || "external_" <= name
  {
    var p := WRITE_PREFIXES;
    assert p[0] == "save_" && p[1] == "delete_" && p[2] == "create_" && p[3] == "triage_" && p[4] == "update_";
    assert p[5] == "merge_" && p[6] == "submit_" && p[7] == "resolve_" && p[8] == "restore_" && p[9] == "external_";
  }

  // ----- the record -----

  /** The calls after an event: a call is recorded, an output settles the last call of its id. */
  function Recorded(calls: seq<ToolCall>, event: CallEvent): seq<ToolCall> {
    match event
    case Called(id, name) => calls + [ToolCall(id, name, false)]
    case Returned(id, name, isError) =>
      var i := LastCall(calls, id);
      if i < 0 then calls + [ToolCall(id, name, isError)] else calls[i := calls[i].(isError := isError)]
  }

  function LastCall(calls: seq<ToolCall>, id: string): (i: int)
    ensures -1 <= i < |calls|
    ensures i >= 0 ==> calls[i].id == id
  {
    if calls == [] then -1
    else if calls[|calls| - 1].id == id then |calls| - 1
    else LastCall(calls[..|calls| - 1], id)
  }

  function RecordedAll(calls: seq<ToolCall>, events: seq<CallEvent>): seq<ToolCall> {
    if events == [] then calls
    else Recorded(RecordedAll(calls, events[..|events| - 1]), events[|events| - 1])
  }

  lemma {:induction false} RecordedAfter(calls: seq<ToolCall>, a: seq<CallEvent>, b: seq<CallEvent>)
    ensures RecordedAll(calls, a + b) == RecordedAll(RecordedAll(calls, a), b)
  {
    if b == [] {
      assert a + b == a;
    } else {
      var init := b[..|b| - 1];
      assert (a + b)[..|a + b| - 1] == a + init;
      RecordedAfter(calls, a, init);
    }
  }

  lemma {:induction false} LastCallIsLast(calls: seq<ToolCall>, id: string, k: nat)
    requires k < |calls| && calls[k].id == id
    ensures LastCall(calls, id) >= k
  {
    if calls[|calls| - 1].id != id {
      LastCallIsLast(calls[..|calls| - 1], id, k);
    }
  }

  // ----- what the events say -----

  /** The event at p brings a call of its own: it is a call, or an output for an id not seen before. */
  predicate Makes(events: seq<CallEvent>, p: nat)
    requires p < |events|
  {
    events[p].Called? || forall r :: 0 <= r < p ==> events[r].id != events[p].id
  }

  /** The event at q is an output for the call made at p: of its id, with no call of that id in between. */
  predicate Settles(events: seq<CallEvent>, p: nat, q: nat) {
    && p <= q < |events| && events[q].Returned? && events[q].id == events[p].id
    && forall r :: p < r < q && events[r].Called? ==> events[r].id != events[p].id
  }

  /** The last output for the call made at p is an error. */
  ghost predicate EndsInError(events: seq<CallEvent>, p: nat) {
    exists q: nat :: LastSettles(events, p, q) && events[q].isError
  }

  ghost predicate LastSettles(events: seq<CallEvent>, p: nat, q: nat) {
    Settles(events, p, q) && forall r :: q < r < |events| ==> !Settles(events, p, r)
  }

  /** Some write was made whose last output, if there is one, is not an error. */
  ghost predicate WriteStands(events: seq<CallEvent>) {
    exists p :: Stands(events, p)
  }

  ghost predicate Stands(events: seq<CallEvent>, p: nat) {
    p < |events| && Makes(events, p) && IsWriteTool(events[p].name) && !EndsInError(events, p)
  }

  /** The events that make the recorded calls, in the order of these. */
  function Makers(events: seq<CallEvent>): (m: seq<nat>)
    ensures forall k :: 0 <= k < |m| ==> m[k] < |events|
  {
    if events == [] then []
    else
      var n := |events| - 1;
      Makers(events[..n]) + (if Makes(events, n) then [n] else [])
  }

  // ----- one event more -----

  lemma SettlesStays(events: seq<CallEvent>, e: CallEvent, p: nat, q: nat)
    requires q < |events|
    ensures Settles(events + [e], p, q) <==> Settles(events, p, q)
  {
    assert forall r :: 0 <= r < |events| ==> (events + [e])[r] == events[r];
  }

  /** One more event that is an output for the call decides; any other changes nothing. */
  lemma EndsInErrorStep(events: seq<CallEvent>, e: CallEvent, p: nat)
    requires p < |events|
    ensures var all := events + [e];
            EndsInError(all, p) <==> if Settles(all, p, |events|) then e.isError else EndsInError(events, p)
  {
    var all, n := events + [e], |events|;
    forall q | 0 <= q < n ensures Settles(all, p, q) <==> Settles(events, p, q) {
      SettlesStays(events, e, p, q);
    }
    if Settles(all, p, n) {
      assert LastSettles(all, p, n);
    } else {
      forall q | 0 <= q < n ensures LastSettles(all, p, q) <==> LastSettles(events, p, q) {
      }
    }
  }

  /** The call just made. */
  lemma JustMade(events: seq<CallEvent>, e: CallEvent)
    ensures EndsInError(events + [e], |events|) <==> e.Returned? && e.isError
  {
    var all := events + [e];
    if e.Returned? {
      assert LastSettles(all, |events|, |events|);
    }
  }

  /** Makers are in order. */
  lemma {:induction false} MakersInOrder(events: seq<CallEvent>, k: nat, l: nat)
    requires k < l < |Makers(events)|
    ensures Makers(events)[k] < Makers(events)[l]
  {
    var init := events[..|events| - 1];
    if l < |Makers(init)| {
      MakersInOrder(init, k, l);
    }
  }

  lemma {:induction false} MakerMakes(events: seq<CallEvent>, k: nat)
    requires k < |Makers(events)|
    ensures Makes(events, Makers(events)[k])
  {
    var init := events[..|events| - 1];
    if k < |Makers(init)| {
      MakerMakes(init, k);
    }
  }

  /** An event that makes a call is one of the makers. */
  lemma {:induction false} MakerOf(events: seq<CallEvent>, p: nat) returns (k: nat)
    requires p < |events| && Makes(events, p)
    ensures k < |Makers(events)| && Makers(events)[k] == p
  {
    var init := events[..|events| - 1];
    if p < |init| {
      assert init[p] == events[p];
      k := MakerOf(init, p);
    } else {
      k := |Makers(init)|;
    }
  }

  /** The recorded call is the one made at p, and its flag says whether the last output for it is an error. */
  ghost predicate Records(events: seq<CallEvent>, p: nat, call: ToolCall)
    requires p < |events|
  {
    call.id == events[p].id && call.name == events[p].name && call.isError == EndsInError(events, p)
  }

  ghost predicate Reflects(events: seq<CallEvent>, calls: seq<ToolCall>) {
    && |calls| == |Makers(events)|
    && forall k :: 0 <= k < |calls| ==> Records(events, Makers(events)[k], calls[k])
  }

  lemma MakersStep(events: seq<CallEvent>, e: CallEvent)
    ensures Makers(events + [e]) == Makers(events) + (if Makes(events + [e], |events|) then [|events|] else [])
  {
    assert (events + [e])[..|events|] == events;
  }

  /** The record has a call of every id that was seen, the last one no earlier than any call of the id. */
  lemma MadeIsRecorded(events: seq<CallEvent>, calls: seq<ToolCall>, r: nat)
    requires Reflects(events, calls) && r < |events| && Makes(events, r)
    ensures LastCall(calls, events[r].id) >= 0 && Makers(events)[LastCall(calls, events[r].id)] >= r
  {
    var k := MakerOf(events, r);
    assert Records(events, r, calls[k]);
    LastCallIsLast(calls, events[r].id, k);
    var last := LastCall(calls, events[r].id);
    if k < last {
      MakersInOrder(events, k, last);
    }
  }

  lemma {:induction false} IdSeen(events: seq<CallEvent>, calls: seq<ToolCall>, r: nat)
    requires Reflects(events, calls) && r < |events|
    ensures LastCall(calls, events[r].id) >= 0
    decreases r
  {
    if Makes(events, r) {
      MadeIsRecorded(events, calls, r);
    } else {
      var before :| 0 <= before < r && events[before].id == events[r].id;
      IdSeen(events, calls, before);
    }
  }

  /** An output for an id of the record settles the last call of that id. */
  lemma SettlesLast(events: seq<CallEvent>, e: CallEvent, calls: seq<ToolCall>)
    requires Reflects(events, calls) && e.Returned? && LastCall(calls, e.id) >= 0
    ensures Settles(events + [e], Makers(events)[LastCall(calls, e.id)], |events|)
  {
    var all, last := events + [e], LastCall(calls, e.id);
    var p := Makers(events)[last];
    assert Records(events, p, calls[last]);
    forall r | p < r < |events| && all[r].Called? ensures all[r].id != e.id {
      if events[r].id == e.id {
        MadeIsRecorded(events, calls, r);
      }
    }
  }

  /** It settles no other call: between that call and the output the id was called again. */
  lemma SettlesNoOther(events: seq<CallEvent>, e: CallEvent, calls: seq<ToolCall>, k: nat)
    requires Reflects(events, calls) && e.Returned? && k < |calls| && k != LastCall(calls, e.id)
    ensures !Settles(events + [e], Makers(events)[k], |events|)
  {
    var m, last := Makers(events), LastCall(calls, e.id);
    assert Records(events, m[k], calls[k]);
    if calls[k].id == e.id {
      LastCallIsLast(calls, e.id, k);
      MakersInOrder(events, k, last);
      MakerMakes(events, last);
      assert Records(events, m[last], calls[last]);
      CalledAgain(events, m[k], m[last]);
      assert (events + [e])[m[last]] == events[m[last]];
    }
  }

  /** Only the first event of an id makes a call without being one. */
  lemma CalledAgain(events: seq<CallEvent>, p: nat, q: nat)
    requires p < q < |events| && Makes(events, q) && events[p].id == events[q].id
    ensures events[q].Called?
  {
  }

  lemma ReflectsCalled(events: seq<CallEvent>, e: CallEvent, calls: seq<ToolCall>)
    requires Reflects(events, calls) && e.Called?
    ensures Reflects(events + [e], Recorded(calls, e))
  {
    MakersStep(events, e);
    JustMade(events, e);
    forall k | 0 <= k < |calls| ensures Records(events + [e], Makers(events)[k], calls[k]) {
      assert Records(events, Makers(events)[k], calls[k]);
      EndsInErrorStep(events, e, Makers(events)[k]);
    }
  }

  /** An output keeps the record of all calls but the one it settles. */
  lemma RecordsReturned(events: seq<CallEvent>, e: CallEvent, calls: seq<ToolCall>, k: nat)
    requires Reflects(events, calls) && e.Returned? && k < |calls|
    ensures var call := if k == LastCall(calls, e.id) then calls[k].(isError := e.isError) else calls[k];
            Records(events + [e], Makers(events)[k], call)
  {
    assert Records(events, Makers(events)[k], calls[k]);
    if k == LastCall(calls, e.id) {
      SettlesLast(events, e, calls);
    } else {
      SettlesNoOther(events, e, calls, k);
    }
    EndsInErrorStep(events, e, Makers(events)[k]);
  }

  lemma ReflectsReturned(events: seq<CallEvent>, e: CallEvent, calls: seq<ToolCall>)
    requires Reflects(events, calls) && e.Returned?
    ensures Reflects(events + [e], Recorded(calls, e))
  {
    var all, m, after := events + [e], Makers(events), Recorded(calls, e);
    MakersStep(events, e);
    JustMade(events, e);
    MakesIffUnseen(events, e, calls);
    forall k | 0 <= k < |calls| ensures Records(all, m[k], after[k]) {
      RecordsReturned(events, e, calls, k);
    }
  }

  lemma MakesIffUnseen(events: seq<CallEvent>, e: CallEvent, calls: seq<ToolCall>)
    requires Reflects(events, calls) && e.Returned?
    ensures Makes(events + [e], |events|) <==> LastCall(calls, e.id) < 0
  {
    var all, last := events + [e], LastCall(calls, e.id);
    if last >= 0 {
      assert Records(events, Makers(events)[last], calls[last]);
      assert all[Makers(events)[last]].id == e.id;
    } else {
      forall r | 0 <= r < |events| ensures all[r].id != e.id {
        if events[r].id == e.id {
          IdSeen(events, calls, r);
        }
      }
    }
  }

  /** The record of any events says of every call made whether its last output is an error. */
  lemma {:induction false} RecordReflects(events: seq<CallEvent>)
    ensures Reflects(events, RecordedAll([], events))
  {
    if events != [] {
      var init, e := events[..|events| - 1], events[|events| - 1];
      RecordReflects(init);
      assert events == init + [e];
      if e.Called? {
        ReflectsCalled(init, e, RecordedAll([], init));
      } else {
        ReflectsReturned(init, e, RecordedAll([], init));
      }
    }
  }

  /** A write is recorded without error if and only if one was made whose last output is not an error. */
  lemma WroteExactly(events: seq<CallEvent>)
    ensures Wrote(RecordedAll([], events)) <==> WriteStands(events)
  {
    var calls, m := RecordedAll([], events), Makers(events);
    RecordReflects(events);
    if Wrote(calls) {
      var k :| 0 <= k < |calls| && !calls[k].isError && IsWriteTool(calls[k].name);
      assert Records(events, m[k], calls[k]);
      MakerMakes(events, k);
      assert Stands(events, m[k]);
    }
    if WriteStands(events) {
      var p :| Stands(events, p);
      var k := MakerOf(events, p);
      assert Records(events, p, calls[k]);
      assert !calls[k].isError && IsWriteTool(calls[k].name);
    }
  }

  // ----- more events -----

  /** One of the events from position n on is an output for the call made at p, and the last of these is an error. */
  ghost predicate TurnsToError(events: seq<CallEvent>, p: nat, n: nat) {
    exists q: nat :: n <= q && LastSettles(events, p, q) && events[q].isError
  }

  /**
   A call without error becomes an error by more events if and only if they bring an output for it and the last one is
   an error.
   */
  lemma BecomesError(events: seq<CallEvent>, more: seq<CallEvent>, p: nat)
    requires p < |events| && Makes(events, p) && !EndsInError(events, p)
    ensures Makes(events + more, p)
    ensures EndsInError(events + more, p) <==> TurnsToError(events + more, p, |events|)
  {
    var all, n := events + more, |events|;
    assert forall r :: 0 <= r < n ==> all[r] == events[r];
    forall q: nat | q < n ensures Settles(all, p, q) <==> Settles(events, p, q) {
    }
    assert forall q: nat :: q < n && LastSettles(all, p, q) ==> LastSettles(events, p, q);
  }
}
