/**
 A session's history: how a stopped or failed run is repaired so that every function call keeps a result in its own
 request, and how the history sent to the model is compacted without taking a call from its result.
 */
module History {
  import opened Basics

  datatype Role = User | Assistant

  /**
   A tool's output: text (a string or a text part), anything else, or the text compaction puts in place of a long one,
   a head and a note with the number of characters left out.
   */
  datatype Output = Text(text: string) | Parts(count: nat) | HeadAndNote(head: string, more: int)

  /** An SDK input item. `typed` says that a message carries type "message"; `id` is empty when it has none. */
  datatype Item =
    | Message(typed: bool, role: Role, id: string, body: string)
    | Call(callId: string, name: string, arguments: string)
    | Result(callId: string, name: string, output: Output)

  /** The start of a request, as far as compaction can tell. */
  predicate IsUser(item: Item) { item.Message? && item.typed && item.role.User? }

  // ----- pairing -----

  /** No request starts between positions i and j. */
  ghost predicate SameRequest(h: seq<Item>, i: nat, j: nat)
    requires i < |h| && j < |h|
  {
    forall k :: i < k <= j ==> !IsUser(h[k])
  }

  /** The call at i has a result at j, later in the same request. */
  ghost predicate Pair(h: seq<Item>, i: nat, j: nat) {
    i < j < |h| && h[i].Call? && h[j].Result? && h[j].callId == h[i].callId && SameRequest(h, i, j)
  }

  ghost predicate HasResult(h: seq<Item>, i: nat) { exists j :: Pair(h, i, j) }

  ghost predicate HasCall(h: seq<Item>, j: nat) { exists i :: Pair(h, i, j) }

  /** Every function call has a result after it in its request, and every result its call before it. */
  ghost predicate Paired(h: seq<Item>) {
    && (forall i :: 0 <= i < |h| && h[i].Call? ==> HasResult(h, i))
    && (forall j :: 0 <= j < |h| && h[j].Result? ==> HasCall(h, j))
  }

  // ----- repair -----

  datatype Key = CallKey(id: string) | ResultKey(id: string) | IdKey(id: string) | ItemKey(item: Item)

  function KeyOf(item: Item): Key {
    match item
    case Call(id, _, _) => CallKey(id)
    case Result(id, _, _) => ResultKey(id)
    case Message(_, _, id, _) => if id != "" then IdKey(id) else ItemKey(item)
  }

  function Missing(items: seq<Item>, seen: set<Key>): seq<Item> {
    if items == [] then []
    else (if KeyOf(items[0]) in seen then [] else [items[0]]) + Missing(items[1..], seen)
  }

  function Keys(h: seq<Item>): set<Key> {
    set i | 0 <= i < |h| :: KeyOf(h[i])
  }

  function WithMissing(h: seq<Item>, items: seq<Item>): seq<Item> {
    h + Missing(items, Keys(h))
  }

  /** The ids that have a result. */
  function ResultIds(h: seq<Item>): (r: set<string>)
    ensures forall i :: 0 <= i < |h| && h[i].Result? ==> h[i].callId in r
  {
    if h == [] then {} else (if h[0].Result? then {h[0].callId} else {}) + ResultIds(h[1..])
  }

  /** Results for the calls of h whose id is not among the given ones. */
  function Closing(h: seq<Item>, ids: set<string>, reason: string): seq<Item> {
    if h == [] then []
    else
      (if h[0].Call? && h[0].callId !in ids then [Result(h[0].callId, h[0].name, Text(reason))] else [])
      + Closing(h[1..], ids, reason)
  }

  function CloseDangling(h: seq<Item>, reason: string): seq<Item> {
    h + Closing(h, ResultIds(h), reason)
  }

  /** What a stop or a failure leaves: the items the run produced are added, dangling calls closed. */
  function Repaired(h: seq<Item>, produced: seq<Item>, reason: string): seq<Item> {
    CloseDangling(WithMissing(h, produced), reason)
  }

  class MemorySession {
    var items: seq<Item>

    constructor (items: seq<Item>)
      ensures this.items == items
    {
      this.items := items;
    }

    method AddItems(added: seq<Item>)
      modifies this
      ensures items == old(items) + added
    {
      items := items + added;
    }

    method AddMissing(produced: seq<Item>)
      modifies this
      ensures items == WithMissing(old(items), produced)
    {
      var seen := Keys(items);
      AddItems(Missing(produced, seen));
    }

    method CloseDanglingCalls(reason: string) returns (closed: nat)
      modifies this
      ensures items == CloseDangling(old(items), reason) && closed == |items| - |old(items)|
    {
      var dangling := Closing(items, ResultIds(items), reason);
      closed := |dangling|;
      if closed > 0 {
        AddItems(dangling);
      }
    }
  }

  /** What happens to a history: a run that finishes, one that is stopped or fails, a held call replayed. */
  datatype Turn =
    | Finished(request: Item, items: seq<Item>)
    | Broken(request: Item, saved: seq<Item>, produced: seq<Item>, reason: string)
    | Replayed(call: Item, result: Item)

  /** Items a run produces: calls, results and the model's messages. */
  ghost predicate NoUsers(items: seq<Item>) {
    forall i :: 0 <= i < |items| ==> !IsUser(items[i])
  }

  /** The ids that are called. */
  function CallIds(items: seq<Item>): (r: set<string>)
    ensures forall i :: 0 <= i < |items| && items[i].Call? ==> items[i].callId in r
  {
    if items == [] then {} else Called({}, items[0]) + CallIds(items[1..])
  }

  function Called(ids: set<string>, item: Item): set<string> {
    if item.Call? then ids + {item.callId} else ids
  }

  /** Every result comes after a call of its id, among the items or given before them. */
  predicate Follows(items: seq<Item>, given: set<string>) {
    items == [] || (
      && (items[0].Result? ==> items[0].callId in given)
      && Follows(items[1..], Called(given, items[0])))
  }

  /** No call's id is used twice, or used before. */
  predicate Once(items: seq<Item>, used: set<string>) {
    items == [] || (
      && (items[0].Call? ==> items[0].callId !in used)
      && Once(items[1..], Called(used, items[0])))
  }

  /** Items a run may bring: each call id once, results after their calls, and the model's messages. */
  ghost predicate RunItems(items: seq<Item>) {
    NoUsers(items) && Follows(items, {}) && Once(items, {})
  }

  /** A finished run is stored whole; of a broken one the SDK stored some items and the stream brought some. */
  ghost predicate Possible(turn: Turn) {
    match turn
    case Finished(request, items) => request.Message? && NoUsers(items) && Paired(items)
    case Broken(request, saved, produced, _) => request.Message? && RunItems(saved) && RunItems(produced)
    case Replayed(call, result) => call.Call? && result.Result? && result.callId == call.callId
  }

  function After(h: seq<Item>, turn: Turn): seq<Item> {
    match turn
    case Finished(request, items) => h + [request] + items
    case Broken(request, saved, produced, reason) => Repaired(h + [request] + saved, produced, reason)
    case Replayed(call, result) => h + [call, result]
  }

  // ----- what repair appends -----

  lemma {:induction false} FollowsMore(a: seq<Item>, b: seq<Item>, given: set<string>)
    requires Follows(a, given) && Follows(b, given + CallIds(a))
    ensures Follows(a + b, given)
  {
    if a == [] {
      assert a + b == b && given + CallIds(a) == given;
    } else {
      assert given + CallIds(a) == Called(given, a[0]) + CallIds(a[1..]);
      FollowsMore(a[1..], b, Called(given, a[0]));
      assert (a + b)[1..] == a[1..] + b;
    }
  }

  lemma {:induction false} OnceMore(a: seq<Item>, b: seq<Item>, used: set<string>)
    requires Once(a, used) && Once(b, used + CallIds(a))
    ensures Once(a + b, used)
  {
    if a == [] {
      assert a + b == b && used + CallIds(a) == used;
    } else {
      assert used + CallIds(a) == Called(used, a[0]) + CallIds(a[1..]);
      OnceMore(a[1..], b, Called(used, a[0]));
      assert (a + b)[1..] == a[1..] + b;
    }
  }

  /**
   What is missing follows its calls as far as they are kept: a result whose call is older than the run is filtered like
   that call.
   */
  lemma {:induction false} MissingFollows(items: seq<Item>, seen: set<Key>, given: set<string>, kept: set<string>,
                                          older: set<string>)
    requires Follows(items, given) && given <= kept + older
    requires forall id :: id in CallIds(items) && CallKey(id) in seen ==> id in kept + older
    requires forall id :: id in older ==> ResultKey(id) in seen
    ensures Follows(Missing(items, seen), kept)
  {
    if items != [] {
      var item, rest := items[0], Missing(items[1..], seen);
      if KeyOf(item) in seen {
        MissingFollows(items[1..], seen, Called(given, item), kept, older);
        assert Missing(items, seen) == rest;
      } else {
        MissingFollows(items[1..], seen, Called(given, item), Called(kept, item), older);
        assert ([item] + rest)[1..] == rest;
      }
    }
  }

  /** What is missing uses no id twice. */
  lemma {:induction false} MissingOnce(items: seq<Item>, seen: set<Key>, used: set<string>)
    requires Once(items, used)
    ensures Once(Missing(items, seen), used)
  {
    if items != [] {
      var item, rest := items[0], Missing(items[1..], seen);
      MissingOnce(items[1..], seen, Called(used, item));
      if KeyOf(item) in seen {
        OnceFewer(rest, used, Called(used, item));
        assert Missing(items, seen) == rest;
      } else {
        assert ([item] + rest)[1..] == rest;
      }
    }
  }

  lemma {:induction false} OnceFewer(items: seq<Item>, used: set<string>, more: set<string>)
    requires used <= more && Once(items, more)
    ensures Once(items, used)
  {
    if items != [] {
      OnceFewer(items[1..], Called(used, items[0]), Called(more, items[0]));
    }
  }

  /** The missing items are the produced ones whose key is not there yet. */
  lemma {:induction false} MissingAre(items: seq<Item>, seen: set<Key>)
    ensures forall m :: m in Missing(items, seen) <==> m in items && KeyOf(m) !in seen
    ensures NoUsers(items) ==> NoUsers(Missing(items, seen))
  {
    if items != [] {
      var item, rest := items[0], Missing(items[1..], seen);
      MissingAre(items[1..], seen);
      assert items == [item] + items[1..];
      if NoUsers(items) {
        assert forall i :: 0 <= i < |items[1..]| ==> items[1..][i] == items[i + 1];
      }
      if KeyOf(item) in seen {
        assert Missing(items, seen) == rest;
      }
    }
  }

  /** The ids of the missing items. */
  lemma {:induction false} MissingIds(items: seq<Item>, seen: set<Key>, calls: set<string>, results: set<string>)
    requires forall id :: CallKey(id) in seen <==> id in calls
    requires forall id :: ResultKey(id) in seen <==> id in results
    ensures CallIds(Missing(items, seen)) == CallIds(items) - calls
    ensures ResultIds(Missing(items, seen)) == ResultIds(items) - results
  {
    if items != [] {
      var item, rest := items[0], Missing(items[1..], seen);
      MissingIds(items[1..], seen, calls, results);
      if KeyOf(item) in seen {
        assert Missing(items, seen) == rest;
      } else {
        assert ([item] + rest)[1..] == rest;
      }
    }
  }

  /** Ids used before the items do not matter if none of the items' calls has one. */
  lemma {:induction false} OnceAfter(items: seq<Item>, used: set<string>, before: set<string>)
    requires Once(items, used) && CallIds(items) !! before
    ensures Once(items, used + before)
  {
    if items != [] {
      OnceAfter(items[1..], Called(used, items[0]), before);
      assert Called(used, items[0]) + before == Called(used + before, items[0]);
    }
  }

  /** The closing results are for the ids called without a result, and there is one for each. */
  lemma {:induction false} ClosingAre(h: seq<Item>, ids: set<string>, reason: string)
    ensures var closing := Closing(h, ids, reason);
            && (forall k :: 0 <= k < |closing| ==> closing[k].Result?)
            && ResultIds(closing) == CallIds(h) - ids
            && (closing == [] <==> CallIds(h) <= ids)
  {
    if h != [] {
      var rest, all := Closing(h[1..], ids, reason), Closing(h, ids, reason);
      ClosingAre(h[1..], ids, reason);
      if h[0].Call? && h[0].callId !in ids {
        assert all[1..] == rest;
      } else {
        assert all == rest;
      }
    }
  }

  lemma {:induction false} ResultsFollow(items: seq<Item>, given: set<string>, used: set<string>)
    requires (forall i :: 0 <= i < |items| ==> items[i].Result?) && ResultIds(items) <= given
    ensures Follows(items, given) && Once(items, used) && CallIds(items) == {} && NoUsers(items)
  {
    if items != [] {
      ResultsFollow(items[1..], given, used);
      assert Called(given, items[0]) == given && Called(used, items[0]) == used;
      assert forall i :: 0 < i < |items| ==> items[i] == items[1..][i - 1];
    }
  }

  // ----- pairs by position -----

  lemma {:induction false} CallBefore(items: seq<Item>, given: set<string>, j: nat) returns (i: nat)
    requires Follows(items, given) && j < |items| && items[j].Result? && items[j].callId !in given
    ensures i < j && items[i].Call? && items[i].callId == items[j].callId
  {
    if items[0].Call? && items[0].callId == items[j].callId {
      i := 0;
    } else {
      i := CallBefore(items[1..], Called(given, items[0]), j - 1);
      i := i + 1;
    }
  }

  lemma {:induction false} NotUsed(items: seq<Item>, used: set<string>, i: nat)
    requires Once(items, used) && i < |items| && items[i].Call?
    ensures items[i].callId !in used
  {
    if i > 0 {
      NotUsed(items[1..], Called(used, items[0]), i - 1);
    }
  }

  lemma {:induction false} CallOnce(items: seq<Item>, used: set<string>, i: nat, k: nat)
    requires Once(items, used) && i < k < |items| && items[i].Call? && items[k].Call?
    ensures items[i].callId != items[k].callId
  {
    if i > 0 {
      CallOnce(items[1..], Called(used, items[0]), i - 1, k - 1);
    } else {
      NotUsed(items[1..], Called(used, items[0]), k - 1);
    }
  }

  lemma {:induction false} ResultSomewhere(items: seq<Item>, id: string) returns (j: nat)
    requires id in ResultIds(items)
    ensures j < |items| && items[j].Result? && items[j].callId == id
  {
    if items[0].Result? && items[0].callId == id {
      j := 0;
    } else {
      j := ResultSomewhere(items[1..], id);
      j := j + 1;
    }
  }

  /** In what a run brings every result has its call before it. */
  lemma RunCalls(items: seq<Item>, j: nat)
    requires RunItems(items) && j < |items| && items[j].Result?
    ensures HasCall(items, j)
  {
    var i := CallBefore(items, {}, j);
    assert Pair(items, i, j);
  }

  /** What a run brings is paired if and only if every called id has a result. */
  lemma RunPaired(items: seq<Item>)
    requires RunItems(items)
    ensures Paired(items) <==> CallIds(items) <= ResultIds(items)
  {
    forall j | 0 <= j < |items| && items[j].Result? ensures HasCall(items, j) {
      RunCalls(items, j);
    }
    if CallIds(items) <= ResultIds(items) {
      forall i | 0 <= i < |items| && items[i].Call? ensures HasResult(items, i) {
        var j := ResultSomewhere(items, items[i].callId);
        var k := CallBefore(items, {}, j);
        if i < k { CallOnce(items, {}, i, k); }
        if k < i { CallOnce(items, {}, k, i); }
        assert Pair(items, i, j);
      }
    }
    if Paired(items) {
      PairedIds(items);
    }
  }

  lemma PairStays(h: seq<Item>, more: seq<Item>, i: nat, j: nat)
    requires Pair(h, i, j)
    ensures Pair(h + more, i, j)
  {
  }

  lemma PairShifts(h: seq<Item>, more: seq<Item>, i: nat, j: nat)
    requires Pair(more, i, j)
    ensures Pair(h + more, |h| + i, |h| + j)
  {
    assert forall k :: |h| <= k < |h| + |more| ==> (h + more)[k] == more[k - |h|];
  }

  lemma ResultStays(h: seq<Item>, more: seq<Item>, i: nat)
    ensures HasResult(h, i) ==> HasResult(h + more, i)
    ensures HasResult(more, i) ==> HasResult(h + more, |h| + i)
  {
    if HasResult(h, i) {
      var j :| Pair(h, i, j);
      PairStays(h, more, i, j);
    }
    if HasResult(more, i) {
      var j :| Pair(more, i, j);
      PairShifts(h, more, i, j);
    }
  }

  lemma CallStays(h: seq<Item>, more: seq<Item>, j: nat)
    ensures HasCall(h, j) ==> HasCall(h + more, j)
    ensures HasCall(more, j) ==> HasCall(h + more, |h| + j)
  {
    if HasCall(h, j) {
      var i :| Pair(h, i, j);
      PairStays(h, more, i, j);
    }
    if HasCall(more, j) {
      var i :| Pair(more, i, j);
      PairShifts(h, more, i, j);
    }
  }

  /** Paired histories stay paired when one is put after the other. */
  lemma PairedMore(h: seq<Item>, more: seq<Item>)
    requires Paired(h) && Paired(more)
    ensures Paired(h + more)
  {
    var all, n := h + more, |h|;
    forall i | 0 <= i < |all| && all[i].Call? ensures HasResult(all, i) {
      ResultStays(h, more, if i < n then i else i - n);
    }
    forall j | 0 <= j < |all| && all[j].Result? ensures HasCall(all, j) {
      CallStays(h, more, if j < n then j else j - n);
    }
  }

  /** A history whose last request is paired. */
  lemma LastRequestPaired(h: seq<Item>, request: Item, tail: seq<Item>)
    requires Paired(h) && request.Message? && Paired(tail)
    ensures Paired(h + [request] + tail)
  {
    PairedMore(h, [request]);
    PairedMore(h + [request], tail);
  }

  /** A result comes after its call, so what comes before the tail does not pair the tail's calls. */
  lemma TailPaired(h: seq<Item>, tail: seq<Item>)
    requires Paired(h) && RunItems(tail)
    ensures Paired(h + tail) <==> Paired(tail)
  {
    if Paired(tail) {
      PairedMore(h, tail);
    }
    if Paired(h + tail) {
      forall i | 0 <= i < |tail| && tail[i].Call? ensures HasResult(tail, i) {
        assert (h + tail)[|h| + i] == tail[i] && HasResult(h + tail, |h| + i);
        var j :| Pair(h + tail, |h| + i, j);
        PairUnshifts(h, tail, i, j);
      }
      forall j | 0 <= j < |tail| && tail[j].Result? ensures HasCall(tail, j) {
        RunCalls(tail, j);
      }
    }
  }

  lemma PairUnshifts(h: seq<Item>, tail: seq<Item>, i: nat, j: nat)
    requires Pair(h + tail, |h| + i, j)
    ensures Pair(tail, i, j - |h|)
  {
    assert forall k :: 0 <= k < |tail| ==> tail[k] == (h + tail)[|h| + k];
  }

  // ----- ids -----

  /** The ids called in a paired history are those that have a result there. */
  lemma PairedIds(h: seq<Item>)
    requires Paired(h)
    ensures CallIds(h) == ResultIds(h)
  {
    forall id | id in CallIds(h) ensures id in ResultIds(h) {
      var i := CallSomewhere(h, id);
      var j :| Pair(h, i, j);
    }
    forall id | id in ResultIds(h) ensures id in CallIds(h) {
      var j := ResultSomewhere(h, id);
      var i :| Pair(h, i, j);
    }
  }

  lemma {:induction false} CallSomewhere(items: seq<Item>, id: string) returns (i: nat)
    requires id in CallIds(items)
    ensures i < |items| && items[i].Call? && items[i].callId == id
  {
    if items[0].Call? && items[0].callId == id {
      i := 0;
    } else {
      i := CallSomewhere(items[1..], id);
      i := i + 1;
    }
  }

  lemma {:induction false} IdsConcat(a: seq<Item>, b: seq<Item>)
    ensures CallIds(a + b) == CallIds(a) + CallIds(b)
    ensures ResultIds(a + b) == ResultIds(a) + ResultIds(b)
  {
    if a == [] {
      assert a + b == b;
    } else {
      IdsConcat(a[1..], b);
      assert (a + b)[1..] == a[1..] + b;
    }
  }

  lemma {:induction false} FollowingIds(items: seq<Item>, given: set<string>)
    requires Follows(items, given)
    ensures ResultIds(items) <= given + CallIds(items)
  {
    if items != [] {
      FollowingIds(items[1..], Called(given, items[0]));
    }
  }

  lemma KeysOf(items: seq<Item>, id: string)
    ensures CallKey(id) in Keys(items) <==> id in CallIds(items)
    ensures ResultKey(id) in Keys(items) <==> id in ResultIds(items)
  {
    if id in CallIds(items) {
      var i := CallSomewhere(items, id);
      assert KeyOf(items[i]) == CallKey(id);
    }
    if id in ResultIds(items) {
      var j := ResultSomewhere(items, id);
      assert KeyOf(items[j]) == ResultKey(id);
    }
  }

  // ----- repair, whatever ids a run brings -----

  /** The keys a run finds in the history are those of the requests before it and those it stored itself. */
  lemma AlreadyThere(h: seq<Item>, request: Item, saved: seq<Item>, id: string)
    requires Paired(h) && request.Message?
    ensures CallKey(id) in Keys(h + [request] + saved) <==> id in CallIds(h) + CallIds(saved)
    ensures ResultKey(id) in Keys(h + [request] + saved) <==> id in CallIds(h) + ResultIds(saved)
  {
    PairedIds(h);
    KeysOf(h + [request] + saved, id);
    IdsConcat(h, [request]);
    IdsConcat(h + [request], saved);
  }

  /** The items repair adds to the stored ones before it closes calls. */
  ghost function Added(h: seq<Item>, request: Item, saved: seq<Item>, produced: seq<Item>): seq<Item> {
    Missing(produced, Keys(h + [request] + saved))
  }

  lemma AddedIds(h: seq<Item>, request: Item, saved: seq<Item>, produced: seq<Item>)
    requires Paired(h) && request.Message?
    ensures CallIds(Added(h, request, saved, produced)) == CallIds(produced) - (CallIds(h) + CallIds(saved))
    ensures ResultIds(Added(h, request, saved, produced)) == ResultIds(produced) - (CallIds(h) + ResultIds(saved))
  {
    var seen := Keys(h + [request] + saved);
    forall id
      ensures CallKey(id) in seen <==> id in CallIds(h) + CallIds(saved)
      ensures ResultKey(id) in seen <==> id in CallIds(h) + ResultIds(saved)
    {
      AlreadyThere(h, request, saved, id);
    }
    MissingIds(produced, seen, CallIds(h) + CallIds(saved), CallIds(h) + ResultIds(saved));
  }

  /** What a run stored and what is missing of what it produced. */
  lemma StoredAndMissing(h: seq<Item>, request: Item, saved: seq<Item>, produced: seq<Item>)
    requires Paired(h) && request.Message? && RunItems(saved) && RunItems(produced)
    ensures RunItems(saved + Added(h, request, saved, produced))
  {
    var seen, missing := Keys(h + [request] + saved), Added(h, request, saved, produced);
    MissingAre(produced, seen);
    forall id
      ensures CallKey(id) in seen <==> id in CallIds(h) + CallIds(saved)
      ensures ResultKey(id) in seen <==> id in CallIds(h) + ResultIds(saved)
    {
      AlreadyThere(h, request, saved, id);
    }
    MissingFollows(produced, seen, {}, {} + CallIds(saved), CallIds(h));
    FollowsMore(saved, missing, {});
    MissingOnce(produced, seen, {});
    AddedIds(h, request, saved, produced);
    OnceAfter(missing, {}, CallIds(saved));
    OnceMore(saved, missing, {});
  }

  /** The calls of the last request that repair leaves without a result: stored ones whose id had a result before. */
  function Unanswered(h: seq<Item>, saved: seq<Item>): set<string> {
    CallIds(saved) * ResultIds(h) - ResultIds(saved)
  }

  /** A call or a result of an id that neither the requests before nor what the run stored has one of. */
  predicate NewItem(h: seq<Item>, saved: seq<Item>, m: Item)
    requires !m.Message?
  {
    m.callId !in CallIds(h) && m.callId !in (if m.Call? then CallIds(saved) else ResultIds(saved))
  }

  /**
   What repair makes of the last request: no user item, every result with its call before it. The calls in it are the
   stored ones and the produced ones with ids new to the history; all but the unanswered have a result. Of the produced
   items those are in it that were stored, or that nothing of their kind and id comes before.
   */
  lemma RepairedTail(h: seq<Item>, request: Item, saved: seq<Item>, produced: seq<Item>, reason: string)
    returns (tail: seq<Item>)
    requires Paired(h) && request.Message? && RunItems(saved) && RunItems(produced)
    ensures Repaired(h + [request] + saved, produced, reason) == h + [request] + tail
    ensures RunItems(tail)
    ensures CallIds(tail) == CallIds(saved) + (CallIds(produced) - CallIds(h))
    ensures CallIds(tail) - ResultIds(tail) == Unanswered(h, saved)
    ensures forall m :: m in produced && !m.Message? ==> (m in tail <==> m in saved || NewItem(h, saved, m))
    ensures forall m :: m in produced && m.Message? ==>
              (m in tail <==> m in saved || NewMessage(h + [request] + saved, m))
  {
    var front, missing := h + [request], Added(h, request, saved, produced);
    var both, mid := saved + missing, front + saved + missing;
    StoredAndMissing(h, request, saved, produced);
    AddedIds(h, request, saved, produced);
    var closing := Closing(mid, ResultIds(mid), reason);
    tail := both + closing;
    Regroup(front, saved, missing, closing);
    PairedIds(h);
    IdsConcat(h, [request]);
    IdsConcat(front, both);
    IdsConcat(saved, missing);
    FollowingIds(saved, {});
    ClosedTail(h, both, mid, closing, reason);
    UnansweredAre(h, saved, produced, both, tail);
    forall m | m in produced && !m.Message? ensures m in tail <==> m in saved || NewItem(h, saved, m) {
      ProducedKept(h, request, saved, produced, reason, m);
    }
    forall m | m in produced && m.Message?
      ensures m in tail <==> m in saved || NewMessage(h + [request] + saved, m)
    {
      MessageKept(h, request, saved, produced, reason, m);
    }
  }

  lemma Regroup(a: seq<Item>, b: seq<Item>, c: seq<Item>, d: seq<Item>)
    ensures a + b + c == a + (b + c) && a + b + c + d == a + (b + c + d)
  {
  }

  lemma ClosedTail(h: seq<Item>, both: seq<Item>, mid: seq<Item>, closing: seq<Item>, reason: string)
    requires CallIds(mid) == CallIds(h) + CallIds(both) && ResultIds(mid) == CallIds(h) + ResultIds(both)
    requires RunItems(both) && closing == Closing(mid, ResultIds(mid), reason)
    ensures RunItems(both + closing) && CallIds(both + closing) == CallIds(both)
    ensures ResultIds(both + closing) == ResultIds(both) + (CallIds(both) - CallIds(h))
  {
    ClosingAre(mid, ResultIds(mid), reason);
    ResultsFollow(closing, {} + CallIds(both), {} + CallIds(both));
    FollowsMore(both, closing, {});
    OnceMore(both, closing, {});
    IdsConcat(both, closing);
  }

  lemma UnansweredAre(h: seq<Item>, saved: seq<Item>, produced: seq<Item>, both: seq<Item>, tail: seq<Item>)
    requires CallIds(h) == ResultIds(h)
    requires CallIds(both) == CallIds(saved) + (CallIds(produced) - (CallIds(h) + CallIds(saved))) == CallIds(tail)
    requires ResultIds(both) == ResultIds(saved) + (ResultIds(produced) - (CallIds(h) + ResultIds(saved)))
    requires ResultIds(tail) == ResultIds(both) + (CallIds(both) - CallIds(h))
    ensures CallIds(tail) - ResultIds(tail) == Unanswered(h, saved)
  {
  }

  /** No message there has the id, or, for a message without id, no message there is the same. */
  predicate NewMessage(there: seq<Item>, m: Item)
    requires m.Message?
  {
    forall i :: 0 <= i < |there| && there[i].Message? ==> if m.id != "" then there[i].id != m.id else there[i] != m
  }

  lemma MessageKept(h: seq<Item>, request: Item, saved: seq<Item>, produced: seq<Item>, reason: string, m: Item)
    requires m in produced && m.Message?
    ensures var mid := h + [request] + saved + Added(h, request, saved, produced);
            m in saved + Added(h, request, saved, produced) + Closing(mid, ResultIds(mid), reason)
            <==> m in saved || NewMessage(h + [request] + saved, m)
  {
    var there := h + [request] + saved;
    var mid := there + Added(h, request, saved, produced);
    MissingAre(produced, Keys(there));
    ClosingAre(mid, ResultIds(mid), reason);
    NewMessageKey(there, m);
  }

  lemma NewMessageKey(there: seq<Item>, m: Item)
    requires m.Message?
    ensures KeyOf(m) !in Keys(there) <==> NewMessage(there, m)
  {
    if KeyOf(m) in Keys(there) {
      var i :| 0 <= i < |there| && KeyOf(there[i]) == KeyOf(m);
    }
  }

  lemma ProducedKept(h: seq<Item>, request: Item, saved: seq<Item>, produced: seq<Item>, reason: string, m: Item)
    requires Paired(h) && request.Message? && m in produced && !m.Message?
    ensures var mid := h + [request] + saved + Added(h, request, saved, produced);
            m in saved + Added(h, request, saved, produced) + Closing(mid, ResultIds(mid), reason)
            <==> m in saved || NewItem(h, saved, m)
  {
    var seen, missing := Keys(h + [request] + saved), Added(h, request, saved, produced);
    var mid := h + [request] + saved + missing;
    var closing := Closing(mid, ResultIds(mid), reason);
    AlreadyThere(h, request, saved, m.callId);
    MissingAre(produced, seen);
    assert m in missing <==> NewItem(h, saved, m);
    KeysOf(h + [request] + saved, m.callId);
    IdsConcat(h + [request] + saved, missing);
    ClosingAre(mid, ResultIds(mid), reason);
    assert m.Result? ==> m.callId in ResultIds(mid);
  }

  /**
   Repair leaves a paired history paired if and only if every stored call whose id already had a result before was
   stored with a result of its own.
   */
  lemma RepairPairs(h: seq<Item>, request: Item, saved: seq<Item>, produced: seq<Item>, reason: string)
    requires Paired(h) && request.Message? && RunItems(saved) && RunItems(produced)
    ensures Paired(Repaired(h + [request] + saved, produced, reason)) <==> Unanswered(h, saved) == {}
  {
    var tail := RepairedTail(h, request, saved, produced, reason);
    PairedMore(h, [request]);
    TailPaired(h + [request], tail);
    RunPaired(tail);
  }

  /** The id comes again in a later request: its old result keeps the new call from being closed. */
  lemma ReusedIdStaysOpen(id: string, name: string, arguments: string, output: Output, request: Item, reason: string)
    requires request.Message?
    ensures var h := [request, Call(id, name, arguments), Result(id, name, output)];
            Paired(h) && !Paired(Repaired(h + [request] + [Call(id, name, arguments)], [], reason))
  {
    var call, result := Call(id, name, arguments), Result(id, name, output);
    var h, saved := [request, call, result], [call];
    assert Pair(h, 1, 2);
    assert h[2] == result && id in ResultIds(h);
    assert saved[1..] == [] && saved[0].callId in CallIds(saved) && ResultIds(saved) == {};
    RepairPairs(h, request, saved, [], reason);
  }

  /** A call that ran, and its result, vanish if their id was called in an earlier request. */
  lemma ReusedIdVanishes(h: seq<Item>, request: Item, call: Item, result: Item, reason: string)
    requires Paired(h) && request.Message? && call.Call? && result.Result? && result.callId == call.callId
    requires call.callId in CallIds(h)
    ensures Repaired(h + [request], [call, result], reason) == h + [request]
  {
    var mid := h + [request];
    AlreadyThere(h, request, [], call.callId);
    assert mid + [] == mid;
    var seen := Keys(mid);
    assert [call, result][1..] == [result] && [result][1..] == [];
    assert Missing([result], seen) == [];
    PairedIds(h);
    IdsConcat(h, [request]);
    ClosingAre(mid, ResultIds(mid), reason);
  }

  // ----- what closes a call -----

  /** A call whose id has no result anywhere in the history. */
  ghost predicate Dangles(h: seq<Item>, i: nat)
    requires i < |h|
  {
    h[i].Call? && forall j :: 0 <= j < |h| && h[j].Result? ==> h[j].callId != h[i].callId
  }

  /** The positions of the dangling calls among the first n items. */
  ghost function DanglingAt(h: seq<Item>, n: nat): (r: seq<nat>)
    requires n <= |h|
    ensures forall k :: 0 <= k < |r| ==> r[k] < n && h[r[k]].Call?
  {
    if n == 0 then [] else DanglingAt(h, n - 1) + (if Dangles(h, n - 1) then [n - 1] else [])
  }

  lemma {:induction false} ClosingInOrder(h: seq<Item>, n: nat, reason: string)
    requires n <= |h|
    ensures var places, closing := DanglingAt(h, n), Closing(h[..n], ResultIds(h), reason);
            && |closing| == |places|
            && forall k :: 0 <= k < |places| ==>
                 closing[k] == Result(h[places[k]].callId, h[places[k]].name, Text(reason))
  {
    if n > 0 {
      ClosingInOrder(h, n - 1, reason);
      DanglesIs(h, n - 1);
      assert h[..n] == h[..n - 1] + [h[n - 1]];
      ClosingMore(h[..n - 1], h[n - 1], ResultIds(h), reason);
    }
  }

  lemma DanglesIs(h: seq<Item>, i: nat)
    requires i < |h|
    ensures Dangles(h, i) <==> h[i].Call? && h[i].callId !in ResultIds(h)
  {
    if h[i].Call? && h[i].callId in ResultIds(h) {
      var j := ResultSomewhere(h, h[i].callId);
    }
  }

  lemma {:induction false} ClosingMore(h: seq<Item>, item: Item, ids: set<string>, reason: string)
    ensures Closing(h + [item], ids, reason) == Closing(h, ids, reason)
            + if item.Call? && item.callId !in ids then [Result(item.callId, item.name, Text(reason))] else []
  {
    if h == [] {
      assert h + [item] == [item] && [item][1..] == [];
    } else {
      ClosingMore(h[1..], item, ids, reason);
      assert (h + [item])[1..] == h[1..] + [item];
    }
  }

  /** Closing appends, in order, a result with the reason for each call without one, under its id and name. */
  lemma ClosesExactly(h: seq<Item>, reason: string)
    ensures var places, closed := DanglingAt(h, |h|), CloseDangling(h, reason);
            && |closed| == |h| + |places| && closed[..|h|] == h
            && forall k :: 0 <= k < |places| ==>
                 closed[|h| + k] == Result(h[places[k]].callId, h[places[k]].name, Text(reason))
  {
    assert h[..|h|] == h;
    ClosingInOrder(h, |h|, reason);
  }

  // ----- every turn keeps pairs -----

  /** The turn stores no unanswered call. */
  ghost predicate Answered(h: seq<Item>, turn: Turn) {
    turn.Broken? ==> Unanswered(h, turn.saved) == {}
  }

  lemma TurnKeepsPairs(h: seq<Item>, turn: Turn)
    requires Paired(h) && Possible(turn)
    ensures Paired(After(h, turn)) <==> Answered(h, turn)
  {
    match turn
    case Finished(request, items) =>
      LastRequestPaired(h, request, items);
    case Broken(request, saved, produced, reason) =>
      RepairPairs(h, request, saved, produced, reason);
    case Replayed(call, result) =>
      assert Pair([call, result], 0, 1);
      PairedMore(h, [call, result]);
  }

  function Played(turns: seq<Turn>): seq<Item> {
    if turns == [] then [] else After(Played(turns[..|turns| - 1]), turns[|turns| - 1])
  }

  ghost predicate AllPossible(turns: seq<Turn>) {
    forall n :: 0 <= n < |turns| ==> Possible(turns[n])
  }

  /** No turn stores an unanswered call. */
  ghost predicate AllAnswered(turns: seq<Turn>) {
    forall n :: 0 <= n < |turns| ==> Answered(Played(turns[..n]), turns[n])
  }

  /** The history is paired after every turn. */
  ghost predicate AlwaysPaired(turns: seq<Turn>) {
    forall n :: 0 <= n <= |turns| ==> Paired(Played(turns[..n]))
  }

  /**
   Over any sequence of finished, stopped and failed runs and replayed calls, every call has a result after it in its
   request and every result its call before it, after every turn, if and only if no stopped or failed run stores a call
   without result under an id that had a result before.
   */
  lemma {:induction false} PairingKept(turns: seq<Turn>)
    requires AllPossible(turns)
    ensures AlwaysPaired(turns) <==> AllAnswered(turns)
  {
    if turns == [] {
      assert turns[..0] == [];
    } else {
      var before, last := turns[..|turns| - 1], turns[|turns| - 1];
      PairingKept(before);
      OneMorePaired(turns);
      OneMoreAnswered(turns);
      if Paired(Played(before)) {
        TurnKeepsPairs(Played(before), last);
      }
    }
  }

  lemma OneMorePaired(turns: seq<Turn>)
    requires turns != []
    ensures var before := turns[..|turns| - 1];
            && (AlwaysPaired(turns) <==> AlwaysPaired(before) && Paired(Played(turns)))
            && (AlwaysPaired(before) ==> Paired(Played(before)))
  {
    var n := |turns| - 1;
    var before := turns[..n];
    assert forall k :: 0 <= k <= n ==> before[..k] == turns[..k];
    assert turns[..n + 1] == turns && before[..n] == before;
  }

  lemma OneMoreAnswered(turns: seq<Turn>)
    requires turns != []
    ensures var before := turns[..|turns| - 1];
            AllAnswered(turns) <==> AllAnswered(before) && Answered(Played(before), turns[|turns| - 1])
  {
    var n := |turns| - 1;
    var before := turns[..n];
    assert forall k :: 0 <= k <= n ==> before[..k] == turns[..k];
    assert forall k :: 0 <= k < n ==> before[k] == turns[k];
  }

  // ----- compaction -----

  const HEAD := 1500

  function Shortened(text: string): Output {
    HeadAndNote(if |text| <= HEAD then text else text[..HEAD], |text| - HEAD)
  }

  /** A long text result of an earlier request. */
  predicate Long(item: Item, max: nat) { item.Result? && item.output.Text? && |item.output.text| > max }

  /** The position of the last user item, or -1. */
  function LastUser(h: seq<Item>): (r: int)
    ensures -1 <= r < |h|
    ensures r >= 0 ==> IsUser(h[r])
    ensures forall i :: r < i < |h| ==> !IsUser(h[i])
  {
    if h == [] then -1
    else if IsUser(h[|h| - 1]) then |h| - 1
    else LastUser(h[..|h| - 1])
  }

  /** An item as it is sent: a long result of an earlier request is cut short. */
  function Cut(item: Item, earlier: bool, max: nat): Item {
    if earlier && Long(item, max) then item.(output := Shortened(item.output.text)) else item
  }

  /** The history with the long results before position `last` cut short. */
  function Elided(h: seq<Item>, last: int, max: nat): (r: seq<Item>)
    ensures |r| == |h|
    ensures forall i :: 0 <= i < |h| ==> r[i] == Cut(h[i], i < last, max)
  {
    seq(|h|, i requires 0 <= i < |h| => Cut(h[i], i < last, max))
  }

  /** How many of the first n items are long results before position `last`. */
  function LongOnes(h: seq<Item>, last: int, max: nat, n: nat): nat
    requires n <= |h|
  {
    if n == 0 then 0 else LongOnes(h, last, max, n - 1) + (if n - 1 < last && Long(h[n - 1], max) then 1 else 0)
  }

  /** How many requests start in h at position i or later. */
  function UsersFrom(h: seq<Item>, i: nat): nat
    requires i <= |h|
    decreases |h| - i
  {
    if i == |h| then 0 else (if IsUser(h[i]) then 1 else 0) + UsersFrom(h, i + 1)
  }

  /** Where the request d (counted from 0) of those from position i on starts. */
  function StartFrom(h: seq<Item>, i: nat, d: nat): (s: nat)
    requires i <= |h| && d < UsersFrom(h, i)
    ensures i <= s < |h| && IsUser(h[s]) && (d > 0 ==> i < s)
    decreases |h| - i
  {
    if IsUser(h[i]) && d == 0 then i else StartFrom(h, i + 1, if IsUser(h[i]) then d - 1 else d)
  }

  function Requests(h: seq<Item>): nat { UsersFrom(h, 0) }

  function StartOf(h: seq<Item>, d: nat): nat
    requires d < Requests(h)
  {
    StartFrom(h, 0, d)
  }

  /** The history without its d oldest requests (and what comes before them). */
  function DropRequests(h: seq<Item>, d: nat): seq<Item>
    requires d == 0 || d < Requests(h)
  {
    if d == 0 then h else h[StartOf(h, d)..]
  }

  lemma {:induction false} UsersAfter(h: seq<Item>, i: nat, d: nat)
    requires i <= |h| && d < UsersFrom(h, i)
    ensures UsersFrom(h, StartFrom(h, i, d)) == UsersFrom(h, i) - d
    decreases |h| - i
  {
    if !(IsUser(h[i]) && d == 0) {
      UsersAfter(h, i + 1, if IsUser(h[i]) then d - 1 else d);
    }
  }

  lemma {:induction false} NextStart(h: seq<Item>, i: nat, d: nat)
    requires i <= |h| && d + 1 < UsersFrom(h, i) && UsersFrom(h, StartFrom(h, i, d)) > 1
    ensures StartFrom(h, StartFrom(h, i, d), 1) == StartFrom(h, i, d + 1)
    decreases |h| - i
  {
    if !(IsUser(h[i]) && d == 0) {
      NextStart(h, i + 1, if IsUser(h[i]) then d - 1 else d);
    }
  }

  lemma {:induction false} UsersInTail(h: seq<Item>, from: nat, i: nat)
    requires from <= |h| && i <= |h| - from
    ensures UsersFrom(h[from..], i) == UsersFrom(h, from + i)
    decreases |h| - from - i
  {
    if i < |h| - from {
      UsersInTail(h, from, i + 1);
    }
  }

  lemma {:induction false} StartInTail(h: seq<Item>, from: nat, i: nat, d: nat)
    requires from <= |h| && i <= |h| - from && d < UsersFrom(h, from + i) == UsersFrom(h[from..], i)
    ensures StartFrom(h[from..], i, d) == StartFrom(h, from + i, d) - from
    decreases |h| - from - i
  {
    if !(IsUser(h[from + i]) && d == 0) {
      UsersInTail(h, from, i + 1);
      StartInTail(h, from, i + 1, if IsUser(h[from + i]) then d - 1 else d);
    }
  }

  /** Dropping one more request from what is left. */
  lemma DropOneMore(h: seq<Item>, d: nat)
    requires d == 0 || d < Requests(h)
    ensures Requests(DropRequests(h, d)) == Requests(h) - d
    ensures d + 1 < Requests(h) ==> DropRequests(h, d)[StartOf(DropRequests(h, d), 1)..] == DropRequests(h, d + 1)
  {
    if d > 0 {
      var from := StartOf(h, d);
      UsersAfter(h, 0, d);
      UsersInTail(h, from, 0);
      if d + 1 < Requests(h) {
        NextStart(h, 0, d);
        StartInTail(h, from, 0, 1);
        SliceOfSlice(h, from, StartOf(h, d + 1));
      }
    }
  }

  method ElideResults(input: seq<Item>, max: nat) returns (items: seq<Item>, elided: nat)
    ensures items == Elided(input, LastUser(input), max)
    ensures elided == LongOnes(input, LastUser(input), max, |input|)
  {
    var lastUser := LastUser(input);
    items, elided := [], 0;
    for i := 0 to |input|
      invariant |items| == i && forall k :: 0 <= k < i ==> items[k] == Cut(input[k], k < lastUser, max)
      invariant elided == LongOnes(input, lastUser, max, i)
    {
      if i < lastUser && Long(input[i], max) {
        elided := elided + 1;
      }
      items := items + [Cut(input[i], i < lastUser, max)];
    }
  }

  /** With d requests dropped the history is still over budget, and more than `keep` requests are left. */
  ghost predicate DropsOn(whole: seq<Item>, budget: int, keep: nat, estimate: seq<Item> -> int, d: nat)
    requires d == 0 || d < Requests(whole)
  {
    estimate(DropRequests(whole, d)) > budget && Requests(whole) - d > keep
  }

  /**
   The requests dropped are the oldest, and the fewest after which the estimate meets the budget or no more than
   `keep` requests are left.
   */
  ghost predicate Fewest(whole: seq<Item>, budget: int, keep: nat, estimate: seq<Item> -> int, items: seq<Item>,
                         dropped: nat) {
    && (dropped == 0 || dropped < Requests(whole))
    && items == DropRequests(whole, dropped)
    && !DropsOn(whole, budget, keep, estimate, dropped)
    && forall d: nat :: d < dropped ==> DropsOn(whole, budget, keep, estimate, d)
  }

  /** One turn of the dropping loop, as slice takes a missing second start: then nothing is dropped. */
  function DropStep(h: seq<Item>): seq<Item> {
    if Requests(h) >= 2 then h[StartOf(h, 1)..] else h
  }

  /** The history after n turns of the loop. */
  function Dropping(h: seq<Item>, n: nat): seq<Item> {
    if n == 0 then h else DropStep(Dropping(h, n - 1))
  }

  /** The loop's two exits: the budget is met, or no more than `keep` requests are left. */
  predicate Stops(h: seq<Item>, budget: int, keep: nat, estimate: seq<Item> -> int) {
    estimate(h) <= budget || Requests(h) <= keep
  }

  ghost predicate LoopEnds(whole: seq<Item>, budget: int, keep: nat, estimate: seq<Item> -> int) {
    exists n: nat :: Stops(Dropping(whole, n), budget, keep, estimate)
  }

  /** Dropping d requests leaves at least one, or drops nothing, and meets the budget. */
  ghost predicate Fits(whole: seq<Item>, budget: int, estimate: seq<Item> -> int, d: nat) {
    (d == 0 || d < Requests(whole)) && estimate(DropRequests(whole, d)) <= budget
  }

  ghost predicate CanEnd(whole: seq<Item>, budget: int, keep: nat, estimate: seq<Item> -> int) {
    keep >= 1 || Requests(whole) == 0 || exists d :: Fits(whole, budget, estimate, d)
  }

  /** How many requests n turns of the loop drop. */
  function DroppedBy(h: seq<Item>, n: nat): nat { if Requests(h) == 0 then 0 else Min(n, Requests(h) - 1) }

  lemma DropStepIs(h: seq<Item>, d: nat)
    requires d == DroppedBy(h, d)
    ensures DropStep(DropRequests(h, d)) == DropRequests(h, DroppedBy(h, d + 1))
  {
    DropOneMore(h, d);
  }

  lemma {:induction false} DroppingIs(h: seq<Item>, n: nat)
    ensures Dropping(h, n) == DropRequests(h, DroppedBy(h, n))
  {
    if n > 0 {
      DroppingIs(h, n - 1);
      DropStepIs(h, DroppedBy(h, n - 1));
    }
  }

  /** Whether the loop has stopped after n turns. */
  lemma StopsAfter(whole: seq<Item>, budget: int, keep: nat, estimate: seq<Item> -> int, n: nat)
    ensures var d := DroppedBy(whole, n);
            Stops(Dropping(whole, n), budget, keep, estimate)
            <==> estimate(DropRequests(whole, d)) <= budget || Requests(whole) - d <= keep
  {
    DroppingIs(whole, n);
    DropOneMore(whole, DroppedBy(whole, n));
  }

  /**
   The dropping loop ends if and only if `keep` is at least 1, no request starts in the history, or dropping some of
   its requests, but not the last, meets the budget.
   */
  lemma DroppingEnds(whole: seq<Item>, budget: int, keep: nat, estimate: seq<Item> -> int)
    ensures LoopEnds(whole, budget, keep, estimate) <==> CanEnd(whole, budget, keep, estimate)
  {
    if CanEnd(whole, budget, keep, estimate) {
      var n: nat := Requests(whole);
      if Requests(whole) > 0 && keep == 0 {
        n :| Fits(whole, budget, estimate, n);
      }
      StopsAfter(whole, budget, keep, estimate, n);
    }
    if LoopEnds(whole, budget, keep, estimate) && Requests(whole) > 0 && keep == 0 {
      var n: nat :| Stops(Dropping(whole, n), budget, keep, estimate);
      StopsAfter(whole, budget, keep, estimate, n);
      assert Fits(whole, budget, estimate, DroppedBy(whole, n));
    }
  }

  /** A single request over budget with `keep` 0: the loop never ends. */
  lemma StuckLoop()
    ensures var whole := [Message(true, User, "", "hello")]; !LoopEnds(whole, 0, 0, (h: seq<Item>) => 1)
  {
    var whole := [Message(true, User, "", "hello")];
    assert UsersFrom(whole, 1) == 0 && Requests(whole) == 1;
    DroppingEnds(whole, 0, 0, (h: seq<Item>) => 1);
  }

  /** The dropping loop, whenever it ends. */
  method DropLoop(whole: seq<Item>, budget: int, keep: nat, estimate: seq<Item> -> int)
    returns (items: seq<Item>, dropped: nat)
    requires CanEnd(whole, budget, keep, estimate)
    ensures Fewest(whole, budget, keep, estimate, items, dropped)
  {
    items, dropped := whole, 0;
    while estimate(items) > budget
      invariant dropped == 0 || dropped < Requests(whole)
      invariant items == DropRequests(whole, dropped)
      invariant forall d: nat :: d < dropped ==> DropsOn(whole, budget, keep, estimate, d)
      decreases Requests(whole) - dropped
    {
      DropOneMore(whole, dropped);
      if Requests(items) <= keep {
        return;
      }
      assert DropsOn(whole, budget, keep, estimate, dropped);
      NotStuck(whole, budget, keep, estimate, dropped);
      items := items[StartOf(items, 1)..];
      dropped := dropped + 1;
    }
  }

  /** A loop that can end and goes on has a request to drop and another to keep. */
  lemma NotStuck(whole: seq<Item>, budget: int, keep: nat, estimate: seq<Item> -> int, dropped: nat)
    requires CanEnd(whole, budget, keep, estimate) && (dropped == 0 || dropped < Requests(whole))
    requires forall d: nat :: d <= dropped ==> DropsOn(whole, budget, keep, estimate, d)
    ensures dropped + 1 < Requests(whole)
  {
    assert DropsOn(whole, budget, keep, estimate, dropped);
    if keep == 0 {
      var d: nat :| Fits(whole, budget, estimate, d);
      assert d <= dropped ==> DropsOn(whole, budget, keep, estimate, d);
    }
  }

  /** compactHistory: long earlier results are cut, then whole earlier requests dropped; whenever it ends. */
  method CompactHistory(input: seq<Item>, max: nat, budget: int, keep: nat, estimate: seq<Item> -> int)
    returns (items: seq<Item>, elided: nat, dropped: nat)
    requires CanEnd(Elided(input, LastUser(input), max), budget, keep, estimate)
    ensures Fewest(Elided(input, LastUser(input), max), budget, keep, estimate, items, dropped)
    ensures elided == LongOnes(input, LastUser(input), max, |input|)
  {
    items, elided := ElideResults(input, max);
    items, dropped := DropLoop(items, budget, keep, estimate);
  }

  // ----- what compaction keeps -----

  /** The history as compaction sends it before dropping requests. */
  function Sent(h: seq<Item>, max: nat): seq<Item> { Elided(h, LastUser(h), max) }

  lemma ElidedUsers(h: seq<Item>, last: int, max: nat)
    ensures forall i :: 0 <= i < |h| ==> IsUser(Elided(h, last, max)[i]) == IsUser(h[i])
  {
  }

  /** The last request goes to the model unaltered: from the last user item on, or all of it without one. */
  lemma LastRequestKept(h: seq<Item>, max: nat, d: nat)
    requires d == 0 || d < Requests(Sent(h, max))
    ensures var items := DropRequests(Sent(h, max), d);
            var from := if LastUser(h) < 0 then 0 else LastUser(h);
            |h| - from <= |items| && items[|items| - (|h| - from)..] == h[from..]
  {
    var whole := Sent(h, max);
    var from := if LastUser(h) < 0 then 0 else LastUser(h);
    ElidedTail(h, max, from);
    if d > 0 {
      StartsBefore(h, max, d);
      SliceOfSlice(whole, StartOf(whole, d), from);
    }
  }

  /** What is kept starts at or before the last request. */
  lemma StartsBefore(h: seq<Item>, max: nat, d: nat)
    requires d < Requests(Sent(h, max))
    ensures StartOf(Sent(h, max), d) <= LastUser(h)
  {
    ElidedUsers(h, LastUser(h), max);
    assert IsUser(h[StartOf(Sent(h, max), d)]);
  }

  lemma ElidedTail(h: seq<Item>, max: nat, from: nat)
    requires LastUser(h) <= from <= |h|
    ensures Sent(h, max)[from..] == h[from..]
  {
    SameTail(Sent(h, max), h, from);
  }

  lemma SameTail(a: seq<Item>, b: seq<Item>, from: nat)
    requires from <= |a| == |b| && forall i :: from <= i < |a| ==> a[i] == b[i]
    ensures a[from..] == b[from..]
  {
  }

  lemma SliceOfSlice(h: seq<Item>, a: nat, b: nat)
    requires a <= b <= |h|
    ensures h[a..][b - a..] == h[b..]
  {
  }

  /** A request starts after position i. */
  ghost predicate AnotherRequest(h: seq<Item>, i: nat) {
    exists k :: i < k < |h| && h[k].Message? && h[k].typed && h[k].role == User
  }

  /** The item is a text result of more than `max` characters. */
  predicate TooLong(item: Item, max: nat) {
    match item
    case Result(_, _, Text(text)) => |text| > max
    case _ => false
  }

  /** The cut result: the same call's, with the first 1500 characters and the count of those left out. */
  predicate CutDown(item: Item, sent: Item) {
    && item.Result? && item.output.Text? && sent.Result? && sent.callId == item.callId && sent.name == item.name
    && sent.output.HeadAndNote? && sent.output.head <= item.output.text
    && |sent.output.head| == Min(1500, |item.output.text|)
    && 1500 + sent.output.more == |item.output.text|
  }

  /** Before requests are dropped exactly the long text results of earlier requests are cut; all else is as it was. */
  lemma CutExactly(h: seq<Item>, max: nat, i: nat)
    requires i < |h|
    ensures |Sent(h, max)| == |h|
    ensures if TooLong(h[i], max) && AnotherRequest(h, i) then CutDown(h[i], Sent(h, max)[i])
            else Sent(h, max)[i] == h[i]
  {
    var last := LastUser(h);
    assert AnotherRequest(h, i) <==> i < last by {
      if i < last {
        assert h[last].Message? && h[last].typed && h[last].role == User;
      }
    }
  }

  lemma PairElided(h: seq<Item>, last: int, max: nat, i: nat, j: nat)
    requires Pair(h, i, j)
    ensures Pair(Elided(h, last, max), i, j)
  {
    ElidedUsers(h, last, max);
  }

  lemma PairedElided(h: seq<Item>, last: int, max: nat)
    requires Paired(h)
    ensures Paired(Elided(h, last, max))
  {
    var e := Elided(h, last, max);
    forall i | 0 <= i < |e| && e[i].Call? ensures HasResult(e, i) {
      assert h[i].Call? && HasResult(h, i);
      var j :| Pair(h, i, j);
      PairElided(h, last, max, i, j);
    }
    forall j | 0 <= j < |e| && e[j].Result? ensures HasCall(e, j) {
      assert h[j].Result? && HasCall(h, j);
      var i :| Pair(h, i, j);
      PairElided(h, last, max, i, j);
    }
  }

  lemma PairInTail(h: seq<Item>, from: nat, i: nat, j: nat)
    requires Pair(h, from + i, from + j)
    ensures Pair(h[from..], i, j)
  {
    assert forall k :: 0 <= k < |h[from..]| ==> h[from..][k] == h[from + k];
  }

  lemma ResultInTail(h: seq<Item>, from: nat, i: nat)
    requires HasResult(h, from + i)
    ensures HasResult(h[from..], i)
  {
    var j: nat :| Pair(h, from + i, j);
    PairInTail(h, from, i, j - from);
  }

  lemma CallInTail(h: seq<Item>, from: nat, j: nat)
    requires from < |h| && IsUser(h[from]) && HasCall(h, from + j)
    ensures HasCall(h[from..], j)
  {
    var i: nat :| Pair(h, i, from + j);
    assert i >= from by {
      assert SameRequest(h, i, from + j) && IsUser(h[from]);
    }
    PairInTail(h, from, i - from, j);
  }

  lemma PairedTail(h: seq<Item>, from: nat)
    requires Paired(h) && from < |h| && IsUser(h[from])
    ensures Paired(h[from..])
  {
    var t := h[from..];
    forall i | 0 <= i < |t| && t[i].Call? ensures HasResult(t, i) {
      assert t[i] == h[from + i];
      ResultInTail(h, from, i);
    }
    forall j | 0 <= j < |t| && t[j].Result? ensures HasCall(t, j) {
      assert t[j] == h[from + j];
      CallInTail(h, from, j);
    }
  }

  /** Compaction never separates a call from its result, whatever the budget makes it drop. */
  lemma CompactionKeepsPairs(h: seq<Item>, max: nat, d: nat)
    requires Paired(h) && (d == 0 || d < Requests(Sent(h, max)))
    ensures Paired(DropRequests(Sent(h, max), d))
  {
    PairedElided(h, LastUser(h), max);
    if d > 0 {
      PairedTail(Sent(h, max), StartOf(Sent(h, max), d));
    }
  }
}
