/**
 A request that retries after a write it had recorded as successful: the write's output comes a second time, as an
 error, in a later attempt.
 */
module LateErrors {
  import opened ToolCalls
  import opened TurnEngine
  import opened TurnRetries

  const WRITE := "save_a"
  const FIRST := [Called("x", WRITE), Returned("x", WRITE, false)]
  const SECOND := [Returned("x", WRITE, true)]

  /**
   The write succeeds and the reply is nudged; then its output comes again, as an error, and the connection is lost.
   */
  function LateError(n: nat): Attempt {
    if n == 0 then Attempt(0, (i: nat) => false, true, FIRST, Replied("done"), true, false, Word("", "check", ""))
    else if n == 1 then
      Attempt(0, (i: nat) => false, true, SECOND, Failed(Failure("lost", true, false, false)), true, false, Unreachable)
    else Attempt(0, (i: nat) => false, true, [], Aborted, false, false, Unreachable)
  }

  lemma SaveIsWrite()
    ensures IsWriteTool(WRITE)
  {
    assert WRITE_PREFIXES[0] == "save_" <= WRITE;
  }

  lemma CallsOfLateError()
    ensures RecordedAll([], FIRST) == [ToolCall("x", WRITE, false)]
    ensures RecordedAll([ToolCall("x", WRITE, false)], SECOND) == [ToolCall("x", WRITE, true)]
  {
    assert FIRST[..1] == [FIRST[0]] && [FIRST[0]][..0] == [] && SECOND[..0] == [];
    assert RecordedAll([], [FIRST[0]]) == [ToolCall("x", WRITE, false)] by {
      assert RecordedAll([], []) == [];
    }
    assert LastCall([ToolCall("x", WRITE, false)], "x") == 0;
  }

  const LATE := Request(Setup([], false), LateError, Prompt("go"), false, true)

  /** What is heard of the write: its success after the first attempt, its error after the second. */
  lemma HeardOfWrite()
    ensures Heard(LATE, 1) == FIRST && Heard(LATE, 2) == FIRST + SECOND
    ensures Stands(Heard(LATE, 1), 0) && TurnsToError(Heard(LATE, 2), 0, |Heard(LATE, 1)|)
  {
    assert Heard(LATE, 0) == [] && HeldAt(LATE, 0) == [] && StreamAt(LATE, 0) == FIRST;
    assert Heard(LATE, 1) == FIRST;
    assert HeldAt(LATE, 1) == [] && StreamAt(LATE, 1) == SECOND;
    SaveIsWrite();
    var all := FIRST + SECOND;
    assert LastSettles(FIRST, 0, 1);
    assert LastSettles(all, 0, 2);
  }

  /** The first attempt is nudged with the write recorded, the second is retried. */
  lemma Reentries()
    ensures var agains := Execute(Fresh(false, true), Setup([], false), LateError, Prompt("go"), 1).agains;
            |agains| == 2 && Wrote(agains[0].calls) && agains[1].branch == Retried
  {
    var setup, input := Setup([], false), Prompt("go");
    var s0 := Fresh(false, true);
    CallsOfLateError();
    SaveIsWrite();
    var t0 := Ran(s0, setup, LateError(0));
    assert t0.calls == [ToolCall("x", WRITE, false)];
    assert Wrote(t0.calls) by { assert !t0.calls[0].isError && IsWriteTool(t0.calls[0].name); }
    var d0 := Decide(t0, setup, LateError(0), EndOf(s0, setup, LateError(0)), input, 1);
    assert d0 == Go(Nudged, Prompt("check"), 1);
    var s1 := GoesOn(t0, d0, input);
    var t1 := Ran(s1, setup, LateError(1));
    assert t1.calls == [ToolCall("x", WRITE, true)];
    assert !Wrote(t1.calls);
    var d1 := Decide(t1, setup, LateError(1), EndOf(s1, setup, LateError(1)), Prompt("check"), 1);
    assert d1 == Go(Retried, Prompt("check"), 0);
    var s2 := GoesOn(t1, d1, Prompt("check"));
    var t2 := Ran(s2, setup, LateError(2));
    assert Execute(s2, setup, LateError, Prompt("check"), 0).agains == s2.agains;
    assert Execute(s1, setup, LateError, Prompt("check"), 1).agains == s2.agains;
    assert Execute(s0, setup, LateError, input, 1).agains == s2.agains;
  }

  /** So a write without error that a re-entry recorded does not by itself rule out a later retry. */
  lemma RetryAfterLateError()
    ensures var agains := Whole(LATE).agains;
            && |agains| == 2 && Wrote(agains[0].calls) && agains[1].branch == Retried
            && Stands(Heard(LATE, 1), 0) && TurnsToError(Heard(LATE, 2), 0, |Heard(LATE, 1)|)
  {
    Reentries();
    HeardOfWrite();
  }
}
