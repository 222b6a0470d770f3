/**
 The file with the environment of the gh and glab wrappers: written with shell quoting, read by the shell. The shell is
 the part of the POSIX Shell Command Language that such a file needs: comments, export with one assignment, and words
 of plain characters, backslash escapes (section 2.2.1) and single quotes (section 2.2.2).
 */
module CliEnv {
  import opened Basics

  const QUOTE := '\''
  const BACKSLASH := '\\'
  const LF := '\n'
  const NUL := 0 as char
  const WRITTEN_BY := "# Written by flow-runner;"
  const REFRESHED := " refreshed before expiry."
  const DO_NOT_EDIT := " Do not edit."
  const HEADER := WRITTEN_BY + REFRESHED + DO_NOT_EDIT
  const EXPORT := "export "

  // ----- writing -----

  predicate NameStart(c: char) { 'A' <= c <= 'Z' || c == '_' }

  predicate NameChar(c: char) { NameStart(c) || '0' <= c <= '9' }

  predicate ValidName(name: string) {
    name != "" && NameStart(name[0]) && forall i :: 0 <= i < |name| ==> NameChar(name[i])
  }

  /** A single quote becomes one that ends the quoting, an escaped one and one that starts it again. */
  function EscapedChar(c: char): string {
    if c == QUOTE then [QUOTE, BACKSLASH, QUOTE, QUOTE] else [c]
  }

  function Escaped(value: string): string {
    if value == [] then "" else EscapedChar(value[0]) + Escaped(value[1..])
  }

  function ShellQuote(value: string): string { [QUOTE] + Escaped(value) + [QUOTE] }

  function ExportLine(name: string, value: string): string { EXPORT + name + "=" + ShellQuote(value) }

  /** The lines after the header, each ended by a newline, for the names in the given order. */
  function Body(env: map<string, string>, names: seq<string>): string
    requires forall i :: 0 <= i < |names| ==> names[i] in env
  {
    if names == [] then ""
    else LineFor(names[0], env[names[0]]) + Body(env, names[1..])
  }

  /** The line of a variable; none for a name the shell would not take. */
  function LineFor(name: string, value: string): string {
    if ValidName(name) then ExportLine(name, value) + [LF] else ""
  }

  lemma {:induction false} JoinSnoc(lines: seq<string>, line: string)
    requires lines != []
    ensures Join(lines + [line], LF) == Join(lines, LF) + [LF] + line
  {
    if |lines| == 1 {
      assert (lines + [line])[1..] == [line];
    } else {
      JoinSnoc(lines[1..], line);
      assert (lines + [line])[1..] == lines[1..] + [line];
    }
  }

  lemma {:induction false} BodySnoc(env: map<string, string>, names: seq<string>, name: string)
    requires name in env && forall i :: 0 <= i < |names| ==> names[i] in env
    ensures Body(env, names + [name]) == Body(env, names) + LineFor(name, env[name])
  {
    var line := LineFor(name, env[name]);
    if names == [] {
      assert names + [name] == [name] && [name][1..] == [];
      assert line + "" == line && "" + line == line;
    } else {
      BodySnoc(env, names[1..], name);
      assert (names + [name])[1..] == names[1..] + [name] && (names + [name])[0] == names[0];
      Regroup(LineFor(names[0], env[names[0]]), Body(env, names[1..]), line);
    }
  }

  lemma Regroup(a: string, b: string, c: string)
    ensures a + (b + c) == a + b + c
  {
  }

  /** A line more in the list is a line more in the text. */
  lemma OneLineMore(lines: seq<string>, head: string, body: string, line: string)
    requires lines != [] && Join(lines, LF) + [LF] == head + body
    ensures Join(lines + [line], LF) + [LF] == head + (body + (line + [LF]))
  {
    JoinSnoc(lines, line);
    var text := Join(lines, LF);
    assert text + [LF] + line + [LF] == (text + [LF]) + (line + [LF]);
    assert head + (body + (line + [LF])) == (head + body) + (line + [LF]);
  }

  /** The lines after one name more. */
  lemma NameAdded(lines: seq<string>, head: string, env: map<string, string>, names: seq<string>, i: nat)
    requires i < |names| && forall k :: 0 <= k < |names| ==> names[k] in env
    requires lines != [] && Join(lines, LF) + [LF] == head + Body(env, names[..i])
    ensures var name := names[i];
            var more := if ValidName(name) then lines + [ExportLine(name, env[name])] else lines;
            Join(more, LF) + [LF] == head + Body(env, names[..i + 1])
  {
    var name := names[i];
    assert names[..i + 1] == names[..i] + [name];
    BodySnoc(env, names[..i], name);
    if ValidName(name) {
      OneLineMore(lines, head, Body(env, names[..i]), ExportLine(name, env[name]));
    } else {
      assert Body(env, names[..i]) + "" == Body(env, names[..i]);
    }
  }

  method WriteLines(first: string, env: map<string, string>, names: seq<string>) returns (text: string)
    requires forall i :: 0 <= i < |names| ==> names[i] in env
    ensures text == first + [LF] + Body(env, names)
  {
    var lines := [first];
    ghost var head := first + [LF];
    assert names[..0] == [] && head + "" == head;
    for i := 0 to |names|
      invariant lines != [] && Join(lines, LF) + [LF] == head + Body(env, names[..i])
    {
      var name := names[i];
      NameAdded(lines, head, env, names, i);
      if ValidName(name) {
        lines := lines + [ExportLine(name, env[name])];
      }
    }
    assert names[..|names|] == names;
    text := Join(lines, LF) + [LF];
  }

  /** The file: a header, and a line for every variable with a valid name. */
  method RenderCliEnv(env: map<string, string>, names: seq<string>) returns (text: string)
    requires forall i :: 0 <= i < |names| ==> names[i] in env
    ensures text == HEADER + [LF] + Body(env, names)
  {
    text := WriteLines(HEADER, env, names);
  }

  // ----- reading -----

  /** A word read, and the text after it. */
  datatype Word = Word(value: string, rest: string)

  /** Characters with no meaning to the shell outside quotes. */
  predicate Plain(c: char) {
    'A' <= c <= 'Z' || 'a' <= c <= 'z' || '0' <= c <= '9' || c in "_-./:,+@%"
  }

  /** The rest of a word that ends at a newline, inside or outside single quotes; None for anything else. */
  function ReadWord(s: string, quoted: bool): Option<Word> {
    if s == [] then None
    else if quoted then
      if s[0] == QUOTE then ReadWord(s[1..], false) else Prepend(s[0], ReadWord(s[1..], true))
    else if s[0] == LF then Some(Word("", s))
    else if s[0] == QUOTE then ReadWord(s[1..], true)
    else if s[0] == BACKSLASH then
      if |s| < 2 then None else if s[1] == LF then ReadWord(s[2..], false) else Prepend(s[1], ReadWord(s[2..], false))
    else if Plain(s[0]) then Prepend(s[0], ReadWord(s[1..], false))
    else None
  }

  function Prepend(c: char, w: Option<Word>): Option<Word> {
    if w.None? then None else Some(Word([c] + w.value.value, w.value.rest))
  }

  /** Letters, digits and underscores make names, by section 3.235 of the Base Definitions; no digit comes first. */
  predicate ShellNameChar(c: char) {
    'A' <= c <= 'Z' || 'a' <= c <= 'z' || '0' <= c <= '9' || c == '_'
  }

  predicate ShellName(s: string) { s != "" && !('0' <= s[0] <= '9') }

  /** How many characters from the start are part of a name. */
  function NameLength(s: string): (n: nat)
    ensures n <= |s| && forall i :: 0 <= i < n ==> ShellNameChar(s[i])
    ensures n < |s| ==> !ShellNameChar(s[n])
  {
    if s == [] || !ShellNameChar(s[0]) then 0 else 1 + NameLength(s[1..])
  }

  function LineEnd(s: string): (n: nat)
    ensures n <= |s| && LF !in s[..n] && (n < |s| ==> s[n] == LF)
  {
    if s == [] || s[0] == LF then 0
    else
      var n := LineEnd(s[1..]);
      assert s[..n + 1] == [s[0]] + s[1..][..n];
      n + 1
  }

  lemma {:induction false} RestIsShorter(s: string, quoted: bool)
    ensures ReadWord(s, quoted).Some? ==> |ReadWord(s, quoted).value.rest| <= |s|
    decreases |s|
  {
    if s != [] {
      RestIsShorter(s[1..], true);
      RestIsShorter(s[1..], false);
      if |s| >= 2 { RestIsShorter(s[2..], false); }
    }
  }

  /** The variables exported by a script, with `vars` before it; None if it is not one of these scripts. */
  function Exported(s: string, vars: map<string, string>): Option<map<string, string>>
    decreases |s|
  {
    if s == [] then Some(vars)
    else if s[0] == LF then Exported(s[1..], vars)
    else if s[0] == '#' then Exported(s[LineEnd(s)..], vars)
    else if EXPORT <= s then
      var t := s[|EXPORT|..];
      var n := NameLength(t);
      if n == |t| || t[n] != '=' || !ShellName(t[..n]) then None
      else
        var w := ReadWord(t[n + 1..], false);
        RestIsShorter(t[n + 1..], false);
        if w.None? then None else Exported(w.value.rest, vars[t[..n] := w.value.value])
    else None
  }

  /**
   A script with a NUL in it is no text to the shell (section 2.1 asks for a text file). This is where the round trip
   below ends for values with a NUL, not in the quoting, which keeps them.
   */
  function Sourced(s: string): Option<map<string, string>> {
    if NUL in s then None else Exported(s, map[])
  }

  // ----- the round trip -----

  lemma ReadEscapedQuote(t: string)
    ensures ReadWord([QUOTE, BACKSLASH, QUOTE, QUOTE] + t, true) == Prepend(QUOTE, ReadWord(t, true))
  {
    var outside := [BACKSLASH, QUOTE, QUOTE] + t;
    assert ([QUOTE, BACKSLASH, QUOTE, QUOTE] + t)[1..] == outside;
    assert ReadWord(outside, false) == Prepend(QUOTE, ReadWord([QUOTE] + t, false)) by {
      assert outside[0] == BACKSLASH && outside[1] == QUOTE && outside[2..] == [QUOTE] + t;
    }
    assert ([QUOTE] + t)[1..] == t;
  }

  lemma {:induction false} ReadQuoted(value: string, rest: string)
    requires rest != "" && rest[0] == LF
    ensures ReadWord(Escaped(value) + [QUOTE] + rest, true) == Some(Word(value, rest))
  {
    if value == [] {
      assert Escaped(value) + [QUOTE] + rest == [QUOTE] + rest;
      ReadQuoteEnd(rest);
    } else {
      ReadQuoted(value[1..], rest);
      ReadOneMore(value, Escaped(value[1..]) + [QUOTE] + rest);
      assert Escaped(value) + [QUOTE] + rest == EscapedChar(value[0]) + (Escaped(value[1..]) + [QUOTE] + rest);
    }
  }

  lemma ReadOneMore(value: string, t: string)
    requires value != [] && ReadWord(t, true).Some? && ReadWord(t, true).value.value == value[1..]
    ensures ReadWord(EscapedChar(value[0]) + t, true) == Some(Word(value, ReadWord(t, true).value.rest))
  {
    if value[0] == QUOTE { ReadEscapedQuote(t); } else { ReadInside(value[0], t); }
    assert [value[0]] + value[1..] == value;
  }

  lemma ReadQuoteEnd(rest: string)
    requires rest != "" && rest[0] == LF
    ensures ReadWord([QUOTE] + rest, true) == Some(Word("", rest))
  {
    assert ([QUOTE] + rest)[1..] == rest;
  }

  lemma ReadInside(c: char, t: string)
    requires c != QUOTE
    ensures ReadWord([c] + t, true) == Prepend(c, ReadWord(t, true))
  {
    assert ([c] + t)[1..] == t;
  }

  lemma {:induction false} NameIsRead(name: string, rest: string)
    requires rest != "" && !ShellNameChar(rest[0]) && forall i :: 0 <= i < |name| ==> ShellNameChar(name[i])
    ensures NameLength(name + rest) == |name|
  {
    if name == [] {
      assert name + rest == rest;
    } else {
      NameIsRead(name[1..], rest);
      assert (name + rest)[1..] == name[1..] + rest;
    }
  }

  lemma LineIsRead(name: string, value: string, rest: string, vars: map<string, string>)
    requires ValidName(name)
    ensures Exported(ExportLine(name, value) + [LF] + rest, vars) == Exported(rest, vars[name := value])
  {
    var word := ShellQuote(value) + [LF] + rest;
    var t := name + ("=" + word);
    assert ExportLine(name, value) + [LF] + rest == EXPORT + t;
    AssignmentIsRead(name, word, vars);
    ReadShellQuote(value, rest);
    assert ([LF] + rest)[1..] == rest;
  }

  lemma ReadShellQuote(value: string, rest: string)
    ensures ReadWord(ShellQuote(value) + [LF] + rest, false) == Some(Word(value, [LF] + rest))
  {
    var word := ShellQuote(value) + [LF] + rest;
    var tail := Escaped(value) + [QUOTE] + ([LF] + rest);
    assert word == [QUOTE] + tail && word[1..] == tail;
    ReadQuoted(value, [LF] + rest);
  }

  lemma AssignmentIsRead(name: string, word: string, vars: map<string, string>)
    requires ValidName(name)
    ensures var w := ReadWord(word, false); var r := Exported(EXPORT + (name + ("=" + word)), vars);
            if w.None? then r == None else r == Exported(w.value.rest, vars[name := w.value.value])
  {
    var t := name + ("=" + word);
    var s := EXPORT + t;
    assert s[|EXPORT|..] == t && s[0] == EXPORT[0];
    NameIsRead(name, "=" + word);
    assert t[..|name|] == name && t[|name|] == '=' && t[|name| + 1..] == word;
  }

  /** The variables with valid names among the given ones. */
  function Kept(env: map<string, string>, names: seq<string>, vars: map<string, string>): map<string, string>
    requires forall i :: 0 <= i < |names| ==> names[i] in env
  {
    if names == [] then vars
    else Kept(env, names[1..], if ValidName(names[0]) then vars[names[0] := env[names[0]]] else vars)
  }

  lemma {:induction false} BodyIsRead(env: map<string, string>, names: seq<string>, vars: map<string, string>)
    requires forall i :: 0 <= i < |names| ==> names[i] in env
    ensures Exported(Body(env, names), vars) == Some(Kept(env, names, vars))
    decreases |names|
  {
    if names != [] {
      var name := names[0];
      if ValidName(name) {
        LineIsRead(name, env[name], Body(env, names[1..]), vars);
        BodyIsRead(env, names[1..], vars[name := env[name]]);
      } else {
        assert "" + Body(env, names[1..]) == Body(env, names[1..]);
        BodyIsRead(env, names[1..], vars);
      }
    }
  }

  lemma {:induction false} KeptAre(env: map<string, string>, names: seq<string>, vars: map<string, string>)
    requires forall i :: 0 <= i < |names| ==> names[i] in env
    ensures forall n :: n in Kept(env, names, vars) <==> n in vars || (n in names && ValidName(n))
    ensures forall n :: n in Kept(env, names, vars) ==>
              Kept(env, names, vars)[n] == if n in names && ValidName(n) then env[n]
                else if n in vars then vars[n] else ""
    decreases |names|
  {
    if names != [] {
      var name := names[0];
      KeptAre(env, names[1..], if ValidName(name) then vars[name := env[name]] else vars);
      assert names == [name] + names[1..];
    }
  }

  lemma {:induction false} NulInEscaped(value: string)
    ensures NUL in Escaped(value) <==> NUL in value
  {
    if value != [] {
      NulInEscaped(value[1..]);
      assert value == [value[0]] + value[1..];
    }
  }

  lemma {:induction false} NulInBody(env: map<string, string>, names: seq<string>)
    requires forall i :: 0 <= i < |names| ==> names[i] in env
    ensures NUL in Body(env, names) <==> exists i :: 0 <= i < |names| && ValidName(names[i]) && NUL in env[names[i]]
  {
    if names != [] {
      NulInBody(env, names[1..]);
      NulInLine(names[0], env[names[0]]);
      assert forall i :: 0 < i < |names| ==> names[i] == names[1..][i - 1];
    }
  }

  lemma NulInLine(name: string, value: string)
    ensures ValidName(name) ==> (NUL in ExportLine(name, value) + [LF] <==> NUL in value)
  {
    NulInEscaped(value);
    assert NUL !in EXPORT;
    if ValidName(name) {
      assert NUL !in name by {
        assert !NameChar(NUL);
      }
    }
  }

  /** Capitals, digits and underscores by their codes; no digit first. */
  predicate InCapitals(name: string) {
    && name != "" && !(48 <= name[0] as int <= 57)
    && forall i :: 0 <= i < |name| ==>
         65 <= name[i] as int <= 90 || 48 <= name[i] as int <= 57 || name[i] as int == 95
  }

  lemma CapitalsAreValid(name: string)
    ensures InCapitals(name) <==> ValidName(name)
  {
    if ValidName(name) {
      assert forall i :: 0 <= i < |name| ==> NameChar(name[i]);
    }
  }

  function ValidOnes(env: map<string, string>): map<string, string> { map n | n in env && ValidName(n) :: env[n] }

  lemma WrittenIsRead(env: map<string, string>, names: seq<string>)
    requires forall n :: n in names <==> n in env
    ensures Sourced(HEADER + [LF] + Body(env, names)) == Some(ValidOnes(env))
            <==> forall n :: n in env && ValidName(n) ==> NUL !in env[n]
  {
    var body := Body(env, names);
    HeaderIsPlain();
    HeaderIsSkipped(body);
    BodyIsRead(env, names, map[]);
    KeptAre(env, names, map[]);
    assert Kept(env, names, map[]) == ValidOnes(env);
    NulInEnv(env, names);
  }

  lemma CapitalsAlike(env: map<string, string>)
    ensures ValidOnes(env) == map n | n in env && InCapitals(n) :: env[n]
    ensures (forall n :: n in env && ValidName(n) ==> NUL !in env[n])
            <==> forall n :: n in env && InCapitals(n) ==> NUL !in env[n]
  {
    forall n ensures InCapitals(n) <==> ValidName(n) {
      CapitalsAreValid(n);
    }
  }

  /**
   Sourcing the written file sets exactly the variables named in capitals, digits and underscores, no digit first, if
   and only if none of their values has a NUL.
   */
  lemma CliEnvRoundTrip(env: map<string, string>, names: seq<string>)
    requires forall n :: n in names <==> n in env
    ensures Sourced(HEADER + [LF] + Body(env, names)) == Some(map n | n in env && InCapitals(n) :: env[n])
            <==> forall n :: n in env && InCapitals(n) ==> NUL !in env[n]
  {
    WrittenIsRead(env, names);
    CapitalsAlike(env);
  }

  lemma NulInEnv(env: map<string, string>, names: seq<string>)
    requires forall n :: n in names <==> n in env
    ensures NUL in Body(env, names) <==> exists n :: n in env && ValidName(n) && NUL in env[n]
  {
    NulInBody(env, names);
    if n :| n in env && ValidName(n) && NUL in env[n] {
      var i :| 0 <= i < |names| && names[i] == n;
    }
  }

  lemma HeaderIsPlain()
    ensures NUL !in HEADER && LF !in HEADER && HEADER[0] == '#'
  {
    assert NUL !in WRITTEN_BY && LF !in WRITTEN_BY && WRITTEN_BY[0] == '#';
    assert NUL !in REFRESHED && LF !in REFRESHED;
    assert NUL !in DO_NOT_EDIT && LF !in DO_NOT_EDIT;
  }

  lemma {:induction false} LineEndIs(line: string, rest: string)
    requires LF !in line
    ensures LineEnd(line + [LF] + rest) == |line|
  {
    if line == [] {
      assert line + [LF] + rest == [LF] + rest;
    } else {
      LineEndIs(line[1..], rest);
      assert (line + [LF] + rest)[1..] == line[1..] + [LF] + rest;
    }
  }

  lemma HeaderIsSkipped(body: string)
    ensures Exported(HEADER + [LF] + body, map[]) == Exported(body, map[])
    ensures NUL !in HEADER && LF !in HEADER
  {
    var text := HEADER + [LF] + body;
    HeaderIsPlain();
    LineEndIs(HEADER, body);
    assert text[0] == HEADER[0];
    assert text[|HEADER|..] == [LF] + body;
    assert ([LF] + body)[1..] == body;
  }
}
