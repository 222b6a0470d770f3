/**
 Turns that must leave the repository alone: how `git status` is read, and what a turn is told it changed anyway.
 The diffs are hashed by an injective function here, and git lists a set of paths in one order.
 */
module TurnScope {
  import opened Basics
  import opened Workspace

  const NUL := 0 as char

  /** A path with its two status letters. */
  datatype Entry = Entry(path: Path, xy: string)

  // ----- reading git status -----

  /** The pieces of a text between NULs. */
  function Split(s: string): (pieces: seq<string>)
    ensures pieces != []
  {
    if s == [] then [""]
    else
      var rest := Split(s[1..]);
      if s[0] == NUL then [""] + rest else [[s[0]] + rest[0]] + rest[1..]
  }

  ghost predicate NoNul(pieces: seq<string>) {
    forall i :: 0 <= i < |pieces| ==> NUL !in pieces[i]
  }

  lemma {:induction false} SplitText(a: string, s: string)
    requires NUL !in a
    ensures Split(a) == [a] && Split(a + [NUL] + s) == [a] + Split(s)
  {
    if a == [] {
      assert a + [NUL] + s == [NUL] + s;
      assert ([NUL] + s)[1..] == s;
    } else {
      SplitText(a[1..], s);
      assert (a + [NUL] + s)[1..] == a[1..] + [NUL] + s;
      assert [a[0]] + a[1..] == a;
    }
  }

  lemma {:induction false} SplitJoin(pieces: seq<string>)
    requires pieces != [] && NoNul(pieces)
    ensures Split(Join(pieces, NUL)) == pieces
  {
    if |pieces| == 1 {
      SplitText(pieces[0], "");
    } else {
      SplitJoin(pieces[1..]);
      SplitText(pieces[0], Join(pieces[1..], NUL));
    }
  }

  lemma {:induction false} SplitNoNul(s: string)
    ensures NoNul(Split(s))
  {
    if s != [] {
      SplitNoNul(s[1..]);
    }
  }

  /** A Map from paths to their two status letters, with its keys in insertion order. */
  datatype Paths = Paths(keys: seq<Path>, xy: map<Path, string>)

  function Set(m: Paths, path: Path, xy: string): Paths {
    Paths(if path in m.xy then m.keys else m.keys + [path], m.xy[path := xy])
  }

  /** A map's keys are in it, none twice; the paths are not empty and have no NUL. */
  ghost predicate Clean(m: Paths) {
    && (forall p :: p in m.keys <==> p in m.xy)
    && (forall i, j :: 0 <= i < j < |m.keys| ==> m.keys[i] != m.keys[j])
    && forall i :: 0 <= i < |m.keys| ==> m.keys[i] != "" && NUL !in m.keys[i]
  }

  function Parsed(pieces: seq<string>): Paths {
    if pieces == [] then Paths([], map[])
    else
      var init, last := Parsed(pieces[..|pieces| - 1]), pieces[|pieces| - 1];
      if |last| < 4 then init else Set(init, last[3..], last[..2])
  }

  lemma SetClean(m: Paths, path: Path, xy: string)
    requires Clean(m) && path != "" && NUL !in path
    ensures Clean(Set(m, path, xy))
  {
  }

  /** Reads a status listing: each entry is two letters, a space and a path, ended by a NUL. */
  method ParseStatus(output: string) returns (dirty: Paths)
    ensures dirty == Parsed(Split(output)) && Clean(dirty)
  {
    var pieces := Split(output);
    SplitNoNul(output);
    dirty := Paths([], map[]);
    for i := 0 to |pieces|
      invariant dirty == Parsed(pieces[..i]) && Clean(dirty)
    {
      var entry := pieces[i];
      assert pieces[..i + 1][..i] == pieces[..i];
      if |entry| >= 4 {
        SetClean(dirty, entry[3..], entry[..2]);
        dirty := Set(dirty, entry[3..], entry[..2]);
      }
    }
    assert pieces[..|pieces|] == pieces;
  }

  function Listed(e: Entry): string { e.xy + " " + e.path }

  /** What git prints for the entries. */
  function Printed(entries: seq<Entry>): string {
    if entries == [] then "" else Listed(entries[0]) + [NUL] + Printed(entries[1..])
  }

  /** Entries as git prints them: two letters and a path. */
  ghost predicate Listable(entries: seq<Entry>) {
    forall i :: 0 <= i < |entries| ==>
      |entries[i].xy| == 2 && NUL !in entries[i].xy && entries[i].path != "" && NUL !in entries[i].path
  }

  /** No path is listed twice. */
  ghost predicate Printable(entries: seq<Entry>) {
    Listable(entries) && forall i, j :: 0 <= i < j < |entries| ==> entries[i].path != entries[j].path
  }

  function Lines(entries: seq<Entry>): (r: seq<string>)
    ensures |r| == |entries| + 1 && r[|entries|] == "" && forall i :: 0 <= i < |entries| ==> r[i] == Listed(entries[i])
  {
    seq(|entries| + 1, i requires 0 <= i <= |entries| => if i == |entries| then "" else Listed(entries[i]))
  }

  lemma LinesMore(entries: seq<Entry>)
    requires entries != []
    ensures Lines(entries) == [Listed(entries[0])] + Lines(entries[1..])
  {
  }

  lemma ListedNoNul(entries: seq<Entry>)
    requires Listable(entries) && entries != []
    ensures NUL !in Listed(entries[0]) && Listable(entries[1..])
  {
  }

  lemma {:induction false} SplitPrinted(entries: seq<Entry>)
    requires Listable(entries)
    ensures Split(Printed(entries)) == Lines(entries)
  {
    if entries != [] {
      ListedNoNul(entries);
      SplitPrinted(entries[1..]);
      SplitText(Listed(entries[0]), Printed(entries[1..]));
      LinesMore(entries);
    }
  }

  /** The map is of the first n entries. */
  ghost predicate Holds(m: Paths, entries: seq<Entry>, n: nat)
    requires n <= |entries|
  {
    && |m.keys| == n
    && (forall p :: p in m.xy ==> p in m.keys)
    && forall i :: 0 <= i < n ==>
         m.keys[i] == entries[i].path && entries[i].path in m.xy && m.xy[entries[i].path] == entries[i].xy
  }

  lemma SetHolds(m: Paths, entries: seq<Entry>, n: nat)
    requires Printable(entries) && n < |entries| && Holds(m, entries, n)
    ensures Holds(Set(m, entries[n].path, entries[n].xy), entries, n + 1)
  {
    assert entries[n].path !in m.keys;
  }

  lemma ListedParts(e: Entry)
    requires |e.xy| == 2 && e.path != ""
    ensures |Listed(e)| >= 4 && Listed(e)[3..] == e.path && Listed(e)[..2] == e.xy
  {
  }

  lemma {:induction false} ParsedLines(entries: seq<Entry>, n: nat)
    requires Printable(entries) && n <= |entries|
    ensures Holds(Parsed(Lines(entries)[..n]), entries, n)
  {
    if n > 0 {
      ParsedLines(entries, n - 1);
      ParsedMore(entries, n);
      SetHolds(Parsed(Lines(entries)[..n - 1]), entries, n - 1);
    }
  }

  lemma ParsedMore(entries: seq<Entry>, n: nat)
    requires Listable(entries) && 0 < n <= |entries|
    ensures Parsed(Lines(entries)[..n]) ==
            Set(Parsed(Lines(entries)[..n - 1]), entries[n - 1].path, entries[n - 1].xy)
  {
    var pieces, e := Lines(entries)[..n], entries[n - 1];
    assert pieces[..n - 1] == Lines(entries)[..n - 1];
    assert pieces[n - 1] == Listed(e);
    ListedParts(e);
  }

  /** The last of the first n entries for a path. */
  predicate LastFor(entries: seq<Entry>, n: nat, path: Path, i: nat)
    requires n <= |entries|
  {
    i < n && entries[i].path == path && forall j :: i < j < n ==> entries[j].path != path
  }

  lemma {:induction false} LettersOfLast(entries: seq<Entry>, n: nat, path: Path)
    requires Listable(entries) && n <= |entries|
    ensures var m := Parsed(Lines(entries)[..n]);
            && (path in m.xy <==> exists i :: 0 <= i < n && entries[i].path == path)
            && forall i: nat :: LastFor(entries, n, path, i) ==> path in m.xy && m.xy[path] == entries[i].xy
  {
    if n > 0 {
      LettersOfLast(entries, n - 1, path);
      ParsedMore(entries, n);
      forall i: nat | LastFor(entries, n, path, i) && i < n - 1 ensures LastFor(entries, n - 1, path, i) {
      }
    }
  }

  /** A path that is listed more than once has the letters of its last entry. */
  lemma LastListingStays(entries: seq<Entry>, path: Path)
    requires Listable(entries)
    ensures var m := Parsed(Split(Printed(entries)));
            && (path in m.xy <==> exists i :: 0 <= i < |entries| && entries[i].path == path)
            && forall i: nat :: LastFor(entries, |entries|, path, i) ==> path in m.xy && m.xy[path] == entries[i].xy
  {
    var lines := Lines(entries);
    SplitPrinted(entries);
    LettersOfLast(entries, |entries|, path);
    assert lines[..|lines| - 1] == lines[..|entries|];
  }

  /** Parsing a status listing gives back its entries, in order. */
  lemma StatusRoundTrip(entries: seq<Entry>)
    requires Printable(entries)
    ensures var m := Parsed(Split(Printed(entries)));
            && |m.keys| == |entries|
            && forall i :: 0 <= i < |entries| ==>
                 m.keys[i] == entries[i].path && m.keys[i] in m.xy && m.xy[m.keys[i]] == entries[i].xy
  {
    var lines := Lines(entries);
    SplitPrinted(entries);
    ParsedLines(entries, |entries|);
    assert lines[..|lines| - 1] == lines[..|entries|];
  }
}
