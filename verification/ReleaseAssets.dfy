/**
 The sliding window of releases: each image carries the assets of the newest `keep` releases before its own, although
 a build sees nothing but its own output and the previous image. Directories are maps from names to contents.
 */
module ReleaseAssets {
  import opened Basics

  datatype Manifest = Manifest(release: string, assets: seq<string>)

  /** A built web directory: what readRelease finds in it, and the files under assets/. */
  datatype Web<Content> = Web(release: Option<Manifest>, files: map<string, Content>)

  /** An image: its own build, its releases.json if it has one, and the files it carries. */
  datatype Image<Content> = Image(web: Web<Content>, listed: Option<seq<Manifest>>, carried: map<string, Content>)

  // ----- names -----

  predicate NameChar(c: char) {
    'A' <= c <= 'Z' || 'a' <= c <= 'z' || '0' <= c <= '9' || c == '_' || c == '-' || c == '.'
  }

  /** One path segment that cannot climb out of its directory. */
  predicate ValidName(name: string) {
    && name != [] && name[0] != '.'
    && (forall i :: 0 <= i < |name| ==> NameChar(name[i]))
    && forall i :: 0 <= i < |name| - 1 ==> !(name[i] == '.' && name[i + 1] == '.')
  }

  function ValidNames(names: seq<string>): seq<string> {
    if names == [] then []
    else (if ValidName(names[0]) then [names[0]] else []) + ValidNames(names[1..])
  }

  /** The usable entries of a releases.json. */
  function Usable(listed: seq<Manifest>): seq<Manifest> {
    if listed == [] then []
    else
      var m := listed[0];
      (if ValidName(m.release) then [m.(assets := ValidNames(m.assets))] else []) + Usable(listed[1..])
  }

  // ----- which releases are kept -----

  function Candidates<C>(previous: Image<C>): seq<Manifest> {
    (if previous.web.release.Some? then [previous.web.release.value] else [])
    + (if previous.listed.Some? then Usable(previous.listed.value) else [])
  }

  /** The first candidate of each release that is not seen yet. */
  function Distinct(candidates: seq<Manifest>, seen: set<string>): seq<Manifest> {
    if candidates == [] then []
    else if candidates[0].release in seen then Distinct(candidates[1..], seen)
    else [candidates[0]] + Distinct(candidates[1..], seen + {candidates[0].release})
  }

  function Take(s: seq<Manifest>, n: nat): seq<Manifest> {
    if |s| <= n then s else s[..n]
  }

  function IdOf(release: Option<Manifest>): set<string> {
    if release.Some? then {release.value.release} else {}
  }

  function Kept<C>(current: Web<C>, previous: Image<C>, keep: nat): seq<Manifest> {
    Take(Distinct(Candidates(previous), IdOf(current.release)), keep)
  }

  // ----- which files are carried -----

  function Own<C>(current: Web<C>): set<string> {
    if current.release.Some? then set name | name in current.release.value.assets else {}
  }

  predicate Available<C>(previous: Image<C>, name: string) {
    name in previous.web.files || name in previous.carried
  }

  function SourceOf<C>(previous: Image<C>, name: string): C
    requires Available(previous, name)
  {
    if name in previous.web.files then previous.web.files[name] else previous.carried[name]
  }

  /** The assets of a kept release that can still be served. */
  function Present<C>(assets: seq<string>, own: set<string>, previous: Image<C>): seq<string> {
    if assets == [] then []
    else
      var init, last := assets[..|assets| - 1], assets[|assets| - 1];
      Present(init, own, previous) + (if last in own || Available(previous, last) then [last] else [])
  }

  function Listing<C>(kept: seq<Manifest>, own: set<string>, previous: Image<C>): seq<Manifest> {
    seq(|kept|, i requires 0 <= i < |kept| => kept[i].(assets := Present(kept[i].assets, own, previous)))
  }

  ghost predicate Wanted(kept: seq<Manifest>, name: string) {
    exists i :: 0 <= i < |kept| && name in kept[i].assets
  }

  /** files holds exactly the kept releases' assets that this build lacks and the previous image has. */
  ghost predicate CarriesExactly<C>(files: map<string, C>, kept: seq<Manifest>, own: set<string>, previous: Image<C>) {
    && (forall name :: name in files <==> Wanted(kept, name) && name !in own && Available(previous, name))
    && forall name :: name in files ==> files[name] == SourceOf(previous, name)
  }

  function AssetNames(kept: seq<Manifest>): set<string> {
    set i, name | 0 <= i < |kept| && name in kept[i].assets :: name
  }

  /** The files carried from the previous image, as a function. */
  function CarriedFiles<C>(kept: seq<Manifest>, own: set<string>, previous: Image<C>): (files: map<string, C>)
    ensures CarriesExactly(files, kept, own, previous)
  {
    assert forall name :: name in AssetNames(kept) <==> Wanted(kept, name);
    map name | name in AssetNames(kept) && name !in own && Available(previous, name) :: SourceOf(previous, name)
  }

  /** The image built from a web directory and the previous image. */
  function Built<C>(current: Web<C>, previous: Image<C>, keep: nat): Image<C> {
    var kept := Kept(current, previous, keep);
    Image(current, Some(Listing(kept, Own(current), previous)), CarriedFiles(kept, Own(current), previous))
  }

  /** carryReleaseAssets: the listing and the files of this image's web-previous directory (empty before). */
  method CarryReleaseAssets<C>(current: Web<C>, previous: Image<C>, keep: nat)
    returns (result: seq<Manifest>, files: map<string, C>)
    ensures Image(current, Some(result), files) == Built(current, previous, keep)
    ensures CarriesExactly(files, Kept(current, previous, keep), Own(current), previous)
  {
    var kept := PickReleases(Candidates(previous), IdOf(current.release), keep);
    result, files := CopyReleases(kept, Own(current), previous);
    OneWayToCarry(files, CarriedFiles(kept, Own(current), previous), kept, Own(current), previous);
  }

  /** The loop over the releases kept. */
  method CopyReleases<C>(kept: seq<Manifest>, own: set<string>, previous: Image<C>)
    returns (result: seq<Manifest>, files: map<string, C>)
    ensures result == Listing(kept, own, previous) && CarriesExactly(files, kept, own, previous)
  {
    result, files := [], map[];
    for i := 0 to |kept|
      invariant result == Listing(kept[..i], own, previous)
      invariant CarriesExactly(files, kept[..i], own, previous)
    {
      var present: seq<string>;
      present, files := CopyAssets(kept[i].assets, own, previous, files, kept[..i]);
      result := result + [Manifest(kept[i].release, present)];
      assert kept[..i + 1] == kept[..i] + [kept[i]];
      WantedMore(kept[..i], kept[i]);
    }
    assert kept[..|kept|] == kept;
  }

  lemma OneWayToCarry<C>(a: map<string, C>, b: map<string, C>, kept: seq<Manifest>, own: set<string>,
                         previous: Image<C>)
    requires CarriesExactly(a, kept, own, previous) && CarriesExactly(b, kept, own, previous)
    ensures a == b
  {
  }

  lemma WantedMore(kept: seq<Manifest>, m: Manifest)
    ensures forall name :: Wanted(kept + [m], name) <==> Wanted(kept, name) || name in m.assets
  {
    forall name ensures Wanted(kept + [m], name) <==> Wanted(kept, name) || name in m.assets {
      if Wanted(kept, name) {
        var i :| 0 <= i < |kept| && name in kept[i].assets;
        assert name in (kept + [m])[i].assets;
      }
      if name in m.assets {
        assert name in (kept + [m])[|kept|].assets;
      }
    }
  }

  method PickReleases(candidates: seq<Manifest>, current: set<string>, keep: nat) returns (kept: seq<Manifest>)
    ensures kept == Take(Distinct(candidates, current), keep)
  {
    kept := [];
    var seen := current;
    assert candidates[0..] == candidates;
    for i := 0 to |candidates|
      invariant |kept| <= keep
      invariant kept + Distinct(candidates[i..], seen) == Distinct(candidates, current)
    {
      if |kept| >= keep {
        return;
      }
      var candidate := candidates[i];
      assert candidates[i..][1..] == candidates[i + 1..];
      if candidate.release in seen {
        continue;
      }
      assert kept + ([candidate] + Distinct(candidates[i + 1..], seen + {candidate.release}))
          == (kept + [candidate]) + Distinct(candidates[i + 1..], seen + {candidate.release});
      seen := seen + {candidate.release};
      kept := kept + [candidate];
    }
  }

  /** One release's assets: copied from the first directory that has them unless they are already there. */
  method CopyAssets<C>(assets: seq<string>, own: set<string>, previous: Image<C>, before: map<string, C>,
                       ghost done: seq<Manifest>)
    returns (present: seq<string>, files: map<string, C>)
    requires CarriesExactly(before, done, own, previous)
    ensures present == Present(assets, own, previous)
    ensures forall name :: name in files <==>
        (Wanted(done, name) || name in assets) && name !in own && Available(previous, name)
    ensures forall name :: name in files ==> files[name] == SourceOf(previous, name)
  {
    present, files := [], before;
    for i := 0 to |assets|
      invariant present == Present(assets[..i], own, previous)
      invariant forall name :: name in files <==>
          (Wanted(done, name) || name in assets[..i]) && name !in own && Available(previous, name)
      invariant forall name :: name in files ==> files[name] == SourceOf(previous, name)
    {
      var name := assets[i];
      assert assets[..i + 1][..i] == assets[..i] && assets[..i + 1][i] == name;
      if name in own {
        present := present + [name];
        continue;
      }
      if name in files {
        present := present + [name];
        continue;
      }
      if name in previous.web.files {
        files := files[name := previous.web.files[name]];
        present := present + [name];
      } else if name in previous.carried {
        files := files[name := previous.carried[name]];
        present := present + [name];
      }
    }
    assert assets[..|assets|] == assets;
  }

  // ----- chains of builds -----

  /** Before the first image there is nothing. */
  function Nothing<C>(): Image<C> { Image(Web(None, map[]), None, map[]) }

  /** Image n of a chain: build n on top of image n - 1. */
  function ImageAt<C>(builds: seq<Web<C>>, keep: nat, n: nat): Image<C>
    requires n < |builds|
  {
    Built(builds[n], if n == 0 then Nothing() else ImageAt(builds, keep, n - 1), keep)
  }

  /**
   A build as the bundler writes it: file names that determine contents (they are content hashes), and, if it has a
   release, a manifest with a valid id that lists no asset the build does not have.
   */
  ghost predicate ProperBuild<C>(web: Web<C>, content: string -> C) {
    && (forall name :: name in web.files ==> web.files[name] == content(name))
    && (web.release.Some? ==>
          ValidManifest(web.release.value) && forall name :: name in web.release.value.assets ==> name in web.files)
  }

  ghost predicate ProperBuilds<C>(builds: seq<Web<C>>, content: string -> C) {
    forall n :: 0 <= n < |builds| ==> ProperBuild(builds[n], content)
  }

  function Listed(release: Option<Manifest>): seq<Manifest> {
    if release.Some? then [release.value] else []
  }

  /** The releases built before build n, newest first, repeats included; a build without a release adds none. */
  function Earlier<C>(builds: seq<Web<C>>, n: nat): seq<Manifest>
    requires n <= |builds|
  {
    if n == 0 then [] else Listed(builds[n - 1].release) + Earlier(builds, n - 1)
  }

  /** The releases built before build n, newest first, each once. */
  function Known<C>(builds: seq<Web<C>>, n: nat): seq<Manifest>
    requires n <= |builds|
  {
    Distinct(Earlier(builds, n), {})
  }

  function Without(s: seq<Manifest>, release: string): seq<Manifest> {
    if s == [] then []
    else (if s[0].release == release then [] else [s[0]]) + Without(s[1..], release)
  }

  function WithoutOwn(s: seq<Manifest>, own: Option<Manifest>): seq<Manifest> {
    if own.Some? then Without(s, own.value.release) else s
  }

  /** The closed form: the first `keep` of the earlier releases, newest first, each once, without build n's own. */
  function Window<C>(builds: seq<Web<C>>, n: nat, keep: nat): seq<Manifest>
    requires n < |builds|
  {
    Take(WithoutOwn(Known(builds, n), builds[n].release), keep)
  }

  predicate Among(s: seq<Manifest>, release: string) {
    exists i :: 0 <= i < |s| && s[i].release == release
  }

  /**
   Image n lacks the last release of its window: build n goes back to one of the `keep` newest earlier releases, there
   are more than `keep`, and the image before passed on no more than `keep` of them, having no release of its own or
   being short itself.
   */
  predicate Short<C>(builds: seq<Web<C>>, n: nat, keep: nat)
    requires n < |builds|
  {
    && n > 0 && builds[n].release.Some?
    && |Known(builds, n)| > keep
    && Among(Take(Known(builds, n), keep), builds[n].release.value.release)
    && (builds[n - 1].release.None? || Short(builds, n - 1, keep))
  }

  // ----- lists of distinct releases -----

  ghost predicate AllDistinct(s: seq<Manifest>) {
    forall i, j :: 0 <= i < j < |s| ==> s[i].release != s[j].release
  }

  lemma {:induction false} DistinctIsDistinct(c: seq<Manifest>, seen: set<string>)
    ensures AllDistinct(Distinct(c, seen))
    ensures forall m :: m in Distinct(c, seen) ==> m in c && m.release !in seen
  {
    if c != [] {
      if c[0].release in seen {
        DistinctIsDistinct(c[1..], seen);
      } else {
        var rest := Distinct(c[1..], seen + {c[0].release});
        DistinctIsDistinct(c[1..], seen + {c[0].release});
        forall j | 0 <= j < |rest| ensures rest[j].release != c[0].release {
          assert rest[j] in rest;
        }
      }
    }
  }

  /** A list of distinct unseen releases stays as it is. */
  lemma {:induction false} DistinctStays(c: seq<Manifest>, seen: set<string>)
    requires AllDistinct(c) && forall i :: 0 <= i < |c| ==> c[i].release !in seen
    ensures Distinct(c, seen) == c
  {
    if c != [] {
      DistinctStays(c[1..], seen + {c[0].release});
      assert c == [c[0]] + c[1..];
    }
  }

  /** Having seen a release from the start is the same as taking it out at the end. */
  lemma {:induction false} SeenIsWithout(c: seq<Manifest>, seen: set<string>, release: string)
    ensures Distinct(c, seen + {release}) == Without(Distinct(c, seen), release)
    decreases |c|
  {
    if c != [] {
      var m := c[0].release;
      if m in seen {
        SeenIsWithout(c[1..], seen, release);
      } else if m == release {
        SeenIsWithout(c[1..], seen + {m}, release);
        assert seen + {m} + {release} == seen + {release};
        var rest := Distinct(c[1..], seen + {m});
        assert ([c[0]] + rest)[1..] == rest;
      } else {
        SeenIsWithout(c[1..], seen + {m}, release);
        assert seen + {m} + {release} == seen + {release} + {m};
        var rest := Distinct(c[1..], seen + {m});
        assert ([c[0]] + rest)[1..] == rest;
      }
    }
  }

  /** Taking a release out of a list takes it out of every beginning, and at most once. */
  lemma {:induction false} WithoutOfFront(s: seq<Manifest>, n: nat, release: string)
    requires AllDistinct(s) && n <= |s|
    ensures Without(s[..n], release) <= Without(s, release)
    ensures |Without(s[..n], release)| >= n - 1
    ensures |Without(s[..n], release)| == if Among(s[..n], release) then n - 1 else n
  {
    if n > 0 {
      WithoutOfFront(s[1..], n - 1, release);
      assert s[..n][1..] == s[1..][..n - 1];
      assert s[..n] == [s[0]] + s[1..][..n - 1];
      var rest := s[1..][..n - 1];
      AmongMore(s[0], rest, release);
      assert forall i :: 0 <= i < |rest| ==> rest[i] == s[i + 1];
    }
  }

  lemma AmongMore(m: Manifest, s: seq<Manifest>, release: string)
    ensures Among([m] + s, release) <==> m.release == release || Among(s, release)
  {
    var all := [m] + s;
    assert all[0] == m;
    if i :| 0 <= i < |s| && s[i].release == release { assert all[i + 1].release == release; }
    if i :| 0 < i < |all| && all[i].release == release { assert s[i - 1].release == release; }
  }

  /** One more than `keep` entries of a list are enough to find its first `keep` without one release. */
  lemma WindowOfFront(s: seq<Manifest>, keep: nat, release: string)
    requires AllDistinct(s)
    ensures Take(Without(Take(s, keep + 1), release), keep) == Take(Without(s, release), keep)
  {
    if |s| > keep + 1 {
      WithoutOfFront(s, keep + 1, release);
    }
  }

  lemma TakeOneMore(m: Manifest, s: seq<Manifest>, keep: nat)
    ensures [m] + Take(s, keep) == Take([m] + s, keep + 1)
  {
  }

  lemma {:induction false} ValidNamesStay(names: seq<string>)
    requires forall i :: 0 <= i < |names| ==> ValidName(names[i])
    ensures ValidNames(names) == names
  {
    if names != [] {
      ValidNamesStay(names[1..]);
      assert names == [names[0]] + names[1..];
    }
  }

  ghost predicate ValidManifest(m: Manifest) {
    ValidName(m.release) && forall i :: 0 <= i < |m.assets| ==> ValidName(m.assets[i])
  }

  lemma {:induction false} UsableStay(listed: seq<Manifest>)
    requires forall i :: 0 <= i < |listed| ==> ValidManifest(listed[i])
    ensures Usable(listed) == listed
  {
    if listed != [] {
      ValidNamesStay(listed[0].assets);
      UsableStay(listed[1..]);
      assert listed == [listed[0]] + listed[1..];
    }
  }

  lemma {:induction false} EarlierAre<C>(builds: seq<Web<C>>, n: nat)
    requires n <= |builds|
    ensures forall m :: m in Earlier(builds, n) ==> exists j :: 0 <= j < n && builds[j].release == Some(m)
  {
    if n > 0 {
      EarlierAre(builds, n - 1);
    }
  }

  // ----- what an image passes on -----

  /**
   How many of the known releases image n - 1 passes on: one more than the window unless it has no own or is short.
   */
  function Reach<C>(builds: seq<Web<C>>, n: nat, keep: nat): nat
    requires n < |builds|
  {
    if n == 0 || (builds[n - 1].release.Some? && !Short(builds, n - 1, keep)) then keep + 1 else keep
  }

  function Front<C>(builds: seq<Web<C>>, n: nat, keep: nat): seq<Manifest>
    requires n < |builds|
  {
    Take(Known(builds, n), Reach(builds, n, keep))
  }

  /** The releases image n carries. */
  function Carries<C>(builds: seq<Web<C>>, n: nat, keep: nat): seq<Manifest>
    requires n < |builds|
  {
    Take(WithoutOwn(Front(builds, n, keep), builds[n].release), keep)
  }

  /** What is left of the first `keep` of more than `keep` releases without one of them. */
  lemma ShortFront(s: seq<Manifest>, keep: nat, release: string)
    requires AllDistinct(s) && |s| > keep
    ensures var window := Take(Without(s, release), keep); var front := Without(Take(s, keep), release);
            && |window| == keep
            && front == if Among(Take(s, keep), release) then window[..keep - 1] else window
  {
    WithoutOfFront(s, keep, release);
    WithoutOfFront(s, |s|, release);
    assert s[..|s|] == s;
    var all, front := Without(s, release), Without(s[..keep], release);
    assert front == all[..|front|];
    assert keep > 0 || s[..keep] == [];
  }

  /** Image n carries its window, or its window without the last release if it is short. */
  lemma CarriesWindow<C>(builds: seq<Web<C>>, n: nat, keep: nat)
    requires n < |builds|
    ensures Short(builds, n, keep) ==> 0 < keep == |Window(builds, n, keep)|
    ensures Carries(builds, n, keep) ==
            if Short(builds, n, keep) then Window(builds, n, keep)[..keep - 1] else Window(builds, n, keep)
  {
    var known, own := Known(builds, n), builds[n].release;
    DistinctIsDistinct(Earlier(builds, n), {});
    if own.Some? {
      if Reach(builds, n, keep) == keep + 1 {
        WindowOfFront(known, keep, own.value.release);
      } else if |known| > keep {
        ShortFront(known, keep, own.value.release);
      }
    }
  }

  lemma KnownGrows<C>(builds: seq<Web<C>>, n: nat)
    requires 0 < n <= |builds|
    ensures builds[n - 1].release.None? ==> Known(builds, n) == Known(builds, n - 1)
    ensures builds[n - 1].release.Some? ==>
              var last := builds[n - 1].release.value;
              Known(builds, n) == [last] + Without(Known(builds, n - 1), last.release)
  {
    var earlier := Earlier(builds, n - 1);
    if builds[n - 1].release.Some? {
      var last := builds[n - 1].release.value;
      assert Earlier(builds, n)[1..] == earlier;
      SeenIsWithout(earlier, {}, last.release);
      assert {} + {last.release} == {last.release};
    } else {
      assert [] + earlier == earlier;
    }
  }

  /** The candidates of build n: what image n - 1 is and carries is the front of the known releases. */
  lemma NextFront<C>(builds: seq<Web<C>>, n: nat, keep: nat)
    requires 0 < n < |builds|
    ensures Listed(builds[n - 1].release) + Carries(builds, n - 1, keep) == Front(builds, n, keep)
  {
    KnownGrows(builds, n);
    CarriesWindow(builds, n - 1, keep);
    PassedOn(builds[n - 1].release, Known(builds, n - 1), Known(builds, n), Carries(builds, n - 1, keep),
             Short(builds, n - 1, keep), keep);
  }

  /** An image's own release and the ones it carries are the front of the releases known after it. */
  lemma PassedOn(own: Option<Manifest>, before: seq<Manifest>, known: seq<Manifest>, carries: seq<Manifest>,
                 short: bool, keep: nat)
    requires known == if own.None? then before else [own.value] + Without(before, own.value.release)
    requires var window := Take(WithoutOwn(before, own), keep);
             && (short ==> own.Some? && 0 < keep == |window|)
             && carries == if short then window[..keep - 1] else window
    ensures Listed(own) + carries == Take(known, if own.Some? && !short then keep + 1 else keep)
  {
    if own.Some? {
      TakeOneMore(own.value, Without(before, own.value.release), keep);
    }
  }

  /** The releases kept among the candidates. */
  lemma KeptOfFront<C>(builds: seq<Web<C>>, n: nat, keep: nat)
    requires n < |builds|
    ensures Take(Distinct(Front(builds, n, keep), IdOf(builds[n].release)), keep) == Carries(builds, n, keep)
  {
    var front, own := Front(builds, n, keep), builds[n].release;
    DistinctIsDistinct(Earlier(builds, n), {});
    DistinctStays(front, {});
    if own.Some? {
      SeenIsWithout(front, {}, own.value.release);
      assert {} + {own.value.release} == IdOf(own);
    }
  }

  lemma WithoutOwnIn(s: seq<Manifest>, own: Option<Manifest>)
    ensures forall m :: m in WithoutOwn(s, own) ==> m in s
  {
    if own.Some? { WithoutIn(s, own.value.release); }
  }

  lemma {:induction false} WithoutIn(s: seq<Manifest>, release: string)
    ensures forall m :: m in Without(s, release) ==> m in s
  {
    if s != [] {
      WithoutIn(s[1..], release);
    }
  }

  /** Every release an image carries is that of an earlier build. */
  lemma CarriesEarlier<C>(builds: seq<Web<C>>, n: nat, keep: nat, m: Manifest)
    requires n < |builds| && m in Carries(builds, n, keep)
    ensures exists j :: 0 <= j < n && builds[j].release == Some(m)
  {
    var front, known := Front(builds, n, keep), Known(builds, n);
    WithoutOwnIn(front, builds[n].release);
    assert m in front && m in known;
    DistinctIsDistinct(Earlier(builds, n), {});
    EarlierAre(builds, n);
  }

  lemma CarriesValid<C>(builds: seq<Web<C>>, content: string -> C, n: nat, keep: nat)
    requires ProperBuilds(builds, content) && n < |builds|
    ensures Usable(Carries(builds, n, keep)) == Carries(builds, n, keep)
  {
    var carries := Carries(builds, n, keep);
    forall i | 0 <= i < |carries| ensures ValidManifest(carries[i]) {
      CarriesEarlier(builds, n, keep, carries[i]);
    }
    UsableStay(carries);
  }

  // ----- every image of a chain -----

  /** The image can serve the asset, with its content. */
  ghost predicate Serves<C>(content: string -> C, image: Image<C>, name: string) {
    Available(image, name) && SourceOf(image, name) == content(name)
  }

  ghost predicate ServesAll<C>(content: string -> C, image: Image<C>, releases: seq<Manifest>) {
    forall i, name :: 0 <= i < |releases| && name in releases[i].assets ==> Serves(content, image, name)
  }

  lemma {:induction false} AllPresent<C>(assets: seq<string>, own: set<string>, previous: Image<C>)
    requires forall name :: name in assets ==> Available(previous, name)
    ensures Present(assets, own, previous) == assets
  {
    if assets != [] {
      AllPresent(assets[..|assets| - 1], own, previous);
      assert assets == assets[..|assets| - 1] + [assets[|assets| - 1]];
    }
  }

  lemma CandidatesServed<C>(content: string -> C, image: Image<C>, releases: seq<Manifest>)
    requires ProperBuild(image.web, content) && ServesAll(content, image, releases)
    ensures ServesAll(content, image, Listed(image.web.release) + releases)
  {
    var own := Listed(image.web.release);
    var all := own + releases;
    forall i, name | 0 <= i < |all| && name in all[i].assets ensures Serves(content, image, name) {
      if i >= |own| { assert all[i] == releases[i - |own|]; }
    }
  }

  /** What the next image can serve of what the previous one serves. */
  lemma CarriedServed<C>(content: string -> C, previous: Image<C>, image: Image<C>, kept: seq<Manifest>)
    requires ProperBuild(image.web, content) && ServesAll(content, previous, kept)
    requires CarriesExactly(image.carried, kept, Own(image.web), previous)
    ensures Listing(kept, Own(image.web), previous) == kept
    ensures ServesAll(content, image, kept)
  {
    forall i | 0 <= i < |kept| ensures Present(kept[i].assets, Own(image.web), previous) == kept[i].assets {
      forall name | name in kept[i].assets ensures Available(previous, name) {
        assert Serves(content, previous, name);
      }
      AllPresent(kept[i].assets, Own(image.web), previous);
    }
    forall i, name | 0 <= i < |kept| && name in kept[i].assets ensures Serves(content, image, name) {
      assert Serves(content, previous, name) && Wanted(kept, name);
    }
  }

  lemma KeptAmong(candidates: seq<Manifest>, seen: set<string>, keep: nat, m: Manifest)
    requires m in Take(Distinct(candidates, seen), keep)
    ensures m in candidates
  {
    DistinctIsDistinct(candidates, seen);
  }

  lemma KeptServed<C>(content: string -> C, previous: Image<C>, seen: set<string>, keep: nat)
    requires ServesAll(content, previous, Candidates(previous))
    ensures ServesAll(content, previous, Take(Distinct(Candidates(previous), seen), keep))
  {
    var candidates := Candidates(previous);
    var kept := Take(Distinct(candidates, seen), keep);
    forall i, name | 0 <= i < |kept| && name in kept[i].assets ensures Serves(content, previous, name) {
      KeptAmong(candidates, seen, keep, kept[i]);
      var j :| 0 <= j < |candidates| && candidates[j] == kept[i];
    }
  }

  /** The image holds the build, lists the releases and serves them. */
  ghost predicate Complete<C>(content: string -> C, image: Image<C>, web: Web<C>, releases: seq<Manifest>) {
    image.web == web && image.listed == Some(releases) && ServesAll(content, image, releases)
  }

  /** The candidates a complete image gives the next build: its own release and those it lists. */
  lemma CandidatesOf<C>(content: string -> C, previous: Image<C>, web: Web<C>, releases: seq<Manifest>)
    requires ProperBuild(web, content) && Complete(content, previous, web, releases) && Usable(releases) == releases
    ensures Candidates(previous) == Listed(web.release) + releases
    ensures ServesAll(content, previous, Candidates(previous))
  {
    CandidatesServed(content, previous, releases);
    assert Candidates(previous) == Listed(web.release) + releases;
  }

  lemma NextImage<C>(content: string -> C, previous: Image<C>, web: Web<C>, front: seq<Manifest>, keep: nat)
    requires ProperBuild(web, content) && Candidates(previous) == front && ServesAll(content, previous, front)
    ensures Complete(content, Built(web, previous, keep), web, Take(Distinct(front, IdOf(web.release)), keep))
  {
    KeptServed(content, previous, IdOf(web.release), keep);
    CarriedServed(content, previous, Built(web, previous, keep), Kept(web, previous, keep));
  }

  /** The image of a build after a complete image. */
  lemma CompleteFollows<C>(content: string -> C, previous: Image<C>, before: Web<C>, carries: seq<Manifest>,
                           web: Web<C>, after: seq<Manifest>, keep: nat)
    requires ProperBuild(before, content) && ProperBuild(web, content) && Complete(content, previous, before, carries)
    requires Usable(carries) == carries
    requires after == Take(Distinct(Listed(before.release) + carries, IdOf(web.release)), keep)
    ensures Complete(content, Built(web, previous, keep), web, after)
  {
    CandidatesOf(content, previous, before, carries);
    NextImage(content, previous, web, Listed(before.release) + carries, keep);
  }

  /** What an image carries comes from what the one before carries. */
  lemma CarriesNext<C>(builds: seq<Web<C>>, n: nat, keep: nat)
    requires 0 < n < |builds|
    ensures Carries(builds, n, keep) ==
            Take(Distinct(Listed(builds[n - 1].release) + Carries(builds, n - 1, keep), IdOf(builds[n].release)), keep)
  {
    NextFront(builds, n, keep);
    KeptOfFront(builds, n, keep);
  }

  /** The first image carries nothing. */
  lemma FirstComplete<C>(builds: seq<Web<C>>, content: string -> C, keep: nat)
    requires ProperBuilds(builds, content) && builds != []
    ensures Complete(content, ImageAt(builds, keep, 0), builds[0], Carries(builds, 0, keep))
  {
    assert Candidates(Nothing<C>()) == [] == Front(builds, 0, keep);
    NextImage(content, Nothing(), builds[0], [], keep);
    KeptOfFront(builds, 0, keep);
  }

  lemma {:induction false} ImagesComplete<C>(builds: seq<Web<C>>, content: string -> C, keep: nat, n: nat)
    requires ProperBuilds(builds, content) && n < |builds|
    ensures Complete(content, ImageAt(builds, keep, n), builds[n], Carries(builds, n, keep))
  {
    if n == 0 {
      FirstComplete(builds, content, keep);
    } else {
      var previous, carries := ImageAt(builds, keep, n - 1), Carries(builds, n - 1, keep);
      ImagesComplete(builds, content, keep, n - 1);
      CarriesValid(builds, content, n - 1, keep);
      CarriesNext(builds, n, keep);
      CompleteFollows(content, previous, builds[n - 1], carries, builds[n], Carries(builds, n, keep), keep);
    }
  }

  /**
   In every chain of builds with constant `keep`, repeats, rollbacks and builds without a release included: image n
   lists exactly the first `keep` of the earlier releases, newest first, each once and without release n itself, if
   and only if it is not short; a short image lists all of them but the last. Each release is listed with its original
   assets, and every one of them is served with its original content.
   */
  lemma SlidingWindow<C>(builds: seq<Web<C>>, content: string -> C, keep: nat, n: nat)
    requires ProperBuilds(builds, content) && n < |builds|
    ensures var image, window := ImageAt(builds, keep, n), Window(builds, n, keep);
            && (image.listed == Some(window) <==> !Short(builds, n, keep))
            && (Short(builds, n, keep) ==> 0 < keep == |window| && image.listed == Some(window[..keep - 1]))
            && image.listed.Some? && ServesAll(content, image, image.listed.value)
  {
    ImagesComplete(builds, content, keep, n);
    CarriesWindow(builds, n, keep);
  }

  /** A chain in which every build has a release never falls short. */
  lemma NeverShort<C>(builds: seq<Web<C>>, n: nat, keep: nat)
    requires n < |builds| && forall i :: 0 <= i < n ==> builds[i].release.Some?
    ensures !Short(builds, n, keep)
  {
    if n > 0 { NeverShort(builds, n - 1, keep); }
  }

  function GoesBack(a: Manifest, b: Manifest): seq<Web<string>> {
    [Web(Some(a), map[]), Web(Some(b), map[]), Web(None, map[]), Web(Some(b), map[])]
  }

  /**
   Releases a and b, a build without a release, then b again: with `keep` 1 its image carries nothing instead of a.
   */
  lemma ShortChain(a: Manifest, b: Manifest)
    requires a.release != b.release && a.assets == b.assets == [] && ValidManifest(a) && ValidManifest(b)
    ensures var builds := GoesBack(a, b);
            ImageAt(builds, 1, 3).listed == Some([]) && Window(builds, 3, 1) == [a]
  {
    var builds := GoesBack(a, b);
    KnownBefore(a, b);
    assert [b, a][1..] == [a] && [a][1..] == [];
    assert Without([a], b.release) == [a];
    assert Without([b, a], b.release) == [a];
    assert Take([b, a], 1)[0] == b;
    assert Short(builds, 3, 1);
    SlidingWindow(builds, (name: string) => "", 1, 3);
    assert [a][..0] == [];
  }

  lemma KnownBefore(a: Manifest, b: Manifest)
    requires a.release != b.release
    ensures Known(GoesBack(a, b), 3) == [b, a]
  {
    var builds := GoesBack(a, b);
    assert Earlier(builds, 1) == [a] by { assert Earlier(builds, 0) == []; }
    assert Earlier(builds, 2) == [b, a];
    assert Earlier(builds, 3) == [b, a];
    DistinctPair(a, b);
  }

  lemma DistinctPair(a: Manifest, b: Manifest)
    requires a.release != b.release
    ensures Distinct([b, a], {}) == [b, a]
  {
    assert [b, a][1..] == [a] && [a][1..] == [];
    assert Distinct([a], {} + {b.release}) == [a];
  }
}
