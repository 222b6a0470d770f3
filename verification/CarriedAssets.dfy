/**
 What any image carries, whatever the previous image says of itself: only releases it was offered, with names that stay
 in their directory, only assets that can be served, and no file twice.
 */
module CarriedAssets {
  import opened Basics
  import opened ReleaseAssets

  // ----- names -----

  /** A name that stays in its directory: no separator, not a dot name, no two dots in a row. */
  predicate StaysInside(name: string) {
    && name != "" && !("." <= name) && '/' !in name && '\\' !in name
    && forall i :: 0 <= i < |name| - 1 && name[i] == '.' ==> name[i + 1] != '.'
  }

  /** Digits, letters, and - . _ by their codes. */
  predicate Ordinary(c: char) {
    var n := c as int;
    48 <= n <= 57 || 65 <= n <= 90 || 97 <= n <= 122 || n == 45 || n == 46 || n == 95
  }

  /** The names accepted are those of ordinary characters that stay inside their directory. */
  lemma AcceptedNames(name: string)
    ensures ValidName(name) <==> StaysInside(name) && forall i :: 0 <= i < |name| ==> Ordinary(name[i])
  {
  }

  lemma {:induction false} ValidNamesAre(names: seq<string>)
    ensures forall name :: name in ValidNames(names) <==> name in names && ValidName(name)
  {
    if names != [] {
      ValidNamesAre(names[1..]);
      assert names == [names[0]] + names[1..];
    }
  }

  // ----- what is offered -----

  /** The list has an entry for the release with exactly these assets among those with accepted names. */
  ghost predicate InList(listed: seq<Manifest>, m: Manifest) {
    exists i :: 0 <= i < |listed| && Cleaned(listed[i], m)
  }

  ghost predicate Cleaned(entry: Manifest, m: Manifest) {
    && ValidName(entry.release) && m.release == entry.release
    && forall name :: name in m.assets <==> name in entry.assets && ValidName(name)
  }

  /** The previous image offers the release: as its own, or in its list. */
  ghost predicate Offered<C>(previous: Image<C>, m: Manifest) {
    previous.web.release == Some(m) || (previous.listed.Some? && InList(previous.listed.value, m))
  }

  lemma {:induction false} UsableAre(listed: seq<Manifest>, m: Manifest)
    requires m in Usable(listed)
    ensures InList(listed, m)
  {
    var first := listed[0];
    ValidNamesAre(first.assets);
    if ValidName(first.release) && m == first.(assets := ValidNames(first.assets)) {
      assert Cleaned(listed[0], m);
    } else {
      UsableAre(listed[1..], m);
      var i :| 0 <= i < |listed[1..]| && Cleaned(listed[1..][i], m);
      assert Cleaned(listed[i + 1], m);
    }
  }

  lemma CandidatesOffered<C>(previous: Image<C>, m: Manifest)
    requires m in Candidates(previous)
    ensures Offered(previous, m)
  {
    if previous.listed.Some? && m in Usable(previous.listed.value) {
      UsableAre(previous.listed.value, m);
    }
  }

  // ----- what is carried -----

  predicate HasAsset<C>(web: Web<C>, name: string) { web.release.Some? && name in web.release.value.assets }

  lemma {:induction false} PresentAre<C>(assets: seq<string>, own: set<string>, previous: Image<C>)
    ensures forall name :: name in Present(assets, own, previous) <==>
              name in assets && (name in own || name in previous.web.files || name in previous.carried)
  {
    if assets != [] {
      PresentAre(assets[..|assets| - 1], own, previous);
      assert assets == assets[..|assets| - 1] + [assets[|assets| - 1]];
    }
  }

  /** The listed release is one that was offered, with exactly those of its assets that the image can serve. */
  ghost predicate FromOffer<C>(current: Web<C>, previous: Image<C>, m: Manifest, listed: Manifest) {
    && Offered(previous, m) && listed.release == m.release
    && forall name :: name in listed.assets <==>
         name in m.assets && (HasAsset(current, name) || name in previous.web.files || name in previous.carried)
  }

  lemma ListedOne<C>(current: Web<C>, previous: Image<C>, keep: nat, k: nat)
    requires k < |Kept(current, previous, keep)|
    ensures var kept, image := Kept(current, previous, keep), Built(current, previous, keep);
            && image.listed.Some? && |image.listed.value| == |kept|
            && FromOffer(current, previous, kept[k], image.listed.value[k])
  {
    var m := Kept(current, previous, keep)[k];
    KeptAmong(Candidates(previous), IdOf(current.release), keep, m);
    CandidatesOffered(previous, m);
    PresentAre(m.assets, Own(current), previous);
  }

  lemma ListedIds<C>(current: Web<C>, previous: Image<C>, keep: nat, k: nat)
    requires k < |Kept(current, previous, keep)|
    ensures var kept, image := Kept(current, previous, keep), Built(current, previous, keep);
            && |kept| <= keep
            && image.listed.Some? && |image.listed.value| == |kept| && image.listed.value[k].release == kept[k].release
            && kept[k].release !in IdOf(current.release)
            && forall l :: k < l < |kept| ==> kept[k].release != kept[l].release
  {
    var all, kept := Distinct(Candidates(previous), IdOf(current.release)), Kept(current, previous, keep);
    DistinctIsDistinct(Candidates(previous), IdOf(current.release));
    assert kept[k] == all[k] && all[k] in all;
  }

  /** At most `keep` releases are listed, each once and none the build's own. */
  lemma ListsEachOnce<C>(current: Web<C>, previous: Image<C>, keep: nat)
    ensures var image := Built(current, previous, keep);
            && image.web == current && image.listed.Some? && |image.listed.value| <= keep
            && (forall k :: 0 <= k < |image.listed.value| && current.release.Some? ==>
                 image.listed.value[k].release != current.release.value.release)
            && forall k, l :: 0 <= k < l < |image.listed.value| ==>
                 image.listed.value[k].release != image.listed.value[l].release
  {
    var kept, listed := Kept(current, previous, keep), Built(current, previous, keep).listed.value;
    forall k | 0 <= k < |listed|
      ensures listed[k].release == kept[k].release && kept[k].release !in IdOf(current.release)
      ensures forall l :: k < l < |kept| ==> kept[k].release != kept[l].release
    {
      ListedIds(current, previous, keep, k);
    }
  }

  /** Whatever the previous image says, each listed release is one it offered, with the assets that can be served. */
  lemma ListsWhatIsOffered<C>(current: Web<C>, previous: Image<C>, keep: nat, k: nat)
    requires var listed := Built(current, previous, keep).listed; listed.Some? && k < |listed.value|
    ensures exists m :: FromOffer(current, previous, m, Built(current, previous, keep).listed.value[k])
  {
    ListedOne(current, previous, keep, k);
  }

  /** A file is carried exactly if it is listed and not the build's own, with the content the previous image serves. */
  lemma CarriesWhatIsListed<C>(current: Web<C>, previous: Image<C>, keep: nat, name: string)
    ensures var image := Built(current, previous, keep);
            && image.listed.Some?
            && (name in image.carried <==> Wanted(image.listed.value, name) && !HasAsset(current, name))
            && (name in image.carried ==>
                 if name in previous.web.files then image.carried[name] == previous.web.files[name]
                 else name in previous.carried && image.carried[name] == previous.carried[name])
  {
    var kept, image := Kept(current, previous, keep), Built(current, previous, keep);
    assert CarriesExactly(image.carried, kept, Own(current), previous);
    if Wanted(kept, name) && Available(previous, name) {
      var k :| 0 <= k < |kept| && name in kept[k].assets;
      ListedOne(current, previous, keep, k);
      assert name in image.listed.value[k].assets;
    }
    if Wanted(image.listed.value, name) {
      var k :| 0 <= k < |image.listed.value| && name in image.listed.value[k].assets;
      ListedOne(current, previous, keep, k);
      assert name in kept[k].assets;
    }
  }
}
