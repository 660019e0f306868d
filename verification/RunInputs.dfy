/** What a coverage calculation takes from its runs does not depend on the order in which the runs are listed. */
module RunInputs {
  import opened Collections
  import opened Plane
  import opened Coverage
  import opened Checksums
  import opened Tables
  import opened Records
  import opened Workflow
  import opened Invariant
  import MoreSurvey

  function Images<A, B>(f: A -> B, s: seq<A>): (r: seq<B>)
    ensures |r| == |s|
    ensures forall i | 0 <= i < |s| :: r[i] == f(s[i])
  {
    if s == [] then [] else Images(f, s[..|s| - 1]) + [f(s[|s| - 1])]
  }

  lemma {:induction false} ImageWithout<A, B>(f: A -> B, s: seq<A>, i: nat)
    requires i < |s|
    ensures multiset(Images(f, s)) == multiset(Images(f, s[..i] + s[i + 1..])) + multiset{f(s[i])}
  {
    var images := Images(f, s);
    WithoutOne(images, i);
    assert images[..i] + images[i + 1..] == Images(f, s[..i] + s[i + 1..]);
  }

  lemma ImagesSnoc<A, B>(f: A -> B, s: seq<A>)
    requires s != []
    ensures multiset(Images(f, s)) == multiset(Images(f, s[..|s| - 1])) + multiset{f(s[|s| - 1])}
  {
  }

  lemma {:induction false} SameImages<A, B>(f: A -> B, a: seq<A>, b: seq<A>)
    requires multiset(a) == multiset(b)
    ensures multiset(Images(f, a)) == multiset(Images(f, b))
    decreases |a|
  {
    hide Images;
    assert |multiset(a)| == |a| && |multiset(b)| == |b|;
    if a != [] {
      var rest, t := a[..|a| - 1], a[|a| - 1];
      assert a == rest + [t];
      assert t in multiset(b);
      var i :| 0 <= i < |b| && b[i] == t;
      WithoutOne(b, i);
      CancelOne(multiset(rest), multiset(b[..i] + b[i + 1..]), t);
      SameImages(f, rest, b[..i] + b[i + 1..]);
      ImagesSnoc(f, a);
      ImageWithout(f, b, i);
    }
  }

  function ChecksumAt(runs: map<nat, Row<Run>>, id: nat): string {
    if id in runs then runs[id].data.checksum else ""
  }

  function TrackAt(runs: map<nat, Row<Run>>, id: nat): Track {
    if id in runs then Track(id, runs[id].data.lines, runs[id].data.swath) else Track(id, [], 0.0)
  }

  lemma InputsAreImages(runs: map<nat, Row<Run>>, ids: seq<nat>)
    requires forall id | id in ids :: id in runs
    ensures ChecksumsOf(RunsFor(runs, ids)) == Images((id: nat) => ChecksumAt(runs, id), ids)
    ensures TracksOf(ids, RunsFor(runs, ids)) == Images((id: nat) => TrackAt(runs, id), ids)
  {
  }

  /** Listing the same runs in another order gives the same hash and the same outcome. */
  lemma OrderDoesNotMatter(runs: map<nat, Row<Run>>, a: seq<nat>, b: seq<nat>, boundary: Polygon, resolution: real)
    requires forall id | id in a :: id in runs
    requires forall id | id in b :: id in runs
    requires multiset(a) == multiset(b)
    ensures Sorted(ChecksumsOf(RunsFor(runs, a))) == Sorted(ChecksumsOf(RunsFor(runs, b)))
    ensures Outcome(boundary, TracksOf(a, RunsFor(runs, a)), resolution)
      == Outcome(boundary, TracksOf(b, RunsFor(runs, b)), resolution)
  {
    hide Outcome;
    InputsAreImages(runs, a);
    InputsAreImages(runs, b);
    SameImages((id: nat) => ChecksumAt(runs, id), a, b);
    SameImages((id: nat) => TrackAt(runs, id), a, b);
    HashIgnoresOnlyOrder(ChecksumsOf(RunsFor(runs, a)), ChecksumsOf(RunsFor(runs, b)));
    MoreSurvey.OutcomeIgnoresOrder(boundary, TracksOf(a, RunsFor(runs, a)), TracksOf(b, RunsFor(runs, b)), resolution);
  }

  /** As many distinct ids found as distinct ids wanted means that every wanted id was found. */
  lemma AllFound(found: seq<nat>, wanted: seq<nat>)
    requires NoDuplicates(found) && |found| == |UniqueIds(wanted)|
    requires forall id | id in found :: id in wanted
    ensures forall id | id in wanted :: id in found
  {
    var unique := UniqueIds(wanted);
    UniqueIdsAreTheSameIds(wanted);
    SizeWithoutDuplicates(found);
    SizeWithoutDuplicates(unique);
    SubsetSize(Members(found), Members(unique));
    forall id | id in wanted
      ensures id in found
    {
      assert id in Members(unique);
    }
  }
}
