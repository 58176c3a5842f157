/** The bounded trail of `Body.appendTrail`: each call appends one sample and,
    once the trail is longer than `maxTrailLength`, drops the oldest one. */
module Trails {
  import opened Vectors

  /** The trail after one append of `sample` with bound `maxLength`: the
      old trail followed by the sample, less the oldest entry when that is
      longer than the bound. */
  function Appended(trail: seq<Vec>, sample: Vec, maxLength: int): (r: seq<Vec>)
    ensures |r| == if |trail| + 1 > maxLength then |trail| else |trail| + 1
    ensures r == (trail + [sample])[|trail| + 1 - |r|..]
  {
    var t := trail + [sample];
    if |t| > maxLength then t[1..] else t
  }

  /** The trail after appending `samples` one call at a time, oldest first. */
  function AppendedAll(trail: seq<Vec>, samples: seq<Vec>, maxLength: int): seq<Vec>
    decreases |samples|
  {
    if samples == [] then trail
    else AppendedAll(Appended(trail, samples[0], maxLength), samples[1..], maxLength)
  }

  /** How many of the oldest samples of `n` in total a trail bounded by
      `maxLength` has lost. */
  function Evicted(n: int, maxLength: int): int
  {
    if n > maxLength then n - maxLength else 0
  }

  /** One append keeps a trail within its bound, ends the trail with the new
      sample, and either keeps the old trail as a prefix (room left) or drops
      exactly its oldest sample (full). */
  lemma AppendedShape(trail: seq<Vec>, sample: Vec, maxLength: int)
    requires |trail| <= maxLength
    ensures |Appended(trail, sample, maxLength)| <= maxLength
    ensures Appended(trail, sample, maxLength) != [] ==>
              Appended(trail, sample, maxLength)[|Appended(trail, sample, maxLength)| - 1] == sample
    ensures |trail| < maxLength ==> Appended(trail, sample, maxLength) == trail + [sample]
    ensures |trail| == maxLength ==> Appended(trail, sample, maxLength) == (trail + [sample])[1..]
  {
  }

  /** One append empties the trail only when the trail was already empty and
      the bound is below one. */
  lemma AppendedEmpty(trail: seq<Vec>, sample: Vec, maxLength: int)
    ensures Appended(trail, sample, maxLength) == [] <==> trail == [] && maxLength < 1
  {
  }

  lemma DropThenAppend(x: seq<Vec>, y: seq<Vec>, e: nat, d: nat)
    requires e <= |x| && d <= |x| - e + |y|
    ensures (x[e..] + y)[d..] == (x + y)[e + d..]
  {
    assert |(x[e..] + y)[d..]| == |(x + y)[e + d..]|;
    forall i | 0 <= i < |(x + y)[e + d..]|
      ensures (x[e..] + y)[d..][i] == (x + y)[e + d..][i]
    {
      if e + d + i < |x| {
        assert (x[e..] + y)[d + i] == x[e + d + i];
      } else {
        assert (x[e..] + y)[d + i] == y[e + d + i - |x|];
      }
    }
  }

  /** A trail that starts within its bound holds, after any number of
      appends, exactly the latest `maxLength` samples of everything it has
      seen, oldest first (FIFO eviction). */
  lemma {:induction false} AppendedAllWindow(trail: seq<Vec>, samples: seq<Vec>, maxLength: int)
    requires |trail| <= maxLength
    ensures 0 <= Evicted(|trail| + |samples|, maxLength) <= |trail| + |samples|
    ensures AppendedAll(trail, samples, maxLength)
         == (trail + samples)[Evicted(|trail| + |samples|, maxLength)..]
    decreases |samples|
  {
    if samples == [] {
      assert trail + samples == trail;
    } else {
      var t1 := Appended(trail, samples[0], maxLength);
      var rest := samples[1..];
      AppendedAllWindow(t1, rest, maxLength);
      var e := if |trail| + 1 > maxLength then 1 else 0;
      assert t1 == (trail + [samples[0]])[e..];
      DropThenAppend(trail + [samples[0]], rest, e, Evicted(|t1| + |rest|, maxLength));
      assert trail + [samples[0]] + rest == trail + samples;
    }
  }

  /** Starting from an empty trail, after at least `maxLength` appends the
      trail holds exactly `maxLength` samples, the oldest of them being the
      one appended `maxLength` calls before the end. */
  lemma TrailKeepsLatest(samples: seq<Vec>, maxLength: nat)
    requires maxLength <= |samples|
    ensures AppendedAll([], samples, maxLength) == samples[|samples| - maxLength..]
    ensures |AppendedAll([], samples, maxLength)| == maxLength
  {
    AppendedAllWindow([], samples, maxLength);
    assert [] + samples == samples;
  }
}
