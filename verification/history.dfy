/** The chart buffer's compaction rule: once the velocity history reaches the
    threshold, every adjacent pair of samples is replaced by its mean and an
    odd trailing sample is kept as it is. */
module History {
  import opened Types

  /** Buffer length at which the history is compacted. */
  const Threshold: nat := 1500

  /** Number of adjacent samples merged into one. */
  const Factor: nat := 2

  function Min(a: real, b: real): real { if a <= b then a else b }
  function Max(a: real, b: real): real { if a <= b then b else a }

  /** The sample standing for the pair `a`, `b`: halfway between them in time
      and in velocity. */
  function Mean(a: Sample, b: Sample): (m: Sample)
    ensures m.time - a.time == b.time - m.time
    ensures m.velocity - a.velocity == b.velocity - m.velocity
    ensures Min(a.time, b.time) <= m.time <= Max(a.time, b.time)
    ensures Min(a.velocity, b.velocity) <= m.velocity <= Max(a.velocity, b.velocity)
  {
    Sample((a.time + b.time) / 2.0, (a.velocity + b.velocity) / 2.0)
  }

  /** Sum of the sample times, added front to back. */
  function TimeSum(data: seq<Sample>): real
    decreases |data|
  {
    if |data| == 0 then 0.0 else TimeSum(data[..|data| - 1]) + data[|data| - 1].time
  }

  /** Sum of the sample velocities, added front to back. */
  function VelocitySum(data: seq<Sample>): real
    decreases |data|
  {
    if |data| == 0 then 0.0 else VelocitySum(data[..|data| - 1]) + data[|data| - 1].velocity
  }

  /** Sample times never go backwards along the buffer. */
  predicate TimesSorted(data: seq<Sample>) {
    forall i, j :: 0 <= i < j < |data| ==> data[i].time <= data[j].time
  }

  /** The `k`-th compacted sample: the mean of the `k`-th pair, or the lone
      trailing sample when the pair is incomplete. */
  function Chunk(data: seq<Sample>, k: nat): Sample
    requires 2 * k < |data|
  {
    if 2 * k + 1 < |data| then Mean(data[2 * k], data[2 * k + 1]) else data[2 * k]
  }

  /** Unconditional compaction by pairs. */
  function Compact(data: seq<Sample>): (r: seq<Sample>)
    ensures |r| == (|data| + 1) / 2
    ensures |data| > 0 ==> |r| > 0
    decreases |data|
  {
    if |data| < 2 then data
    else [Mean(data[0], data[1])] + Compact(data[2..])
  }

  /** The history kept for the chart: unchanged below the threshold,
      compacted by pairs from the threshold on. */
  function Downsample(data: seq<Sample>): (r: seq<Sample>)
    ensures |data| < Threshold ==> r == data
    ensures |data| >= Threshold ==> |r| == (|data| + 1) / 2 && |r| < |data|
  {
    if |data| < Threshold then data else Compact(data)
  }

  /** The `k`-th compacted sample is the mean of the `k`-th pair, or the last
      sample of an odd-length buffer unchanged. */
  lemma {:induction false} CompactAt(data: seq<Sample>, k: nat)
    requires k < |Compact(data)|
    ensures 2 * k < |data| && Compact(data)[k] == Chunk(data, k)
    decreases k
  {
    if |data| >= 2 && k > 0 {
      CompactAt(data[2..], k - 1);
      assert Compact(data)[k] == Compact(data[2..])[k - 1];
    }
  }

  /** Element by element, the compacted buffer holds the mean of each full
      pair, and the last sample of an odd-length buffer unchanged. */
  lemma CompactElements(data: seq<Sample>)
    ensures forall k: nat :: k < |Compact(data)| ==> 2 * k < |data| && Compact(data)[k] == Chunk(data, k)
  {
    forall k: nat | k < |Compact(data)|
      ensures 2 * k < |data| && Compact(data)[k] == Chunk(data, k)
    {
      CompactAt(data, k);
    }
  }

  /** Full pairs at the front compact independently of what follows them. */
  lemma {:induction false} CompactAppend(a: seq<Sample>, b: seq<Sample>)
    requires |a| % 2 == 0
    ensures Compact(a + b) == Compact(a) + Compact(b)
    decreases |a|
  {
    if |a| == 0 {
      assert a + b == b;
    } else {
      CompactAppend(a[2..], b);
      assert (a + b)[0] == a[0] && (a + b)[1] == a[1];
      assert (a + b)[2..] == a[2..] + b;
      assert Compact(a + b) == [Mean(a[0], a[1])] + Compact(a[2..] + b);
      assert Compact(a) == [Mean(a[0], a[1])] + Compact(a[2..]);
    }
  }

  /** Compaction keeps time order: a buffer whose times never decrease
      compacts to one whose times never decrease. */
  lemma CompactKeepsOrder(data: seq<Sample>)
    requires TimesSorted(data)
    ensures TimesSorted(Compact(data))
  {
    var r := Compact(data);
    CompactElements(data);
    forall i, j | 0 <= i < j < |r|
      ensures r[i].time <= r[j].time
    {
      assert r[i].time <= data[2 * i + 1].time || 2 * i + 1 >= |data|;
      assert data[2 * j].time <= r[j].time;
    }
  }

  /** Compaction stays inside the time window of its input: every compacted
      time lies between the least and greatest input bound. */
  lemma CompactKeepsTimeBounds(data: seq<Sample>, lo: real, hi: real)
    requires forall i :: 0 <= i < |data| ==> lo <= data[i].time <= hi
    ensures forall k :: 0 <= k < |Compact(data)| ==> lo <= Compact(data)[k].time <= hi
  {
    CompactElements(data);
  }

  /** For a buffer of full pairs, compaction halves the total time and the
      total velocity exactly: no sample is lost or counted twice. */
  lemma {:induction false} CompactKeepsSums(data: seq<Sample>)
    requires |data| % 2 == 0
    ensures 2.0 * TimeSum(Compact(data)) == TimeSum(data)
    ensures 2.0 * VelocitySum(Compact(data)) == VelocitySum(data)
    decreases |data|
  {
    if |data| > 0 {
      var n := |data|;
      var front := data[..n - 2];
      var pair := data[n - 2..];
      assert data == front + pair;
      CompactAppend(front, pair);
      CompactKeepsSums(front);
      var m := Mean(data[n - 2], data[n - 1]);
      assert Compact(pair) == [m];
      var c := Compact(data);
      assert c[..|c| - 1] == Compact(front);
      assert c[|c| - 1] == m;
      assert data[..n - 1][..n - 2] == front;
    }
  }

  /** Compaction through the threshold keeps time order. */
  lemma DownsampleKeepsOrder(data: seq<Sample>)
    requires TimesSorted(data)
    ensures TimesSorted(Downsample(data))
  {
    if |data| >= Threshold {
      CompactKeepsOrder(data);
    }
  }

  /** Appending one sample to a buffer below the threshold and downsampling
      leaves a non-empty buffer that is still below the threshold. */
  lemma AppendThenDownsampleBounded(data: seq<Sample>, x: Sample)
    requires |data| < Threshold
    ensures 0 < |Downsample(data + [x])| < Threshold
  {
  }

  /** The inner loop of the compaction: sums the `Factor` samples starting
      at `i` and divides by the factor, giving the pair's mean. */
  method GroupMean(data: seq<Sample>, i: nat) returns (m: Sample)
    requires i + Factor <= |data|
    ensures m == Mean(data[i], data[i + 1])
  {
    var timeSum := 0.0;
    var velocitySum := 0.0;
    var j := 0;
    while j < Factor
      invariant 0 <= j <= Factor
      invariant timeSum == TimeSum(data[i..i + j])
      invariant velocitySum == VelocitySum(data[i..i + j])
    {
      assert data[i..i + j + 1][..j] == data[i..i + j];
      timeSum := timeSum + data[i + j].time;
      velocitySum := velocitySum + data[i + j].velocity;
      j := j + 1;
    }
    var pair := data[i..i + 2];
    assert pair[..1] == [data[i]] && pair[1] == data[i + 1];
    assert TimeSum([data[i]]) == data[i].time by { assert [data[i]][..0] == []; }
    assert VelocitySum([data[i]]) == data[i].velocity by { assert [data[i]][..0] == []; }
    m := Sample(timeSum / Factor as real, velocitySum / Factor as real);
  }

  /** Extending an even prefix by one more full pair adds that pair's mean. */
  lemma CompactExtendPair(data: seq<Sample>, i: nat)
    requires i % 2 == 0 && i + 2 <= |data|
    ensures Compact(data[..i + 2]) == Compact(data[..i]) + [Mean(data[i], data[i + 1])]
  {
    var pair := data[i..i + 2];
    assert Compact(pair) == [Mean(data[i], data[i + 1])] by { assert pair[2..] == []; }
    assert data[..i + 2] == data[..i] + pair;
    CompactAppend(data[..i], pair);
  }

  /** The lone last sample of an odd-length buffer is copied after the pairs. */
  lemma CompactExtendLast(data: seq<Sample>, i: nat)
    requires i % 2 == 0 && i + 1 == |data|
    ensures Compact(data) == Compact(data[..i]) + [data[i]]
  {
    assert data == data[..i] + [data[i]];
    CompactAppend(data[..i], [data[i]]);
  }

  /** The compaction loop, group by group: each whole pair becomes its mean,
      a trailing lone sample is copied. */
  method DownsampleData(data: seq<Sample>) returns (r: seq<Sample>)
    ensures r == Downsample(data)
  {
    if |data| < Threshold {
      return data;
    }
    var out: seq<Sample> := [];
    var i := 0;
    while i < |data|
      invariant 0 <= i <= |data| + 1
      invariant i % Factor == 0
      invariant i <= |data| ==> out == Compact(data[..i])
      invariant i > |data| ==> out == Compact(data)
      decreases |data| - i
    {
      if i + Factor <= |data| {
        var m := GroupMean(data, i);
        CompactExtendPair(data, i);
        out := out + [m];
      } else {
        CompactExtendLast(data, i);
        out := out + [data[i]];
      }
      i := i + Factor;
    }
    assert data[..|data|] == data;
    r := out;
  }
}
