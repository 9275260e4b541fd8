/**
 * `TrafficDataSampler`: raw points behind a moving head, batches averaged into compressed points, both
 * proved against the full history of points ever added. Numbers are exact reals; the clock is an input.
 */
module TrafficSampler {
  datatype Point = Point(up: real, down: real, timestamp: real)

  datatype CompressedPoint = CompressedPoint(up: real, down: real, timestamp: real, samples: nat)

  datatype Config = Config(rawDataMinutes: real, compressedDataMinutes: real, compressionRatio: int)

  datatype Stats = Stats(rawBufferSize: int, compressedBufferSize: int, compressionQueueSize: int,
    totalMemoryPoints: int)

  function TimeOf(p: Point): real { p.timestamp }

  function CompressedTimeOf(p: CompressedPoint): real { p.timestamp }

  // ----- Lists in time order -----

  ghost predicate Ordered<T>(s: seq<T>, time: T -> real) {
    forall i, j :: 0 <= i < j < |s| ==> time(s[i]) <= time(s[j])
  }

  /** What is newer than `cutoff`. */
  function Newer<T>(s: seq<T>, time: T -> real, cutoff: real): seq<T> {
    if s == [] then []
    else Newer(s[..|s| - 1], time, cutoff) + if time(s[|s| - 1]) > cutoff then [s[|s| - 1]] else []
  }

  lemma {:induction false} NewerOfNewer<T>(s: seq<T>, time: T -> real, earlier: real, cutoff: real)
    requires earlier <= cutoff
    ensures Newer(Newer(s, time, earlier), time, cutoff) == Newer(s, time, cutoff)
  {
    if s != [] {
      NewerOfNewer(s[..|s| - 1], time, earlier, cutoff);
      var kept := Newer(s[..|s| - 1], time, earlier);
      if time(s[|s| - 1]) > earlier {
        assert (kept + [s[|s| - 1]])[..|kept|] == kept;
      } else {
        assert kept + [] == kept;
      }
    }
  }

  lemma {:induction false} NewerKeepsAll<T>(s: seq<T>, time: T -> real, cutoff: real)
    requires forall i :: 0 <= i < |s| ==> time(s[i]) > cutoff
    ensures Newer(s, time, cutoff) == s
  {
    if s != [] {
      NewerKeepsAll(s[..|s| - 1], time, cutoff);
    }
  }

  lemma OrderedPrefix<T>(s: seq<T>, time: T -> real)
    requires Ordered(s, time) && s != []
    ensures Ordered(s[..|s| - 1], time)
    ensures forall i :: 0 <= i < |s| ==> time(s[i]) <= time(s[|s| - 1])
  {
    var shorter := s[..|s| - 1];
    forall i, j | 0 <= i < j < |shorter| ensures time(shorter[i]) <= time(shorter[j]) {
      assert time(s[i]) <= time(s[j]);
    }
  }

  /** In time order, filtering is dropping a head. */
  lemma {:induction false} NewerIsSuffix<T>(s: seq<T>, time: T -> real, cutoff: real, start: nat)
    requires Ordered(s, time) && start <= |s|
    requires forall i :: 0 <= i < start ==> time(s[i]) <= cutoff
    requires start < |s| ==> time(s[start]) > cutoff
    ensures Newer(s, time, cutoff) == s[start..]
  {
    if s != [] {
      var shorter, last := s[..|s| - 1], s[|s| - 1];
      OrderedPrefix(s, time);
      if start == |s| {
        NewerIsSuffix(shorter, time, cutoff, start - 1);
      } else {
        NewerIsSuffix(shorter, time, cutoff, start);
        assert shorter[start..] + [last] == s[start..];
      }
    }
  }

  /** The head loop: skips what is not newer than `cutoff`. */
  method SkipOld<T>(buffer: seq<T>, head: nat, time: T -> real, cutoff: real) returns (start: nat)
    requires head <= |buffer| && Ordered(buffer[head..], time)
    ensures head <= start <= |buffer|
    ensures buffer[start..] == Newer(buffer[head..], time, cutoff)
  {
    start := head;
    while start < |buffer| && time(buffer[start]) <= cutoff
      invariant head <= start <= |buffer|
      invariant forall i :: head <= i < start ==> time(buffer[i]) <= cutoff
    {
      start := start + 1;
    }
    NewerIsSuffix(buffer[head..], time, cutoff, start - head);
    assert buffer[head..][start - head..] == buffer[start..];
  }

  /** One head moved past what is not newer than `cutoff`, with the occasional compaction. */
  method Advance<T>(buffer: seq<T>, head: nat, time: T -> real, cutoff: real, slack: nat)
    returns (kept: seq<T>, start: nat)
    requires head <= |buffer| && Ordered(buffer[head..], time)
    ensures start <= |kept| && kept[start..] == Newer(buffer[head..], time, cutoff)
    ensures start <= slack || start <= |kept| - start
  {
    kept := buffer;
    start := SkipOld(buffer, head, time, cutoff);
    if start > slack && 2 * start > |kept| {
      kept := kept[start..];
      start := 0;
    }
  }

  // ----- Sums and averages -----

  function SumUp(s: seq<Point>): real { if s == [] then 0.0 else SumUp(s[..|s| - 1]) + s[|s| - 1].up }

  function SumDown(s: seq<Point>): real { if s == [] then 0.0 else SumDown(s[..|s| - 1]) + s[|s| - 1].down }

  function SumTime(s: seq<Point>): real { if s == [] then 0.0 else SumTime(s[..|s| - 1]) + s[|s| - 1].timestamp }

  function Average(s: seq<Point>): CompressedPoint
    requires s != []
  {
    var n := |s| as real;
    CompressedPoint(SumUp(s) / n, SumDown(s) / n, SumTime(s) / n, |s|)
  }

  /** The uploads a list of compressed points stands for. */
  function WeightedUp(s: seq<CompressedPoint>): real {
    if s == [] then 0.0 else WeightedUp(s[..|s| - 1]) + UpOf(s[|s| - 1])
  }

  function WeightedDown(s: seq<CompressedPoint>): real {
    if s == [] then 0.0 else WeightedDown(s[..|s| - 1]) + DownOf(s[|s| - 1])
  }

  function UpOf(c: CompressedPoint): real { c.samples as real * c.up }

  function DownOf(c: CompressedPoint): real { c.samples as real * c.down }

  function Flat(batches: seq<seq<Point>>): seq<Point> {
    if batches == [] then [] else Flat(batches[..|batches| - 1]) + batches[|batches| - 1]
  }

  lemma {:induction false} SumsApart(a: seq<Point>, b: seq<Point>)
    ensures SumUp(a + b) == SumUp(a) + SumUp(b) && SumDown(a + b) == SumDown(a) + SumDown(b)
  {
    if b == [] {
      assert a + b == a;
    } else {
      SumsApart(a, b[..|b| - 1]);
      assert (a + b)[..|a + b| - 1] == a + b[..|b| - 1];
    }
  }

  lemma SharesMakeWhole(total: real, n: nat)
    requires n > 0
    ensures n as real * (total / n as real) == total
  {
  }

  lemma AverageWeighs(s: seq<Point>)
    requires s != []
    ensures UpOf(Average(s)) == SumUp(s) && DownOf(Average(s)) == SumDown(s)
  {
    SharesMakeWhole(SumUp(s), |s|);
    SharesMakeWhole(SumDown(s), |s|);
  }

  /** The average time of a batch lies between bounds on its times. */
  lemma {:induction false} SumTimeBetween(s: seq<Point>, low: real, high: real)
    requires forall i :: 0 <= i < |s| ==> low <= s[i].timestamp <= high
    ensures |s| as real * low <= SumTime(s) <= |s| as real * high
  {
    if s != [] {
      SumTimeBetween(s[..|s| - 1], low, high);
      OneMoreShare(|s|, low, high, SumTime(s[..|s| - 1]), s[|s| - 1].timestamp);
    }
  }

  lemma Scales(n: real, a: real, b: real)
    requires n > 0.0 && a < b
    ensures n * a < n * b
  {
  }

  lemma ShareBetween(total: real, n: nat, low: real, high: real)
    requires n > 0 && n as real * low <= total <= n as real * high
    ensures low <= total / n as real <= high
  {
    SharesMakeWhole(total, n);
    var share := total / n as real;
    if share < low { Scales(n as real, share, low); }
    if share > high { Scales(n as real, high, share); }
  }

  lemma AverageTimeBetween(s: seq<Point>, low: real, high: real)
    requires s != [] && forall i :: 0 <= i < |s| ==> low <= s[i].timestamp <= high
    ensures low <= Average(s).timestamp <= high
  {
    SumTimeBetween(s, low, high);
    ShareBetween(SumTime(s), |s|, low, high);
  }

  lemma OneMoreShare(n: nat, low: real, high: real, sum: real, last: real)
    requires n > 0 && (n - 1) as real * low <= sum <= (n - 1) as real * high && low <= last <= high
    ensures n as real * low <= sum + last <= n as real * high
  {
    var m := (n - 1) as real;
    assert n as real == m + 1.0;
    assert (m + 1.0) * low == m * low + low && (m + 1.0) * high == m * high + high;
  }

  lemma {:induction false} SumUpBetween(s: seq<Point>, low: real, high: real)
    requires forall i :: 0 <= i < |s| ==> low <= s[i].up <= high
    ensures |s| as real * low <= SumUp(s) <= |s| as real * high
  {
    if s != [] {
      SumUpBetween(s[..|s| - 1], low, high);
      OneMoreShare(|s|, low, high, SumUp(s[..|s| - 1]), s[|s| - 1].up);
    }
  }

  lemma {:induction false} SumDownBetween(s: seq<Point>, low: real, high: real)
    requires forall i :: 0 <= i < |s| ==> low <= s[i].down <= high
    ensures |s| as real * low <= SumDown(s) <= |s| as real * high
  {
    if s != [] {
      SumDownBetween(s[..|s| - 1], low, high);
      OneMoreShare(|s|, low, high, SumDown(s[..|s| - 1]), s[|s| - 1].down);
    }
  }

  /** So do its average upload and download rates, between the rates of its points. */
  lemma AverageUpBetween(s: seq<Point>, low: real, high: real)
    requires s != [] && forall i :: 0 <= i < |s| ==> low <= s[i].up <= high
    ensures low <= Average(s).up <= high
  {
    SumUpBetween(s, low, high);
    ShareBetween(SumUp(s), |s|, low, high);
  }

  lemma AverageDownBetween(s: seq<Point>, low: real, high: real)
    requires s != [] && forall i :: 0 <= i < |s| ==> low <= s[i].down <= high
    ensures low <= Average(s).down <= high
  {
    SumDownBetween(s, low, high);
    ShareBetween(SumDown(s), |s|, low, high);
  }

  /** Each compressed point is the average of its batch of `size` points. */
  ghost predicate Averages(compressed: seq<CompressedPoint>, batches: seq<seq<Point>>, size: nat) {
    && |compressed| == |batches|
    && size > 0
    && (batches != [] ==>
          var last := |batches| - 1;
          |batches[last]| == size && compressed[last] == Average(batches[last]) &&
            Averages(compressed[..last], batches[..last], size))
  }

  /** Averaging loses nothing: the weighted compressed points carry the totals of their batches. */
  lemma {:induction false} AveragesConserve(compressed: seq<CompressedPoint>, batches: seq<seq<Point>>, size: nat)
    requires Averages(compressed, batches, size)
    ensures WeightedUp(compressed) == SumUp(Flat(batches)) && WeightedDown(compressed) == SumDown(Flat(batches))
  {
    if batches != [] {
      var n := |batches| - 1;
      AveragesConserve(compressed[..n], batches[..n], size);
      AverageWeighs(batches[n]);
      SumsApart(Flat(batches[..n]), batches[n]);
    }
  }

  /**
   * What a buffer shows from `head` on is `all` filtered by `cutoff`, and the dead cells before the head
   * exceed neither `slack` nor the live count.
   */
  ghost predicate Window<T>(all: seq<T>, time: T -> real, cutoff: real, buffer: seq<T>, head: nat, slack: nat) {
    && head <= |buffer|
    && buffer[head..] == Newer(all, time, cutoff)
    && (head <= slack || head <= |buffer| - head)
  }

  /** The history is cut into full batches, averaged in order, and a queue shorter than a batch. */
  ghost predicate Batched(
    history: seq<Point>, batches: seq<seq<Point>>, compressed: seq<CompressedPoint>, queue: seq<Point>, size: nat) {
    && Flat(batches) + queue == history
    && |queue| < size
    && Averages(compressed, batches, size)
    && Ordered(compressed, CompressedTimeOf)
    && (forall i :: 0 <= i < |compressed| ==>
          |queue| < |history| && compressed[i].timestamp <= history[|history| - |queue| - 1].timestamp)
  }

  lemma {:induction false} AveragesCover(compressed: seq<CompressedPoint>, batches: seq<seq<Point>>, size: nat)
    requires Averages(compressed, batches, size)
    ensures forall i :: 0 <= i < |compressed| ==> compressed[i].samples == size
  {
    if batches != [] {
      AveragesCover(compressed[..|batches| - 1], batches[..|batches| - 1], size);
    }
  }

  function NotNewer(s: seq<CompressedPoint>, cutoff: real): seq<CompressedPoint> {
    if s == [] then [] else (if s[0].timestamp <= cutoff then [s[0]] else []) + NotNewer(s[1..], cutoff)
  }

  function AsPoints(s: seq<CompressedPoint>): seq<Point> {
    if s == [] then [] else [Point(s[0].up, s[0].down, s[0].timestamp)] + AsPoints(s[1..])
  }

  /** The retained compressed points after `cutoff` and up to `rawLimit`, as points. */
  ghost function OldCompressed(
    compressed: seq<CompressedPoint>, retained: real, cutoff: real, rawLimit: real): seq<Point> {
    AsPoints(NotNewer(Newer(Newer(compressed, CompressedTimeOf, retained), CompressedTimeOf, cutoff), rawLimit))
  }

  // What a long range holds

  /** In time order, where the points newer than `cutoff` begin. */
  lemma {:induction false} NewerBegins<T>(s: seq<T>, time: T -> real, cutoff: real) returns (start: nat)
    requires Ordered(s, time)
    ensures start <= |s| && Newer(s, time, cutoff) == s[start..]
    ensures forall i :: 0 <= i < |s| ==> (start <= i <==> time(s[i]) > cutoff)
  {
    start := 0;
    if s != [] {
      OrderedPrefix(s, time);
      if time(s[|s| - 1]) > cutoff {
        start := NewerBegins(s[..|s| - 1], time, cutoff);
      } else {
        start := |s|;
      }
    }
    NewerIsSuffix(s, time, cutoff, start);
  }

  /** A later or an earlier cutoff after another: the later of the two counts. */
  lemma NewerThanBoth<T>(s: seq<T>, time: T -> real, one: real, other: real) returns (later: real)
    requires Ordered(s, time)
    ensures later == if one < other then other else one
    ensures Newer(Newer(s, time, one), time, other) == Newer(s, time, later)
  {
    later := if one < other then other else one;
    if one < other {
      NewerOfNewer(s, time, one, other);
    } else {
      var start := NewerBegins(s, time, one);
      NewerKeepsAll(Newer(s, time, one), time, other);
    }
  }

  lemma {:induction false} NotNewerIsPrefix(s: seq<CompressedPoint>, limit: real, n: nat)
    requires n <= |s| && forall i :: 0 <= i < |s| ==> (i < n <==> s[i].timestamp <= limit)
    ensures NotNewer(s, limit) == s[..n]
  {
    if s != [] {
      NotNewerIsPrefix(s[1..], limit, if n == 0 then 0 else n - 1);
      assert n > 0 ==> s[..n] == [s[0]] + s[1..][..n - 1];
    }
  }

  /** One point for each of the compressed points, with its values and time. */
  ghost predicate SamePoints(points: seq<Point>, compressed: seq<CompressedPoint>) {
    && |points| == |compressed|
    && forall k :: 0 <= k < |points| ==>
         && points[k].up == compressed[k].up
         && points[k].down == compressed[k].down
         && points[k].timestamp == compressed[k].timestamp
  }

  lemma {:induction false} AsPointsAreSame(s: seq<CompressedPoint>)
    ensures SamePoints(AsPoints(s), s)
  {
    if s != [] {
      AsPointsAreSame(s[1..]);
    }
  }

  /** Those from `lo` to `hi` are newer than both `kept` and `cutoff` and not newer than `limit`, and no others. */
  ghost predicate Between(s: seq<CompressedPoint>, kept: real, cutoff: real, limit: real, lo: nat, hi: nat) {
    && lo <= hi <= |s|
    && forall i :: 0 <= i < |s| ==>
         (lo <= i < hi <==> s[i].timestamp > kept && s[i].timestamp > cutoff && s[i].timestamp <= limit)
  }

  /** Those from `first` on are newer than both cutoffs, and no others. */
  ghost predicate Since(s: seq<Point>, kept: real, cutoff: real, first: nat) {
    && first <= |s|
    && forall i :: 0 <= i < |s| ==> (first <= i <==> s[i].timestamp > kept && s[i].timestamp > cutoff)
  }

  lemma OldCompressedIsBetween(s: seq<CompressedPoint>, kept: real, cutoff: real, limit: real)
    returns (lo: nat, hi: nat)
    requires Ordered(s, CompressedTimeOf)
    ensures Between(s, kept, cutoff, limit, lo, hi)
    ensures SamePoints(OldCompressed(s, kept, cutoff, limit), s[lo..hi])
  {
    var later := NewerThanBoth(s, CompressedTimeOf, kept, cutoff);
    lo := NewerBegins(s, CompressedTimeOf, later);
    hi := NewerBegins(s, CompressedTimeOf, limit);
    TimesBegin(s, limit, hi);
    hi := if hi < lo then lo else hi;
    TimesBegin(s, later, lo);
    NotNewerInTail(s, lo, hi, limit);
    AsPointsAreSame(s[lo..hi]);
  }

  lemma TimesBegin(s: seq<CompressedPoint>, cutoff: real, start: nat)
    requires forall i :: 0 <= i < |s| ==> (start <= i <==> CompressedTimeOf(s[i]) > cutoff)
    ensures forall i :: 0 <= i < |s| ==> (start <= i <==> s[i].timestamp > cutoff)
  {
    forall i | 0 <= i < |s| ensures start <= i <==> s[i].timestamp > cutoff {
      assert start <= i <==> CompressedTimeOf(s[i]) > cutoff;
    }
  }

  lemma NotNewerInTail(s: seq<CompressedPoint>, lo: nat, hi: nat, limit: real)
    requires lo <= hi <= |s| && forall i :: lo <= i < |s| ==> (i < hi <==> s[i].timestamp <= limit)
    ensures NotNewer(s[lo..], limit) == s[lo..hi]
  {
    NotNewerIsPrefix(s[lo..], limit, hi - lo);
    assert s[lo..][..hi - lo] == s[lo..hi];
  }

  /** `data` has one point for each compressed point kept in the range, the raw points of the range, and no more. */
  ghost predicate HoldsRange(data: seq<Point>, compressed: seq<CompressedPoint>, compressedCutoff: real,
    history: seq<Point>, rawCutoff: real, cutoff: real, rawLimit: real) {
    exists averages: seq<Point>, lo: nat, hi: nat, first: nat ::
      && Between(compressed, compressedCutoff, cutoff, rawLimit, lo, hi)
      && SamePoints(averages, compressed[lo..hi])
      && Since(history, rawCutoff, cutoff, first)
      && multiset(data) == multiset(averages + history[first..])
  }

  lemma SortedHoldsRange(data: seq<Point>, compressed: seq<CompressedPoint>, compressedCutoff: real,
    history: seq<Point>, rawCutoff: real, cutoff: real, rawLimit: real)
    requires Ordered(compressed, CompressedTimeOf) && Ordered(history, TimeOf)
    requires multiset(data) == multiset(OldCompressed(compressed, compressedCutoff, cutoff, rawLimit) +
        Newer(Newer(history, TimeOf, rawCutoff), TimeOf, cutoff))
    ensures HoldsRange(data, compressed, compressedCutoff, history, rawCutoff, cutoff, rawLimit)
  {
    var lo, hi := OldCompressedIsBetween(compressed, compressedCutoff, cutoff, rawLimit);
    var later := NewerThanBoth(history, TimeOf, rawCutoff, cutoff);
    var first := NewerBegins(history, TimeOf, later);
    forall i | 0 <= i < |history| ensures first <= i <==> history[i].timestamp > later {
      assert first <= i <==> TimeOf(history[i]) > later;
    }
    assert Since(history, rawCutoff, cutoff, first);
  }

  /** `.sort` by time: an insertion sort, in which a point goes behind those of its own time. */
  function SortedByTime(s: seq<Point>): seq<Point> {
    if s == [] then [] else Inserted(SortedByTime(s[..|s| - 1]), s[|s| - 1])
  }

  function Inserted(s: seq<Point>, p: Point): seq<Point> {
    if s == [] || s[|s| - 1].timestamp <= p.timestamp then s + [p]
    else Inserted(s[..|s| - 1], p) + [s[|s| - 1]]
  }

  lemma OrderedFront(s: seq<Point>)
    requires s != [] && Ordered(s, TimeOf)
    ensures Ordered(s[..|s| - 1], TimeOf)
  {
    OrderedPrefix(s, TimeOf);
  }

  lemma MultisetOfLast(s: seq<Point>)
    requires s != []
    ensures multiset(s) == multiset(s[..|s| - 1]) + multiset{s[|s| - 1]}
  {
    assert s == s[..|s| - 1] + [s[|s| - 1]];
  }

  lemma {:induction false} InsertedInOrder(s: seq<Point>, p: Point)
    requires Ordered(s, TimeOf)
    ensures Ordered(Inserted(s, p), TimeOf) && multiset(Inserted(s, p)) == multiset(s) + multiset{p}
  {
    if s == [] || s[|s| - 1].timestamp <= p.timestamp {
    } else {
      var front, last := s[..|s| - 1], s[|s| - 1];
      OrderedFront(s);
      InsertedInOrder(front, p);
      MultisetOfLast(s);
      InsertedBelow(s, p, Inserted(front, p));
    }
  }

  /** The result has the same points, in time order. */
  lemma {:induction false} SortOrders(s: seq<Point>)
    ensures Ordered(SortedByTime(s), TimeOf) && multiset(SortedByTime(s)) == multiset(s)
  {
    if s != [] {
      SortOrders(s[..|s| - 1]);
      InsertedInOrder(SortedByTime(s[..|s| - 1]), s[|s| - 1]);
      MultisetOfLast(s);
    }
  }

  lemma InsertedBelow(s: seq<Point>, p: Point, r: seq<Point>)
    requires s != [] && Ordered(s, TimeOf) && p.timestamp < s[|s| - 1].timestamp
    requires multiset(r) == multiset(s[..|s| - 1]) + multiset{p}
    ensures forall i :: 0 <= i < |r| ==> r[i].timestamp <= s[|s| - 1].timestamp
  {
    forall i | 0 <= i < |r| ensures r[i].timestamp <= s[|s| - 1].timestamp {
      assert r[i] in multiset(r);
      if r[i] != p {
        assert r[i] in s[..|s| - 1];
        var k :| 0 <= k < |s| - 1 && s[k] == r[i];
        assert TimeOf(s[k]) <= TimeOf(s[|s| - 1]);
      }
    }
  }

  /** The points of one time, in order. */
  function AtTime(s: seq<Point>, time: real): seq<Point> {
    if s == [] then []
    else AtTime(s[..|s| - 1], time) + if s[|s| - 1].timestamp == time then [s[|s| - 1]] else []
  }

  lemma AtTimeAppend(s: seq<Point>, p: Point, time: real)
    ensures AtTime(s + [p], time) == AtTime(s, time) + if p.timestamp == time then [p] else []
  {
    assert (s + [p])[..|s|] == s;
  }

  /** A later point after an inserted one does not matter to either's time. */
  lemma AtTimeSwap(front: seq<Point>, inserted: seq<Point>, p: Point, last: Point, time: real)
    requires p.timestamp < last.timestamp
    requires AtTime(inserted, time) == AtTime(front, time) + if p.timestamp == time then [p] else []
    ensures AtTime(inserted + [last], time) == AtTime(front + [last], time) + if p.timestamp == time then [p] else []
  {
    AtTimeAppend(inserted, last, time);
    AtTimeAppend(front, last, time);
  }

  lemma {:induction false} InsertedLast(s: seq<Point>, p: Point, time: real)
    ensures AtTime(Inserted(s, p), time) == AtTime(s, time) + if p.timestamp == time then [p] else []
  {
    if s == [] || s[|s| - 1].timestamp <= p.timestamp {
      AtTimeAppend(s, p, time);
    } else {
      var front, last := s[..|s| - 1], s[|s| - 1];
      InsertedLast(front, p, time);
      AtTimeSwap(front, Inserted(front, p), p, last, time);
      assert s == front + [last];
    }
  }

  /** The sort is stable: points of one time stay in their order. */
  lemma {:induction false} SortIsStable(s: seq<Point>, time: real)
    ensures AtTime(SortedByTime(s), time) == AtTime(s, time)
  {
    if s != [] {
      var front, last := s[..|s| - 1], s[|s| - 1];
      SortIsStable(front, time);
      InsertedLast(SortedByTime(front), last, time);
    }
  }

  lemma NothingIsShown<T>(time: T -> real, cutoff: real, slack: nat)
    ensures Window([], time, cutoff, [], 0, slack)
  {
  }

  lemma NothingIsBatched(size: nat)
    requires size > 0
    ensures Batched([], [], [], [], size)
  {
  }

  // ----- The class -----

  const RAW_SLACK: nat := 512
  const COMPRESSED_SLACK: nat := 256

  class TrafficDataSampler {
    const config: Config
    var rawBuffer: seq<Point>
    var rawHead: nat
    var compressedBuffer: seq<CompressedPoint>
    var compressedHead: nat
    var compressionQueue: seq<Point>

    // Everything added since creation or the last clear, the batches it was averaged in, all compressed
    // points ever made, and the clock readings that matter.
    ghost var history: seq<Point>
    ghost var batches: seq<seq<Point>>
    ghost var compressed: seq<CompressedPoint>
    ghost var rawCutoff: real
    ghost var compressedCutoff: real
    ghost var clock: real

    /** How many samples a compressed point covers. */
    function BatchSize(): nat { if config.compressionRatio < 1 then 1 else config.compressionRatio }

    function RawCutoffAt(now: real): real { now - config.rawDataMinutes * 60.0 * 1000.0 }

    function CompressedCutoffAt(now: real): real { now - config.compressedDataMinutes * 60.0 * 1000.0 }

    ghost predicate Valid()
      reads this
    {
      && Ordered(history, TimeOf)
      && rawCutoff <= RawCutoffAt(clock) && RawWindow(history)
      && compressedCutoff <= CompressedCutoffAt(clock) && CompressedWindow(history)
    }

    /** The live raw points are the part of the points `all` newer than the last raw cutoff. */
    ghost predicate RawWindow(all: seq<Point>)
      reads this`rawCutoff, this`rawBuffer, this`rawHead
    {
      Window(all, TimeOf, rawCutoff, rawBuffer, rawHead, RAW_SLACK)
    }

    /** `all` is the averaged batches and the queue; the live compressed points are the newer part of all averages. */
    ghost predicate CompressedWindow(all: seq<Point>)
      reads this`batches, this`compressed, this`compressionQueue, this`compressedCutoff, this`compressedBuffer,
        this`compressedHead
    {
      && Batched(all, batches, compressed, compressionQueue, BatchSize())
      && Window(compressed, CompressedTimeOf, compressedCutoff, compressedBuffer, compressedHead, COMPRESSED_SLACK)
    }

    constructor (config: Config, ghost now: real)
      ensures this.config == config && Valid() && history == [] && compressed == [] && clock == now
    {
      this.config := config;
      rawBuffer, rawHead, compressedBuffer, compressedHead, compressionQueue := [], 0, [], 0, [];
      history, batches, compressed, clock := [], [], [], now;
      rawCutoff := now - config.rawDataMinutes * 60.0 * 1000.0;
      compressedCutoff := now - config.compressedDataMinutes * 60.0 * 1000.0;
    }

    /** Push, move the head, compact now and then. */
    static method PushRaw(
      buffer: seq<Point>, head: nat, point: Point, cutoff: real, ghost all: seq<Point>, ghost was: real)
      returns (kept: seq<Point>, start: nat)
      requires Ordered(all, TimeOf) && Ordered(all + [point], TimeOf) && was <= cutoff
      requires head <= |buffer| && buffer[head..] == Newer(all, TimeOf, was)
      ensures Window(all + [point], TimeOf, cutoff, kept, start, RAW_SLACK)
    {
      WindowAfterPush(all, point, was, cutoff);
      DropAppended(buffer, [point], head);
      kept, start := Advance(buffer + [point], head, TimeOf, cutoff, RAW_SLACK);
    }

    /** First part of `addDataPoint`. */
    method AddRaw(point: Point, now: real)
      requires Ordered(history, TimeOf) && Ordered(history + [point], TimeOf)
      requires rawCutoff <= RawCutoffAt(now) && RawWindow(history)
      modifies this`rawBuffer, this`rawHead, this`rawCutoff
      ensures rawCutoff == RawCutoffAt(now) && RawWindow(history + [point])
    {
      rawBuffer, rawHead := PushRaw(rawBuffer, rawHead, point, RawCutoffAt(now), history, rawCutoff);
      rawCutoff := RawCutoffAt(now);
    }

    /** `compressData`: one averaged point for the queue. */
    method CompressData()
      modifies this`compressedBuffer, this`compressionQueue
      ensures compressionQueue == []
      ensures compressedBuffer == old(compressedBuffer) + if old(compressionQueue) == [] then []
          else [Average(old(compressionQueue))]
    {
      if |compressionQueue| == 0 {
        return;
      }
      var n := |compressionQueue| as real;
      var totalUp, totalDown := SumUp(compressionQueue), SumDown(compressionQueue);
      var avgTimestamp := SumTime(compressionQueue) / n;
      compressedBuffer := compressedBuffer +
        [CompressedPoint(totalUp / n, totalDown / n, avgTimestamp, |compressionQueue|)];
      compressionQueue := [];
    }

    /** The queue part of `addDataPoint`: push and, with a full batch, average it. */
    method AddToQueue(point: Point) returns (ghost added: seq<CompressedPoint>)
      requires Ordered(history + [point], TimeOf) &&
          Batched(history, batches, compressed, compressionQueue, BatchSize())
      modifies this`compressionQueue, this`compressedBuffer, this`batches, this`compressed
      ensures Batched(history + [point], batches, compressed, compressionQueue, BatchSize())
      ensures Ordered(compressed, CompressedTimeOf)
      ensures |added| <= 1 && compressed == old(compressed) + added && compressedBuffer == old(compressedBuffer) + added
    {
      added := [];
      compressionQueue := compressionQueue + [point];
      if |compressionQueue| < config.compressionRatio {
        BatchedWaits(history, batches, compressed, old(compressionQueue), BatchSize(), point);
      } else {
        BatchedFills(history, batches, compressed, old(compressionQueue), BatchSize(), point);
        added := [Average(compressionQueue)];
        batches := batches + [compressionQueue];
        compressed := compressed + added;
        CompressData();
      }
    }

    /** Last part of `addDataPoint`: the head of the compressed points, of which the last few are new. */
    method TrimCompressed(now: real, ghost all: seq<CompressedPoint>, ghost added: seq<CompressedPoint>)
      requires compressedHead <= |compressedBuffer| && compressedCutoff <= CompressedCutoffAt(now)
      requires |added| <= 1 && Ordered(all + added, CompressedTimeOf)
      requires compressedBuffer[compressedHead..] == Newer(all, CompressedTimeOf, compressedCutoff) + added
      modifies this`compressedBuffer, this`compressedHead, this`compressedCutoff
      ensures compressedCutoff == CompressedCutoffAt(now)
      ensures Window(all + added, CompressedTimeOf, compressedCutoff, compressedBuffer, compressedHead,
          COMPRESSED_SLACK)
    {
      WindowAfterAverage(all, added, compressedCutoff, CompressedCutoffAt(now));
      compressedBuffer, compressedHead :=
        Advance(compressedBuffer, compressedHead, CompressedTimeOf, CompressedCutoffAt(now), COMPRESSED_SLACK);
      compressedCutoff := CompressedCutoffAt(now);
    }

    /** Second part of `addDataPoint`: the queue, then the head of the compressed points. */
    method AddCompressed(point: Point, later: real)
      requires Ordered(history + [point], TimeOf) && compressedCutoff <= CompressedCutoffAt(later) &&
          CompressedWindow(history)
      modifies this`compressionQueue, this`compressedBuffer, this`compressedHead, this`batches, this`compressed,
        this`compressedCutoff
      ensures compressedCutoff == CompressedCutoffAt(later) && CompressedWindow(history + [point])
    {
      ghost var buffer, all := compressedBuffer, compressed;
      ghost var added := AddToQueue(point);
      DropAppended(buffer, added, compressedHead);
      ghost var h, b, c, q := history, batches, compressed, compressionQueue;
      TrimCompressed(later, all, added);
      assert history == h && batches == b && compressed == c && compressionQueue == q;
    }

    /** The ghost record of a point added. */
    ghost method Record(point: Point, now: real, later: real)
      requires clock <= now <= later && Ordered(history + [point], TimeOf)
      requires rawCutoff == RawCutoffAt(now) && RawWindow(history + [point])
      requires compressedCutoff == CompressedCutoffAt(later) && CompressedWindow(history + [point])
      modifies this`history, this`clock
      ensures Valid() && history == old(history) + [point] && clock == later
    {
      history := history + [point];
      clock := later;
    }

    /** The two parts of `addDataPoint`, once the point is known to be in order. */
    method AddOrdered(point: Point, now: real, later: real)
      requires Ordered(history, TimeOf) && Ordered(history + [point], TimeOf)
      requires rawCutoff <= RawCutoffAt(now) && RawWindow(history)
      requires compressedCutoff <= CompressedCutoffAt(later) && CompressedWindow(history)
      modifies this`rawBuffer, this`rawHead, this`rawCutoff, this`compressionQueue, this`compressedBuffer,
        this`compressedHead, this`batches, this`compressed, this`compressedCutoff
      ensures rawCutoff == RawCutoffAt(now) && RawWindow(history + [point])
      ensures compressedCutoff == CompressedCutoffAt(later) && CompressedWindow(history + [point])
    {
      AddRaw(point, now);
      AddCompressed(point, later);
    }

    /**
     * `addDataPoint`, reading the clock twice. With points and clock in order the raw window is the whole
     * history filtered by the raw cutoff, the compressed window all compressed points filtered by theirs,
     * and the dead cells before either head stay below its slack or the live count.
     */
    method AddDataPoint(point: Point, now: real, later: real)
      requires Valid() && clock <= now <= later
      requires history != [] ==> point.timestamp >= history[|history| - 1].timestamp
      modifies this
      ensures Valid() && history == old(history) + [point] && clock == later
      ensures rawCutoff == now - config.rawDataMinutes * 60.0 * 1000.0
      ensures compressedCutoff == later - config.compressedDataMinutes * 60.0 * 1000.0
      ensures rawHead <= 512 || rawHead <= |rawBuffer| - rawHead
      ensures compressedHead <= 256 || compressedHead <= |compressedBuffer| - compressedHead
    {
      OrderedPush(history, point);
      AddOrdered(point, now, later);
      Record(point, now, later);
    }

    /** The raw points of a time range. */
    method RawSince(cutoff: real) returns (data: seq<Point>)
      requires Valid()
      ensures data == Newer(Newer(history, TimeOf, rawCutoff), TimeOf, cutoff)
    {
      NewerStaysOrdered(history, TimeOf, rawCutoff);
      var start := SkipOld(rawBuffer, rawHead, TimeOf, cutoff);
      data := rawBuffer[start..];
    }

    /** What is kept of the points after `cutoff`: averages up to `rawLimit`, then raw points. */
    ghost function Retained(cutoff: real, rawLimit: real): seq<Point>
      reads this
    {
      OldCompressed(compressed, compressedCutoff, cutoff, rawLimit) +
        Newer(Newer(history, TimeOf, rawCutoff), TimeOf, cutoff)
    }

    /** `data` is what is kept, in time order, points of one time in the order in which they are kept. */
    ghost predicate IsSorted(data: seq<Point>, cutoff: real, rawLimit: real)
      reads this
    {
      && data == SortedByTime(Retained(cutoff, rawLimit))
      && Ordered(data, TimeOf)
      && multiset(data) == multiset(Retained(cutoff, rawLimit))
    }

    /** Within the raw retention the window still holds everything a range asks for. */
    lemma WindowSuffices(minutes: real, now: real)
      requires rawCutoff <= RawCutoffAt(clock) && clock <= now && minutes <= config.rawDataMinutes
      ensures var cutoff := now - minutes * 60.0 * 1000.0;
              Newer(Newer(history, TimeOf, rawCutoff), TimeOf, cutoff) == Newer(history, TimeOf, cutoff)
    {
      NewerOfNewer(history, TimeOf, rawCutoff, now - minutes * 60.0 * 1000.0);
    }

    /** The compressed points of a time range that lie before the raw retention. */
    method CompressedSince(cutoff: real, rawLimit: real) returns (data: seq<Point>)
      requires Valid()
      ensures data == OldCompressed(compressed, compressedCutoff, cutoff, rawLimit)
    {
      NewerStaysOrdered(compressed, CompressedTimeOf, compressedCutoff);
      var start := SkipOld(compressedBuffer, compressedHead, CompressedTimeOf, cutoff);
      data := AsPoints(NotNewer(compressedBuffer[start..], rawLimit));
    }

    /** A range within the raw retention. */
    method ShortRange(minutes: real, now: real) returns (data: seq<Point>)
      requires Valid() && clock <= now && minutes <= config.rawDataMinutes
      ensures data == Newer(history, TimeOf, now - minutes * 60.0 * 1000.0)
    {
      data := RawSince(now - minutes * 60.0 * 1000.0);
      WindowSuffices(minutes, now);
    }

    /** A range beyond the raw retention. */
    method LongRange(cutoff: real, rawLimit: real) returns (data: seq<Point>)
      requires Valid()
      ensures IsSorted(data, cutoff, rawLimit)
    {
      var rawData := RawSince(cutoff);
      var compressedData := CompressedSince(cutoff, rawLimit);
      assert compressedData + rawData == Retained(cutoff, rawLimit);
      data := SortedByTime(compressedData + rawData);
      SortOrders(compressedData + rawData);
    }

    /**
     * `getDataForTimeRange`, reading the clock at `now` and, for the compressed part, at `later`. A range
     * within the raw retention returns the whole history filtered by its own cutoff; a longer one returns
     * the retained raw points of the range and the compressed points before the raw retention, in time order.
     */
    method GetDataForTimeRange(minutes: real, now: real, later: real) returns (data: seq<Point>)
      requires Valid() && clock <= now <= later
      ensures minutes <= config.rawDataMinutes ==> data == Newer(history, TimeOf, now - minutes * 60.0 * 1000.0)
      ensures minutes > config.rawDataMinutes ==>
        IsSorted(data, now - minutes * 60.0 * 1000.0, RawCutoffAt(later))
    {
      if minutes <= config.rawDataMinutes {
        data := ShortRange(minutes, now);
      } else {
        data := LongRange(now - minutes * 60.0 * 1000.0, RawCutoffAt(later));
      }
    }

    /**
     * What a range beyond the raw retention returns: for each compressed point still retained, in the range and
     * before the raw retention, one point with its values and time; the raw points of the range; nothing else.
     */
    lemma LongRangeHolds(data: seq<Point>, cutoff: real, rawLimit: real)
      requires Valid() && IsSorted(data, cutoff, rawLimit)
      ensures HoldsRange(data, compressed, compressedCutoff, history, rawCutoff, cutoff, rawLimit)
    {
      SortedHoldsRange(data, compressed, compressedCutoff, history, rawCutoff, cutoff, rawLimit);
    }

    /** `getStats`: the sizes of the two windows and of the queue. */
    method GetStats() returns (stats: Stats)
      requires Valid()
      ensures stats.rawBufferSize == |Newer(history, TimeOf, rawCutoff)|
      ensures stats.compressedBufferSize == |Newer(compressed, CompressedTimeOf, compressedCutoff)|
      ensures stats.compressionQueueSize == |history| - |Flat(batches)|
      ensures stats.totalMemoryPoints == stats.rawBufferSize + stats.compressedBufferSize
    {
      stats := Stats(|rawBuffer| - rawHead, |compressedBuffer| - compressedHead, |compressionQueue|,
                     |rawBuffer| - rawHead + (|compressedBuffer| - compressedHead));
    }

    /** The assignments of `clear`; all they leave is the clock. */
    method Reset()
      requires rawCutoff <= RawCutoffAt(clock) && compressedCutoff <= CompressedCutoffAt(clock)
      modifies this
      ensures Valid() && history == [] && compressed == [] && clock == old(clock)
    {
      rawBuffer, rawHead, compressedBuffer, compressedHead, compressionQueue := [], 0, [], 0, [];
      history, batches, compressed := [], [], [];
      NothingIsShown(TimeOf, rawCutoff, RAW_SLACK);
      NothingIsShown(CompressedTimeOf, compressedCutoff, COMPRESSED_SLACK);
      NothingIsBatched(BatchSize());
    }

    /** `clear`. */
    method Clear()
      requires Valid()
      modifies this
      ensures Valid() && history == [] && compressed == [] && clock == old(clock)
    {
      Reset();
    }

    /**
     * In exact arithmetic nothing is lost to averaging: all compressed points ever made, weighted by their
     * samples, and the queue carry the totals of every point ever added. Each compressed point covers one
     * full batch, and their times never go back.
     */
    lemma TotalsAreConserved()
      requires Valid()
      ensures WeightedUp(compressed) + SumUp(compressionQueue) == SumUp(history)
      ensures WeightedDown(compressed) + SumDown(compressionQueue) == SumDown(history)
      ensures forall i :: 0 <= i < |compressed| ==>
          compressed[i].samples == if config.compressionRatio < 1 then 1 else config.compressionRatio
      ensures Ordered(compressed, CompressedTimeOf)
    {
      AveragesConserve(compressed, batches, BatchSize());
      SumsApart(Flat(batches), compressionQueue);
      AveragesCover(compressed, batches, BatchSize());
    }
  }

  lemma DropAppended<T>(buffer: seq<T>, added: seq<T>, head: nat)
    requires head <= |buffer|
    ensures (buffer + added)[head..] == buffer[head..] + added
  {
  }

  lemma WindowAfterAverage(all: seq<CompressedPoint>, added: seq<CompressedPoint>, was: real, cutoff: real)
    requires was <= cutoff && |added| <= 1 && Ordered(all + added, CompressedTimeOf)
    ensures Ordered(Newer(all, CompressedTimeOf, was) + added, CompressedTimeOf)
    ensures Newer(Newer(all, CompressedTimeOf, was) + added, CompressedTimeOf, cutoff) ==
        Newer(all + added, CompressedTimeOf, cutoff)
  {
    var window := Newer(all, CompressedTimeOf, was);
    forall i, j | 0 <= i < j < |all| ensures CompressedTimeOf(all[i]) <= CompressedTimeOf(all[j]) {
      assert (all + added)[i] == all[i] && (all + added)[j] == all[j];
    }
    NewerStaysOrdered(all, CompressedTimeOf, was);
    NewerOfNewer(all, CompressedTimeOf, was, cutoff);
    if added == [] {
      assert window + added == window && all + added == all;
    } else {
      assert (window + added)[..|window|] == window && (all + added)[..|all|] == all;
      if all != [] {
        assert CompressedTimeOf((all + added)[|all| - 1]) <= CompressedTimeOf((all + added)[|all|]);
      }
    }
  }

  lemma BatchedWaits(history: seq<Point>, batches: seq<seq<Point>>, compressed: seq<CompressedPoint>, queue: seq<Point>,
      size: nat, point: Point)
    requires Batched(history, batches, compressed, queue, size) && Ordered(history + [point], TimeOf) &&
        |queue| + 1 < size
    ensures Batched(history + [point], batches, compressed, queue + [point], size)
  {
    assert Flat(batches) + (queue + [point]) == history + [point];
  }

  /** In an ordered history the tail is ordered and no earlier than what precedes it. */
  lemma TailIsLater(done: seq<Point>, tail: seq<Point>)
    requires Ordered(done + tail, TimeOf)
    ensures Ordered(tail, TimeOf)
    ensures done != [] ==> forall j :: 0 <= j < |tail| ==> done[|done| - 1].timestamp <= tail[j].timestamp
  {
    var all := done + tail;
    forall i, j | 0 <= i < j < |tail| ensures TimeOf(tail[i]) <= TimeOf(tail[j]) {
      assert TimeOf(all[|done| + i]) <= TimeOf(all[|done| + j]);
    }
    forall j | done != [] && 0 <= j < |tail| ensures done[|done| - 1].timestamp <= tail[j].timestamp {
      assert TimeOf(all[|done| - 1]) <= TimeOf(all[|done| + j]);
    }
  }

  /** No average made so far is later than a point of the batch being filled. */
  lemma AveragesAreEarlier(
    history: seq<Point>, done: seq<Point>, compressed: seq<CompressedPoint>, queue: seq<Point>, point: Point)
    requires done + queue == history && Ordered(history + [point], TimeOf)
    requires forall i :: 0 <= i < |compressed| ==>
        |queue| < |history| && compressed[i].timestamp <= history[|history| - |queue| - 1].timestamp
    ensures Ordered(queue + [point], TimeOf)
    ensures forall i, j :: 0 <= i < |compressed| && 0 <= j <= |queue| ==>
        compressed[i].timestamp <= (queue + [point])[j].timestamp
  {
    var full := queue + [point];
    assert done + full == history + [point];
    TailIsLater(done, full);
    if compressed != [] {
      var first := compressed[0];
      assert |queue| < |history| == |done| + |queue|;
      assert history[|history| - |queue| - 1] == done[|done| - 1];
    }
  }

  lemma BatchedFills(history: seq<Point>, batches: seq<seq<Point>>, compressed: seq<CompressedPoint>, queue: seq<Point>,
      size: nat, point: Point)
    requires Batched(history, batches, compressed, queue, size) && Ordered(history + [point], TimeOf) &&
        |queue| + 1 == size
    ensures var full := queue + [point];
            Batched(history + [point], batches + [full], compressed + [Average(full)], [], size)
  {
    var full, more := queue + [point], history + [point];
    AveragesAreEarlier(history, Flat(batches), compressed, queue, point);
    NextAverageIsLater(compressed, full);
    AveragesGrow(compressed, batches, full, size);
    FillsUp(Flat(batches), queue, point, Flat(batches + [full]), history);
    BatchedFrom(more, batches + [full], compressed + [Average(full)], size, full[|full| - 1]);
  }

  lemma FillsUp(done: seq<Point>, queue: seq<Point>, point: Point, filled: seq<Point>, history: seq<Point>)
    requires done + queue == history && filled == done + (queue + [point])
    ensures filled == history + [point]
  {
  }

  lemma BatchedFrom(
    history: seq<Point>, batches: seq<seq<Point>>, compressed: seq<CompressedPoint>, size: nat, last: Point)
    requires Flat(batches) == history && history != [] && history[|history| - 1] == last
    requires Averages(compressed, batches, size) && Ordered(compressed, CompressedTimeOf)
    requires forall i :: 0 <= i < |compressed| ==> compressed[i].timestamp <= last.timestamp
    ensures Batched(history, batches, compressed, [], size)
  {
    assert Flat(batches) + [] == history;
  }

  /** A new batch keeps the compressed points in time order: averages lie within their batches. */
  lemma NextAverageIsLater(compressed: seq<CompressedPoint>, queue: seq<Point>)
    requires queue != [] && Ordered(queue, TimeOf) && Ordered(compressed, CompressedTimeOf)
    requires forall i, j :: 0 <= i < |compressed| && 0 <= j < |queue| ==> compressed[i].timestamp <= queue[j].timestamp
    ensures Ordered(compressed + [Average(queue)], CompressedTimeOf)
    ensures forall i :: 0 <= i <= |compressed| ==>
        (compressed + [Average(queue)])[i].timestamp <= queue[|queue| - 1].timestamp
  {
    var low, high := queue[0].timestamp, queue[|queue| - 1].timestamp;
    forall i | 0 <= i < |queue| ensures low <= queue[i].timestamp <= high {
      assert i > 0 ==> TimeOf(queue[0]) <= TimeOf(queue[i]);
      assert i < |queue| - 1 ==> TimeOf(queue[i]) <= TimeOf(queue[|queue| - 1]);
    }
    AverageTimeBetween(queue, low, high);
  }

  lemma AveragesGrow(compressed: seq<CompressedPoint>, batches: seq<seq<Point>>, queue: seq<Point>, size: nat)
    requires Averages(compressed, batches, size) && |queue| == size
    ensures Averages(compressed + [Average(queue)], batches + [queue], size)
    ensures Flat(batches + [queue]) == Flat(batches) + queue
  {
    assert (batches + [queue])[..|batches|] == batches;
    assert (compressed + [Average(queue)])[..|batches|] == compressed;
  }

  lemma OrderedPush(history: seq<Point>, point: Point)
    requires Ordered(history, TimeOf)
    requires history != [] ==> point.timestamp >= history[|history| - 1].timestamp
    ensures Ordered(history + [point], TimeOf)
  {
  }

  /** The old window and the new point, skipped to a later cutoff, are the new history filtered by it. */
  lemma WindowAfterPush(history: seq<Point>, point: Point, was: real, cutoff: real)
    requires was <= cutoff && Ordered(history, TimeOf) && Ordered(history + [point], TimeOf)
    ensures Ordered(Newer(history, TimeOf, was) + [point], TimeOf)
    ensures Newer(Newer(history, TimeOf, was) + [point], TimeOf, cutoff) == Newer(history + [point], TimeOf, cutoff)
  {
    var window := Newer(history, TimeOf, was);
    assert (window + [point])[..|window|] == window;
    assert (history + [point])[..|history|] == history;
    NewerOfNewer(history, TimeOf, was, cutoff);
    NewerStaysOrdered(history, TimeOf, was);
    if history != [] {
      assert TimeOf((history + [point])[|history| - 1]) <= TimeOf((history + [point])[|history|]);
    }
  }

  lemma {:induction false} NewerStaysOrdered<T>(s: seq<T>, time: T -> real, cutoff: real)
    requires Ordered(s, time)
    ensures Ordered(Newer(s, time, cutoff), time)
    ensures s != [] ==> forall i :: 0 <= i < |Newer(s, time, cutoff)| ==>
        time(Newer(s, time, cutoff)[i]) <= time(s[|s| - 1])
  {
    if s != [] {
      NewerStaysOrdered(s[..|s| - 1], time, cutoff);
    }
  }
}
