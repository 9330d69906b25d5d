/**
 The expiration histogram of one log file: bytes per expiration hour, its serialized form,
 and the uncertainty band the file selector feeds on.  Narrowing casts and subtractions are
 those of a release build: they wrap.
 */
module Expiration {
  import opened Lsns
  import opened Sorting
  import opened Arith
  import opened Varint

  // ----- the histogram ------------------------------------------------------------------------------------

  function ToU32(x: int): u32 {
    x % U32_SIZE
  }

  function ToI32(x: int): int {
    if x % U32_SIZE < U32_SIZE / 2 then x % U32_SIZE else x % U32_SIZE - U32_SIZE
  }

  predicate IsI32(x: int) {
    -U32_SIZE / 2 <= x < U32_SIZE / 2
  }

  datatype Bin = Bin(count: int, size: int)

  type Bins = map<nat, Bin>

  /** Hour zero means the record never expires and is not tracked. */
  function Tracked(bins: Bins, hour: nat, size: int): Bins {
    if hour == 0 then bins
    else if hour in bins then bins[hour := Bin(ToI32(bins[hour].count + 1), ToI32(bins[hour].size + size))]
    else bins[hour := Bin(1, size)]
  }

  predicate InHours(hours: set<nat>) {
    exists h :: h in hours && h % 24 != 0
  }

  // ----- bytes of a set of buckets ----------------------------------------------------------------------

  ghost function SizeOf(bins: Bins, hours: set<nat>): int
    requires hours <= bins.Keys
  {
    if hours == {} then 0
    else
      var h :| h in hours;
      bins[h].size + SizeOf(bins, hours - {h})
  }

  /** The sum does not depend on the order in which a hash map yields its buckets. */
  lemma {:induction false} SizeTakeOut(bins: Bins, hours: set<nat>, h: nat)
    requires hours <= bins.Keys && h in hours
    ensures SizeOf(bins, hours) == bins[h].size + SizeOf(bins, hours - {h})
    decreases |hours|
  {
    var g :| g in hours && SizeOf(bins, hours) == bins[g].size + SizeOf(bins, hours - {g});
    if g != h {
      SizeTakeOut(bins, hours - {g}, h);
      SizeTakeOut(bins, hours - {h}, g);
      assert hours - {g} - {h} == hours - {h} - {g};
    }
  }

  lemma {:induction false} SizeOfUnion(bins: Bins, a: set<nat>, b: set<nat>)
    requires a <= bins.Keys && b <= bins.Keys && a !! b
    ensures SizeOf(bins, a + b) == SizeOf(bins, a) + SizeOf(bins, b)
    decreases |a|
  {
    if a == {} {
      assert a + b == b;
    } else {
      var h :| h in a;
      SizeTakeOut(bins, a, h);
      SizeTakeOut(bins, a + b, h);
      assert a + b - {h} == (a - {h}) + b;
      SizeOfUnion(bins, a - {h}, b);
    }
  }

  lemma SizeStep(bins: Bins, all: set<nat>, todo: set<nat>, h: nat)
    requires all <= bins.Keys && todo <= bins.Keys && h in todo
    ensures SizeOf(bins, all * todo) == SizeOf(bins, all * (todo - {h})) + if h in all then bins[h].size else 0
  {
    if h in all {
      SizeTakeOut(bins, all * todo, h);
      assert all * (todo - {h}) == all * todo - {h};
    } else {
      assert all * (todo - {h}) == all * todo;
    }
  }

  lemma {:induction false} SizeAgrees(b1: Bins, b2: Bins, a: set<nat>)
    requires a <= b1.Keys && a <= b2.Keys && forall h :: h in a ==> b1[h].size == b2[h].size
    ensures SizeOf(b1, a) == SizeOf(b2, a)
    decreases |a|
  {
    if a == {} {
    } else {
      var h :| h in a;
      SizeTakeOut(b1, a, h);
      SizeTakeOut(b2, a, h);
      SizeAgrees(b1, b2, a - {h});
    }
  }

  predicate NonNegative(bins: Bins) {
    forall h :: h in bins ==> bins[h].size >= 0
  }

  lemma {:induction false} SizeNonNegative(bins: Bins, a: set<nat>)
    requires a <= bins.Keys && NonNegative(bins)
    ensures SizeOf(bins, a) >= 0
    decreases |a|
  {
    if a == {} {
    } else {
      var h :| h in a;
      SizeTakeOut(bins, a, h);
      SizeNonNegative(bins, a - {h});
    }
  }

  lemma SizeGrows(bins: Bins, a: set<nat>, b: set<nat>)
    requires a <= b <= bins.Keys && NonNegative(bins)
    ensures SizeOf(bins, a) <= SizeOf(bins, b)
  {
    assert a + (b - a) == b;
    SizeOfUnion(bins, a, b - a);
    SizeNonNegative(bins, b - a);
  }

  // ----- expired bytes and the band -------------------------------------------------------------------------

  const HOUR_MS := 3_600_000
  const DAY_MS := 86_400_000

  function ExpiredBy(bins: Bins, now: nat): set<nat> {
    set h | h in bins && 0 < h <= now
  }

  function Stored(hour: nat, hours: bool): nat {
    if hours then hour else hour / 24
  }

  /** The bucket of an hour: the hour itself, or its day when every bucket lies on a day boundary. */
  function Bucket(bins: Bins, hour: nat): nat {
    Stored(hour, InHours(bins.Keys))
  }

  function Passed(bins: Bins, now: nat): set<nat> {
    set h | h in bins && 0 < h && Bucket(bins, h) < Bucket(bins, now)
  }

  function Passing(bins: Bins, now: nat): set<nat> {
    set h | h in bins && 0 < h && Bucket(bins, h) == Bucket(bins, now)
  }

  function Interval(bins: Bins): nat {
    if InHours(bins.Keys) then HOUR_MS else DAY_MS
  }

  /** Milliseconds elapsed in the current hour or day. */
  function Elapsed(bins: Bins, now: nat, ms: nat): nat {
    if InHours(bins.Keys) then Min(ms, HOUR_MS) else Min(now % 24 * HOUR_MS + Min(ms, HOUR_MS), DAY_MS)
  }

  ghost function Lower(bins: Bins, now: nat): int {
    SizeOf(bins, Passed(bins, now))
  }

  ghost function Gradual(bins: Bins, now: nat, ms: nat): int {
    Lower(bins, now) + TruncDiv(SizeOf(bins, Passing(bins, now)) * Elapsed(bins, now, ms), Interval(bins))
  }

  /** Division that truncates toward zero. */
  function TruncDiv(x: int, y: int): int
    requires y > 0
  {
    if x >= 0 then x / y else -((-x) / y)
  }

  ghost function Expired(bins: Bins, now: nat): int {
    SizeOf(bins, ExpiredBy(bins, now))
  }

  lemma NarrowingWraps(x: int)
    ensures (ToI32(x) - x) % U32_SIZE == 0
    ensures ToI32(x) == x <==> IsI32(x)
  {
  }

  /**
   Tracking adds the entry's size to what has expired from its hour on, up to a multiple of 2^32
   that is zero exactly when the bucket's sum stays within 32 bits, and changes nothing before.
   */
  lemma TrackedAdds(bins: Bins, hour: nat, size: int, now: nat)
    requires IsI32(size)
    ensures var added := Expired(Tracked(bins, hour, size), now) - Expired(bins, now);
            if 0 < hour <= now
            then
              && (added - size) % U32_SIZE == 0
              && (added == size <==> hour !in bins || IsI32(bins[hour].size + size))
            else added == 0
  {
    var bins' := Tracked(bins, hour, size);
    var before, after := ExpiredBy(bins, now), ExpiredBy(bins', now);
    SizeAgrees(bins, bins', before - {hour});
    assert before - {hour} == after - {hour};
    if hour in before {
      SizeTakeOut(bins, before, hour);
      NarrowingWraps(bins[hour].size + size);
    } else {
      assert before - {hour} == before;
    }
    if hour in after {
      SizeTakeOut(bins', after, hour);
    } else {
      assert after - {hour} == after;
    }
  }

  /** Entries met, by hour and size. */
  type Entries = seq<(nat, int)>

  function TrackedAll(entries: Entries, n: nat): Bins
    requires n <= |entries|
  {
    if n == 0 then map[] else Tracked(TrackedAll(entries, n - 1), entries[n - 1].0, entries[n - 1].1)
  }

  /** How many of the first `n` entries expire at `hour`, and their bytes. */
  function CountAt(entries: Entries, hour: nat, n: nat): nat
    requires n <= |entries|
  {
    if n == 0 then 0 else CountAt(entries, hour, n - 1) + if entries[n - 1].0 == hour then 1 else 0
  }

  function BytesAt(entries: Entries, hour: nat, n: nat): int
    requires n <= |entries|
  {
    if n == 0 then 0 else BytesAt(entries, hour, n - 1) + if entries[n - 1].0 == hour then entries[n - 1].1 else 0
  }

  predicate SameMod32(x: int, y: int) {
    (x - y) % U32_SIZE == 0
  }

  lemma NarrowingAdds(x: int, y: int, more: int)
    requires SameMod32(x, y)
    ensures SameMod32(ToI32(x + more), y + more)
  {
    NarrowingWraps(x + more);
  }

  /** The histogram has one bucket per hour met, hour zero apart, with its entries and bytes up to multiples of 2^32. */
  lemma {:induction false} HistogramIsHistory(entries: Entries, n: nat, hour: nat)
    requires n <= |entries|
    ensures var bins := TrackedAll(entries, n);
            && (hour in bins <==> hour > 0 && CountAt(entries, hour, n) > 0)
            && (hour in bins ==>
                  && SameMod32(bins[hour].count, CountAt(entries, hour, n))
                  && SameMod32(bins[hour].size, BytesAt(entries, hour, n)))
            && (hour !in bins && hour > 0 ==> BytesAt(entries, hour, n) == 0)
  {
    if n == 0 {
    } else {
      HistogramIsHistory(entries, n - 1, hour);
      var bins := TrackedAll(entries, n - 1);
      if hour in bins {
        NarrowingAdds(bins[hour].count, CountAt(entries, hour, n - 1), 1);
        NarrowingAdds(bins[hour].size, BytesAt(entries, hour, n - 1), entries[n - 1].1);
      }
    }
  }

  // ----- the current bucket ---------------------------------------------------------------------------

  predicate OnDayBoundaries(bins: Bins) {
    forall h :: h in bins ==> h % 24 == 0
  }

  /** Milliseconds from the epoch to a moment `ms` into hour `now`; the hour ends even for a clock that says more. */
  function Instant(now: nat, ms: nat): nat {
    now * 60 * 60 * 1000 + if ms < 60 * 60 * 1000 then ms else 60 * 60 * 1000
  }

  /** The bucket is the current day when every bucket is a day's, else the current hour; what elapsed is the rest. */
  lemma ElapsedIs(bins: Bins, now: nat, ms: nat)
    ensures if OnDayBoundaries(bins)
            then
              && Interval(bins) == Instant(24, 0)
              && Elapsed(bins, now, ms) == Instant(now, ms) - Instant(now / 24 * 24, 0) <= Interval(bins)
            else
              && Interval(bins) == Instant(1, 0)
              && Elapsed(bins, now, ms) == Instant(now, ms) - Instant(now, 0) <= Interval(bins)
  {
    assert InHours(bins.Keys) <==> !OnDayBoundaries(bins);
  }

  lemma TruncDivIs(x: int, y: int)
    requires y > 0
    ensures var q := TruncDiv(x, y);
            if x >= 0 then q * y <= x < (q + 1) * y else (q - 1) * y < x <= q * y
  {
    if x >= 0 {
      assert x == y * (x / y) + x % y;
    } else {
      assert -x == y * (-x / y) + -x % y;
    }
  }

  /** The band is closed when its bucket begins and covers all of it when it ends, whatever the sizes. */
  lemma BandMeets(bins: Bins, now: nat, ms: nat)
    ensures Elapsed(bins, now, ms) == 0 ==> Gradual(bins, now, ms) == Lower(bins, now)
    ensures Elapsed(bins, now, ms) == Interval(bins) ==> Gradual(bins, now, ms) == Expired(bins, now)
  {
    var newly, y := SizeOf(bins, Passing(bins, now)), Interval(bins);
    PassedAndPassing(bins, now);
    SizeOfUnion(bins, Passed(bins, now), Passing(bins, now));
    if newly >= 0 {
      QuotientIs(newly * y, y, newly);
    } else {
      QuotientIs(-newly * y, y, -newly);
    }
  }

  /** The buckets already passed and the one passing are exactly the expired ones, by hour and by day. */
  lemma PassedAndPassing(bins: Bins, now: nat)
    ensures Passed(bins, now) !! Passing(bins, now)
    ensures Passed(bins, now) + Passing(bins, now) == ExpiredBy(bins, now)
  {
    forall h | h in bins && 0 < h
      ensures Bucket(bins, h) <= Bucket(bins, now) <==> h <= now
    {
      if !InHours(bins.Keys) {
        assert h % 24 == 0;
      }
    }
  }

  /** The band brackets the truth: what surely expired, what probably did, what has reached its hour. */
  lemma BandIsSound(bins: Bins, now: nat, ms: nat)
    requires NonNegative(bins)
    ensures 0 <= Lower(bins, now) <= Gradual(bins, now, ms) <= Expired(bins, now)
  {
    PassedAndPassing(bins, now);
    SizeOfUnion(bins, Passed(bins, now), Passing(bins, now));
    SizeNonNegative(bins, Passed(bins, now));
    SizeNonNegative(bins, Passing(bins, now));
    ShareGrows(SizeOf(bins, Passing(bins, now)), 0, Elapsed(bins, now, ms), Interval(bins));
  }

  predicate NotLater(now1: nat, ms1: nat, now2: nat, ms2: nat) {
    now1 < now2 || (now1 == now2 && ms1 <= ms2)
  }

  lemma ElapsedGrows(bins: Bins, now1: nat, ms1: nat, now2: nat, ms2: nat)
    requires NotLater(now1, ms1, now2, ms2) && Bucket(bins, now1) == Bucket(bins, now2)
    ensures Elapsed(bins, now1, ms1) <= Elapsed(bins, now2, ms2) <= Interval(bins)
  {
    if !InHours(bins.Keys) && now1 < now2 {
      assert now1 % 24 + 1 <= now2 % 24;
    }
  }

  /** As the clock advances, across bucket boundaries too, neither bound ever falls. */
  lemma BandNeverFalls(bins: Bins, now1: nat, ms1: nat, now2: nat, ms2: nat)
    requires NonNegative(bins) && NotLater(now1, ms1, now2, ms2)
    ensures Lower(bins, now1) <= Lower(bins, now2)
    ensures Gradual(bins, now1, ms1) <= Gradual(bins, now2, ms2)
  {
    assert Bucket(bins, now1) <= Bucket(bins, now2);
    SizeGrows(bins, Passed(bins, now1), Passed(bins, now2));
    if Bucket(bins, now1) == Bucket(bins, now2) {
      assert Passed(bins, now1) == Passed(bins, now2) && Passing(bins, now1) == Passing(bins, now2);
      SizeNonNegative(bins, Passing(bins, now1));
      ElapsedGrows(bins, now1, ms1, now2, ms2);
      ShareGrows(SizeOf(bins, Passing(bins, now1)), Elapsed(bins, now1, ms1), Elapsed(bins, now2, ms2), Interval(bins));
    } else {
      BandIsSound(bins, now1, ms1);
      BandIsSound(bins, now2, ms2);
      PassedAndPassing(bins, now1);
      SizeGrows(bins, ExpiredBy(bins, now1), Passed(bins, now2));
    }
  }

  // ----- the serialized histogram ---------------------------------------------------------------------------

  function HourOf(stored: nat, hours: bool): nat {
    if hours then stored else stored * 24
  }

  /** The stored value before position `i`; the first interval starts at the epoch. */
  function Previous(keys: seq<nat>, i: nat, hours: bool): nat
    requires i <= |keys|
  {
    if i == 0 then 0 else Stored(keys[i - 1], hours)
  }

  predicate Within(keys: seq<nat>, bins: Bins) {
    forall i :: 0 <= i < |keys| ==> keys[i] in bins
  }

  /** Interval and size of bucket `i`; stored values and intervals are narrowed to 32 bits. */
  function Delta(keys: seq<nat>, bins: Bins, hours: bool, i: nat): (u32, u32)
    requires i < |keys| && keys[i] in bins
  {
    (ToU32(ToU32(Stored(keys[i], hours)) - ToU32(Previous(keys, i, hours))), ToU32(bins[keys[i]].size))
  }

  function Deltas(keys: seq<nat>, bins: Bins, hours: bool, n: nat): (pairs: seq<(u32, u32)>)
    requires n <= |keys| && Within(keys, bins)
    ensures |pairs| == n
  {
    if n == 0 then [] else Deltas(keys, bins, hours, n - 1) + [Delta(keys, bins, hours, n - 1)]
  }

  lemma {:induction false} DeltaAt(keys: seq<nat>, bins: Bins, hours: bool, n: nat, i: nat)
    requires i < n <= |keys| && Within(keys, bins)
    ensures Deltas(keys, bins, hours, n)[i] == Delta(keys, bins, hours, i)
  {
    if i < n - 1 {
      DeltaAt(keys, bins, hours, n - 1, i);
    }
  }

  function Flatten(pairs: seq<(u32, u32)>, i: nat): Bytes
    requires i <= |pairs|
    decreases |pairs| - i
  {
    if i == |pairs| then [] else Leb(pairs[i].0) + Leb(pairs[i].1) + Flatten(pairs, i + 1)
  }

  ghost function Encoded(bins: Bins): Bytes {
    if bins == map[] then []
    else
      var keys, hours := Sorted(bins.Keys), InHours(bins.Keys);
      SortedMembers(bins.Keys);
      [if hours then 1 else 0] + Flatten(Deltas(keys, bins, hours, |keys|), 0)
  }

  /** The next interval and size, and the bytes they take; nothing when the buffer ends first. */
  function ReadPair(rest: Bytes): (r: Option<(u32, u32, nat)>)
    ensures r.Some? ==> 0 < r.value.2 <= |rest|
  {
    if rest == [] then None
    else
      var (delta, n1) := ReadGroups(rest, 0, 0);
      if n1 == |rest| then None
      else
        var (size, n2) := ReadGroups(rest[n1..], 0, 0);
        Some((delta, size, n1 + n2))
  }

  lemma ReadPairOf(a: Bytes, b: Bytes, rest: Bytes, delta: u32, size: u32)
    requires a != [] && ReadGroups(a + (b + rest), 0, 0) == (delta, |a|)
    requires b != [] && ReadGroups(b + rest, 0, 0) == (size, |b|)
    ensures ReadPair(a + b + rest) == Some((delta, size, |a + b|))
  {
    assert a + b + rest == a + (b + rest);
    assert (a + b + rest)[|a|..] == b + rest;
  }

  lemma PairRoundTrip(delta: u32, size: u32, rest: Bytes)
    ensures ReadPair(Leb(delta) + Leb(size) + rest) == Some((delta, size, |Leb(delta) + Leb(size)|))
  {
    VarintRoundTrip(delta, Leb(size) + rest);
    VarintRoundTrip(size, rest);
    ReadPairOf(Leb(delta), Leb(size), rest, delta, size);
  }

  function Parse(rest: Bytes): seq<(u32, u32)>
    decreases |rest|
  {
    match ReadPair(rest)
    case None => []
    case Some((delta, size, n)) => [(delta, size)] + Parse(rest[n..])
  }

  lemma ParseStep(all: Bytes, delta: u32, size: u32, n: nat)
    requires ReadPair(all) == Some((delta, size, n))
    ensures n <= |all| && Parse(all) == [(delta, size)] + Parse(all[n..])
  {
  }

  lemma ParseAt(s: Bytes, pos: nat, delta: u32, n1: nat, size: u32, n2: nat)
    requires pos < |s| && ReadGroups(s[pos..], 0, 0) == (delta, n1)
    requires pos + n1 < |s| && ReadGroups(s[pos + n1..], 0, 0) == (size, n2)
    ensures pos + n1 + n2 <= |s| && Parse(s[pos..]) == [(delta, size)] + Parse(s[pos + n1 + n2..])
  {
    assert s[pos..][n1..] == s[pos + n1..];
    ParseStep(s[pos..], delta, size, n1 + n2);
    assert s[pos..][n1 + n2..] == s[pos + n1 + n2..];
  }

  lemma ParseWritten(delta: u32, size: u32, rest: Bytes)
    ensures Parse(Leb(delta) + Leb(size) + rest) == [(delta, size)] + Parse(rest)
  {
    var pair := Leb(delta) + Leb(size);
    PairRoundTrip(delta, size, rest);
    ParseStep(pair + rest, delta, size, |pair|);
    assert (pair + rest)[|pair|..] == rest;
  }

  lemma ParseCons(all: Bytes, delta: u32, size: u32, rest: Bytes, tail: seq<(u32, u32)>)
    requires all == Leb(delta) + Leb(size) + rest && Parse(rest) == tail
    ensures Parse(all) == [(delta, size)] + tail
  {
    ParseWritten(delta, size, rest);
  }

  lemma FlattenHead(pairs: seq<(u32, u32)>, i: nat)
    requires i < |pairs|
    ensures Flatten(pairs, i) == Leb(pairs[i].0) + Leb(pairs[i].1) + Flatten(pairs, i + 1)
    ensures pairs[i..] == [(pairs[i].0, pairs[i].1)] + pairs[i + 1..]
  {
  }

  lemma {:induction false} ParseInvertsFlatten(pairs: seq<(u32, u32)>, i: nat)
    requires i <= |pairs|
    ensures Parse(Flatten(pairs, i)) == pairs[i..]
    decreases |pairs| - i
  {
    if i < |pairs| {
      ParseInvertsFlatten(pairs, i + 1);
      FlattenHead(pairs, i);
      ParseCons(Flatten(pairs, i), pairs[i].0, pairs[i].1, Flatten(pairs, i + 1), pairs[i + 1..]);
    }
  }

  /** The reader's running sum of the intervals; it is 64 bits wide and does not wrap. */
  function Total(pairs: seq<(u32, u32)>, n: nat): nat
    requires n <= |pairs|
  {
    if n == 0 then 0 else Total(pairs, n - 1) + pairs[n - 1].0
  }

  function Rebuilt(pairs: seq<(u32, u32)>, n: nat, hours: bool): Bins
    requires n <= |pairs|
  {
    if n == 0 then map[]
    else Tracked(Rebuilt(pairs, n - 1, hours), HourOf(Total(pairs, n), hours), ToI32(pairs[n - 1].1))
  }

  function Decoded(serialized: Bytes): Bins {
    if serialized == [] then map[]
    else
      var pairs := Parse(serialized[1..]);
      Rebuilt(pairs, |pairs|, serialized[0] == 1)
  }

  class ExpirationTracker {
    const fileNumber: FileNum
    var bins: Bins

    constructor (fileNumber: FileNum)
      ensures this.fileNumber == fileNumber && bins == map[]
    {
      this.fileNumber := fileNumber;
      bins := map[];
    }

    method Track(hour: nat, size: int)
      modifies this`bins
      ensures bins == Tracked(old(bins), hour, size)
    {
      if hour == 0 {
        return;
      }
      if hour in bins {
        bins := bins[hour := Bin(ToI32(bins[hour].count + 1), ToI32(bins[hour].size + size))];
      } else {
        bins := bins[hour := Bin(1, size)];
      }
    }

    method GetExpiredBytes(now: nat) returns (expired: int)
      ensures expired == Expired(bins, now)
    {
      expired := 0;
      var todo := bins.Keys;
      ghost var all := ExpiredBy(bins, now);
      assert all * todo == all;
      while todo != {}
        invariant todo <= bins.Keys
        invariant expired + SizeOf(bins, all * todo) == SizeOf(bins, all)
        decreases |todo|
      {
        var h :| h in todo;
        SizeStep(bins, all, todo, h);
        if h > 0 && h <= now {
          expired := expired + bins[h].size;
        }
        todo := todo - {h};
      }
      assert all * {} == {};
    }

    /** One pass over the buckets: bytes of prior intervals and of the current one. */
    method SumBuckets(now: nat) returns (lower: int, newly: int)
      ensures lower == Lower(bins, now) && newly == SizeOf(bins, Passing(bins, now))
    {
      var hours := InHours(bins.Keys);
      var current := Stored(now, hours);
      lower, newly := 0, 0;
      var todo := bins.Keys;
      ghost var passed, passing := Passed(bins, now), Passing(bins, now);
      assert passed * todo == passed && passing * todo == passing;
      while todo != {}
        invariant todo <= bins.Keys
        invariant lower + SizeOf(bins, passed * todo) == SizeOf(bins, passed)
        invariant newly + SizeOf(bins, passing * todo) == SizeOf(bins, passing)
        decreases |todo|
      {
        var h :| h in todo;
        SizeStep(bins, passed, todo, h);
        SizeStep(bins, passing, todo, h);
        if h != 0 {
          var bucket := Stored(h, hours);
          if bucket < current {
            lower := lower + bins[h].size;
          } else if bucket == current {
            newly := newly + bins[h].size;
          }
        }
        todo := todo - {h};
      }
      assert passed * {} == {} && passing * {} == {};
    }

    method GetExpiredBytesBand(now: nat, ms: nat) returns (lower: int, gradual: int)
      ensures lower == Lower(bins, now) && gradual == Gradual(bins, now, ms)
    {
      var newly;
      lower, newly := SumBuckets(now);
      gradual := lower + TruncDiv(newly * Elapsed(bins, now, ms), Interval(bins));
    }

    method Serialize() returns (out: Bytes)
      ensures out == Encoded(bins)
    {
      if bins == map[] {
        return [];
      }
      SortedMembers(bins.Keys);
      var keys := SortedElements(bins.Keys);
      var hours := InHours(bins.Keys);
      var pairs := WritePairs(keys, bins, hours);
      out := [if hours then 1 else 0] + pairs;
    }

    static method Deserialize(fileNumber: FileNum, serialized: Bytes) returns (t: ExpirationTracker)
      ensures fresh(t) && t.fileNumber == fileNumber && t.bins == Decoded(serialized)
    {
      t := new ExpirationTracker(fileNumber);
      if serialized != [] {
        t.bins := ReadPairs(serialized[1..], serialized[0] == 1);
      }
    }
  }

  method WritePairs(keys: seq<nat>, bins: Bins, hours: bool) returns (out: Bytes)
    requires Within(keys, bins)
    ensures out == Flatten(Deltas(keys, bins, hours, |keys|), 0)
  {
    out := [];
    var prev: u32 := 0;
    ghost var pairs := Deltas(keys, bins, hours, |keys|);
    for i := 0 to |keys|
      invariant prev == ToU32(Previous(keys, i, hours))
      invariant out + Flatten(pairs, i) == Flatten(pairs, 0)
    {
      var stored := ToU32(Stored(keys[i], hours));
      var delta, size := ToU32(stored - prev), ToU32(bins[keys[i]].size);
      DeltaAt(keys, bins, hours, |keys|, i);
      FlattenStep(out, pairs, i, delta, size);
      out := WriteVarint(out, delta);
      out := WriteVarint(out, size);
      prev := stored;
    }
    assert out + [] == out;
  }

  lemma FlattenStep(out: Bytes, pairs: seq<(u32, u32)>, i: nat, delta: u32, size: u32)
    requires i < |pairs| && pairs[i] == (delta, size)
    ensures out + Flatten(pairs, i) == out + Leb(delta) + Leb(size) + Flatten(pairs, i + 1)
  {
  }

  method ReadPairs(s: Bytes, hours: bool) returns (bins: Bins)
    ensures bins == Rebuilt(Parse(s), |Parse(s)|, hours)
  {
    bins := map[];
    var pos := 0;
    var prev: nat := 0;
    ghost var pairs, n := Parse(s), 0;
    assert s[0..] == s;
    while pos < |s|
      invariant pos <= |s| && n <= |pairs|
      invariant Parse(s[pos..]) == pairs[n..]
      invariant prev == Total(pairs, n) && bins == Rebuilt(pairs, n, hours)
    {
      var found, delta, size, next := NextPair(s, pos);
      if !found {
        return;
      }
      HeadTaken(pairs, n, (delta, size), Parse(s[next..]));
      RebuiltNext(pairs, n, hours, delta, size);
      n := n + 1;
      pos := next;
      prev := prev + delta;
      bins := Tracked(bins, HourOf(prev, hours), ToI32(size));
    }
  }

  lemma HeadTaken(pairs: seq<(u32, u32)>, n: nat, pair: (u32, u32), rest: seq<(u32, u32)>)
    requires n <= |pairs| && pairs[n..] == [pair] + rest
    ensures n < |pairs| && pairs[n] == pair && pairs[n + 1..] == rest
  {
    assert pairs[n..][0] == pair && pairs[n..][1..] == rest;
  }

  lemma RebuiltNext(pairs: seq<(u32, u32)>, n: nat, hours: bool, delta: u32, size: u32)
    requires n < |pairs| && pairs[n] == (delta, size)
    ensures Total(pairs, n + 1) == Total(pairs, n) + delta
    ensures Rebuilt(pairs, n + 1, hours) ==
            Tracked(Rebuilt(pairs, n, hours), HourOf(Total(pairs, n + 1), hours), ToI32(size))
  {
  }

  method NextPair(s: Bytes, pos: nat) returns (found: bool, delta: u32, size: u32, next: nat)
    requires pos < |s|
    ensures pos < next <= |s|
    ensures Parse(s[pos..]) == if found then [(delta, size)] + Parse(s[next..]) else []
  {
    size := 0;
    delta, next := ReadAt(s, pos);
    found := next < |s|;
    if found {
      size, next := ReadAt(s, next);
    }
    NextParsed(s, pos);
  }

  function VarintAt(s: Bytes, pos: nat): (r: (u32, nat))
    requires pos < |s|
    ensures pos < r.1 <= |s|
  {
    var (value, used) := ReadGroups(s[pos..], 0, 0);
    (value, pos + used)
  }

  method ReadAt(s: Bytes, pos: nat) returns (value: u32, next: nat)
    requires pos < |s|
    ensures (value, next) == VarintAt(s, pos)
  {
    var used;
    value, used := ReadVarint(s[pos..]);
    next := pos + used;
  }

  lemma NextParsed(s: Bytes, pos: nat)
    requires pos < |s|
    ensures var (delta, mid) := VarintAt(s, pos);
            Parse(s[pos..]) == if mid == |s| then [] else [(delta, VarintAt(s, mid).0)] + Parse(s[VarintAt(s, mid).1..])
  {
    var (delta, mid) := VarintAt(s, pos);
    if mid < |s| {
      var (size, next) := VarintAt(s, mid);
      ParseAt(s, pos, delta, mid - pos, size, next - mid);
    }
  }

  // ----- round trip -----------------------------------------------------------------------------------------

  /** What tracking keeps: nothing at hour zero, sizes in 32 bits. */
  predicate Histogram(bins: Bins) {
    0 !in bins && forall h :: h in bins ==> IsI32(bins[h].size)
  }

  lemma TrackedKeepsHistogram(bins: Bins, hour: nat, size: int)
    requires Histogram(bins) && IsI32(size)
    ensures Histogram(Tracked(bins, hour, size))
  {
  }

  /** The first `n` intervals between neighbours, counted from the epoch, fit in 32 bits. */
  predicate GapsFit(keys: seq<nat>, n: nat, hours: bool)
    requires n <= |keys|
  {
    n == 0 ||
    (GapsFit(keys, n - 1, hours) && Stored(keys[n - 1], hours) - Previous(keys, n - 1, hours) < U32_SIZE)
  }

  /** Bucket `i` comes after the one before it, and lies on a day boundary when stored in days. */
  predicate AlignedAt(keys: seq<nat>, hours: bool, i: nat) {
    i < |keys| && Previous(keys, i, hours) < Stored(keys[i], hours) && keys[i] == HourOf(Stored(keys[i], hours), hours)
  }

  predicate Aligned(keys: seq<nat>, hours: bool) {
    forall i :: 0 <= i < |keys| ==> AlignedAt(keys, hours, i)
  }

  lemma Narrowed(a: nat, b: nat)
    requires a >= b
    ensures ToU32(ToU32(a) - ToU32(b)) <= a - b
    ensures ToU32(ToU32(a) - ToU32(b)) == a - b <==> a - b < U32_SIZE
  {
  }

  predicate WrittenAt(pairs: seq<(u32, u32)>, keys: seq<nat>, bins: Bins, hours: bool, i: nat) {
    i < |pairs| && i < |keys| && keys[i] in bins && pairs[i] == Delta(keys, bins, hours, i)
  }

  /** The pairs the writer makes of the buckets at `keys`. */
  predicate Written(pairs: seq<(u32, u32)>, keys: seq<nat>, bins: Bins, hours: bool) {
    |pairs| == |keys| && Within(keys, bins) && forall i :: 0 <= i < |keys| ==> WrittenAt(pairs, keys, bins, hours, i)
  }

  /** The recovered position never overshoots, and is exact exactly when every interval so far fits. */
  lemma {:induction false} TotalIsExact(pairs: seq<(u32, u32)>, keys: seq<nat>, bins: Bins, hours: bool, n: nat)
    requires Aligned(keys, hours) && Written(pairs, keys, bins, hours) && n <= |keys|
    ensures Total(pairs, n) <= Previous(keys, n, hours)
    ensures Total(pairs, n) == Previous(keys, n, hours) <==> GapsFit(keys, n, hours)
  {
    if n == 0 {
    } else {
      assert AlignedAt(keys, hours, n - 1) && WrittenAt(pairs, keys, bins, hours, n - 1);
      TotalIsExact(pairs, keys, bins, hours, n - 1);
      Narrowed(Stored(keys[n - 1], hours), Previous(keys, n - 1, hours));
    }
  }

  /** What a round trip preserves of the first `n` buckets: their sizes; each count becomes one. */
  function Reset(keys: seq<nat>, bins: Bins, n: nat): Bins
    requires n <= |keys| && Within(keys, bins)
  {
    if n == 0 then map[] else Reset(keys, bins, n - 1)[keys[n - 1] := Bin(1, bins[keys[n - 1]].size)]
  }

  lemma {:induction false} ResetKeys(keys: seq<nat>, bins: Bins, hours: bool, n: nat)
    requires n <= |keys| && Aligned(keys, hours) && Within(keys, bins)
    ensures forall h :: h in Reset(keys, bins, n) ==> Stored(h, hours) <= Previous(keys, n, hours)
  {
    if n == 0 {
    } else {
      assert AlignedAt(keys, hours, n - 1);
      ResetKeys(keys, bins, hours, n - 1);
    }
  }

  lemma I32RoundTrip(x: int)
    requires IsI32(x)
    ensures ToI32(ToU32(x)) == x
  {
  }

  lemma {:induction false} FittingIsRebuilt(pairs: seq<(u32, u32)>, keys: seq<nat>, bins: Bins, hours: bool, n: nat)
    requires Histogram(bins) && Aligned(keys, hours) && Written(pairs, keys, bins, hours)
    requires n <= |keys| && GapsFit(keys, n, hours)
    ensures Rebuilt(pairs, n, hours) == Reset(keys, bins, n)
  {
    if n == 0 {
    } else {
      var k := keys[n - 1];
      assert AlignedAt(keys, hours, n - 1) && WrittenAt(pairs, keys, bins, hours, n - 1);
      FittingIsRebuilt(pairs, keys, bins, hours, n - 1);
      TotalIsExact(pairs, keys, bins, hours, n);
      ResetKeys(keys, bins, hours, n - 1);
      I32RoundTrip(bins[k].size);
    }
  }

  /** Nothing is recovered beyond the running sum. */
  lemma {:induction false} RebuiltStopsAtTotal(pairs: seq<(u32, u32)>, n: nat, hours: bool)
    requires n <= |pairs|
    ensures forall h :: h in Rebuilt(pairs, n, hours) ==> h <= HourOf(Total(pairs, n), hours)
  {
    if n == 0 {
    } else {
      RebuiltStopsAtTotal(pairs, n - 1, hours);
    }
  }

  function Recounted(bins: Bins): Bins {
    map h | h in bins :: Bin(1, bins[h].size)
  }

  lemma {:induction false} ResetAt(keys: seq<nat>, bins: Bins, n: nat, i: nat)
    requires i < n <= |keys| && Within(keys, bins)
    ensures keys[i] in Reset(keys, bins, n)
  {
    if i < n - 1 {
      ResetAt(keys, bins, n - 1, i);
    }
  }

  lemma {:induction false} ResetSizes(keys: seq<nat>, bins: Bins, n: nat, h: nat)
    requires n <= |keys| && Within(keys, bins) && h in Reset(keys, bins, n)
    ensures h in bins && Reset(keys, bins, n)[h] == Bin(1, bins[h].size)
  {
    if h != keys[n - 1] {
      ResetSizes(keys, bins, n - 1, h);
    }
  }

  lemma ResetIsRecounted(bins: Bins)
    ensures var keys := Sorted(bins.Keys); Within(keys, bins) && Reset(keys, bins, |keys|) == Recounted(bins)
  {
    var keys := Sorted(bins.Keys);
    SortedMembers(bins.Keys);
    forall h | h in bins
      ensures h in Reset(keys, bins, |keys|)
    {
      assert h in keys;
      var i :| 0 <= i < |keys| && keys[i] == h;
      ResetAt(keys, bins, |keys|, i);
    }
    forall h | h in Reset(keys, bins, |keys|)
      ensures h in bins && Reset(keys, bins, |keys|)[h] == Bin(1, bins[h].size)
    {
      ResetSizes(keys, bins, |keys|, h);
    }
  }

  lemma SortedIsAligned(bins: Bins)
    requires Histogram(bins)
    ensures Aligned(Sorted(bins.Keys), InHours(bins.Keys))
  {
    var keys, hours := Sorted(bins.Keys), InHours(bins.Keys);
    SortedMembers(bins.Keys);
    SortedIsAscending(bins.Keys);
    forall i | 0 <= i < |keys|
      ensures AlignedAt(keys, hours, i)
    {
      assert keys[i] in bins.Keys && keys[i] != 0;
      if i > 0 {
        assert keys[i - 1] in bins.Keys && keys[i - 1] < keys[i];
      }
    }
  }

  lemma DeltasAreWritten(keys: seq<nat>, bins: Bins, hours: bool)
    requires Within(keys, bins)
    ensures Written(Deltas(keys, bins, hours, |keys|), keys, bins, hours)
  {
    forall i | 0 <= i < |keys|
      ensures WrittenAt(Deltas(keys, bins, hours, |keys|), keys, bins, hours, i)
    {
      DeltaAt(keys, bins, hours, |keys|, i);
    }
  }

  /** What the reader works on is what the writer wrote. */
  lemma DecodedIsRebuilt(bins: Bins)
    requires bins != map[]
    ensures var keys, hours := Sorted(bins.Keys), InHours(bins.Keys);
            Within(keys, bins) && Decoded(Encoded(bins)) == Rebuilt(Deltas(keys, bins, hours, |keys|), |keys|, hours)
  {
    var keys, hours := Sorted(bins.Keys), InHours(bins.Keys);
    SortedMembers(bins.Keys);
    var pairs := Deltas(keys, bins, hours, |keys|);
    ParseInvertsFlatten(pairs, 0);
    assert Encoded(bins)[1..] == Flatten(pairs, 0) && pairs[0..] == pairs;
  }

  predicate EveryGapFits(keys: seq<nat>, hours: bool) {
    GapsFit(keys, |keys|, hours)
  }

  /**
   Serializing and reading back gives the same buckets with the same sizes exactly when no
   interval between neighbouring buckets, counted from the epoch, reaches 2^32.
   */
  lemma RoundTripIff(bins: Bins)
    requires Histogram(bins)
    ensures Decoded(Encoded(bins)) == Recounted(bins) <==> EveryGapFits(Sorted(bins.Keys), InHours(bins.Keys))
  {
    if bins == map[] {
      assert bins.Keys == {};
    } else {
      var keys, hours := Sorted(bins.Keys), InHours(bins.Keys);
      DecodedIsRebuilt(bins);
      SortedIsAligned(bins);
      DeltasAreWritten(keys, bins, hours);
      ResetIsRecounted(bins);
      var pairs := Deltas(keys, bins, hours, |keys|);
      if EveryGapFits(keys, hours) {
        FittingIsRebuilt(pairs, keys, bins, hours, |keys|);
      } else {
        var last := keys[|keys| - 1];
        assert AlignedAt(keys, hours, |keys| - 1);
        TotalIsExact(pairs, keys, bins, hours, |keys|);
        RebuiltStopsAtTotal(pairs, |keys|, hours);
        assert last !in Rebuilt(pairs, |keys|, hours) && last in Recounted(bins);
      }
    }
  }

  /** A bucket at hour 2^32 does not come back. */
  lemma FarBucketIsLost(bins: Bins)
    requires bins == map[U32_SIZE := Bin(1, 1)]
    ensures Histogram(bins) && Decoded(Encoded(bins)) != Recounted(bins)
  {
    assert U32_SIZE in bins.Keys && InHours(bins.Keys);
    SortedMembers(bins.Keys);
    SortedIsAscending(bins.Keys);
    var keys := Sorted(bins.Keys);
    assert keys[0] in keys;
    assert GapsFit(keys, 0, true) && !GapsFit(keys, 1, true);
    RoundTripIff(bins);
  }

  lemma {:induction false} SmallHoursFit(keys: seq<nat>, hours: bool, n: nat)
    requires n <= |keys| && forall i :: 0 <= i < |keys| ==> keys[i] < U32_SIZE
    ensures GapsFit(keys, n, hours)
  {
    if n == 0 {
    } else {
      SmallHoursFit(keys, hours, n - 1);
    }
  }

  lemma RoundTripOfSmallHours(bins: Bins)
    requires Histogram(bins) && forall h :: h in bins ==> h < U32_SIZE
    ensures Decoded(Encoded(bins)) == Recounted(bins)
  {
    var keys := Sorted(bins.Keys);
    SortedMembers(bins.Keys);
    forall i | 0 <= i < |keys|
      ensures keys[i] < U32_SIZE
    {
      assert keys[i] in bins.Keys;
    }
    SmallHoursFit(keys, InHours(bins.Keys), |keys|);
    RoundTripIff(bins);
  }

  /** After a restart the recovered histogram predicts the same band as the live one, at every instant. */
  lemma RecoveredBandIsTheSame(bins: Bins, now: nat, ms: nat)
    requires Histogram(bins) && forall h :: h in bins ==> h < U32_SIZE
    ensures var recovered := Decoded(Encoded(bins));
            Lower(recovered, now) == Lower(bins, now) && Gradual(recovered, now, ms) == Gradual(bins, now, ms) &&
            Expired(recovered, now) == Expired(bins, now)
  {
    RoundTripOfSmallHours(bins);
    var recovered := Recounted(bins);
    assert recovered.Keys == bins.Keys;
    assert Passed(recovered, now) == Passed(bins, now) && Passing(recovered, now) == Passing(bins, now);
    assert ExpiredBy(recovered, now) == ExpiredBy(bins, now);
    SizeAgrees(recovered, bins, Passed(bins, now));
    SizeAgrees(recovered, bins, Passing(bins, now));
    SizeAgrees(recovered, bins, ExpiredBy(bins, now));
  }
}
