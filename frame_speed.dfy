/** The console's rolling frame-speed sampler: a fixed ring of N samples, a
    write cursor that starts at -1, a "filled" flag and the average returned
    by the last AddSample.  The average is taken BEFORE the new sample is
    stored, so each result lags one sample behind, and Clear resets the
    cursor without zeroing the ring.  Samples are C# doubles; the model uses
    `real`, so rounding is not modelled. */
module FrameSpeed {
  import opened Outcomes

  /** Capacity chosen by the parameterless constructor. */
  const DefaultSamples := 10

  /** Sum of a sequence, added left to right as the source's loops do. */
  function Sum(xs: seq<real>): real
    decreases |xs|
  {
    if xs == [] then 0.0 else Sum(xs[..|xs| - 1]) + xs[|xs| - 1]
  }

  lemma {:induction false} SumConcat(a: seq<real>, b: seq<real>)
    ensures Sum(a + b) == Sum(a) + Sum(b)
    decreases |b|
  {
    if b == [] {
      assert a + b == a;
    } else {
      var b' := b[..|b| - 1];
      assert (a + b)[..|a + b| - 1] == a + b';
      SumConcat(a, b');
    }
  }

  // ---------------------------------------------------------------------
  // The sampler's state as a value, and what each operation does to it.

  /** The ring of samples with its write cursor and "filled" flag. */
  datatype Ring = Ring(slots: seq<real>, cursor: int, filled: bool)

  /** The whole sampler: the ring and the average the last AddSample
      returned. */
  datatype Sampler = Sampler(ring: Ring, average: real)

  /** The invariant every constructed sampler keeps. */
  predicate WellFormed(r: Ring) {
    |r.slots| > 0 && -1 <= r.cursor < |r.slots| && (r.cursor == -1 ==> !r.filled)
  }

  /** n zeros: a new C# array of doubles. */
  function Zeros(n: nat): (r: seq<real>)
    ensures |r| == n && forall j :: 0 <= j < n ==> r[j] == 0.0
  {
    if n == 0 then [] else Zeros(n - 1) + [0.0]
  }

  /** A freshly constructed sampler: the array is zero-initialised. */
  function Fresh(n: int): (s: Sampler)
    requires n > 0
    ensures WellFormed(s.ring) && |s.ring.slots| == n
    ensures s.ring.cursor == -1 && !s.ring.filled && s.average == 0.0
    ensures s.ring.slots == Zeros(n)
  {
    Sampler(Ring(Zeros(n), -1, false), 0.0)
  }

  /** Clear: forget the cursor, the flag and the average; keep the slots. */
  function Cleared(s: Sampler): Sampler {
    Sampler(Ring(s.ring.slots, -1, false), 0.0)
  }

  /** Where AddSample moves the cursor: one on, wrapping to 0 at N. */
  function NextCursor(r: Ring): int {
    if r.cursor + 1 == |r.slots| then 0 else r.cursor + 1
  }

  /** The ring counts as filled once the cursor has wrapped. */
  predicate NextFilled(r: Ring) {
    r.filled || r.cursor + 1 == |r.slots|
  }

  /** The ring part of AddSample: move the cursor and store the sample
      under it. */
  function Advance(r: Ring, x: real): (r': Ring)
    requires WellFormed(r)
    ensures WellFormed(r') && |r'.slots| == |r.slots|
    ensures 0 <= r'.cursor < |r'.slots|
    ensures r'.cursor == 0 <==> r.cursor + 1 == |r.slots| || r.cursor == -1
    ensures r'.cursor != 0 ==> r'.cursor == r.cursor + 1
    ensures r.filled ==> r'.filled
    ensures r'.filled <==> r.filled || r.cursor + 1 == |r.slots|
  {
    Ring(r.slots[NextCursor(r) := x], NextCursor(r), NextFilled(r))
  }

  /** AddSample writes the sample under the new cursor and leaves every
      other slot as it was. */
  lemma AdvanceWritesOneSlot(r: Ring, x: real)
    requires WellFormed(r)
    ensures var r' := Advance(r, x);
            r'.slots[r'.cursor] == x
            && forall j :: 0 <= j < |r.slots| && j != r'.cursor ==> r'.slots[j] == r.slots[j]
  {
  }

  /** How many slots AddSample averages: up to the moved cursor until the
      ring is filled, all N after. */
  function Count(r: Ring): (k: int)
    requires WellFormed(r)
    ensures 0 < k <= |r.slots|
  {
    if NextFilled(r) then |r.slots| else NextCursor(r) + 1
  }

  /** The average AddSample returns: the first Count(r) slots as they are
      BEFORE the new sample is stored, over Count(r). */
  function AverageBefore(r: Ring): real
    requires WellFormed(r)
  {
    Sum(r.slots[..Count(r)]) / Count(r) as real
  }

  /** AddSample: the moved ring and the average it returns. */
  function Add(s: Sampler, x: real): (r: Sampler)
    requires WellFormed(s.ring)
    ensures WellFormed(r.ring) && |r.ring.slots| == |s.ring.slots|
  {
    Sampler(Advance(s.ring, x), AverageBefore(s.ring))
  }

  /** The sampler after the samples `ys` were added in order. */
  function Run(s: Sampler, ys: seq<real>): (r: Sampler)
    requires WellFormed(s.ring)
    ensures WellFormed(r.ring) && |r.ring.slots| == |s.ring.slots|
    decreases |ys|
  {
    if ys == [] then s else Add(Run(s, ys[..|ys| - 1]), ys[|ys| - 1])
  }

  lemma RunSnoc(s: Sampler, ys: seq<real>, y: real)
    requires WellFormed(s.ring)
    ensures Run(s, ys + [y]) == Add(Run(s, ys), y)
  {
    assert (ys + [y])[..|ys|] == ys;
  }

  /** The ring after the samples `ys` were added in order. */
  function RingAfter(r: Ring, ys: seq<real>): (r': Ring)
    requires WellFormed(r)
    ensures WellFormed(r') && |r'.slots| == |r.slots|
    decreases |ys|
  {
    if ys == [] then r else Advance(RingAfter(r, ys[..|ys| - 1]), ys[|ys| - 1])
  }

  /** Running AddSample moves the ring as RingAfter does, and the last
      average is taken from the ring before the last sample. */
  lemma {:induction false} RunRing(s: Sampler, ys: seq<real>)
    requires WellFormed(s.ring)
    ensures Run(s, ys).ring == RingAfter(s.ring, ys)
    ensures ys != [] ==> Run(s, ys).average == AverageBefore(RingAfter(s.ring, ys[..|ys| - 1]))
    decreases |ys|
  {
    if ys != [] {
      RunRing(s, ys[..|ys| - 1]);
    }
  }

  /** The averages AddSample returns, one per sample: each is taken from
      the ring the samples before it left. */
  function Averages(s: Sampler, ys: seq<real>): (r: seq<real>)
    requires WellFormed(s.ring)
    ensures |r| == |ys|
    decreases |ys|
  {
    if ys == [] then []
    else Averages(s, ys[..|ys| - 1]) + [AverageBefore(RingAfter(s.ring, ys[..|ys| - 1]))]
  }

  /** The (m+1)-th average is the one the (m+1)-th AddSample returns. */
  lemma AveragesReturned(s: Sampler, ys: seq<real>, m: int)
    requires WellFormed(s.ring) && 0 <= m < |ys|
    ensures Averages(s, ys)[m] == Run(s, ys[..m + 1]).average
  {
    var zs := ys[..m + 1];
    RunRing(s, zs);
    assert zs[..|zs| - 1] == ys[..m];
    AveragesAt(s, ys, m);
  }

  /** The (m+1)-th average is taken from the ring the first m samples
      left. */
  lemma {:induction false} AveragesAt(s: Sampler, ys: seq<real>, m: int)
    requires WellFormed(s.ring) && 0 <= m < |ys|
    ensures Averages(s, ys)[m] == AverageBefore(RingAfter(s.ring, ys[..m]))
    decreases |ys|
  {
    if m < |ys| - 1 {
      var ys' := ys[..|ys| - 1];
      AveragesAt(s, ys', m);
      assert ys'[..m] == ys[..m];
    }
  }

  // ---------------------------------------------------------------------
  // Where each sample lives in the ring.

  /** How many writes ago slot j was written, when the cursor is at c. */
  function Age(n: int, c: int, j: int): int {
    if j <= c then c - j else c + n - j
  }

  /** After the samples `ys` were added to a cleared ring whose slots held
      `init`, slot j holds the last sample that went there, or its stale
      value when none did; the cursor is at |ys|-1 until the ring fills,
      and the ring is filled once more than N samples were added. */
  ghost predicate Layout(r: Ring, init: seq<real>, ys: seq<real>) {
    var n := |init|;
    |r.slots| == n
    && -1 <= r.cursor < n
    && (|ys| > 0 ==> r.cursor >= 0)
    && (|ys| <= n ==> r.cursor == |ys| - 1)
    && (r.filled <==> |ys| > n)
    && forall j :: 0 <= j < n ==>
         r.slots[j] == (var k := |ys| - 1 - Age(n, r.cursor, j); if k >= 0 then ys[k] else init[j])
  }

  lemma {:induction false} RunLayout(r: Ring, ys: seq<real>)
    requires WellFormed(r) && r.cursor == -1 && !r.filled
    ensures Layout(RingAfter(r, ys), r.slots, ys)
    decreases |ys|
  {
    if ys != [] {
      var ys' := ys[..|ys| - 1];
      RunLayout(r, ys');
      LayoutStep(RingAfter(r, ys'), r.slots, ys', ys[|ys| - 1]);
      assert ys' + [ys[|ys| - 1]] == ys;
    }
  }

  /** One AddSample keeps the layout, with the new sample last. */
  lemma LayoutStep(p: Ring, init: seq<real>, ys: seq<real>, y: real)
    requires WellFormed(p) && Layout(p, init, ys)
    ensures Layout(Advance(p, y), init, ys + [y])
  {
    var n, r, zs := |init|, Advance(p, y), ys + [y];
    AdvanceWritesOneSlot(p, y);
    assert r.cursor == 0 ==> p.cursor == n - 1 || p.cursor == -1;
    assert |ys| < n ==> p.cursor + 1 < n;
    assert r.filled <==> |zs| > n;
    forall j | 0 <= j < n
      ensures r.slots[j] == (var k := |zs| - 1 - Age(n, r.cursor, j); if k >= 0 then zs[k] else init[j])
    {
      if j == r.cursor {
        assert Age(n, r.cursor, j) == 0;
      } else {
        assert Age(n, r.cursor, j) == Age(n, p.cursor, j) + 1;
        assert r.slots[j] == p.slots[j];
      }
    }
  }

  /** Before the ring fills, its first m+1 slots hold the m samples so far
      followed by the stale value of slot m. */
  lemma LayoutPrefix(p: Ring, init: seq<real>, ys: seq<real>)
    requires Layout(p, init, ys) && |ys| < |init|
    ensures p.slots[..|ys| + 1] == ys + [init[|ys|]]
  {
    var n, m := |init|, |ys|;
    forall j | 0 <= j <= m ensures p.slots[j] == (ys + [init[m]])[j] {
      if j < m { assert Age(n, p.cursor, j) == m - 1 - j; }
      else { assert Age(n, p.cursor, j) == n - 1 + m - j; }
    }
  }

  /** Once at least N samples were added, the ring is full and holds
      exactly the last N of them, so its sum is theirs. */
  lemma LayoutFull(p: Ring, init: seq<real>, ys: seq<real>)
    requires Layout(p, init, ys) && |ys| >= |init| > 0
    ensures NextFilled(p)
    ensures Sum(p.slots) == Sum(ys[|ys| - |init|..])
  {
    LayoutRotated(p, init, ys);
    RotationSum(ys, |init|, p.cursor);
  }

  /** Rotating the last n samples does not change their sum. */
  lemma RotationSum(ys: seq<real>, n: int, c: int)
    requires 0 <= c < n <= |ys|
    ensures var m := |ys|;
            Sum(ys[m - 1 - c..] + ys[m - n..m - 1 - c]) == Sum(ys[m - n..])
  {
    var m := |ys|;
    var older, newer := ys[m - n..m - 1 - c], ys[m - 1 - c..];
    SumConcat(newer, older);
    SumConcat(older, newer);
    assert older + newer == ys[m - n..];
  }

  /** A full ring holds the last N samples rotated: the newest c+1 from
      slot 0 up to the cursor c, then the older ones. */
  lemma LayoutRotated(p: Ring, init: seq<real>, ys: seq<real>)
    requires Layout(p, init, ys) && |ys| >= |init| > 0
    ensures 0 <= p.cursor < |init|
    ensures p.slots == ys[|ys| - 1 - p.cursor..] + ys[|ys| - |init|..|ys| - 1 - p.cursor]
  {
    var n, m, c := |init|, |ys|, p.cursor;
    var older, newer := ys[m - n..m - 1 - c], ys[m - 1 - c..];
    forall j | 0 <= j < n ensures p.slots[j] == (newer + older)[j] {
      if j <= c { assert Age(n, c, j) == c - j; }
      else { assert Age(n, c, j) == c + n - j; }
    }
    assert p.slots == newer + older;
  }

  // ---------------------------------------------------------------------
  // The averages.

  /** The average the next AddSample returns after the m samples `ys` went
      into a cleared ring (or a fresh one, whose slots are all zero): while
      the ring is not yet filled, those m samples plus the stale value of
      slot m, divided by m+1; once it is filled, the last N of them divided
      by N.  The new sample itself is never part of the average it
      returns. */
  lemma AverageLagsOneSample(r: Ring, ys: seq<real>)
    requires WellFormed(r) && r.cursor == -1 && !r.filled
    ensures var n, m := |r.slots|, |ys|;
            AverageBefore(RingAfter(r, ys)) ==
              if m < n then (Sum(ys) + r.slots[m]) / (m + 1) as real
              else Sum(ys[m - n..]) / n as real
  {
    if |ys| < |r.slots| {
      AverageBeforeFull(r, ys);
    } else {
      AverageOnceFull(r, ys, |r.slots|);
    }
  }

  lemma AverageBeforeFull(r: Ring, ys: seq<real>)
    requires WellFormed(r) && r.cursor == -1 && !r.filled && |ys| < |r.slots|
    ensures AverageBefore(RingAfter(r, ys)) == (Sum(ys) + r.slots[|ys|]) / (|ys| + 1) as real
  {
    var p := RingAfter(r, ys);
    RunLayout(r, ys);
    LayoutPrefix(p, r.slots, ys);
    AverageWhileFilling(p, ys, r.slots[|ys|]);
  }

  lemma AverageOnceFull(r: Ring, ys: seq<real>, n: int)
    requires WellFormed(r) && r.cursor == -1 && !r.filled && |r.slots| == n <= |ys|
    ensures AverageBefore(RingAfter(r, ys)) == Sum(ys[|ys| - n..]) / n as real
  {
    var p := RingAfter(r, ys);
    RunLayout(r, ys);
    LayoutFull(p, r.slots, ys);
    AverageWhenFilled(p, Sum(ys[|ys| - n..]));
  }

  /** Before the ring fills, AddSample averages the slots up to the moved
      cursor: the samples so far and the stale value under the cursor. */
  lemma AverageWhileFilling(p: Ring, ys: seq<real>, stale: real)
    requires WellFormed(p) && !p.filled && p.cursor == |ys| - 1 && |ys| < |p.slots|
    requires p.slots[..|ys| + 1] == ys + [stale]
    ensures AverageBefore(p) == (Sum(ys) + stale) / (|ys| + 1) as real
  {
    assert Count(p) == |ys| + 1;
    assert (ys + [stale])[..|ys + [stale]| - 1] == ys;
  }

  /** Once the ring is (or becomes) full, AddSample averages all N slots. */
  lemma AverageWhenFilled(p: Ring, total: real)
    requires WellFormed(p) && NextFilled(p) && Sum(p.slots) == total
    ensures AverageBefore(p) == total / |p.slots| as real
  {
    assert p.slots[..Count(p)] == p.slots;
  }

  /** For a freshly constructed sampler the (m+1)-th average is the sum of
      the previous samples over m+1 until the ring fills, then the mean of
      the N samples before the new one. */
  lemma FreshAverages(n: int, ys: seq<real>, m: int)
    requires n > 0 && 0 <= m < |ys|
    ensures Averages(Fresh(n), ys)[m] ==
              if m < n then Sum(ys[..m]) / (m + 1) as real
              else Sum(ys[m - n..m]) / n as real
  {
    AveragesAt(Fresh(n), ys, m);
    if m < n {
      AverageFreshFilling(n, ys, m);
    } else {
      AverageFreshFilled(n, ys, m);
    }
  }

  /** The average after the first m < n samples of ys went into a fresh
      ring. */
  lemma AverageFreshFilling(n: int, ys: seq<real>, m: int)
    requires 0 <= m < n && m <= |ys|
    ensures AverageBefore(RingAfter(Fresh(n).ring, ys[..m])) == Sum(ys[..m]) / (m + 1) as real
  {
    var r := Fresh(n).ring;
    assert r.slots[m] == 0.0;
    AverageBeforeFull(r, ys[..m]);
  }

  /** The average after the first m >= n samples of ys went into a fresh
      ring. */
  lemma AverageFreshFilled(n: int, ys: seq<real>, m: int)
    requires 0 < n <= m <= |ys|
    ensures AverageBefore(RingAfter(Fresh(n).ring, ys[..m])) == Sum(ys[m - n..m]) / n as real
  {
    var zs := ys[..m];
    assert zs[|zs| - n..] == ys[m - n..m];
    AverageOnceFull(Fresh(n).ring, zs, n);
  }

  /** The source's own example: capacity 3 fed 1, 2, 3, 4 returns
      0, 0.5, 1, 2. */
  lemma WorkedExample()
    ensures Averages(Fresh(3), [1.0, 2.0, 3.0, 4.0]) == [0.0, 0.5, 1.0, 2.0]
  {
    var ys := [1.0, 2.0, 3.0, 4.0];
    var a := Averages(Fresh(3), ys);
    assert ys[..0] == [] && ys[..1] == [1.0] && ys[..2] == [1.0, 2.0] && ys[0..3] == [1.0, 2.0, 3.0];
    PrefixSums();
    AveragesAt(Fresh(3), ys, 0);
    AverageFreshFilling(3, ys, 0);
    AveragesAt(Fresh(3), ys, 1);
    AverageFreshFilling(3, ys, 1);
    AveragesAt(Fresh(3), ys, 2);
    AverageFreshFilling(3, ys, 2);
    AveragesAt(Fresh(3), ys, 3);
    AverageFreshFilled(3, ys, 3);
    assert a[0] == 0.0 && a[1] == 0.5 && a[2] == 1.0 && a[3] == 2.0;
  }

  lemma PrefixSums()
    ensures Sum([]) == 0.0 && Sum([1.0]) == 1.0
    ensures Sum([1.0, 2.0]) == 3.0 && Sum([1.0, 2.0, 3.0]) == 6.0
  {
    assert [1.0][..0] == [];
    assert [1.0, 2.0][..1] == [1.0];
    assert [1.0, 2.0, 3.0][..2] == [1.0, 2.0];
  }

  /** Clear does not reset the ring: a sampler of capacity 2 fed 4, 4,
      cleared and fed 1 returns 4, where a fresh one returns 0. */
  lemma ClearKeepsStaleSamples()
    ensures Averages(Cleared(Run(Fresh(2), [4.0, 4.0])), [1.0]) == [4.0]
    ensures Averages(Fresh(2), [1.0]) == [0.0]
  {
    ClearedAverage();
    FreshAverage();
  }

  lemma ClearedAverage()
    ensures Averages(Cleared(Run(Fresh(2), [4.0, 4.0])), [1.0]) == [4.0]
  {
    var s := Sampler(Ring([4.0, 4.0], -1, false), 0.0);
    ClearedAfterTwoFours();
    FirstAverage(s, 1.0);
  }

  lemma FreshAverage()
    ensures Averages(Fresh(2), [1.0]) == [0.0]
  {
    FirstAverage(Fresh(2), 1.0);
    assert Fresh(2).ring.slots[0] == 0.0;
  }

  lemma ClearedAfterTwoFours()
    ensures Cleared(Run(Fresh(2), [4.0, 4.0])) == Sampler(Ring([4.0, 4.0], -1, false), 0.0)
  {
    RunRing(Fresh(2), [4.0, 4.0]);
    assert [4.0, 4.0][..1] == [4.0];
    assert [4.0][..0] == [];
    assert Fresh(2).ring.slots == [0.0, 0.0];
  }

  /** The first AddSample after a Clear returns the stale value of slot 0. */
  lemma FirstAverage(s: Sampler, y: real)
    requires WellFormed(s.ring) && s.ring.cursor == -1 && !s.ring.filled && |s.ring.slots| > 1
    ensures Averages(s, [y]) == [s.ring.slots[0]]
  {
    assert [y][..0] == [];
    AverageBeforeFull(s.ring, []);
    assert AverageBefore(s.ring) == s.ring.slots[0] by {
      assert RingAfter(s.ring, []) == s.ring && Sum([]) == 0.0;
    }
    assert Averages(s, [y]) == Averages(s, []) + [AverageBefore(RingAfter(s.ring, []))];
  }

  // ---------------------------------------------------------------------
  // The sampler object.

  datatype ArgumentOutOfRange = ArgumentOutOfRange(paramName: string)

  class FrameSpeedCalculator {
    var filled: bool
    var currentSample: int
    const samples: array<real>
    var currentAverage: real

    /** The sampler's state as a value. */
    function State(): Sampler
      reads this, samples
    {
      Sampler(Ring(samples[..], currentSample, filled), currentAverage)
    }

    predicate Valid()
      reads this, samples
    {
      WellFormed(State().ring)
    }

    /** The constructor taking a capacity, once the capacity is known to be
        positive; `Create` performs the check that throws. */
    constructor (numberOfSamples: int)
      requires numberOfSamples > 0
      ensures Valid() && fresh(samples)
      ensures State() == Fresh(numberOfSamples)
    {
      samples := new real[numberOfSamples](_ => 0.0);
      new;
      Clear();
    }

    /** The parameterless constructor: capacity 10. */
    constructor Default()
      ensures Valid() && fresh(samples)
      ensures State() == Fresh(DefaultSamples)
    {
      samples := new real[DefaultSamples](_ => 0.0);
      new;
      Clear();
    }

    /** `new FrameSpeedCalculator(numberOfSamples)`: throws
        ArgumentOutOfRangeException for a capacity that is not positive. */
    static method Create(numberOfSamples: int) returns (r: Result<FrameSpeedCalculator, ArgumentOutOfRange>)
      ensures r.Err? <==> numberOfSamples <= 0
      ensures r.Err? ==> r.error == ArgumentOutOfRange("numberOfSamples")
      ensures r.Ok? ==> fresh(r.value) && fresh(r.value.samples) && r.value.Valid()
      ensures r.Ok? ==> r.value.State() == Fresh(numberOfSamples)
    {
      if numberOfSamples <= 0 {
        return Err(ArgumentOutOfRange("numberOfSamples"));
      }
      var c := new FrameSpeedCalculator(numberOfSamples);
      r := Ok(c);
    }

    method Clear()
      modifies this
      ensures State() == Cleared(old(State()))
      ensures samples.Length > 0 ==> Valid()
    {
      filled := false;
      currentSample := -1;
      currentAverage := 0.0;
    }

    method AddSample(sample: real) returns (average: real)
      requires Valid()
      modifies this, samples
      ensures Valid()
      ensures State() == Add(old(State()), sample)
      ensures average == currentAverage
    {
      currentSample := currentSample + 1;
      if currentSample == samples.Length {
        currentSample := 0;
        filled := true;
      }

      if !filled {
        var total := 0.0;
        for sampleNum := 0 to currentSample + 1
          invariant total == Sum(samples[..sampleNum])
        {
          assert samples[..sampleNum + 1][..sampleNum] == samples[..sampleNum];
          total := total + samples[sampleNum];
        }
        currentAverage := total / (currentSample + 1) as real;
        samples[currentSample] := sample;
        return currentAverage;
      }

      var total2 := 0.0;
      for sampleNum := 0 to samples.Length
        invariant total2 == Sum(samples[..sampleNum])
      {
        assert samples[..sampleNum + 1][..sampleNum] == samples[..sampleNum];
        total2 := total2 + samples[sampleNum];
      }
      assert samples[..samples.Length] == samples[..];
      samples[currentSample] := sample;
      currentAverage := total2 / samples.Length as real;
      average := currentAverage;
    }
  }
}
