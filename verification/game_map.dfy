/** Game.parseOsu: the older copy of the `.osu` reader that lives inside
    Game, and what it derives from the sliders it reads: one scheduled
    bullet spawn per control point after the first, sorted by offset, and
    one laser per slider.

    Its header check differs from OsuParser.parse in one place: the
    `[TimingPoints]` header is not consumed.  The line falls through into
    the timing branch, which sees a line starting with `[` and closes the
    section at once, so the beat length is never read. */
module GameMap {
  import opened JavaLang
  import opened JavaNumbers
  import opened Geometry
  import opened OsuFormat
  import SliderLaser

  /** One line of Game.parseOsu's read loop. */
  function Step(st: ParseState, line: string): (r: Result<ParseState>)
    ensures r.Ok? && !st.inTiming ==> !r.value.inTiming && r.value.beatLength == st.beatLength
    ensures r.Ok? && OneSection(st) ==> OneSection(r.value)
  {
    var header := !st.inHits && !st.inTiming;
    if header && line == "[Difficulty]" then Ok(st.(inDiff := true))
    else
      if header && line == "[TimingPoints]" then
        assert StartsWith(line, "[") by { assert line[..1] == "["; }
        SectionStep(st.(inTiming := true, inDiff := false), line)
      else SectionStep(st, line)
  }

  /** How the read loop ended: the fields as far as they were filled, and
      the exception that escaped, if one did.  Game's fields are written in
      place, so what was read before the exception stays. */
  datatype Outcome = Outcome(state: ParseState, failure: Option<Exception>)

  function Run(st: ParseState, lines: seq<string>): (r: Outcome)
    ensures !st.inTiming ==> r.state.beatLength == st.beatLength
    ensures r.failure.None? ==> |lines| == 0 || Step(st, lines[0]).Ok?
    decreases |lines|
  {
    if |lines| == 0 then Outcome(st, None)
    else
      match Step(st, lines[0])
      case Thrown(e) => Outcome(st, Some(e))
      case Ok(next) => Run(next, lines[1..])
  }

  /** Reading a file in two parts: the second part starts where the first
      left off, and an exception in the first skips the second, so the
      loop succeeds only when every line was read without one. */
  lemma {:induction false} RunAppend(st: ParseState, a: seq<string>, b: seq<string>)
    ensures Run(st, a + b) == if Run(st, a).failure.Some? then Run(st, a) else Run(Run(st, a).state, b)
    decreases |a|
  {
    if |a| == 0 {
      assert a + b == b;
    } else {
      assert (a + b)[0] == a[0] && (a + b)[1..] == a[1..] + b;
      match Step(st, a[0]) {
        case Thrown(e) =>
        case Ok(next) => RunAppend(next, a[1..], b);
      }
    }
  }

  /** Inside `[HitObjects]` a run of blank and well-formed hit-object lines
      appends their circles and their sliders, each list in file order. */
  lemma {:induction false} HitsInOrder(st: ParseState, lines: seq<string>)
    requires st.inHits && OneSection(st)
    requires forall i :: 0 <= i < |lines| ==> HitOrBlank(lines[i])
    ensures Run(st, lines) == Outcome(st.(hitObjects := st.hitObjects + Circles(lines),
                                          tempSliders := st.tempSliders + Sliders(lines)), None)
    decreases |lines|
  {
    if |lines| == 0 {
      assert st.hitObjects + [] == st.hitObjects && st.tempSliders + [] == st.tempSliders;
    } else {
      var next := st.(hitObjects := st.hitObjects + CircleOf(lines[0]),
                      tempSliders := st.tempSliders + SliderOf(lines[0]));
      assert Step(st, lines[0]) == HitStep(st, lines[0]) == Ok(next);
      var rest := lines[1..];
      assert forall i :: 0 <= i < |rest| ==> HitOrBlank(rest[i]) by {
        forall i | 0 <= i < |rest| ensures HitOrBlank(rest[i]) {
          assert rest[i] == lines[i + 1];
        }
      }
      HitsInOrder(next, rest);
      HitsAppend(st, lines);
    }
  }

  /** In this copy the beat length is never read from the file: it stays
      at 500 whatever the lines hold, and even when the loop is cut short. */
  lemma {:induction false} BeatLengthStaysDefault(lines: seq<string>)
    ensures Run(Start, lines).state.beatLength == 500.0
  {
  }

  /** The `[TimingPoints]` header itself leaves the timing section closed:
      every later timing line is read outside it. */
  lemma TimingHeaderFallsThrough(st: ParseState)
    requires !st.inHits && !st.inTiming
    ensures Step(st, "[TimingPoints]") == Ok(st.(inDiff := false))
  {
    assert StartsWith("[TimingPoints]", "[");
  }

  /** A bullet spawn fired `offset` ms into the map from a control point. */
  datatype ScheduledSpawn = ScheduledSpawn(offset: int, x: int, y: int)

  /** The duration of one pass: `pixelLen / (sliderMultiplier * 100) * beatLength`. */
  function SingleDuration(ts: TempSlider, sliderMultiplier: real, beatLength: real): (d: Dbl)
    ensures sliderMultiplier != 0.0 ==> d == Finite(ts.pixelLen / (sliderMultiplier * 100.0) * beatLength)
  {
    Times(Quotient(ts.pixelLen, sliderMultiplier * 100.0), beatLength)
  }

  /** `(long)((k / (double)(n - 1)) * singleDur)`. */
  function SpawnOffset(k: int, n: int, single: Dbl): (offset: int)
    requires 1 <= k < n
    ensures LONG_MIN <= offset <= LONG_MAX
  {
    LongOfDbl(Times(single, k as real / (n - 1) as real))
  }

  /** The spawns of one slider: one for each control point after the first,
      in order, at that point. */
  function SliderSpawns(ts: TempSlider, sliderMultiplier: real, beatLength: real): (r: seq<ScheduledSpawn>)
    ensures |r| == if |ts.ctrlPts| <= 1 then 0 else |ts.ctrlPts| - 1
    ensures forall i :: 0 <= i < |r| ==>
              r[i].x == ts.ctrlPts[i + 1].x && r[i].y == ts.ctrlPts[i + 1].y
              && r[i].offset == SpawnOffset(i + 1, |ts.ctrlPts|, SingleDuration(ts, sliderMultiplier, beatLength))
  {
    var n := |ts.ctrlPts|;
    var single := SingleDuration(ts, sliderMultiplier, beatLength);
    if n <= 1 then []
    else seq(n - 1, i requires 0 <= i < n - 1 =>
               ScheduledSpawn(SpawnOffset(i + 1, n, single), ts.ctrlPts[i + 1].x, ts.ctrlPts[i + 1].y))
  }

  /** A later control point never fires earlier, when the pass duration
      is non-negative (including +Infinity, and the NaN that 0/0 gives). */
  lemma SpawnOffsetMonotone(k1: int, k2: int, n: int, single: Dbl)
    requires 1 <= k1 <= k2 < n
    requires (single.Finite? && single.v >= 0.0) || single == Infinity(false) || single == NaN
    ensures SpawnOffset(k1, n, single) <= SpawnOffset(k2, n, single)
  {
    Fraction(k1, k2, n);
    ScaledMonotone(single, k1 as real / (n - 1) as real, k2 as real / (n - 1) as real);
  }

  /** Scaling a non-negative double by a larger positive factor never
      gives a smaller long. */
  lemma ScaledMonotone(d: Dbl, f1: real, f2: real)
    requires 0.0 < f1 <= f2
    requires (d.Finite? && d.v >= 0.0) || d == Infinity(false) || d == NaN
    ensures LongOfDbl(Times(d, f1)) <= LongOfDbl(Times(d, f2))
  {
    match d {
      case Finite(v) =>
        var a, b := v * f1, v * f2;
        assert a <= b by {
          ScaleMonotone(v, f1, f2);
        }
        LongOfMonotone(a, b);
        assert Times(d, f1) == Finite(a) && Times(d, f2) == Finite(b);
      case Infinity(_) =>
        assert Times(d, f1) == d == Times(d, f2);
      case NaN =>
        assert Times(d, f1) == d == Times(d, f2);
    }
  }

  lemma Fraction(k1: int, k2: int, n: int)
    requires 1 <= k1 <= k2 < n
    ensures 0.0 < k1 as real / (n - 1) as real <= k2 as real / (n - 1) as real <= 1.0
  {
    var d := (n - 1) as real;
    SliderLaser.DivideMonotone(k1 as real, k2 as real, d);
    SliderLaser.DivideMonotone(k2 as real, d, d);
    assert d / d == 1.0;
  }

  /** For a finite pass duration within long range, control point k fires
      between 0 and the truncated duration, and the last one exactly at it. */
  lemma SpawnOffsetBounds(k: int, n: int, single: Dbl)
    requires 1 <= k < n
    requires single.Finite? && 0.0 <= single.v <= LONG_MAX as real
    ensures 0 <= SpawnOffset(k, n, single) <= Truncate(single.v)
    ensures k == n - 1 ==> SpawnOffset(k, n, single) == Truncate(single.v)
  {
    var f := k as real / (n - 1) as real;
    Fraction(k, k, n);
    assert k == n - 1 ==> f == 1.0;
    assert Times(single, f) == Finite(single.v * f);
    ScaledWithin(single.v, f);
  }

  /** A fraction of a non-negative long-range duration, cast to long, lies
      between 0 and the truncated duration. */
  lemma ScaledWithin(v: real, f: real)
    requires 0.0 <= v <= LONG_MAX as real && 0.0 < f <= 1.0
    ensures 0 <= LongOf(v * f) <= Truncate(v)
    ensures f == 1.0 ==> LongOf(v * f) == Truncate(v)
  {
    ScaleDown(v, f);
    TruncateMonotone(0.0, v * f);
    TruncateMonotone(v * f, v);
  }

  lemma ScaleMonotone(v: real, f1: real, f2: real)
    requires 0.0 <= v && f1 <= f2
    ensures v * f1 <= v * f2
  {
    assert v * f2 - v * f1 == v * (f2 - f1);
  }

  lemma ScaleDown(v: real, f: real)
    requires 0.0 <= v && 0.0 <= f <= 1.0
    ensures 0.0 <= v * f <= v
  {
    assert v - v * f == v * (1.0 - f);
  }

  /** Along one slider the offsets never decrease, for a non-negative pass
      duration. */
  lemma OffsetsNonDecreasing(ts: TempSlider, sliderMultiplier: real, beatLength: real, i: int, j: int)
    requires var d := SingleDuration(ts, sliderMultiplier, beatLength);
             (d.Finite? && d.v >= 0.0) || d == Infinity(false) || d == NaN
    requires 0 <= i <= j < |SliderSpawns(ts, sliderMultiplier, beatLength)|
    ensures SliderSpawns(ts, sliderMultiplier, beatLength)[i].offset
            <= SliderSpawns(ts, sliderMultiplier, beatLength)[j].offset
  {
    SpawnOffsetMonotone(i + 1, j + 1, |ts.ctrlPts|, SingleDuration(ts, sliderMultiplier, beatLength));
  }

  /** For a finite, non-negative pass duration the offsets lie within one
      pass measured from 0, not from the slider's start time: the last
      control point fires at the truncated pass duration. */
  lemma OffsetsWithinPass(ts: TempSlider, sliderMultiplier: real, beatLength: real, i: int)
    requires var d := SingleDuration(ts, sliderMultiplier, beatLength);
             d.Finite? && 0.0 <= d.v <= LONG_MAX as real
    requires 0 <= i < |SliderSpawns(ts, sliderMultiplier, beatLength)|
    ensures var d := SingleDuration(ts, sliderMultiplier, beatLength);
            && 0 <= SliderSpawns(ts, sliderMultiplier, beatLength)[i].offset <= Truncate(d.v)
            && (i == |ts.ctrlPts| - 2 ==> SliderSpawns(ts, sliderMultiplier, beatLength)[i].offset == Truncate(d.v))
  {
    SpawnOffsetBounds(i + 1, |ts.ctrlPts|, SingleDuration(ts, sliderMultiplier, beatLength));
  }

  /** The slider's start time plays no part in its spawns. */
  lemma SpawnsIgnoreStartTime(ts: TempSlider, sliderMultiplier: real, beatLength: real, time: int)
    ensures SliderSpawns(ts.(time := time), sliderMultiplier, beatLength)
            == SliderSpawns(ts, sliderMultiplier, beatLength)
  {
  }

  /** The spawns of every slider, slider after slider, before sorting. */
  function AllSpawns(sliders: seq<TempSlider>, sliderMultiplier: real, beatLength: real): (r: seq<ScheduledSpawn>)
    ensures |r| == SpawnCount(sliders)
    decreases |sliders|
  {
    if |sliders| == 0 then []
    else SliderSpawns(sliders[0], sliderMultiplier, beatLength)
         + AllSpawns(sliders[1..], sliderMultiplier, beatLength)
  }

  /** One spawn per control point after the first, over all sliders. */
  function SpawnCount(sliders: seq<TempSlider>): nat
    decreases |sliders|
  {
    if |sliders| == 0 then 0
    else (if |sliders[0].ctrlPts| <= 1 then 0 else |sliders[0].ctrlPts| - 1) + SpawnCount(sliders[1..])
  }

  /** The laser of each slider, in order: opaque from the slider's start,
      visible `approachTime` earlier, lasting `repeats` passes. */
  function Lasers(sliders: seq<TempSlider>, approachTime: real, sliderMultiplier: real, beatLength: real)
    : (r: seq<SliderLaser.Laser>)
    ensures |r| == |sliders|
    ensures forall i :: 0 <= i < |r| ==>
              r[i] == SliderLaser.New(sliders[i].ctrlPts, sliders[i].time, approachTime,
                                      Times(SingleDuration(sliders[i], sliderMultiplier, beatLength),
                                            sliders[i].repeats as real))
  {
    seq(|sliders|, i requires 0 <= i < |sliders| =>
          SliderLaser.New(sliders[i].ctrlPts, sliders[i].time, approachTime,
                          Times(SingleDuration(sliders[i], sliderMultiplier, beatLength),
                                sliders[i].repeats as real)))
  }

  predicate Sorted(s: seq<ScheduledSpawn>) {
    forall i, j :: 0 <= i < j < |s| ==> s[i].offset <= s[j].offset
  }

  /** The spawns at one offset, in their order. */
  function AtOffset(s: seq<ScheduledSpawn>, offset: int): (r: seq<ScheduledSpawn>)
    ensures |r| <= |s|
    decreases |s|
  {
    if |s| == 0 then []
    else (if s[0].offset == offset then [s[0]] else []) + AtOffset(s[1..], offset)
  }

  /** No spawn of `s` fires before `bound`. */
  predicate NotBefore(s: seq<ScheduledSpawn>, bound: int) {
    forall j :: 0 <= j < |s| ==> bound <= s[j].offset
  }

  /** Insert `x` in front of the first spawn with an offset at least its own. */
  function Insert(x: ScheduledSpawn, t: seq<ScheduledSpawn>): (r: seq<ScheduledSpawn>)
    requires Sorted(t)
    ensures Sorted(r)
    ensures multiset(r) == multiset(t) + multiset{x}
    ensures forall bound :: NotBefore(t, bound) && bound <= x.offset ==> NotBefore(r, bound)
    decreases |t|
  {
    if |t| == 0 || x.offset <= t[0].offset then
      InsertFront(x, t);
      [x] + t
    else
      var rest := Insert(x, t[1..]);
      InsertBehind(x, t, rest);
      [t[0]] + rest
  }

  /** The first case of Insert: `x` goes in front. */
  lemma InsertFront(x: ScheduledSpawn, t: seq<ScheduledSpawn>)
    requires Sorted(t) && (|t| == 0 || x.offset <= t[0].offset)
    ensures Sorted([x] + t)
    ensures multiset([x] + t) == multiset(t) + multiset{x}
    ensures forall bound :: NotBefore(t, bound) && bound <= x.offset ==> NotBefore([x] + t, bound)
  {
    var r := [x] + t;
    assert forall j :: 1 <= j < |r| ==> r[j] == t[j - 1];
  }

  /** The second case of Insert: the head stays in front of the rest with
      `x` inserted. */
  lemma InsertBehind(x: ScheduledSpawn, t: seq<ScheduledSpawn>, rest: seq<ScheduledSpawn>)
    requires Sorted(t) && |t| > 0 && t[0].offset < x.offset
    requires Sorted(rest) && multiset(rest) == multiset(t[1..]) + multiset{x}
    requires forall bound :: NotBefore(t[1..], bound) && bound <= x.offset ==> NotBefore(rest, bound)
    ensures Sorted([t[0]] + rest)
    ensures multiset([t[0]] + rest) == multiset(t) + multiset{x}
    ensures forall bound :: NotBefore(t, bound) && bound <= x.offset ==> NotBefore([t[0]] + rest, bound)
  {
    var r := [t[0]] + rest;
    assert NotBefore(t[1..], t[0].offset);
    assert NotBefore(rest, t[0].offset);
    assert forall j :: 1 <= j < |r| ==> r[j] == rest[j - 1];
    assert t == [t[0]] + t[1..];
    forall bound | NotBefore(t, bound) && bound <= x.offset
      ensures NotBefore(r, bound)
    {
      assert NotBefore(t[1..], bound);
    }
  }

  /** Inserting keeps the spawns at each offset in order, `x` first among
      its equals. */
  lemma {:induction false} InsertAtOffset(x: ScheduledSpawn, t: seq<ScheduledSpawn>, o: int)
    requires Sorted(t)
    ensures AtOffset(Insert(x, t), o) == (if x.offset == o then [x] else []) + AtOffset(t, o)
    decreases |t|
  {
    var r := Insert(x, t);
    if |t| == 0 || x.offset <= t[0].offset {
      assert r == [x] + t && r[1..] == t;
    } else {
      var rest := Insert(x, t[1..]);
      InsertAtOffset(x, t[1..], o);
      assert r == [t[0]] + rest && r[1..] == rest;
      var mx: seq<ScheduledSpawn> := if x.offset == o then [x] else [];
      var mt: seq<ScheduledSpawn> := if t[0].offset == o then [t[0]] else [];
      assert AtOffset(r, o) == mt + AtOffset(rest, o);
      assert AtOffset(rest, o) == mx + AtOffset(t[1..], o);
      assert AtOffset(t, o) == mt + AtOffset(t[1..], o);
      assert mx == [] || mt == [];
      assert mt + (mx + AtOffset(t[1..], o)) == mx + (mt + AtOffset(t[1..], o));
    }
  }

  /** `scheduledSpawns.sort(comparingLong(offset))`: List.sort is stable,
      so spawns with equal offsets keep the order they were derived in. */
  function SortByOffset(s: seq<ScheduledSpawn>): (r: seq<ScheduledSpawn>)
    ensures Sorted(r)
    ensures multiset(r) == multiset(s)
    decreases |s|
  {
    if |s| == 0 then []
    else
      var r := Insert(s[0], SortByOffset(s[1..]));
      assert s == [s[0]] + s[1..];
      r
  }

  /** The sort is stable: the spawns at each offset keep their order. */
  lemma {:induction false} SortStable(s: seq<ScheduledSpawn>, o: int)
    ensures AtOffset(SortByOffset(s), o) == AtOffset(s, o)
    decreases |s|
  {
    if |s| > 0 {
      SortStable(s[1..], o);
      InsertAtOffset(s[0], SortByOffset(s[1..]), o);
    }
  }

  /** Sorting what is already sorted changes nothing. */
  lemma {:induction false} SortSorted(s: seq<ScheduledSpawn>)
    requires Sorted(s)
    ensures SortByOffset(s) == s
    decreases |s|
  {
    if |s| > 0 {
      SortSorted(s[1..]);
      assert SortByOffset(s[1..]) == s[1..];
      assert s == [s[0]] + s[1..];
    }
  }

  /** What parseOsu leaves behind for the game: timing, circles, lasers and
      the sorted spawn schedule. */
  datatype Loaded = Loaded(
    approachTime: real, sliderMultiplier: real, beatLength: real,
    hitObjects: seq<HitObject>, lasers: seq<SliderLaser.Laser>, spawns: seq<ScheduledSpawn>)

  /** parseOsu on the lines of a file.  If an exception escapes the read
      loop, the timing fields and circles read so far are kept, the sliders
      are lost, and no lasers or spawns are derived. */
  function ParseOsu(lines: seq<string>): (r: (Loaded, Option<Exception>))
    ensures r.0.beatLength == 500.0
    ensures Sorted(r.0.spawns)
    ensures r.1.Some? ==> r.0.lasers == [] && r.0.spawns == []
    ensures r.1 == Run(Start, lines).failure
    ensures var st := Run(Start, lines).state;
            && r.0.hitObjects == st.hitObjects
            && r.0.approachTime == st.approachTime && r.0.sliderMultiplier == st.sliderMultiplier
    ensures r.1.None? ==> |r.0.lasers| == |Run(Start, lines).state.tempSliders|
                          && |r.0.spawns| == SpawnCount(Run(Start, lines).state.tempSliders)
    ensures var st := Run(Start, lines).state;
            r.1.None? ==> && r.0.lasers == Lasers(st.tempSliders, st.approachTime, st.sliderMultiplier, st.beatLength)
                          && multiset(r.0.spawns) == multiset(AllSpawns(st.tempSliders, st.sliderMultiplier, st.beatLength))
  {
    var out := Run(Start, lines);
    var st := out.state;
    BeatLengthStaysDefault(lines);
    if out.failure.Some? then
      (Loaded(st.approachTime, st.sliderMultiplier, st.beatLength, st.hitObjects, [], []), out.failure)
    else
      var spawns := SortByOffset(AllSpawns(st.tempSliders, st.sliderMultiplier, st.beatLength));
      assert |spawns| == |AllSpawns(st.tempSliders, st.sliderMultiplier, st.beatLength)| by {
        assert |multiset(spawns)| == |multiset(AllSpawns(st.tempSliders, st.sliderMultiplier, st.beatLength))|;
      }
      (Loaded(st.approachTime, st.sliderMultiplier, st.beatLength, st.hitObjects,
              Lasers(st.tempSliders, st.approachTime, st.sliderMultiplier, st.beatLength), spawns),
       None)
  }
}
