/** OsuParser.parse: the `.osu` file read line by line into hit circles,
    sliders and three timing values.  A `[Difficulty]` or `[TimingPoints]`
    header is recognised only outside the timing and hit-object sections,
    and is consumed by the header check. */
module OsuParser {
  import opened JavaLang
  import opened JavaNumbers
  import opened OsuFormat

  /** OsuMapData without the audio clip. */
  datatype MapData = MapData(
    hitObjects: seq<HitObject>, tempSliders: seq<TempSlider>,
    approachTime: real, sliderMultiplier: real, beatLength: real)

  /** A section header is looked for only outside the timing and hit-object
      sections. */
  predicate HeaderPosition(st: ParseState) {
    !st.inHits && !st.inTiming
  }

  /** One line of the read loop. */
  function Step(st: ParseState, line: string): (r: Result<ParseState>)
    ensures r.Ok? && OneSection(st) ==> OneSection(r.value)
    ensures r.Ok? && st.inHits ==> r.value.inHits
    ensures r.Ok? && !st.inTiming && (st.inHits || line != "[TimingPoints]") ==> r.value.beatLength == st.beatLength
    ensures HeaderPosition(st) && line == "[Difficulty]" ==> r == Ok(st.(inDiff := true))
    ensures HeaderPosition(st) && line == "[TimingPoints]" ==> r == Ok(st.(inTiming := true, inDiff := false))
  {
    if HeaderPosition(st) && line == "[Difficulty]" then Ok(st.(inDiff := true))
    else if HeaderPosition(st) && line == "[TimingPoints]" then Ok(st.(inTiming := true, inDiff := false))
    else SectionStep(st, line)
  }

  /** The read loop from a given state: the first exception ends it. */
  function Run(st: ParseState, lines: seq<string>): (r: Result<ParseState>)
    ensures r.Ok? && OneSection(st) ==> OneSection(r.value)
    decreases |lines|
  {
    if |lines| == 0 then Ok(st)
    else
      var next :- Step(st, lines[0]);
      Run(next, lines[1..])
  }

  /** parse, for the lines of the file.  An exception escaping the loop is
      not an IOException, so it escapes parse as well. */
  function Parse(lines: seq<string>): (r: Result<MapData>)
    ensures r.Ok? <==> Run(Start, lines).Ok?
    ensures r.Thrown? ==> r.error == Run(Start, lines).error
  {
    var st :- Run(Start, lines);
    Ok(MapData(st.hitObjects, st.tempSliders, st.approachTime, st.sliderMultiplier, st.beatLength))
  }

  /** Reading a file in two parts: the second part starts where the first
      left off, and an exception in the first skips the second. */
  lemma {:induction false} RunAppend(st: ParseState, a: seq<string>, b: seq<string>)
    ensures Run(st, a + b) == match Run(st, a) { case Ok(mid) => Run(mid, b) case Thrown(e) => Thrown(e) }
    decreases |a|
  {
    if |a| == 0 {
      assert a + b == b;
    } else {
      assert (a + b)[0] == a[0] && (a + b)[1..] == a[1..] + b;
      match Step(st, a[0]) {
        case Thrown(e) =>
        case Ok(next) => RunAppend(next, a[1..], b);
      }
    }
  }

  /** Once in `[HitObjects]` the parser never leaves it, and the beat length
      can no longer change. */
  lemma {:induction false} HitsAbsorbing(st: ParseState, lines: seq<string>)
    requires st.inHits && OneSection(st)
    ensures Run(st, lines).Ok? ==>
              Run(st, lines).value.inHits && Run(st, lines).value.beatLength == st.beatLength
    decreases |lines|
  {
    if |lines| > 0 {
      match Step(st, lines[0]) {
        case Thrown(e) =>
        case Ok(next) => HitsAbsorbing(next, lines[1..]);
      }
    }
  }

  /** A line that starts with a letter is neither a header nor any line
      starting with another letter. */
  lemma KeyedLine(line: string, key: string, other: string)
    requires StartsWith(line, key) && |key| > 0 && |other| > 0 && key[0] != other[0] && key[0] != '['
    ensures line[0] == key[0]
    ensures !StartsWith(line, other) && !StartsWith(line, "[")
    ensures line != "[Difficulty]" && line != "[TimingPoints]" && line != "[HitObjects]"
  {
    assert line[0] == line[..|key|][0] == key[0];
  }

  /** Inside `[Difficulty]` any line but the two headers goes to the
      difficulty branch. */
  lemma DifficultyLine(st: ParseState, line: string)
    requires st.inDiff && OneSection(st) && line != "[Difficulty]" && line != "[TimingPoints]"
    ensures Step(st, line) == DifficultyStep(st, line)
  {
  }

  /** An `ApproachRate:` line inside `[Difficulty]` sets the approach time
      to ApproachTimeFor(rate) = 1800 - 120 * rate and keeps the section
      open. */
  lemma ApproachRateLine(st: ParseState, line: string, rate: real)
    requires st.inDiff && OneSection(st)
    requires StartsWith(line, "ApproachRate:")
    requires ':' in line && KeyValue(line) == Ok(rate)
    ensures Step(st, line) == Ok(st.(approachTime := ApproachTimeFor(rate)))
  {
    assert !StartsWith(line, "SliderMultiplier:") && !StartsWith(line, "[")
           && line != "[Difficulty]" && line != "[TimingPoints]" by {
      KeyedLine(line, "ApproachRate:", "SliderMultiplier:");
    }
    DifficultyLine(st, line);
  }

  /** A `SliderMultiplier:` line inside `[Difficulty]` sets the multiplier
      to its value and keeps the section open. */
  lemma SliderMultiplierLine(st: ParseState, line: string, m: real)
    requires st.inDiff && OneSection(st)
    requires StartsWith(line, "SliderMultiplier:")
    requires ':' in line && KeyValue(line) == Ok(m)
    ensures Step(st, line) == Ok(st.(sliderMultiplier := m))
  {
    assert !StartsWith(line, "ApproachRate:") && !StartsWith(line, "[")
           && line != "[Difficulty]" && line != "[TimingPoints]" by {
      KeyedLine(line, "SliderMultiplier:", "ApproachRate:");
    }
    DifficultyLine(st, line);
  }

  /** Inside `[Difficulty]` a line that starts with `[` and is not one of the
      two recognised headers closes the section and changes nothing else. */
  lemma DifficultyClosed(st: ParseState, line: string)
    requires st.inDiff && OneSection(st)
    requires StartsWith(line, "[") && line != "[Difficulty]" && line != "[TimingPoints]"
    ensures Step(st, line) == Ok(st.(inDiff := false))
  {
    assert !StartsWith(line, "ApproachRate:") by { assert line[0] != "ApproachRate:"[0]; }
    assert !StartsWith(line, "SliderMultiplier:") by { assert line[0] != "SliderMultiplier:"[0]; }
  }

  /** The first uninherited timing point sets the beat length and closes
      the timing section. */
  lemma FirstTimingPointSetsBeat(st: ParseState, line: string, beat: real)
    requires st.inTiming && OneSection(st)
    requires !StartsWith(line, "[") && !IsBlank(line)
    requires ParseTimingLine(line) == Ok(Some(beat))
    ensures Step(st, line) == Ok(st.(beatLength := beat, inTiming := false))
  {
    assert !st.inDiff && !HeaderPosition(st);
    assert Step(st, line) == SectionStep(st, line) == TimingStep(st, line);
  }

  /** Outside the timing section the beat length changes only by a
      `[TimingPoints]` header being read: later timing points, after the
      first uninherited one, are ignored. */
  lemma {:induction false} BeatLengthSettled(st: ParseState, lines: seq<string>)
    requires !st.inTiming
    requires forall i :: 0 <= i < |lines| ==> lines[i] != "[TimingPoints]"
    ensures Run(st, lines).Ok? ==> Run(st, lines).value.beatLength == st.beatLength
    decreases |lines|
  {
    if |lines| > 0 {
      match Step(st, lines[0]) {
        case Thrown(e) =>
        case Ok(next) =>
          assert !next.inTiming && next.beatLength == st.beatLength;
          BeatLengthSettled(next, lines[1..]);
      }
    }
  }

  /** Inside `[TimingPoints]` the other headers are not recognised: a
      `[Difficulty]` line just closes the timing section. */
  lemma DifficultyHeaderInTiming(st: ParseState)
    requires st.inTiming && OneSection(st)
    ensures Step(st, "[Difficulty]") == Ok(st.(inTiming := false))
  {
    assert StartsWith("[Difficulty]", "[");
  }

  /** Inside `[HitObjects]` a section header is read as a hit-object line,
      and its x field does not parse. */
  lemma HeaderInHitsThrows(st: ParseState, line: string)
    requires st.inHits && OneSection(st)
    requires line == "[Difficulty]" || line == "[TimingPoints]" || line == "[HitObjects]"
    ensures Step(st, line) == Thrown(NumberFormat)
  {
    assert ',' !in line;
    assert Split(line, ',') == [line];
    assert !IsBlank(line) by { assert !IsWhitespace(line[0]); }
    assert ParseInt(line).Thrown?;
  }

  /** Hit objects are collected in file order: inside `[HitObjects]`, a run
      of blank and well-formed hit-object lines, circles and sliders mixed
      in any order, appends exactly their circles and their sliders. */
  lemma {:induction false} HitsInOrder(st: ParseState, lines: seq<string>)
    requires st.inHits && OneSection(st)
    requires forall i :: 0 <= i < |lines| ==> HitOrBlank(lines[i])
    ensures Run(st, lines) == Ok(st.(hitObjects := st.hitObjects + Circles(lines),
                                     tempSliders := st.tempSliders + Sliders(lines)))
    decreases |lines|
  {
    if |lines| == 0 {
      assert st.hitObjects + [] == st.hitObjects && st.tempSliders + [] == st.tempSliders;
    } else {
      var next := st.(hitObjects := st.hitObjects + CircleOf(lines[0]),
                      tempSliders := st.tempSliders + SliderOf(lines[0]));
      assert Step(st, lines[0]) == HitStep(st, lines[0]) == Ok(next);
      var rest := lines[1..];
      assert forall i :: 0 <= i < |rest| ==> HitOrBlank(rest[i]) by {
        forall i | 0 <= i < |rest| ensures HitOrBlank(rest[i]) {
          assert rest[i] == lines[i + 1];
        }
      }
      HitsInOrder(next, rest);
      HitsAppend(st, lines);
    }
  }

  /** A malformed hit-object line aborts the whole parse, whatever follows
      it, with the exception the line raised. */
  lemma MalformedHitLineAborts(before: seq<string>, line: string, after: seq<string>)
    requires Run(Start, before).Ok? && Run(Start, before).value.inHits
    requires !IsBlank(line) && ParseHitLine(line).Thrown?
    ensures Parse(before + [line] + after) == Thrown(ParseHitLine(line).error)
  {
    var mid := Run(Start, before).value;
    var rest := [line] + after;
    var all := before + [line] + after;
    assert all == before + rest;
    RunAppend(Start, before, rest);
    assert Run(Start, all) == Run(mid, rest);
    HitLineThrows(mid, line, after);
    assert Run(Start, all) == Thrown(ParseHitLine(line).error);
  }

  lemma HitLineThrows(st: ParseState, line: string, after: seq<string>)
    requires st.inHits && OneSection(st)
    requires !IsBlank(line) && ParseHitLine(line).Thrown?
    ensures Run(st, [line] + after) == Thrown(ParseHitLine(line).error)
  {
    var rest := [line] + after;
    assert rest[0] == line;
    assert Step(st, line) == HitStep(st, line);
    assert HitStep(st, line) == Thrown(ParseHitLine(line).error);
  }

  /** A line that sets one of the three timing values when read in its
      section: an `ApproachRate:` or `SliderMultiplier:` line, or a timing
      line of an uninherited point. */
  predicate Setter(line: string) {
    || StartsWith(line, "ApproachRate:")
    || StartsWith(line, "SliderMultiplier:")
    || (ParseTimingLine(line).Ok? && ParseTimingLine(line).value.Some?)
  }

  /** A line that is not a setter leaves the three timing values alone,
      whatever section it is read in. */
  lemma StepKeepsTiming(st: ParseState, line: string)
    requires !Setter(line)
    ensures Step(st, line).Ok? ==>
              && Step(st, line).value.approachTime == st.approachTime
              && Step(st, line).value.sliderMultiplier == st.sliderMultiplier
              && Step(st, line).value.beatLength == st.beatLength
  {
  }

  /** Without setter lines, parse keeps the default approach time (1500),
      slider multiplier (1.4) and beat length (500), whatever sections the
      file has: a map without an `ApproachRate:` line gets 1500 ms. */
  lemma DefaultsWithoutSetters(lines: seq<string>)
    requires forall i :: 0 <= i < |lines| ==> !Setter(lines[i])
    requires Parse(lines).Ok?
    ensures Parse(lines).value.approachTime == 1500.0
    ensures Parse(lines).value.sliderMultiplier == 1.4
    ensures Parse(lines).value.beatLength == 500.0
  {
    NoSettersKeepTiming(Start, lines);
  }

  lemma {:induction false} NoSettersKeepTiming(st: ParseState, lines: seq<string>)
    requires forall i :: 0 <= i < |lines| ==> !Setter(lines[i])
    ensures Run(st, lines).Ok? ==>
              && Run(st, lines).value.approachTime == st.approachTime
              && Run(st, lines).value.sliderMultiplier == st.sliderMultiplier
              && Run(st, lines).value.beatLength == st.beatLength
    decreases |lines|
  {
    if |lines| > 0 {
      StepKeepsTiming(st, lines[0]);
      match Step(st, lines[0]) {
        case Thrown(e) =>
        case Ok(next) =>
          var rest := lines[1..];
          assert forall i :: 0 <= i < |rest| ==> !Setter(rest[i]) by {
            forall i | 0 <= i < |rest| ensures !Setter(rest[i]) {
              assert rest[i] == lines[i + 1];
            }
          }
          NoSettersKeepTiming(next, rest);
      }
    }
  }
}
