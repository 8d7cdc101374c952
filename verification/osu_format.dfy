/** The `.osu` beatmap lines both parsers read, and the section state machine
    they share: a `[Difficulty]` section of `Key: value` lines, a
    `[TimingPoints]` section of comma-separated timing lines, and a
    `[HitObjects]` section of comma-separated hit-object lines.  Game.parseOsu
    and OsuParser.parse differ only in how they react to the `[TimingPoints]`
    header; everything here is written identically in both. */
module OsuFormat {
  import opened JavaLang
  import opened JavaNumbers
  import opened Geometry

  /** A hit circle: where and when. */
  datatype HitObject = HitObject(x: int, y: int, time: int)

  /** A slider as read from the file: start time, repeat count, pixel length
      and its control points, the slider's start position first. */
  datatype TempSlider = TempSlider(time: int, repeats: int, pixelLen: real, ctrlPts: seq<Point>)

  /** What a hit-object line turns into: spinners and unknown types are skipped. */
  datatype HitLine = Circle(circle: HitObject) | Slider(slider: TempSlider) | Skipped

  /** The fields shared by every hit-object line: x, y, time and type bits. */
  datatype Header = Header(x: int, y: int, time: int, kind: int)

  /** The parser's section flags and everything it has collected so far. */
  datatype ParseState = ParseState(
    inDiff: bool, inTiming: bool, inHits: bool,
    approachTime: real, sliderMultiplier: real, beatLength: real,
    hitObjects: seq<HitObject>, tempSliders: seq<TempSlider>)

  const DefaultApproachTime: real := 1500.0
  const DefaultSliderMultiplier: real := 1.4
  const DefaultBeatLength: real := 500.0

  /** Before the first line: no section, default timing, nothing collected. */
  const Start := ParseState(false, false, false,
                            DefaultApproachTime, DefaultSliderMultiplier, DefaultBeatLength, [], [])

  /** At most one section flag is raised at a time. */
  predicate OneSection(st: ParseState) {
    !(st.inDiff && st.inTiming) && !(st.inDiff && st.inHits) && !(st.inTiming && st.inHits)
  }

  /** The approach time an ApproachRate value stands for, in ms. */
  function ApproachTimeFor(ar: real): (ms: real)
    ensures ar <= 5.0 ==> ms >= 1200.0
    ensures ar >= 5.0 ==> ms <= 1200.0
    ensures ar == 10.0 ==> ms == 600.0
  {
    1800.0 - 120.0 * ar
  }

  /** A line that starts with a key ending in a colon holds a colon. */
  lemma ColonAfterKey(line: string, key: string)
    requires StartsWith(line, key) && |key| > 0 && key[|key| - 1] == ':'
    ensures ':' in line
  {
    assert line[|key| - 1] == key[|key| - 1];
  }

  /** `Double.parseDouble(line.split(":", 2)[1].trim())`. */
  function KeyValue(line: string): Result<real>
    requires ':' in line
  {
    ParseDouble(Trim(AfterFirst(line, ':')))
  }

  /** `Integer.parseInt(xy[0])`, `Integer.parseInt(xy[1])` with `xy = token.split(":")`. */
  function ParsePoint(token: string): (r: Result<Point>)
    ensures r.Ok? <==> (var xy := Split(token, ':');
                         |xy| >= 2 && ParseInt(xy[0]).Ok? && ParseInt(xy[1]).Ok?)
    ensures r.Ok? ==> r.value == Point(ParseInt(Split(token, ':')[0]).value,
                                       ParseInt(Split(token, ':')[1]).value)
  {
    var xy := Split(token, ':');
    var sx :- At(xy, 0);
    var x :- ParseInt(sx);
    var sy :- At(xy, 1);
    var y :- ParseInt(sy);
    Ok(Point(x, y))
  }

  /** The control-point tokens in order; the first malformed one throws. */
  function ParsePoints(tokens: seq<string>): (r: Result<seq<Point>>)
    ensures r.Ok? ==> |r.value| == |tokens|
    ensures r.Ok? ==> forall i :: 0 <= i < |tokens| ==> ParsePoint(tokens[i]) == Ok(r.value[i])
    decreases |tokens|
  {
    if |tokens| == 0 then Ok([])
    else
      var p :- ParsePoint(tokens[0]);
      var rest :- ParsePoints(tokens[1..]);
      assert forall i :: 1 <= i < |tokens| ==> tokens[i] == tokens[1..][i - 1];
      Ok([p] + rest)
  }

  /** A failure is the first malformed token's failure. */
  lemma {:induction false} ParsePointsError(tokens: seq<string>)
    requires ParsePoints(tokens).Thrown?
    ensures exists i :: 0 <= i < |tokens| && ParsePoint(tokens[i]) == Thrown(ParsePoints(tokens).error)
                        && forall j :: 0 <= j < i ==> ParsePoint(tokens[j]).Ok?
    decreases |tokens|
  {
    var e := ParsePoints(tokens).error;
    if ParsePoint(tokens[0]).Ok? {
      var rest := tokens[1..];
      ParsePointsError(rest);
      var i :| 0 <= i < |rest| && ParsePoint(rest[i]) == Thrown(e)
               && forall j :: 0 <= j < i ==> ParsePoint(rest[j]).Ok?;
      assert forall j :: 1 <= j < i + 1 ==> ParsePoint(tokens[j]) == ParsePoint(rest[j - 1]);
      assert ParsePoint(tokens[i + 1]) == Thrown(e);
    } else {
      assert ParsePoint(tokens[0]) == Thrown(e);
    }
  }

  /** `x`, `y`, `time` and `type`, parsed in that order. */
  function ParseHeader(p: seq<string>): (r: Result<Header>)
    ensures r.Ok? <==> |p| >= 4 && ParseInt(p[0]).Ok? && ParseInt(p[1]).Ok?
                       && ParseLong(p[2]).Ok? && ParseInt(p[3]).Ok?
    ensures r.Ok? ==> r.value == Header(ParseInt(p[0]).value, ParseInt(p[1]).value,
                                        ParseLong(p[2]).value, ParseInt(p[3]).value)
  {
    var sx :- At(p, 0);
    var x :- ParseInt(sx);
    var sy :- At(p, 1);
    var y :- ParseInt(sy);
    var st :- At(p, 2);
    var t :- ParseLong(st);
    var sk :- At(p, 3);
    var kind :- ParseInt(sk);
    Ok(Header(x, y, t, kind))
  }

  /** A line with the slider bit (2) set and more than seven fields. */
  predicate IsSliderLine(p: seq<string>, h: Header) {
    Bit(h.kind, 1) && |p| > 7
  }

  /** The curve-type token and control points of field 5. */
  function CurveTokens(p: seq<string>): seq<string>
    requires |p| > 5
  {
    Split(p[5], '|')
  }

  /** The slider's start position followed by the points after the
      curve-type token. */
  function ControlPoints(start: Point, sd: seq<string>): (r: Result<seq<Point>>)
    ensures r.Ok? <==> ParsePoints(if |sd| == 0 then [] else sd[1..]).Ok?
    ensures r.Ok? ==> |r.value| == (if |sd| == 0 then 1 else |sd|)
    ensures r.Ok? ==> r.value[0] == start
    ensures r.Ok? ==> forall k :: 1 <= k < |r.value| ==> ParsePoint(sd[k]) == Ok(r.value[k])
  {
    var tail := if |sd| == 0 then [] else sd[1..];
    match ParsePoints(tail)
    case Thrown(e) => Thrown(e)
    case Ok(rest) =>
      var pts := [start] + rest;
      assert forall k :: 1 <= k < |pts| ==> ParsePoint(sd[k]) == Ok(pts[k]) by {
        forall k | 1 <= k < |pts|
          ensures ParsePoint(sd[k]) == Ok(pts[k])
        {
          assert pts[k] == rest[k - 1] && sd[k] == tail[k - 1];
        }
      }
      Ok(pts)
  }

  /** The slider fields of a slider line: repeats (field 6), pixel length
      (field 7) and the control points of field 5. */
  function ParseSlider(p: seq<string>, h: Header): (r: Result<TempSlider>)
    requires IsSliderLine(p, h)
    ensures r.Ok? <==> ParseInt(p[6]).Ok? && ParseDouble(p[7]).Ok?
                       && ControlPoints(Point(h.x, h.y), CurveTokens(p)).Ok?
    ensures r.Ok? ==>
      && r.value.time == h.time
      && ParseInt(p[6]) == Ok(r.value.repeats)
      && ParseDouble(p[7]) == Ok(r.value.pixelLen)
      && ControlPoints(Point(h.x, h.y), CurveTokens(p)) == Ok(r.value.ctrlPts)
  {
    var repeats :- ParseInt(p[6]);
    var pixelLen :- ParseDouble(p[7]);
    var pts :- ControlPoints(Point(h.x, h.y), CurveTokens(p));
    Ok(TempSlider(h.time, repeats, pixelLen, pts))
  }

  /** One line of the `[HitObjects]` section: a slider when the slider bit
      is set and the line has more than seven fields, otherwise a circle
      when the circle bit (1) is set, otherwise nothing. */
  function ParseHitLine(line: string): (r: Result<HitLine>)
    ensures r.Ok? ==> ParseHeader(Split(line, ',')).Ok?
    ensures r.Ok? && r.value.Slider? ==>
      var p := Split(line, ',');
      var h := ParseHeader(p).value;
      IsSliderLine(p, h) && ParseSlider(p, h) == Ok(r.value.slider)
    ensures r.Ok? && r.value.Circle? ==>
      var p := Split(line, ',');
      var h := ParseHeader(p).value;
      !IsSliderLine(p, h) && Bit(h.kind, 0) && r.value.circle == HitObject(h.x, h.y, h.time)
    ensures r.Ok? && r.value.Skipped? ==>
      var p := Split(line, ',');
      var h := ParseHeader(p).value;
      !IsSliderLine(p, h) && !Bit(h.kind, 0)
    ensures (var p := Split(line, ',');
             ParseHeader(p).Ok? && !IsSliderLine(p, ParseHeader(p).value)) ==> r.Ok?
  {
    var p := Split(line, ',');
    var h :- ParseHeader(p);
    if IsSliderLine(p, h) then
      var s :- ParseSlider(p, h);
      Ok(Slider(s))
    else if Bit(h.kind, 0) then
      Ok(Circle(HitObject(h.x, h.y, h.time)))
    else
      Ok(Skipped)
  }

  /** A timing line's beat length when its seventh field is 1 (an
      uninherited point), nothing when it has fewer fields or another flag. */
  function ParseTimingLine(line: string): (r: Result<Option<real>>)
    ensures r.Ok? && r.value.Some? <==>
      (var tp := Split(line, ',');
       |tp| > 6 && ParseInt(Trim(tp[6])) == Ok(1) && ParseDouble(Trim(tp[1])).Ok?)
    ensures r.Ok? && r.value.Some? ==> r.value.value == ParseDouble(Trim(Split(line, ',')[1])).value
    ensures |Split(line, ',')| <= 6 ==> r == Ok(None)
  {
    var tp := Split(line, ',');
    if |tp| > 6 then
      var flag :- ParseInt(Trim(tp[6]));
      if flag == 1 then
        var beat :- ParseDouble(Trim(tp[1]));
        Ok(Some(beat))
      else Ok(None)
    else Ok(None)
  }

  /** A line inside `[Difficulty]`: ApproachRate and SliderMultiplier are
      read, and any line starting with `[` closes the section. */
  function DifficultyStep(st: ParseState, line: string): (r: Result<ParseState>)
    requires st.inDiff
    ensures r.Ok? ==> r.value == st.(approachTime := r.value.approachTime,
                                     sliderMultiplier := r.value.sliderMultiplier, inDiff := r.value.inDiff)
    ensures r.Ok? ==> (r.value.inDiff <==> !StartsWith(line, "["))
  {
    var at :- if StartsWith(line, "ApproachRate:") then
                ColonAfterKey(line, "ApproachRate:");
                var ar :- KeyValue(line);
                Ok(ApproachTimeFor(ar))
              else Ok(st.approachTime);
    var sm :- if StartsWith(line, "SliderMultiplier:") then
                ColonAfterKey(line, "SliderMultiplier:");
                KeyValue(line)
              else Ok(st.sliderMultiplier);
    Ok(st.(approachTime := at, sliderMultiplier := sm, inDiff := !StartsWith(line, "[")))
  }

  /** A line inside `[TimingPoints]`: a `[` line closes the section, blank
      lines are skipped, and the first uninherited point sets the beat
      length and closes the section. */
  function TimingStep(st: ParseState, line: string): (r: Result<ParseState>)
    requires st.inTiming
    ensures r.Ok? ==> r.value == st.(beatLength := r.value.beatLength, inTiming := r.value.inTiming)
  {
    if StartsWith(line, "[") then Ok(st.(inTiming := false))
    else if IsBlank(line) then Ok(st)
    else
      var tl :- ParseTimingLine(line);
      match tl
      case None => Ok(st)
      case Some(beat) => Ok(st.(beatLength := beat, inTiming := false))
  }

  /** A line the hit-object branch reads without an exception: a blank
      line or a well-formed hit-object line. */
  predicate HitOrBlank(line: string) {
    IsBlank(line) || ParseHitLine(line).Ok?
  }

  /** The circle such a line contributes, if it is one. */
  function CircleOf(line: string): seq<HitObject>
    requires HitOrBlank(line)
  {
    if !IsBlank(line) && ParseHitLine(line).value.Circle? then [ParseHitLine(line).value.circle] else []
  }

  /** The slider such a line contributes, if it is one. */
  function SliderOf(line: string): seq<TempSlider>
    requires HitOrBlank(line)
  {
    if !IsBlank(line) && ParseHitLine(line).value.Slider? then [ParseHitLine(line).value.slider] else []
  }

  /** The circles of a run of such lines, in file order. */
  function Circles(lines: seq<string>): (cs: seq<HitObject>)
    requires forall i :: 0 <= i < |lines| ==> HitOrBlank(lines[i])
    ensures |cs| <= |lines|
    decreases |lines|
  {
    if |lines| == 0 then [] else CircleOf(lines[0]) + Circles(lines[1..])
  }

  /** The sliders of a run of such lines, in file order. */
  function Sliders(lines: seq<string>): (ss: seq<TempSlider>)
    requires forall i :: 0 <= i < |lines| ==> HitOrBlank(lines[i])
    ensures |ss| <= |lines|
    decreases |lines|
  {
    if |lines| == 0 then [] else SliderOf(lines[0]) + Sliders(lines[1..])
  }

  /** Appending the first line's contribution and then the rest's is
      appending the whole run's. */
  lemma HitsAppend(st: ParseState, lines: seq<string>)
    requires |lines| > 0 && forall i :: 0 <= i < |lines| ==> HitOrBlank(lines[i])
    ensures st.hitObjects + Circles(lines) == st.hitObjects + CircleOf(lines[0]) + Circles(lines[1..])
    ensures st.tempSliders + Sliders(lines) == st.tempSliders + SliderOf(lines[0]) + Sliders(lines[1..])
  {
    assert Circles(lines) == CircleOf(lines[0]) + Circles(lines[1..]);
    assert Sliders(lines) == SliderOf(lines[0]) + Sliders(lines[1..]);
    AppendAssoc(st.hitObjects, CircleOf(lines[0]), Circles(lines[1..]));
    AppendAssoc(st.tempSliders, SliderOf(lines[0]), Sliders(lines[1..]));
  }

  lemma AppendAssoc<T>(a: seq<T>, b: seq<T>, c: seq<T>)
    ensures a + (b + c) == a + b + c
  {
  }

  /** A line inside `[HitObjects]`: blank lines are skipped, a circle or a
      slider is appended to its list, and a malformed line throws. */
  function HitStep(st: ParseState, line: string): (r: Result<ParseState>)
    requires st.inHits
    ensures r.Ok? <==> HitOrBlank(line)
    ensures r.Thrown? ==> r.error == ParseHitLine(line).error
    ensures r.Ok? ==> r.value == st.(hitObjects := st.hitObjects + CircleOf(line),
                                     tempSliders := st.tempSliders + SliderOf(line))
  {
    if IsBlank(line) then
      assert st.hitObjects + [] == st.hitObjects && st.tempSliders + [] == st.tempSliders;
      Ok(st)
    else
      var h :- ParseHitLine(line);
      match h
      case Circle(c) => Ok(st.(hitObjects := st.hitObjects + [c]))
      case Slider(s) => Ok(st.(tempSliders := st.tempSliders + [s]))
      case Skipped => Ok(st)
  }

  /** Everything after the section-header check: the branch for the open
      section, or the `[HitObjects]` header, or nothing. */
  function SectionStep(st: ParseState, line: string): (r: Result<ParseState>)
    ensures r.Ok? && !st.inTiming ==> r.value.beatLength == st.beatLength && !r.value.inTiming
    ensures r.Ok? && st.inHits ==> r.value.inHits
    ensures r.Ok? && OneSection(st) ==> OneSection(r.value)
  {
    if st.inDiff then DifficultyStep(st, line)
    else if st.inTiming then TimingStep(st, line)
    else if !st.inHits && line == "[HitObjects]" then Ok(st.(inHits := true))
    else if st.inHits then HitStep(st, line)
    else Ok(st)
  }
}
