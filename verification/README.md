# RithmBulletHell core, modelled in Dafny

RithmBulletHell is a rhythm bullet-hell game. It reads an osu! beatmap (`.osu` file) and turns its hit circles and sliders into bullets aimed at the player. Sliders also become laser hazards. The project models the game's timing and state layer as pure functions over immutable records:

- **`Game`**: the per-frame `update`, `setMap` and `gameOver`. `update` covers:
  - invulnerability expiry;
  - two spawn cursors, one over the hit circles and one over the sorted slider schedule;
  - bullet movement, removal and collision, with lives and game over;
  - clamped player movement;
  - the pause no-op.
- **`GameMap`**: `Game.parseOsu`, the older `.osu` reader built into Game.java. It also derives the slider spawns and lasers and sorts the spawns by offset.
- **`OsuParser`**: `OsuParser.parse`, the newer reader. It is a fold over the file's lines with three section flags.
- **`OsuFormat`**: the line formats and section branches that both readers share.
- **`SliderLaser`**: the laser's timestamps, its opacity ramp, the render guard and the drawn path's command structure.
- **`SpinnerManager`**: the spinner's window and cadence, its evenly spaced rotating bursts, and bullet reuse from a pool.
- **`Bomb`**: the charge counter, the active window, the radial bullet filter and the triangular flash envelope. The source's static fields become a record passed in and out.
- **`Bullets`**: Bullet.java. Game.java's private nested `Bullet` class has the same fields and the same `updateAndCheck`, so it is the same datatype.
- **`Config`**: default filling, key-binding resolution and the texture-path fallback.

Supporting modules:

- `JavaLang` models the exceptions and `String` operations the parsers use: `trim`, `isBlank`, `toUpperCase`, `startsWith` and one-character `split`.
- `JavaNumbers` models `Integer.parseInt`, `Long.parseLong`, `Double.parseDouble` on decimal text, and the `(long)` cast. It also has the few IEEE values a division by zero can produce.
- `Geometry` holds points.

Modelling choices:

- Time is integer milliseconds. Coordinates and velocities are `real`.
- Exceptions are a `Result` value, so every path that throws in the source is modelled as an error result.
- Randomness, `cos`, `sin` and `KeyEvent.getExtendedKeyCodeForChar` are function parameters. The length `Math.hypot` computes is a parameter tied to the segment by a predicate.
- Input flags and the clock are per-frame parameters. The loaded properties and the lines of the `.osu` file are parameters too.

## Model

| member | source | states |
|---|---|---|
| Game.HalfInt | Game.java:83 | Java's int `/ 2` rounds toward zero: the remainder is 0 or 1 for non-negative n and 0 or -1 for negative n |
| Game.ResetPlayer | Game.java:82-86 | the player's square is centred horizontally (to within the pixel integer halving loses), sits 60 px above the bottom, and lives are back at 5; nothing else changes |
| Game.CircleBullet | Game.java:422-429 | a hit circle's bullet starts at x = u·width just above the screen with size 12, and its velocity times approachTime is the vector to the player's centre scaled by bulletSpeed |
| Game.SliderBullet | Game.java:431-437 | a slider bullet starts at its control point with size 12, and its velocity times approachTime is the vector to the player's centre scaled by bulletSpeed |
| Game.CirclesEnd | Game.java:329-332 | the hit-circle cursor never moves back and never passes the end of the list; every circle it passes is due (time − approachTime ≤ elapsed); it stops at the first circle that is not due |
| Game.SpawnCircles | Game.java:328-332 | the first loop appends one bullet per passed circle, in file order, and changes nothing but the cursor and the bullet list; the bullets already present are untouched |
| Game.CirclesDueExactly | Game.java:329-332 | for circles in time order, a circle at or after the cursor is consumed in this frame if and only if it is due |
| Game.ScheduleEnd | Game.java:335-339 | the schedule cursor never moves back; every entry it passes has offset ≤ elapsed; it stops at the first entry whose offset is still ahead |
| Game.SpawnScheduled | Game.java:334-339 | the second loop appends one bullet per passed schedule entry, from that entry's point and in schedule order, and changes nothing else |
| Game.ScheduleDueExactly | Game.java:335-339 | on the sorted schedule, an entry at or after the cursor is consumed in this frame if and only if its offset ≤ elapsed: each due entry exactly once and no later one |
| Game.SweepBullets | Game.java:342-363 | a hit happens only while the player is vulnerable; the game ends exactly when a hit takes the last life; the list never grows, and a fatal hit removes at least that bullet |
| Game.HitIffLethal | Game.java:350-359 | the player is hit in a frame if and only if they are vulnerable and some bullet, after moving, is still on screen and touches them (Game.Touches: squared centre distance ≤ (size/2 + hitboxRadius)²) |
| Game.NoHitKeepsSurvivors | Game.java:342-363 | without a hit, the bullets left are exactly the moved bullets that stayed on screen, in their order |
| Game.HitRemovesOne | Game.java:355-361 | a hit that does not end the game removes exactly one on-screen bullet beyond those that left the screen |
| Game.GameOverLeavesRest | Game.java:342-363 | a fatal hit leaves the loop at once: bullets before it are swept normally, the fatal one is removed, and those after it stay unmoved |
| Game.OverPassesOver | Game.java:342-363 | a first bullet that does not hit is dropped or kept moved in front of what the rest of the loop leaves |
| Game.MoveAxisBounds | Game.java:366-370 | for one axis of movement (Game.MoveAxis), with a non-negative speed a position inside [0, limit] stays inside, moves at most the speed in the direction of the key held, and stays put with no key |
| Game.Move | Game.java:365-370 | player movement changes only the player's position |
| Game.GameOver | Game.java:439-441 | game over stops the game and changes no other state |
| Game.ExpireInvulnerability | Game.java:324-326 | invulnerability survives the check if and only if fewer than 3000 ms have passed since the last hit |
| Game.Update | Game.java:318-371 | a paused frame changes nothing; the map data is untouched; the circle cursor ends where CirclesEnd stops and the schedule cursor where ScheduleEnd stops; at most one life is lost, and a hit records the damage time; a hit that takes the last life stops the game with the player unmoved, and a non-fatal hit leaves a running game running; the game stops only when lives reach 0; invulnerability is lifted only after 3000 ms |
| Game.InvulnerableTakesNoDamage | Game.java:350-362 | inside the invulnerability window no life is lost, the game keeps running, and the bullets left are exactly those still on screen |
| Game.SweepKeepsSize | Game.java:342-363 | the bullet loop keeps only bullets that were already in the list, so every bullet keeps the standard size |
| Game.MoveKeepsValid | Game.java:365-370 | a player inside the screen stays inside it after moving |
| Game.UpdateKeepsValid | Game.java:318-371 | update keeps the state invariant: cursors within their lists, player on screen, lives ≤ 5 and positive while running, schedule sorted, standard bullet size |
| Game.SetMap | Game.java:88-112 | setMap sets the title and clears invulnerability, damage time, cursors and bullets; it puts the player back at the bottom centre with full lives; the timing values, circles, lasers and schedule are parseOsu's; it starts the game if loading succeeded, and otherwise propagates the exception |
| Game.SetMapValid | Game.java:88-112 | a freshly set map satisfies the state invariant |
| Bullets.New | Bullet.java:15-17 | a new bullet has the given size and zero position and velocity |
| Bullets.Velocity | Bullet.java:46-47 | the per-tick step times approachTime equals the distance to the target scaled by speed |
| Bullets.InitAt | Bullet.java:43-48 | initAt puts the bullet at the spawn point, keeps its size, and aims it so that speed·(target − spawn) is covered in approachTime ticks |
| Bullets.InitRandom | Bullet.java:27-32 | initRandom starts at y = −size, with x in [0, screenWidth) for a positive width, aimed at the target as initAt does |
| Bullets.Moved | Bullet.java:57-58 | a tick adds the velocity to the position and keeps velocity and size |
| Bullets.UpdateAndCheck | Bullet.java:56-60 | updateAndCheck moves the bullet and reports removal if and only if the moved bullet is past the bottom, left or right edge by more than its size |
| Bullets.AdvanceSum | Bullet.java:56-58 | after k ticks each coordinate has gained its velocity k times, and velocity and size are unchanged |
| Bullets.AdvancePosition | Bullet.java:56-58 | after k ticks the position is the initial position plus k times the velocity |
| Bullets.ReachesTarget | Bullet.java:43-48 | at speed 1, a bullet aimed by initAt is exactly on its target after approachTime ticks |
| Bullets.NoTopEdge | Bullet.java:59 | moving further up never causes removal: there is no top-edge test |
| GameMap.Step | Game.java:151-211 | from outside the timing section, Game's line step never enters it and never changes the beat length; at most one section flag is up |
| GameMap.Run | Game.java:147-215 | the read loop keeps the beat length whenever it starts outside the timing section; it stops at the first line that throws |
| GameMap.RunAppend | Game.java:147-215 | reading a + b is reading a and then b from where a stopped; an exception in a skips b, so the loop succeeds only when every line was read without one |
| GameMap.HitsInOrder | Game.java:178-211 | inside `[HitObjects]` a run of blank and well-formed hit-object lines appends exactly their circles and their sliders, each in file order |
| GameMap.BeatLengthStaysDefault | Game.java:131-176 | in this reader the beat length is 500 for every file, including one cut short by an exception |
| GameMap.TimingHeaderFallsThrough | Game.java:151-167 | the `[TimingPoints]` header reaches the timing branch, which closes the section at once |
| GameMap.SingleDuration | Game.java:218-221 | one pass of a slider lasts pixelLen / (sliderMultiplier·100) · beatLength when the multiplier is non-zero |
| GameMap.SpawnOffset | Game.java:227 | a spawn offset is the `(long)` cast of k/(n−1) of the pass duration, within long range |
| GameMap.SliderSpawns | Game.java:224-233 | a slider with n ≥ 2 control points yields exactly n−1 spawns, one per point after the first, at that point and at offset (long)(k/(n−1)·singleDur) |
| GameMap.SpawnOffsetMonotone | Game.java:226-227 | for a non-negative (or infinite, or NaN) pass duration, a later control point never gets an earlier offset |
| GameMap.ScaledMonotone | Game.java:227 | the long cast of a non-negative double scaled by a larger positive factor is never smaller |
| GameMap.SpawnOffsetBounds | Game.java:227 | for a finite duration within long range, each offset lies between 0 and the truncated duration, and the last equals it |
| GameMap.OffsetsNonDecreasing | Game.java:224-233 | along one slider the spawn offsets never decrease |
| GameMap.OffsetsWithinPass | Game.java:224-233 | a slider's offsets run from 0 to one pass duration, measured from 0 and not from the slider's start time |
| GameMap.SpawnsIgnoreStartTime | Game.java:224-233 | a slider's start time has no effect on its spawns |
| GameMap.AllSpawns | Game.java:219-233 | all sliders together yield one spawn per control point after the first |
| GameMap.Lasers | Game.java:235-241 | one laser per slider, in order, built from its points, its start time, approachTime and the total duration singleDur·repeats |
| GameMap.Insert | Game.java:244 | inserting into a sorted schedule keeps it sorted, adds exactly the new spawn, and keeps any lower bound that also bounds the new spawn |
| GameMap.InsertAtOffset | Game.java:244 | insertion places the new spawn ahead of existing spawns with the same offset |
| GameMap.SortByOffset | Game.java:244 | the sorted schedule is ascending by offset and a permutation of the derived spawns |
| GameMap.SortStable | Game.java:244 | the sort is stable: the spawns at each offset keep their derived order, as List.sort promises |
| GameMap.SortSorted | Game.java:244 | sorting an already sorted schedule changes nothing |
| GameMap.ParseOsu | Game.java:129-244 | parseOsu leaves beat length 500 and a sorted schedule; the approach time, multiplier and circles are those the read loop collected; on success the lasers are the sliders' lasers in order and the schedule is a permutation of all sliders' spawns, one per extra control point; an escaping exception leaves no lasers and no spawns |
| OsuFormat.ApproachTimeFor | OsuParser.java:63 | approach rate 5 is the 1200 ms pivot; lower rates give longer and higher rates shorter approach times; AR 10 gives 600 ms |
| OsuFormat.ColonAfterKey | OsuParser.java:62-65 | a line starting with a `Key:` prefix holds a colon, so `split(":",2)[1]` exists |
| OsuFormat.ParsePoint | OsuParser.java:96-100 | a control point parses if and only if its `x:y` split has two fields that are both ints, and it is that pair |
| OsuFormat.ParsePoints | OsuParser.java:95-101 | parsed control points correspond one to one, in order, with their tokens |
| OsuFormat.ParsePointsError | OsuParser.java:95-101 | a failure is the exception of the first malformed token, all earlier tokens being well-formed |
| OsuFormat.ParseHeader | OsuParser.java:83-86 | the common fields parse if and only if the line has four fields with int x, int y, long time and int type, and the result is those values |
| OsuFormat.ControlPoints | OsuParser.java:92-101 | the control points are the slider's start followed by the points after the curve-type token, as many as field 5 has tokens |
| OsuFormat.ParseSlider | OsuParser.java:87-102 | a slider record has the line's time, repeats from field 6, pixel length from field 7 and the control points, and parses if and only if all three do |
| OsuFormat.ParseHitLine | OsuParser.java:83-105 | a slider exactly when type bit 2 is set and there are more than 7 fields; else a circle when bit 1 is set; else dropped; a non-slider line whose header parses never throws |
| OsuFormat.ParseTimingLine | OsuParser.java:72-76 | a timing line yields a beat length if and only if it has more than 6 fields, field 6 is 1 and field 1 parses; with 6 fields or fewer it yields nothing |
| OsuFormat.DifficultyStep | OsuParser.java:61-68 | a difficulty line changes only approachTime, sliderMultiplier and the section flag, and the section stays open if and only if the line does not start with `[` |
| OsuFormat.TimingStep | OsuParser.java:69-79 | a timing line changes only the beat length and the section flag |
| OsuFormat.HitStep | OsuParser.java:81-106 | a hit-object line succeeds if and only if it is blank or well-formed; a blank line adds nothing, a circle line appends its circle, a slider line its slider, and a malformed line throws its parse exception |
| OsuFormat.HitsAppend | OsuParser.java:81-106 | the circles and sliders of a run of lines are the first line's followed by the rest's |
| OsuFormat.SectionStep | OsuParser.java:61-106 | outside the timing section the beat length is kept and the section stays closed; the hit-object section is never left; at most one section flag is up |
| OsuParser.Step | OsuParser.java:57-106 | headers are recognised only outside the timing and hit-object sections; the hit-object section is absorbing; only the timing section changes the beat length |
| OsuParser.Run | OsuParser.java:56-107 | the read loop keeps at most one section flag up |
| OsuParser.Parse | OsuParser.java:44-143 | parse succeeds if and only if the read loop does, and otherwise throws the loop's exception (only IOException is caught) |
| OsuParser.RunAppend | OsuParser.java:56-107 | reading a + b is reading a and then b from where a stopped; an exception in a skips b |
| OsuParser.HitsAbsorbing | OsuParser.java:80-106 | once in `[HitObjects]` the parser stays there and the beat length is fixed |
| OsuParser.KeyedLine | OsuParser.java:62-66 | a line with one key prefix starts with neither another key nor `[` and is not a header |
| OsuParser.DifficultyLine | OsuParser.java:57-61 | inside `[Difficulty]`, any line but the two headers takes the difficulty branch |
| OsuParser.ApproachRateLine | OsuParser.java:61-63 | `ApproachRate: a` inside `[Difficulty]` sets approachTime to 1800 − 120·a and nothing else |
| OsuParser.SliderMultiplierLine | OsuParser.java:64-65 | `SliderMultiplier: m` inside `[Difficulty]` sets the multiplier to m and nothing else |
| OsuParser.DifficultyClosed | OsuParser.java:66 | any other `[` line inside `[Difficulty]` ends the section and changes nothing else |
| OsuParser.FirstTimingPointSetsBeat | OsuParser.java:73-76 | the first uninherited timing point sets the beat length and closes the timing section |
| OsuParser.BeatLengthSettled | OsuParser.java:69-79 | after the timing section closes, the beat length cannot change without a new `[TimingPoints]` header, so later timing lines are ignored |
| OsuParser.DifficultyHeaderInTiming | OsuParser.java:57-70 | inside `[TimingPoints]` a `[Difficulty]` header is not recognised and only closes the timing section |
| OsuParser.HeaderInHitsThrows | OsuParser.java:80-84 | inside `[HitObjects]` a section header is read as a hit-object line and throws NumberFormatException |
| OsuParser.HitsInOrder | OsuParser.java:81-106 | inside `[HitObjects]` a run of blank and well-formed hit-object lines, circles and sliders mixed, appends exactly their circles and their sliders, each in file order |
| OsuParser.MalformedHitLineAborts | OsuParser.java:84-110 | a malformed hit-object line makes parse throw that line's exception, whatever follows it |
| OsuParser.HitLineThrows | OsuParser.java:82-86 | inside `[HitObjects]` a malformed line ends the read loop with its exception |
| OsuParser.StepKeepsTiming | OsuParser.java:57-106 | a line that is not an `ApproachRate:` line, a `SliderMultiplier:` line or an uninherited timing line changes none of the three timing values, in any section |
| OsuParser.DefaultsWithoutSetters | OsuParser.java:45-47 | with no such setter line, parse returns approachTime 1500, sliderMultiplier 1.4 and beatLength 500, whatever section headers the file has |
| OsuParser.NoSettersKeepTiming | OsuParser.java:56-107 | from any state, a run of lines without setters leaves the three timing values as they were |
| SliderLaser.New | SliderLaser.java:17-22 | fullOpacityTime is the start time; appearTime and endTime are within 1 ms of start − approachTime and start + duration when in long range; an infinite duration ends at Long.MAX_VALUE and NaN at 0 |
| SliderLaser.NewOrdered | SliderLaser.java:17-22 | for a non-negative approach time and duration, appearTime ≤ fullOpacityTime ≤ endTime |
| SliderLaser.Opacity | SliderLaser.java:24-29 | opacity lies in [0, 1]; it is 0 before appearTime and 1 from fullOpacityTime on |
| SliderLaser.OpacityRamp | SliderLaser.java:25-27 | on the ramp the divisor is positive and the opacity is the elapsed fraction of the span |
| SliderLaser.OpacityMonotone | SliderLaser.java:24-29 | opacity never decreases with time |
| SliderLaser.BeyondOnRay | SliderLaser.java:43-47 | the extension point lies on the segment's line, on the far side of the end point, at exactly distance ext from it |
| SliderLaser.Curve | SliderLaser.java:53-61 | the body has one quadTo per point but the last, with that point as control and the midpoint with the next as end |
| SliderLaser.Extension | SliderLaser.java:40 | the extension is 1.5 times the larger screen dimension |
| SliderLaser.Path | SliderLaser.java:49-71 | for n points the path is a moveTo, n−1 quadTos, a lineTo the last point and one more lineTo: n+2 commands |
| SliderLaser.PathExtensions | SliderLaser.java:64-69 | the path starts and ends at the extension points beyond the first and last points, along the first and last segments |
| SliderLaser.PathBody | SliderLaser.java:54-61 | the path's quadTos run through the control points to consecutive midpoints |
| SliderLaser.Render | SliderLaser.java:31-75 | render draws if and only if appearTime ≤ elapsed ≤ endTime and there are at least 2 points, with the current opacity and n+2 path commands |
| Geometry.Midpoint | SliderLaser.java:58-59 | the midpoint is equally far from both points along each axis |
| SpinnerManager.New | SpinnerManager.java:20-30 | a new spinner has base angle 0 and its last emission one interval before its start time |
| SpinnerManager.Next | SpinnerManager.java:44-58 | a burst (SpinnerManager.Fires: inside the window and at least fireInterval after the last one) advances the base angle by exactly angleStep and records the frame time; otherwise the emitter is unchanged |
| SpinnerManager.AnglesEvenlySpaced | SpinnerManager.java:47 | neighbouring bullets of a burst are 2π/count apart, and bullet count would be bullet 0 one turn later |
| SpinnerManager.Aim | SpinnerManager.java:47-53 | every burst bullet starts at the emitter and keeps its size |
| SpinnerManager.AimVelocity | SpinnerManager.java:48-53 | bullet i's velocity covers the radius in direction baseAngle + i·2π/count, scaled by bulletSpeed, in twice the fire interval |
| SpinnerManager.Draw | SpinnerManager.java:50-51 | the k-th bullet drawn is the pool's k-th while there is one and a new bullet of the given size after that; the pool left is the undrawn suffix |
| SpinnerManager.Burst | SpinnerManager.java:45-55 | a burst has exactly count bullets (none for count ≤ 0); bullet k is the k-th drawn, aimed at angle k; the pool loses its first min(count, size) bullets |
| SpinnerManager.Update | SpinnerManager.java:40-60 | the spinner is alive unless the clock is past endTime; nothing happens outside the window or within an interval of the last burst; a burst appends count bullets after the existing ones and shrinks the pool by min(count, pool size) from the front |
| SpinnerManager.FirstFrameFires | SpinnerManager.java:20-44 | the first frame inside the window always fires a burst |
| SpinnerManager.RunSpinner | SpinnerManager.java:56-57 | frames change only the base angle and the last-emission time |
| SpinnerManager.BurstsSpaced | SpinnerManager.java:41-57 | all bursts fire inside the window, each at least fireInterval after the one before (the first after the initial lastEmit) |
| SpinnerManager.RotationPerBurst | SpinnerManager.java:56 | after any frames the base angle has grown by angleStep times the number of bursts |
| SpinnerManager.LastEmitIsLastBurst | SpinnerManager.java:57 | lastEmit is always the time of the last burst |
| SpinnerManager.SixBurstsInFiveHundredMs | SpinnerManager.java:40-60 | a 0–500 ms window with a 100 ms interval, updated every 100 ms, fires six bursts, the last at the end time itself |
| Bomb.Init | Bomb.java:88-110 | init records the screen size, restores 5 bombs, and leaves no bomb active |
| Bomb.KeepFar | Bomb.java:123-128 | every bullet left after a blast is strictly outside the radius of half the screen width |
| Bomb.Kept | Bomb.java:124-128 | one bullet survives the filter if and only if it is outside the radius |
| Bomb.KeepFarMembers | Bomb.java:123-128 | a bullet survives if and only if it was present and lies outside the radius |
| Bomb.KeepFarAppend | Bomb.java:124-128 | the filter works piecewise, so surviving bullets keep their original relative order |
| Bomb.KeepFarAllFar | Bomb.java:123-128 | a list of bullets all outside the radius is kept whole |
| Bomb.KeepFarIdempotent | Bomb.java:123-128 | a second blast at the same centre removes nothing more |
| Bomb.Activate | Bomb.java:115-131 | with no bombs left or one already active nothing changes; otherwise one bomb is used, the time and centre are recorded, and exactly the bullets within the radius are removed |
| Bomb.ActivateUsesOneBomb | Bomb.java:116-117 | the bomb count never goes negative and drops by one exactly when the activation succeeds |
| Bomb.Update | Bomb.java:134-139 | update changes only the active flag, which stays on if and only if it was on and fewer than 4000 ms have passed |
| Bomb.ActiveForDuration | Bomb.java:115-144 | after a successful activation, isActive holds at a later update if and only if fewer than 4000 ms have passed |
| Bomb.FlashEnvelope | Bomb.java:156-159 | within the duration the flash opacity (Bomb.FlashAlpha) lies in [0, 0.5], is 0 at both ends, peaks at 0.5 at the midpoint and is symmetric about it |
| Bomb.FlashRisesThenFalls | Bomb.java:156-159 | the opacity rises through the first half and falls through the second |
| Bomb.Flash | Bomb.java:155-161 | no flash without an active bomb or an image; within the duration the envelope's opacity; the composite throws IllegalArgumentException exactly when the opacity is out of [0, 1], before the start or after the end |
| Config.AddDefault | Config.java:49-55 | addDefault reports true if and only if the key was absent, never overwrites an existing value, and gives a missing key the default |
| Config.AddDefaults | Config.java:28-38 | applying all defaults adds exactly their keys, keeps every existing value, and reports a change if and only if some key was missing |
| Config.AddDefaultsValue | Config.java:28-38 | a missing key receives the value of its first default |
| Config.DefaultKeysDistinct | Config.java:28-38 | the eleven default keys are pairwise distinct |
| Config.LoadProperties | Config.java:18-47 | after loading, all eleven default keys are present and existing values are unchanged; the file is rewritten if and only if some default key was missing |
| Config.LoadFillsDefaults | Config.java:28-38 | every default key the file lacks gets its listed default value |
| Config.LoadTwice | Config.java:18-47 | loading is idempotent: the properties a load produces load back unchanged and are not rewritten |
| Config.KeyName | Config.java:80-85 | only strings of two or more letters starting with L, R, U, D or S can be key names |
| Config.Resolve | Config.java:80-91 | a key name gives its VK code; one character gives that character's code; otherwise a parsable int is the code itself and anything else is its first character's code; empty input throws StringIndexOutOfBounds |
| Config.GetKeyCode | Config.java:78-92 | getKeyCode throws exactly when the trimmed value is empty (missing or blank); a single character gives its upper-cased character's code |
| Config.BlankKeyThrows | Config.java:79-90 | a key binding throws if and only if the property consists only of characters trim removes |
| Config.NameKey | Config.java:79-85 | a key name in any mix of cases resolves to its VK code |
| Config.KeyNamesIgnoreCase | Config.java:79-85 | a property holding `left`, `Left` or `LEFT` (and likewise the other four names) binds that name's VK code |
| Config.ResolveNumber | Config.java:88 | the decimal form of an int of two or more characters resolves to that int |
| Config.NumericKey | Config.java:88 | a number of two or more characters is taken as the key code itself, after trim and upper-casing |
| Config.NumericKeyCode | Config.java:78-92 | a property holding such a number binds exactly that key code |
| Config.LetterKey | Config.java:87 | a single upper-case letter resolves to that letter's key code |
| Config.LetterBinding | Config.java:78-87 | a property holding one upper-case letter binds that letter's key |
| Config.FreshDefault | Config.java:28-38 | in a fresh configuration every default key reads back as its default |
| Config.DefaultMovementKey | Config.java:34-37 | in a fresh configuration the movement keys are bound to A, D, W and S |
| Config.TexturePath | Config.java:57-63 | a non-empty trimmed playerTexture is used; otherwise a non-empty trimmed hitboxTexture if that key exists; no texture when neither gives a path |
| JavaLang.TrimEmpty | Config.java:79 | a string trims to empty if and only if all its characters are ≤ U+0020 |
| JavaLang.Split | OsuParser.java:83 | split on one character gives the input when there is no separator, and otherwise the separated fields with trailing empty ones removed |
| JavaLang.JoinSplitAll | OsuParser.java:83 | splitting loses nothing: the fields joined with the separator give the line back |
| JavaNumbers.ParseIntegral | OsuParser.java:84-86 | parseInt and parseLong accept only an optional sign followed by at least one ASCII digit, within the type's range; anything else is a NumberFormatException |
| JavaNumbers.ParseShow | Config.java:88 | parsing the decimal form of a number in range gives the number back |
| JavaNumbers.ParseDoubleDigits | OsuParser.java:91 | parseDouble (JavaNumbers.ParseDouble) reads a signed digit string as its integer value |
| JavaNumbers.LongOf | SliderLaser.java:20-21 | the `(long)` cast truncates toward zero and saturates at the bounds of long; on doubles (JavaNumbers.LongOfDbl) NaN gives 0 and the infinities give the bounds |
| JavaNumbers.Quotient | Game.java:221 | a double division by zero gives NaN for 0/0 and otherwise an infinity with the numerator's sign |

## Left out

- Drawing, sound, threads and input are not modelled: Graphics2D, images, fonts, audio clips, the ffmpeg fallback, `getAudioFilename`, `Game.run`, `renderFrame` and the `KeyListener` methods. Held keys and the clock are parameters of `Game.Update`, and the pause flag is a state field whose toggle is not modelled.
- Game.Update, Game.SpawnCircles, Game.SpawnScheduled, Game.CircleBullet, Game.SliderBullet: require a non-zero approachTime. With zero the source divides by zero and gets infinite or NaN velocities; only the slider-duration division models IEEE infinities.
- Bullets.Velocity, Bullets.InitAt, Bullets.InitRandom: require a non-zero approachTime, for the same reason.
- SpinnerManager.Update, SpinnerManager.Burst, SpinnerManager.Aim: require a non-zero fireInterval, for the same reason; `fireInterval * 2` is not wrapped at 64 bits.
- SliderLaser.Render, SliderLaser.Path: require the first and last segments to have positive length (the value Math.hypot returns). For a degenerate segment the source divides by zero and draws NaN coordinates.
- JavaNumbers.ParseDouble: decimal notation only. NaN, Infinity, hexadecimal forms and IEEE rounding are not modelled, and the value is the exact decimal.
- Floating point in general is real arithmetic: float alpha values, `2 * Math.PI / count`, and the `(long)`-to-double conversions are exact. The `(long)` casts themselves are modelled.
- JavaLang.ToUpperCase: upper-cases ASCII letters only.
- Int overflow is not modelled for the player coordinates, lives, screen sizes and key codes.
- Math.random, cos, sin and KeyEvent.getExtendedKeyCodeForChar are parameters. In Bullets.InitRandom the random draw is `u`; in Game.Update the i-th circle's draw is `random(i)`.
- The gameOver dialog, with its retry and exit, is not modelled. Only the `running` flag is.
- Config: reading and writing `config.properties` and loading the texture image are not modelled. The properties as read are a parameter. The numeric getters (`getPlayerSpeed` etc.) are not modelled; Game receives their values as `Game.Settings`.
- SpinnerManager: the configuration getters it calls, and `Bullet.setSpinner`, are not in Config.java or Bullet.java. The spinner's tuning values and the burst count are parameters, and the spinner tag is not modelled.
- Bomb.setBombVolume is not modelled: it calls itself unconditionally and never returns. The bomb sound, the HUD text and the drawn image are not modelled either; the flash opacity is.
- Bomb's bullet, laser and spinner lists are not fields of the model; `Bomb.Activate` takes and returns the bullet list.
- Bomb.Activate does not pause spawning or collisions, and nothing catches up afterwards: the code has neither, so the model has neither.
- A 0–500 ms spinner updated every 100 ms fires six bursts, the last at its end time (SpinnerManager.SixBurstsInFiveHundredMs).
- A bullet is removed once it is past an edge by more than its size, which is its diameter.
- Game.parseOsu's audio loading is not modelled.
- Game.SetMap does not model `startMusic()` or `startTime = System.currentTimeMillis()`; the clock is the `elapsed` parameter of Game.Update.
- JavaNumbers.ParseIntegral: accepts only the ASCII digits 0–9. Integer.parseInt and Long.parseLong also accept the other Unicode decimal digits (for example Arabic-Indic digits), which the model rejects with a NumberFormatException.
- JavaNumbers.Quotient: reals have no negative zero, so a division by zero gets the sign of the numerator only. In Java `x / -0.0` has the opposite sign; a `SliderMultiplier: -0` line makes the pass duration of a slider with positive pixel length −Infinity and every spawn offset Long.MIN_VALUE, where the model gives +Infinity and Long.MAX_VALUE.
