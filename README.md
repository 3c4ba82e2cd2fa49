# LOCK IN particle background and quotes library, in Dafny

This project models the core of the "LOCK IN" goal page. It has two parts.

The first is the animated particle background in `components/particle-background.tsx`:
- the words "LOCK" and "IN" are drawn on a canvas and read back as an RGBA mask;
- the particle field is seeded from text pixels of the mask;
- every animation frame moves each particle, either pushed away from the pointer or eased back to a waving anchor;
- the mouse and touch handlers keep the pointer state;
- every window resize reseeds the field at the new size; across the 768 px mobile breakpoint it also flips the device class and reseeds twice;
- setup and cleanup start and stop the animation loop.

The second part is the quotes library in `lib/quotes.ts`: the random quote, the Fisher-Yates image shuffle, and `calculateDaysLeft`. The form's string checks are modelled as well: the trimmed-field check, the shortened share text and the sanitised download file name.

Pure code is modelled as functions, with lemmas about them. The four modules below hold the engine's logic as functions:
- `Seeding` holds the particle count, the pixel search and the attempt loop.
- `Motion` holds the per-frame update.
- `Pointer` holds the event state machine.
- `Reseeding` holds `createInitialParticles` as a function of the state it reads and writes.

Code that loops or updates state in place is imperative Dafny:
- `Engine.FindTextPixel`, `Engine.SeedText` and `Engine.AnimateParticles` are the loops of `createParticle`, `createInitialParticles` and `animate`. Each is proved equal to the matching function.
- `Engine.ParticleEngine` is a class whose fields are the effect's state:
  - the two canvas dimensions and `localIsMobile`;
  - `particles`, `textImageData` and `textMetrics`;
  - the pointer refs and the clock;
  - the animation-frame bookkeeping.
  The effect's closures are its methods.
- `Quotes.Shuffle` swaps in place in a fresh array.

Numbers and host calls are modelled as follows:
- JavaScript numbers are exact reals, and array indices and canvas dimensions are `nat`.
- `Math.random()` is an injected stream `draw: nat -> real` of values in [0, 1). Every specification function takes the index of its first call and returns the index of the next unused one.
- `Math.sqrt`, `Math.sin`, `Math.cos` and `Math.atan2` are uninterpreted. `RealMath.Sound` gives them only these facts:
  - a length is non-negative, and zero only at the origin;
  - sin² + cos² = 1;
  - (cos, sin) of `atan2(dy, dx)` times the length gives back (dx, dy);
  - sin 0 = 0, cos 0 = 1 and atan2(0, 0) = 0.
- Drawing the words and calling `getImageData` is a `Renderer` oracle. Given the canvas size and the layout, it returns the pixel bytes and the `measureText` widths of the two words. It returns `None` when `getImageData` throws.
- The pointer position `(-Infinity, -Infinity)` is `None`.

The day arithmetic of `calculateDaysLeft` follows section 21.4 of ECMA-262:
- `Date.UTC` with `MakeDay`'s month carry and date overflow;
- two-digit years read as 19xx;
- `TimeClip`.

`parseInt` follows section 19.2.5 of ECMA-262: leading white space, sign, the `0x` prefix, and the longest digit run.

## Model

The line numbers refer to these files: `components/particle-background.tsx` and `lib/quotes.ts`.

| member | source | states |
|---|---|---|
| Glyph.Layout | components/particle-background.tsx:420-433 | definition: the metrics createTextImageData computes; the pair of words plus the gap is centred horizontally and the baseline sits at 0.48 of the height plus a third of the font size (given meaning by LayoutSeparatesWords) |
| Glyph.IsPixelInSecondWord | components/particle-background.tsx:450-454 | without metrics no pixel is in "IN"; with metrics a pixel is in "IN" exactly when x is at or past startX + lockWidth + textSpacing / 2 |
| Glyph.SecondWordMonotone | components/particle-background.tsx:450-454 | once a column is in the second word, every column to its right is too |
| Glyph.LayoutSeparatesWords | components/particle-background.tsx:420-433 | with the layout of createTextImageData, the pair of words is centred on the canvas, every column of "LOCK" tests as the first word, and every column from where "IN" is drawn tests as the second |
| Glyph.RowStartIsProduct | components/particle-background.tsx:469 | the byte offset of row y is y * width * 4, so the alpha index is (y * width + x) * 4 + 3 |
| Glyph.AcceptedMeansNonEmpty | components/particle-background.tsx:469-471 | a pixel passes the alpha > 128 test only if its alpha index lies inside a width * height * 4 mask, which is then non-empty |
| Seeding.ParticleCount | components/particle-background.tsx:502-505 | the target particle count always lies in [900, 10000] |
| Seeding.ParticleCountMonotone | components/particle-background.tsx:502-505 | for a fixed device class, a larger canvas area never gets fewer particles |
| Seeding.MobileAtLeastDesktop | components/particle-background.tsx:502-505 | at the same area, the mobile count is at least the desktop count |
| Seeding.FindPixel | components/particle-background.tsx:465-490 | definition: the attempt loop of createParticle, up to 150 attempts of two draws each, ending at the first pixel whose alpha exceeds 128 (see FindPixelStep and FindPixelSound) |
| Seeding.FindPixelStep | components/particle-background.tsx:466-471 | one attempt draws x and then y; it stops on a pixel whose alpha exceeds 128 and otherwise goes on to the next attempt two draws later |
| Seeding.FindPixelSound | components/particle-background.tsx:466-490 | a found pixel lies inside the canvas and passes the alpha test; the search uses at most 150 attempts of two draws each, and a miss uses exactly the remaining attempts |
| Seeding.NewParticle | components/particle-background.tsx:472-487 | definition: the particle built at a found pixel from four draws, with the device-dependent size and amplitude ranges and the word-dependent accent colour (see NewParticleSound) |
| Seeding.TryCreateParticle | components/particle-background.tsx:456-491 | definition: createParticle, null without a mask or metrics or when the search misses, otherwise NewParticle at the found pixel (see TryCreateParticleOutcome and TryCreateParticleSound) |
| Seeding.TryCreateParticleOutcome | components/particle-background.tsx:461-491 | createParticle returns null when the search misses; otherwise it builds the particle at the found pixel from the next four draws |
| Seeding.TryCreateParticleSound | components/particle-background.tsx:461-491 | without a mask or metrics nothing is drawn and null is returned; at most 304 draws are used; every particle returned is anchored on a text pixel inside the canvas, with x == baseX, y == baseY, the accent colour of its word, and size, amplitude, speed and phase in their drawn ranges |
| Seeding.NewParticleSound | components/particle-background.tsx:472-487 | a particle built at (x, y) starts on its anchor, white, with "#FF9900" as its accent exactly when it is in the second word and "#00DCFF" otherwise, and with its parameters in range |
| Seeding.SeedLoop | components/particle-background.tsx:507-515 | definition: the seeding for-loop from attempt i with the particles so far, one createParticle call per iteration (see SeedLoopStep, SeedLoopDone and SeedLoopSound) |
| Seeding.SeedParticles | components/particle-background.tsx:500-515 | definition: the seeding loop started from an empty list with particleCount as its target (see SeedParticlesSound) |
| Seeding.SeedLoopStep | components/particle-background.tsx:509-515 | one iteration calls createParticle once and appends its particle, if any |
| Seeding.SeedLoopDone | components/particle-background.tsx:509 | the loop stops once the target count exists or 10 x target attempts were made |
| Seeding.SeedLoopSound | components/particle-background.tsx:507-515 | the loop only appends; it ends with at most the target count and at most 10 x target attempts, stops early only at the target, and every particle comes from the mask |
| Seeding.SeedParticlesSound | components/particle-background.tsx:500-515 | seeding from an empty list ends with createdCount <= particleCount after at most 10 x particleCount attempts; fewer particles only when every attempt was used; all particles are anchored on text pixels |
| Reseeding.Reseed | components/particle-background.tsx:493-519 | definition: createInitialParticles on the state it reads and writes; a failed getImageData drops only the mask, a successful one replaces mask, metrics and particles (see the three lemmas below) |
| Reseeding.ReseedSound | components/particle-background.tsx:493-519 | after a successful reseed, the mask and metrics are those of the current canvas and layout; the particles are those of SeedParticles, at most the target count after at most 10 x target attempts, fewer only when every attempt was used, and all anchored on text pixels |
| Reseeding.ReseedFailureKeepsParticles | components/particle-background.tsx:495-499 | when getImageData fails, only the mask is dropped; the particles, the metrics and the random stream are unchanged |
| Reseeding.ReseedForgetsOldParticles | components/particle-background.tsx:500 | a successful reseed does not depend on the particles it replaces |
| Motion.InteractionRadius | components/particle-background.tsx:529-530 | the interaction radius is positive: 110 on mobile, 160 otherwise |
| Motion.IsInteracting | components/particle-background.tsx:542-546 | a particle interacts exactly when a pointer exists and lies closer than the radius; the touch flag never decides it |
| Motion.Force | components/particle-background.tsx:550 | definition: (R - d) / R for the interaction radius R (see ForceInRange) |
| Motion.ForceInRange | components/particle-background.tsx:550 | within the radius, the force (R - d) / R lies in (0, 1], and it is 1 at the pointer |
| Motion.Step | components/particle-background.tsx:548-565 | one frame changes only the particle's x and y |
| Motion.FrameColor | components/particle-background.tsx:545-560 | the frame's colour is the accent inside the radius of an existing pointer and the base colour otherwise |
| Motion.StepAll | components/particle-background.tsx:532-571 | a frame keeps the number of particles |
| Motion.StepAllKeepsIdentity | components/particle-background.tsx:532-571 | a frame leaves every particle's anchor, size, colours, word, speed, phase and amplitude unchanged |
| Motion.WaveTarget | components/particle-background.tsx:536-539 | definition: the waving target, the anchor offset by amplitude times (sin, cos) of time * speed + angle (see WaveOffset, WaveTargetOnCircle and WaveAtRest) |
| Motion.Repel | components/particle-background.tsx:548-558 | definition: the repulsion branch, a push of 65 x force along the direction from the particle to the pointer, negated and eased by 0.18 (see RepelDisplacement, RepelPushesAway and RepelStepLength) |
| Motion.Return | components/particle-background.tsx:561-564 | definition: the return branch, easing each coordinate by 0.07 towards the wave target (see ReturnEases and ReturnFixesTarget) |
| Motion.ReturnEases | components/particle-background.tsx:561-564 | away from the pointer, each coordinate moves 7% of the way to the wave target: it stays between the old value and the target, and its offset shrinks to 93% |
| Motion.ReturnFixesTarget | components/particle-background.tsx:563-564 | a particle already on its wave target stays put |
| Motion.WaveTargetOnCircle | components/particle-background.tsx:536-539 | the wave target lies on the circle of radius amplitude around the anchor |
| Motion.WaveOffset | components/particle-background.tsx:536-539 | the wave target is the anchor plus (sin, cos) of time * speed + angle, times the amplitude |
| Motion.WaveAtRest | components/particle-background.tsx:536-539 | with amplitude 0, the wave target is the anchor |
| Motion.RepelDisplacement | components/particle-background.tsx:550-558 | a repelled particle moves by -(cos, sin)(atan2(dy, dx)) x 11.7 x force |
| Motion.RepelScalesOffset | components/particle-background.tsx:550-558 | when atan2 gives the direction to the pointer, the step moves the particle straight away from the pointer, scaling its offset by (d + 11.7 x force) / d |
| Motion.RepelAway | components/particle-background.tsx:550-558 | for a pointer within the radius and off the particle, d > 0, the force lies in (0, 1], and the particle is pushed straight away |
| Motion.RepelLength | components/particle-background.tsx:550-558 | for a unit direction, the repulsion step has length 11.7 x force |
| Motion.Direction | components/particle-background.tsx:542-551 | off the origin, (dx, dy) has positive length and is that length times (cos, sin) of atan2(dy, dx) |
| Motion.RepelPushesAway | components/particle-background.tsx:546-558 | an interacting particle off the pointer is pushed straight away from it, with force in (0, 1] |
| Motion.RepelStepLength | components/particle-background.tsx:546-558 | an interacting particle moves exactly 0.18 x 65 x force in the frame, which is at most 11.7 px |
| Motion.AtPointerFullForce | components/particle-background.tsx:542-558 | a pointer exactly on a particle pushes it 11.7 px to the left |
| Motion.NoPointerNoInteraction | components/particle-background.tsx:542-546 | with the pointer at (-Infinity, -Infinity), every particle eases back and keeps its base colour, whatever the touch flag |
| Pointer.Handle | components/particle-background.tsx:589-631 | the pointer transitions: a mouse move records the point; a touchstart records its first point and raises the touch flag exactly when it does not start on the content; a touchmove records its first point and keeps the flag; end and cancel reset to no touch and no point |
| Pointer.HandleKeepsConsistent | components/particle-background.tsx:589-631 | every handler preserves "a touch in progress has a position" |
| Pointer.Replay | components/particle-background.tsx:589-649 | definition: the pointer state after the attached listeners handle a sequence of events in order (see ReplayKeepsConsistent and ReleasedUntilPointed) |
| Pointer.ReplayKeepsConsistent | components/particle-background.tsx:643-649 | any sequence of window events preserves that invariant |
| Pointer.MovesKeepTouchFlag | components/particle-background.tsx:617-626 | mouse moves and touch moves never change the touch flag |
| Pointer.PassThroughTouchRecordsPoint | components/particle-background.tsx:591-616 | a touch starting on the content card leaves the flag down but records its point |
| Pointer.PassThroughTouchStillRepels | components/particle-background.tsx:591-616 | such a touch still repels the particles within the radius of its point |
| Pointer.ReleasedPointerNeverInteracts | components/particle-background.tsx:627-631 | after touchend or touchcancel no particle interacts |
| Pointer.ReleasedUntilPointed | components/particle-background.tsx:627-631 | once released, the pointer stays released until a mouse move or a touch with points |
| Engine.FillOf | components/particle-background.tsx:570 | the square drawn for a particle is centred on its position and size pixels wide |
| Engine.SamplePixel | components/particle-background.tsx:467-471 | one attempt returns a pixel exactly when the specified search stops there; otherwise it continues like the search's next attempt two draws later |
| Engine.FindTextPixel | components/particle-background.tsx:466-490 | the attempt loop returns the result of the search function |
| Engine.CreateParticle | components/particle-background.tsx:456-491 | createParticle returns the specified attempt, so TryCreateParticleSound applies to it |
| Engine.SeedText | components/particle-background.tsx:507-515 | the seeding loop returns the specified loop result, so SeedLoopSound applies to it |
| Engine.Paint | components/particle-background.tsx:568-570 | a frame draws one square per particle |
| Engine.AnimateParticles | components/particle-background.tsx:532-571 | the per-particle loop moves every particle by Step and paints each at its new position, in the colour it had before it moved |
| Engine.ParticleEngine.Mount | components/particle-background.tsx:633-649 | setup: the layout follows the window width, the canvas takes the window size, and the field is seeded once; a frame is pending exactly when there are particles; the pointer is released; the listeners are attached |
| Engine.ParticleEngine.RequestFrame | components/particle-background.tsx:573 | requestAnimationFrame: a fresh id becomes animationFrameId and is pending; nothing else changes |
| Engine.ParticleEngine.CancelFrame | components/particle-background.tsx:580 | cancelAnimationFrame: the current frame is no longer pending; nothing else changes |
| Engine.ParticleEngine.CreateInitialParticles | components/particle-background.tsx:493-520 | the new scene is the Reseed of the old one; sampling fails exactly when getImageData throws; the console report carries created == particles.length, the target count, and a low-density flag that is true exactly when created < target / 2 |
| Engine.ParticleEngine.UpdateCanvasSize | components/particle-background.tsx:395-406 | the canvas takes the window size; within a device class nothing else changes; across the breakpoint the class flips, and handleResize reseeds and reschedules |
| Engine.ParticleEngine.HandleResize | components/particle-background.tsx:577-586 | handleResize reseeds once within a device class and twice across the breakpoint, with the nested call at most one level deep; the frame cancelled at the start is no longer pending, and a new frame is pending exactly when there are particles; the pointer and clock are unchanged |
| Engine.ParticleEngine.Animate | components/particle-background.tsx:523-574 | a frame sets the clock to timestamp x 0.001 and moves every particle by StepAll, using the pointer as the frame started; it draws Paint, and the next frame replaces the one that ran; the mask, metrics and pointer are unchanged |
| Engine.ParticleEngine.Move | components/particle-background.tsx:589 | handleMove sets the pointer position and nothing else |
| Engine.ParticleEngine.HandleMouseMove | components/particle-background.tsx:590 | the mousemove listener makes the Pointer.Handle transition and changes nothing else |
| Engine.ParticleEngine.HandleTouchStart | components/particle-background.tsx:591-616 | the touchstart listener makes the Pointer.Handle transition, with or without pass-through, and changes nothing else |
| Engine.ParticleEngine.HandleTouchMove | components/particle-background.tsx:617-626 | the touchmove listener makes the Pointer.Handle transition and changes nothing else |
| Engine.ParticleEngine.HandleTouchEnd | components/particle-background.tsx:627-631 | the touchend and touchcancel listener releases the pointer and changes nothing else |
| Engine.ParticleEngine.Unmount | components/particle-background.tsx:652-660 | cleanup detaches the listeners and leaves no frame pending; the scene and pointer are unchanged |
| Random.PickInRange | lib/quotes.ts:84 | Math.floor(Math.random() * n) lies in [0, n) |
| Random.PickSelects | lib/quotes.ts:47 | the draw k / n selects index k |
| Quotes.GetRandomQuote | lib/quotes.ts:46-49 | the result is one of the motivational quotes |
| Quotes.EveryQuoteReachable | lib/quotes.ts:46-49 | every quote is returned for some value of Math.random() |
| Quotes.Swap | lib/quotes.ts:85 | the destructuring swap keeps the length of the list |
| Quotes.SwapExchanges | lib/quotes.ts:85 | the destructuring swap exchanges positions i and j and leaves every other position alone |
| Quotes.SwapPermutes | lib/quotes.ts:85 | a swap keeps the multiset of elements |
| Quotes.ShuffleFrom | lib/quotes.ts:83-86 | definition: the shuffle loop from index i down to 1, each iteration drawing j = floor(random * (i + 1)) and swapping positions i and j (see ShuffleFromPermutes, SwapPartnersInRange and ShuffleFromKeepsTail) |
| Quotes.FisherYates | lib/quotes.ts:81-88 | definition: the whole shuffle of a copy, starting at the last index (see FisherYatesPermutes) |
| Quotes.ShuffleFromPermutes | lib/quotes.ts:83-86 | the shuffle loop from any index keeps the length and the multiset |
| Quotes.FisherYatesPermutes | lib/quotes.ts:81-88 | the whole shuffle is a permutation of its input |
| Quotes.SwapPartnersInRange | lib/quotes.ts:83-85 | at every iteration i, from length - 1 down to 1, the drawn partner j lies in [0, i], so every swap is in bounds |
| Quotes.ShuffleFromKeepsTail | lib/quotes.ts:83-86 | positions above the loop's current index are never touched again |
| Quotes.Shuffle | lib/quotes.ts:81-88 | the in-place loop over a copy returns the Fisher-Yates result; the input sequence is only read; it uses one draw per iteration |
| Quotes.ShuffleImages | lib/quotes.ts:81-88 | shuffleImages returns a permutation of the 27 images; the images list itself is left as declared |
| JsString.Trim | components/particle-background.tsx:701-703 | definition: String.prototype.trim, TrimEnd after TrimStart (see TrimSlice, TrimEmptyIffBlank and TrimIdempotent) |
| JsString.TrimStart | components/particle-background.tsx:701-703 | removes exactly the leading white space: the result is a suffix of the input, what was cut is white space, and the result does not start with white space |
| JsString.TrimEnd | components/particle-background.tsx:701-703 | removes exactly the trailing white space, symmetrically |
| JsString.TrimSlice | components/particle-background.tsx:701-703 | trim returns a slice of its input, with white space only cut from the two ends and none left at either end |
| JsString.TrimEmptyIffBlank | components/particle-background.tsx:705 | a trimmed field is empty exactly when the input is all white space |
| JsString.TrimIdempotent | components/particle-background.tsx:701-703 | trimming twice is trimming once |
| JsString.Split | lib/quotes.ts:93 | split always yields at least one piece |
| JsString.SplitPiecesFree | lib/quotes.ts:93 | no piece contains the separator |
| JsString.SplitCount | lib/quotes.ts:93-94 | the number of parts is the number of '-' plus one |
| JsString.SplitJoin | lib/quotes.ts:93 | joining the parts with the separator gives the string back |
| JsString.JoinSplit | lib/quotes.ts:93 | splitting separator-free pieces joined by the separator gives the pieces back |
| JsString.ParseInt | lib/quotes.ts:96 | definition: parseInt with radix left out, leading white space skipped, then sign, optional 0x prefix and the longest digit run; no digits gives NaN (see DigitRun, ParsePadded and ParseIntSkipsWhiteSpace) |
| JsString.DigitRun | lib/quotes.ts:96 | parseInt reads the longest prefix of digits in the radix |
| JsString.ParsePadded | lib/quotes.ts:96 | parseInt reads back a zero-padded decimal numeral followed by nothing, or by a character that is neither letter nor digit |
| JsString.ParseIntSkipsWhiteSpace | lib/quotes.ts:96 | leading white space never changes what parseInt reads |
| JsString.DecimalString | components/particle-background.tsx:134 | the decimal numeral of Date.now() is non-empty and made of digits |
| DaysLeft.DayFromYear | lib/quotes.ts:96 | definition: the day number of 1 January of a year, with the leap-year rule of divisors 4, 100 and 400 (see DayFromYearStep and DayFromYearMonotone) |
| DaysLeft.MakeDay | lib/quotes.ts:96 | definition: the day number of a date, the month carried into the year and the date allowed to run past the month (see MonthCarry, MonthRollover and DayOverflowRollsOver) |
| DaysLeft.FullYear | lib/quotes.ts:96 | definition: Date.UTC reads years 0 to 99 as 1900 to 1999 (see TwoDigitYear) |
| DaysLeft.TimeClip | lib/quotes.ts:97 | definition: a time beyond 8.64e15 ms either side of the epoch is NaN (see CalendarDateRepresentable) |
| DaysLeft.DateUTC | lib/quotes.ts:96-99 | definition: Date.UTC(year, month, date) as TimeClip of MakeDay times 86400000 (see DateUTCValue and SameDayUTC) |
| DaysLeft.CalculateDaysLeft | lib/quotes.ts:89-108 | definition: calculateDaysLeft, null unless the deadline splits into three parts that make a representable date, otherwise the ceiling of the day difference from today's UTC midnight, clamped at 0 (see DaysLeftIsDayDifference, IsoDeadline and DaysAhead) |
| DaysLeft.CeilDiv | lib/quotes.ts:102 | Math.ceil(a / b) is the least q with a <= q * b |
| DaysLeft.CeilDivDays | lib/quotes.ts:101-102 | the ceiling of the difference of two UTC midnights, in days, is the difference of their day numbers |
| DaysLeft.DayFromYearStep | lib/quotes.ts:96 | January 1st of y + 1 comes DaysInYear(y) days after January 1st of y |
| DaysLeft.MonthStartStep | lib/quotes.ts:96 | the months of a year are consecutive and together make the year |
| DaysLeft.MonthRollover | lib/quotes.ts:96 | the day after the last of a month is the first of the next month, across a year end too |
| DaysLeft.MonthCarry | lib/quotes.ts:96 | a month index 12 higher is the same month a year later |
| DaysLeft.CalendarDateInYear | lib/quotes.ts:96 | a calendar date falls within its year |
| DaysLeft.DayFromYearMonotone | lib/quotes.ts:96 | the start of a year grows with the year |
| DaysLeft.CalendarDateRepresentable | lib/quotes.ts:96-97 | every calendar date of the years 100 to 275759 is a valid Date.UTC time, so isNaN is false |
| DaysLeft.DateUTCValue | lib/quotes.ts:96 | a valid Date.UTC time is the day number times 86400000 |
| DaysLeft.SameDayUTC | lib/quotes.ts:96 | two ways of writing the same day give the same Date.UTC time |
| DaysLeft.NullUnlessTwoDashes | lib/quotes.ts:93-94 | a deadline without exactly two '-' gives null |
| DaysLeft.DeadlineTimeOf | lib/quotes.ts:96 | three numeric parts give Date.UTC(year, month - 1, day) |
| DaysLeft.DaysLeftFromTimes | lib/quotes.ts:101-103 | with both midnights known, the result is the day distance clamped at 0 |
| DaysLeft.DaysLeftIsDayDifference | lib/quotes.ts:93-103 | for three numeric parts making a representable date, the result is max(0, deadline day - today's day) |
| DaysLeft.IsoDateParts | lib/quotes.ts:93-96 | a "YYYY-MM-DD" deadline splits into its three numerals, and parseInt reads each back |
| DaysLeft.IsoDeadlineAt | lib/quotes.ts:89-103 | a date-picker deadline that Date.UTC can represent gives max(0, deadline day - today's day) |
| DaysLeft.IsoDeadline | lib/quotes.ts:89-103 | the same for every calendar date of the years 100 to 275759 |
| DaysLeft.TodayHasNoDaysLeft | lib/quotes.ts:99-103 | a deadline of today gives 0 |
| DaysLeft.DaysAhead | lib/quotes.ts:99-103 | a deadline k >= 0 days ahead gives k; a past deadline gives 0 |
| DaysLeft.CountsDown | lib/quotes.ts:99-103 | when today advances by a day, a count n >= 1 becomes n - 1 |
| DaysLeft.SameDeadlineDay | lib/quotes.ts:96 | two deadlines Date.UTC reads as the same day get the same result |
| DaysLeft.TwoDigitYear | lib/quotes.ts:96 | a year written 0000 to 0099 counts down to the same day of 1900 to 1999 |
| DaysLeft.DayOverflowRollsOver | lib/quotes.ts:96 | a day one past the end of a month before December reads as the first of the next month |
| DaysLeft.YearOverflowRollsOver | lib/quotes.ts:96 | December 32nd reads as January 1st of the next year |
| GoalForm.ValidateGoal | components/particle-background.tsx:701-708 | definition: the submit check, the trimmed name, goal and timeframe and the deadline as entered, or the form error (see ValidateGoalAccepts, ValidateGoalTrims and ValidateGoalIdempotent) |
| GoalForm.ValidateGoalAccepts | components/particle-background.tsx:701-708 | the form is accepted exactly when name, goal and timeframe are not blank and a deadline is set; otherwise the error is "Please fill out all fields accurately." |
| GoalForm.ValidateGoalTrims | components/particle-background.tsx:724-729 | the stored goal holds the trimmed text fields, each a slice of the input with no white space at either end, and the deadline exactly as entered |
| GoalForm.ValidateGoalIdempotent | components/particle-background.tsx:701-708 | submitting an accepted goal's fields again gives the same goal |
| GoalForm.ShareText | components/particle-background.tsx:153 | the share text is at most 80 characters |
| GoalForm.ShareTextShape | components/particle-background.tsx:153 | a goal of at most 80 characters is shared as it is; a longer one becomes its first 77 characters followed by "...", 80 characters in all |
| GoalForm.ShareTextIdempotent | components/particle-background.tsx:153 | shortening the share text a second time changes nothing |
| GoalForm.ReplaceUnsafe | components/particle-background.tsx:132 | the replace keeps the length |
| GoalForm.ToLowerCase | components/particle-background.tsx:132 | lower-casing keeps the length |
| GoalForm.Prefix10 | components/particle-background.tsx:133 | substring(0, 10) has at most ten characters |
| GoalForm.SafePartChars | components/particle-background.tsx:132 | each character of safeName is the lower-cased ASCII letter or the digit of the input, or '_' for anything else; so it holds only lower-case letters, digits and '_' |
| GoalForm.SafePart | components/particle-background.tsx:132 | definition: replace every character outside [a-zA-Z0-9] by "_", then lower-case (see SafePartChars and SafePartIdempotent) |
| GoalForm.SafePartIdempotent | components/particle-background.tsx:132 | sanitising a sanitised part changes nothing |
| GoalForm.SafeGoalPartShape | components/particle-background.tsx:133 | safeGoal is the sanitised first min(10, length) characters of the goal |
| GoalForm.DownloadName | components/particle-background.tsx:132-134 | definition: the download name "lockin-goal-" + safeName + "-" + safeGoal + "-" + the timestamp + ".png" (see DownloadNameChars) |
| GoalForm.DownloadNameChars | components/particle-background.tsx:134 | the download file name holds only lower-case letters, digits, '_', '-' and '.' |

## Left out

In four places the code does something other than its own comments suggest. The model follows the code:
- `components/particle-background.tsx:498` comments the early return on a failed `getImageData` as "Stop if image data couldn't be created". That return comes before `particles = []`, so the old particles stay, and `handleResize` restarts the loop when there are any (`Reseeding.ReseedFailureKeepsParticles`).
- The comments at `components/particle-background.tsx:591`, `609` and `618` say that a touch starting on the content should not drive the particles through the touch flag. Such a touch still records its point (line 613). Line 546 then accepts it through `mouseX > -Infinity`, and `distance < maxDistance` already implies a finite pointer, so the particles are repelled anyway (`Pointer.PassThroughTouchStillRepels`).
- The touch flag `isTouchingRef` and the pointer position `mousePositionRef` are two separate refs. A mouse move sets only the position, and the model keeps the two apart as the code does.
- When the window crosses the breakpoint, `handleResize` reseeds twice: once from the nested call inside `updateCanvasSize` and once after it (`Engine.ParticleEngine.HandleResize`).

Not modelled:
- Canvas drawing: `fillText`, `fillRect`, `clearRect`, the font string and `measureText`. The pixel bytes and word widths come from the `Renderer` oracle; the layout arithmetic and the squares drawn (`Engine.Fill`) are modelled.
- Floating point. JavaScript numbers are exact reals. `Math.sqrt`, `Math.sin`, `Math.cos` and `Math.atan2` are uninterpreted, holding only the facts in `RealMath.Sound`.
- `Math.PI` is the rational 3.141592653589793.
- Scheduling by `requestAnimationFrame`. Frame ids are natural numbers handed out in order, the pending frames form a set, and the browser calling `animate` is `Engine.ParticleEngine.Animate`. The timestamp is a parameter.
- `window.addEventListener` and `removeEventListener` are the boolean `listening`.
- `window.innerWidth` and `innerHeight` are parameters of the methods that read them.
- `document.elementFromPoint` and `contentRef.current.contains` are the boolean `onContent` of a touchstart. A missing `contentRef.current` or a missing element is `onContent == false`.
- `canvas` and `ctx` are taken to exist. The early returns when either is missing, and the "Failed to get 2D context" path, are left out.
- Console output and `setIsMobile`. The React state only mirrors `localIsMobile`, which is modelled. The console report of `createInitialParticles` is the returned `SeedOutcome`.
- Engine.ParticleEngine.Mount: the "Initialization failed" error log is not modelled. Mount states that no frame is pending when no particle exists.
- `Math.random()` is an injected stream of values in [0, 1), and the model says nothing about its distribution.
- Quotes.GetRandomQuote and Quotes.ShuffleImages are `async` in the source; the Promise wrapper is not modelled.
- `calculateDaysLeft` takes today's local date, as `getFullYear`, `getMonth` and `getDate` would report it, as a `LocalDate` parameter. The clock and time zone are not modelled.
- `today.setHours(0, 0, 0, 0)` has no effect on the result, because only the date fields are read.
- The `try`/`catch` of `calculateDaysLeft` is not modelled, because none of the operations in it throws on a string.
- DaysLeft.CalculateDaysLeft: numbers beyond 2^53 and the rounding of `parseInt` on long numerals are not modelled; integers are exact.
- `Date.UTC` is modelled for integer arguments only.
- Strings are sequences of characters. UTF-16 surrogate pairs are not modelled, so `length` and `substring` count characters.
- GoalForm.ToLowerCase lowers ASCII letters only. Its input is always the output of `ReplaceUnsafe`, which holds only ASCII letters, digits and '_', so on that input it is exact.
- The deadline check of `handleGoalSubmit` is not modelled: the `Date` parsing and the time-zone adjustment, and the comparison with today at components/particle-background.tsx:710-721.
- The share message is modelled only as far as the shortened goal text. The deadline formatting with `toLocaleDateString`, the URLs, `navigator.share`, the clipboard and `window.open` are not modelled.
- The html2canvas image of the download is not modelled; its file name is.
- The React components, dialogs, image gallery, quote timer, `app/layout.tsx` and `lib/utils.ts` hold no logic of the core and are not modelled.
