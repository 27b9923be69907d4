# Interactive portfolio: a verified model of its behaviour core

This project models the behaviour of the `InteractivePortfolio` class of a
single-page portfolio site in Dafny and proves properties of that model.
The class lives in `Portfolio_files/app.js`. The modelled parts:

- **The particle field** (`particle_field.dfy`, module `ParticleField`):
  - The particles are created with a count that depends on the viewport width.
  - Each animation frame moves every particle. It is attracted toward the pointer within 150 px, or relaxes back toward its base point. Then it drifts and wraps around the viewport edges.
  - The frame collects the connection lines between pairs closer than 100 px. The first end of a pair is taken after this frame's update and the second end before it, just as the source's traversal order has it.
  - A resize re-draws only the base points.
  - `Field` is a class over an `array` of particle records; `Step` is the frame loop.
- **Form validation** (`form_validation.dfy`, module `FormValidation`):
  - `validateInput` on the trimmed value, with the e-mail regular expression written out as a predicate.
  - That predicate is proved equivalent to a plain description of the accepted shape.
- **Skill spheres** (`skill_spheres.dfy`): the click handler that toggles one sphere and closes every other one.
- **Statistic counters** (`stat_counter.dfy`): the split of a text into its digits and its suffix, and the fifty-tick count-up with its final text.
- **Typewriter** (`typewriter.dfy`): `typeText`, one character per tick.
- **Navigation scroll spy** (`navigation.dfy`): finding the current section and re-marking the links.
- **Smooth scroll** (`scrolling.dfy`): the easing of the fallback `animateScroll`, and `lerp`.
- **`real_arith.dfy`**: helper facts about products of reals.

Randomness, the clock, the distance computation and the trigonometric functions are
parameters of the operations that use them:
- `rand: nat -> Unit` is an indexed stream of values in [0, 1).
- `norm` stands for the distance expression `Math.sqrt(dx * dx + dy * dy)`. It is any function for which `IsNorm` holds: at every offset (dx, dy) its value is non-negative and its square is dx² + dy².
- `sin` and `cos` are arbitrary.
- `now` is one reading of `Date.now()` per frame.

Numbers are mathematical reals and integers.

## Model

| member | source | states |
|---|---|---|
| ParticleField.InitialCount | Portfolio_files/app.js:113 | 150 particles when the viewport is wider than 768 px, otherwise 75, and nothing else |
| ParticleField.ScaleBounds | Portfolio_files/app.js:116-119 | `Math.random() * extent` lies in [0, extent], strictly below a positive extent |
| ParticleField.Scale | Portfolio_files/app.js:117-120 | `Math.random() * extent` lies in [0, extent], strictly below a positive extent |
| ParticleField.Spawn | Portfolio_files/app.js:115-126 | a new particle has position and base point inside the viewport, size in [1, 4), density in [1, 31), opacity in [0.2, 0.7), speeds in [-0.25, 0.25) |
| ParticleField.Field.constructor | Portfolio_files/app.js:110-127 | without a drawing context there are no particles; otherwise the count is InitialCount, particle k is Spawn from draws 9k..9k+8, the pointer starts at (0, 0), every opacity is in [0.2, 0.8] |
| ParticleField.Distance | Portfolio_files/app.js:137-139 | the distance of the offset (dx, dy), computed by `norm`; DistanceSquared states its value |
| ParticleField.DistanceSquared | Portfolio_files/app.js:137-139 | the computed distance of an offset is non-negative and its square is dx² + dy² |
| ParticleField.DistanceBelow | Portfolio_files/app.js:139-142 | distance < radius exactly when dx² + dy² < radius² |
| ParticleField.Force | Portfolio_files/app.js:144 | inside the attraction radius the force is in (0, 1], and it is 1 exactly on the pointer |
| ParticleField.Attract | Portfolio_files/app.js:142-151 | the offset from the pointer is scaled by 1 − force/100, a factor in [0.99, 1), so the particle moves toward the pointer without overshooting; opacity becomes 0.2 + 0.6·force, in (0.2, 0.8]; nothing else changes |
| ParticleField.Relax | Portfolio_files/app.js:152-156 | the offset from the base point is scaled by 0.995; opacity drops by 0.01 but not below 0.2, so it never increases from 0.2 or above; nothing else changes |
| ParticleField.Steer | Portfolio_files/app.js:139-157 | the attraction branch, with the computed distance, is taken when that distance is below 150, and the relaxation branch otherwise |
| ParticleField.SteerChoice | Portfolio_files/app.js:135-157 | the attraction branch is taken exactly when the pointer is within 150 px (dx² + dy² < 150²); otherwise the relaxation branch |
| ParticleField.Wrap | Portfolio_files/app.js:164-167 | the result lies in [0, extent]; a value inside is kept, a negative one goes to extent, one past extent goes to 0 |
| ParticleField.Advance | Portfolio_files/app.js:135-167 | one particle's frame changes only x, y and opacity, and the boundary checks put the position inside a non-negative viewport |
| ParticleField.AdvanceOpacity | Portfolio_files/app.js:142-167 | after the drift and the boundary checks the opacity is still the one the steering branch set: at least 0.2, and at most 0.8 when it started at most 0.8 |
| ParticleField.PointerOnParticle | Portfolio_files/app.js:142-151 | a particle right under the pointer reaches full opacity 0.8 |
| ParticleField.FarOpacityDecay | Portfolio_files/app.js:156 | the per-frame rule opacity := max(0.2, opacity − 0.01), applied k times from an opacity of at least 0.2, gives max(0.2, opacity − 0.01·k), never above the start |
| ParticleField.FarFrames | Portfolio_files/app.js:135-167 | k successive Advance frames of one particle, each with the pointer outside the 150 px radius, bring its opacity to max(0.2, opacity − 0.01·k) when it started at 0.2 or above, and in general to k applications of the relaxation rule |
| ParticleField.PairDistance | Portfolio_files/app.js:182-184 | the distance of a pair, from the moved particle to the other one; CloseIff states when it is below 100 |
| ParticleField.Row | Portfolio_files/app.js:181-188 | the lines of particle i with the later particles, in index order; RowSound, RowComplete and RowOrdered state which lines they are |
| ParticleField.Lines | Portfolio_files/app.js:135-196 | the rows of particles 0 .. k−1 in order; LinesSound, LinesComplete and LinesOrdered state which lines they are |
| ParticleField.LineAlpha | Portfolio_files/app.js:188 | a connection's alpha is in (0, 0.3], and 0.3 at distance 0 |
| ParticleField.CloseIff | Portfolio_files/app.js:182-186 | a pair is joined exactly when its squared distance is below 100² |
| ParticleField.RowSound | Portfolio_files/app.js:181-196 | every line of particle i's row joins i to a later particle closer than 100 px, with the alpha of that distance |
| ParticleField.RowComplete | Portfolio_files/app.js:181-196 | every later particle closer than 100 px gets its line in the row |
| ParticleField.RowOrdered | Portfolio_files/app.js:181 | a row's lines are in increasing order of the second end, all from i |
| ParticleField.RowAgree | Portfolio_files/app.js:181 | a row only reads the particles after i |
| ParticleField.LinesSound | Portfolio_files/app.js:133-196 | every emitted line joins i < j with updated particle i and not-yet-updated particle j closer than 100 px |
| ParticleField.LinesComplete | Portfolio_files/app.js:133-196 | every such close pair gets its line |
| ParticleField.LinesOrdered | Portfolio_files/app.js:133-196 | lines come in strictly increasing pair order, so each unordered pair appears at most once |
| ParticleField.LinesPrefix | Portfolio_files/app.js:133-196 | the lines of the first k particles depend only on those k updated particles |
| ParticleField.LinesStep | Portfolio_files/app.js:133-196 | processing one more particle appends exactly its row |
| ParticleField.ConnectRow | Portfolio_files/app.js:181-196 | the loop over the later particles returns exactly that particle's row |
| ParticleField.Field.MoveParticle | Portfolio_files/app.js:135-197 | one forEach callback: particle i becomes its Advance in place, nothing else in the array changes, and its row is computed against the array as it then stands |
| ParticleField.Field.MoveAll | Portfolio_files/app.js:135-198 | the loop over the particles turns each into its Advance, in place and in index order, and collects exactly Lines over the new and the old particles |
| ParticleField.Field.Step | Portfolio_files/app.js:130-199 | without a context nothing happens; otherwise every particle becomes its Advance, the lines are Lines over the new and old particles, opacities stay in [0.2, 0.8], and positions end inside the viewport |
| ParticleField.Field.PointerMoved | Portfolio_files/app.js:53-74 | the pointer coordinates become the event's, for `mousemove` and for the first touch of `touchstart`/`touchmove`; the particles are untouched |
| ParticleField.Field.HandleResize | Portfolio_files/app.js:697-707 | the count and every field except baseX/baseY are unchanged; the base points are re-drawn inside the new viewport |
| FormValidation.IsWhitespace | Portfolio_files/app.js:584-591 | the ECMAScript WhiteSpace and LineTerminator code points: what `trim()` strips and what `\s` matches |
| FormValidation.LeadingWhitespace | Portfolio_files/app.js:584 | the leading run of whitespace is all whitespace and is followed by a non-whitespace character or the end |
| FormValidation.TrailingStart | Portfolio_files/app.js:584 | the trailing run of whitespace is all whitespace and is preceded by a non-whitespace character or the start |
| FormValidation.Trim | Portfolio_files/app.js:584 | the trimmed value is the slice between the whitespace runs; it neither starts nor ends with whitespace, and it is empty exactly when the value is all whitespace |
| FormValidation.TrimIdempotent | Portfolio_files/app.js:584 | trimming twice is trimming once |
| FormValidation.Utf16Length | Portfolio_files/app.js:604 | the JavaScript length is between the number of code points and twice it, and is 0 only for the empty string |
| FormValidation.MatchesEmailPattern | Portfolio_files/app.js:591 | the regular expression as written, anchored at both ends; EmailPatternIffShape states which values it accepts |
| FormValidation.SegmentOf | Portfolio_files/app.js:591 | a stretch of characters outside whitespace and '@' matches `[^\s@]+` |
| FormValidation.PatternHasShape | Portfolio_files/app.js:591 | a value the e-mail regular expression accepts has no whitespace, exactly one '@' with something before it, and a dotted domain after it |
| FormValidation.ShapeMatchesPattern | Portfolio_files/app.js:591 | every value of that shape is accepted by the expression |
| FormValidation.EmailPatternIffShape | Portfolio_files/app.js:591 | the expression accepts exactly the values of that shape |
| FormValidation.ValidateInput | Portfolio_files/app.js:583-625 | the input is invalid exactly when a message is produced, and always when the trimmed value is empty |
| FormValidation.EmptyIsRequired | Portfolio_files/app.js:592-612 | a blank value is invalid with "Email is required" for e-mail inputs and "<name> is required" otherwise |
| FormValidation.TextRule | Portfolio_files/app.js:600-608 | a text input is valid exactly when its trimmed value has length at least 2 |
| FormValidation.EmailRule | Portfolio_files/app.js:589-597 | an e-mail input is valid exactly when its trimmed value has the e-mail shape |
| FormValidation.OtherRule | Portfolio_files/app.js:609-613 | any other input is valid exactly when its value is not blank |
| SkillSpheres.AfterClick | Portfolio_files/app.js:293-301 | after a click at most one sphere is open; some sphere is open exactly when the clicked one was closed, and then it is the clicked one |
| SkillSpheres.SphereGroup.Click | Portfolio_files/app.js:293-301 | the clicked sphere's flag is negated, every other flag is cleared, and the flags are AfterClick of the old ones |
| StatCounter.IsDigit | Portfolio_files/app.js:460-461 | the ASCII digits '0'..'9': what `\d` matches and `\D` excludes |
| StatCounter.Digits | Portfolio_files/app.js:460 | removing the non-digits leaves only digits |
| StatCounter.Suffix | Portfolio_files/app.js:461 | removing the digits leaves no digit |
| StatCounter.DigitsConcat | Portfolio_files/app.js:460-461 | both filters keep the text's order: filtering a concatenation concatenates the filtered parts |
| StatCounter.ThousandPlus | Portfolio_files/app.js:460-461 | "1,000+" has the digits "1000" in text order, counts up to 1000, and keeps ",+" as its suffix |
| StatCounter.SplitPartitions | Portfolio_files/app.js:460-461 | digits and suffix together hold exactly the text's characters |
| StatCounter.SuffixOfDigitFree | Portfolio_files/app.js:460-461 | a text without digits is all suffix and has no digits |
| StatCounter.DecimalValue | Portfolio_files/app.js:460 | parseInt of a digit string, most significant digit first; DecimalRoundTrip and DecimalRoundTripDigits make it the inverse of printing |
| StatCounter.CounterValue | Portfolio_files/app.js:460 | parseInt of the digits, with the NaN of an empty digit string replaced by 0 |
| StatCounter.NatToDecimal | Portfolio_files/app.js:475 | a number prints as a non-empty digit string with no leading zero |
| StatCounter.DecimalRoundTrip | Portfolio_files/app.js:460-475 | parsing a printed number gives the number back |
| StatCounter.DecimalRoundTripDigits | Portfolio_files/app.js:460-475 | printing a parsed digit string without a leading zero gives the string back |
| StatCounter.DecimalPositive | Portfolio_files/app.js:460-463 | digits with a non-zero first digit parse to a positive value, so the animation runs |
| StatCounter.ReachedAt | Portfolio_files/app.js:468-473 | the running total t·value/50 reaches the value exactly from tick 50 on, so the interval stops after fifty ticks |
| StatCounter.NextTotal | Portfolio_files/app.js:468-473 | one tick adds value/50 to the running total, which reaches the value at tick 50 and equals it there |
| StatCounter.Shown | Portfolio_files/app.js:468-475 | the number displayed after tick t, floor(t·value/50); ShownMonotone and ShownBounds state its range and order |
| StatCounter.ShownMonotone | Portfolio_files/app.js:470-474 | the displayed numbers never decrease from one tick to the next |
| StatCounter.ShownBounds | Portfolio_files/app.js:470-474 | the displayed numbers stay in [0, value], and the fiftieth is the value |
| StatCounter.StatNumber.AnimateCounter | Portfolio_files/app.js:455-476 | an element already marked, or whose value is 0, is left alone; otherwise it is marked, fifty frames show floor(t·value/50) followed by the suffix, and the final text is the value followed by the suffix |
| Typewriter.CharAt | Portfolio_files/app.js:257 | charAt is the character at k, or "" past the end |
| Typewriter.TypedAfter | Portfolio_files/app.js:252-258 | after k ticks the element shows the first min(k, length) characters of the text |
| Typewriter.TypedStep | Portfolio_files/app.js:257-258 | one tick appends exactly the next character |
| Typewriter.TypedComplete | Portfolio_files/app.js:257-262 | once k reaches the length, the whole text is shown |
| Typewriter.TickCount | Portfolio_files/app.js:256-262 | the interval fires once per character, and once for the empty text |
| Typewriter.Typewriter.constructor | Portfolio_files/app.js:251-255 | the element is emptied and the counter starts at 0 |
| Typewriter.Typewriter.Tick | Portfolio_files/app.js:256-263 | a tick appends charAt(i), advances i, and stops exactly when i has reached the length |
| Typewriter.Typewriter.Run | Portfolio_files/app.js:251-265 | the interval ends showing the whole text after TickCount ticks |
| Navigation.IdText | Portfolio_files/app.js:510-516 | the id as the template literal writes it, an absent id reading as "null"; MissingIdReadsNull states the consequence |
| Navigation.CurrentSectionId | Portfolio_files/app.js:505-512 | the id left by the section loop; NoneQualifies and LastQualifyingWins state which one it is |
| Navigation.NoneQualifies | Portfolio_files/app.js:505-512 | with no section top at or above 150 px the current id is "" |
| Navigation.LastQualifyingWins | Portfolio_files/app.js:507-512 | otherwise the current id is that of the last qualifying section |
| Navigation.CurrentSection | Portfolio_files/app.js:505-512 | the loop over the sections yields CurrentSectionId |
| Navigation.Marked | Portfolio_files/app.js:514-519 | hrefs are kept and a link is active exactly when its href is "#" followed by the current id |
| Navigation.DistinctHrefsOneActive | Portfolio_files/app.js:514-519 | with pairwise different hrefs at most one link is active |
| Navigation.MarkedIdempotent | Portfolio_files/app.js:514-519 | updating twice gives the same links as updating once |
| Navigation.BareHashActiveAtTop | Portfolio_files/app.js:505-519 | when no section qualifies, a link with href "#" is active |
| Navigation.MissingIdReadsNull | Portfolio_files/app.js:509-515 | a last qualifying section without id activates a link with href "#null" |
| Navigation.NavBar.UpdateActiveNavLink | Portfolio_files/app.js:501-520 | the links become Marked by the current section's id |
| Scrolling.Lerp | Portfolio_files/app.js:789-791 | the offset from start is (end − start)·factor; factor 0 gives start and 1 gives end |
| Scrolling.LerpBetween | Portfolio_files/app.js:789-791 | a factor in [0, 1] gives a point between start and end |
| Scrolling.LerpMonotone | Portfolio_files/app.js:789-791 | a larger factor moves the point further toward end |
| Scrolling.Progress | Portfolio_files/app.js:673 | progress is at most 1, equals 1 exactly from the duration on, and is elapsed/duration before that |
| Scrolling.ProgressMonotone | Portfolio_files/app.js:673 | a later frame has no less progress |
| Scrolling.Ease | Portfolio_files/app.js:676 | the ease-out curve p·(2 − p); EaseBounds, EaseOne and EaseMonotone state its shape |
| Scrolling.EaseComplement | Portfolio_files/app.js:676 | 1 − ease is the square of 1 − progress |
| Scrolling.EaseBounds | Portfolio_files/app.js:676 | the ease of a progress in [0, 1] is in [0, 1] and at least the progress |
| Scrolling.EaseOne | Portfolio_files/app.js:676-681 | the ease is 1 exactly at progress 1, where the animation stops |
| Scrolling.EaseMonotone | Portfolio_files/app.js:676 | the ease is strictly increasing on [0, 1] |
| Scrolling.ScrollPosition | Portfolio_files/app.js:672-677 | the position of a frame, the eased progress applied to lerp; ScrollEnds and ScrollBetween state where it lies |
| Scrolling.ScrollEnds | Portfolio_files/app.js:672-677 | elapsed 0 gives the start position; from the duration on the position is exactly the end |
| Scrolling.ScrollBetween | Portfolio_files/app.js:672-677 | for non-negative elapsed times the position stays between start and end and moves monotonically toward the end |

## Left out

- Canvas drawing is not modelled: `save`/`restore`, shadows, arcs, strokes and `clearRect`. The model keeps the particle state and the emitted lines (their end indices and alpha), not pixels. `resizeCanvas`, which sets the canvas size, is not modelled either.
- Scheduling is not modelled: `requestAnimationFrame`, `setInterval` and `setTimeout`, and `throttle`/`debounce`. Visibility handling, `destroy` and the typewriter's callback are also left out. `Step`, `Tick` and the counter's loop body are what one callback does.
- StatCounter.NatToDecimal: every digit is printed, and StatCounter.CounterValue parses every digit exactly. From 1e21 up, JavaScript writes a number in exponent notation ("1e+21"). `parseInt` of a digit string above about 1.8e308 gives Infinity, so the page would show "Infinity" plus the suffix.
- IEEE-754 rounding is not modelled; all arithmetic is exact. In particular, in `AnimateCounter` the fifty float additions of value/50 are exact, so the count stops at exactly tick 50.
- `Math.random`, `Math.sin`, `Math.cos` and `Date.now` are parameters, and so is the distance `Math.sqrt(dx * dx + dy * dy)`, as the single function `norm`. Drift is `0.3·sin(now·0.001 + density)` on x and `0.3·cos(now·0.001 + density)` on y, with a single `now` per frame. The source calls `Date.now()` afresh for each coordinate of each particle (app.js:160-161), so one particle's two drifts, and different particles' drifts, may use different clock readings; the model does not capture that.
- ParticleField.Field.Step: the speedX/speedY fields are carried through but never read, as in the source.
- DOM lookups that return early when an element is missing are not modelled: `.stat-number` and the canvas context. The context is modelled only as the `hasContext` flag.
- FormValidation.ValidateInput: it assumes the `.input-feedback` element exists. The source has no guard for it: without one, setting its text or class throws a TypeError and no verdict is returned.
- The validator's visible feedback is not modelled: the message text is set, the class is toggled, and the border colour changes. The model returns the verdict and the message.
- Typewriter.Typewriter.Tick: it works per code point, while `charAt` and `length` count UTF-16 code units. A character outside the Basic Multilingual Plane takes two ticks in the source, with half a surrogate pair shown in between.
- Scrolling.Progress: it requires a positive duration. The only caller passes 800, and a zero duration would divide by zero in the source.
- The rest of `app.js` is presentation and not part of this model: the cursor follower, parallax, scroll reveal, button and social-link effects, and the commented-out submit handler.
- Source behaviour kept as written:
  - When no section qualifies, the current id is "", so a link with href "#" becomes active.
  - A section with no id makes "#null" the matching href.
  - The counter's suffix collects every non-digit character, so "1,000+" animates to "1000,+".
