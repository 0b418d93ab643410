# Portfolio site core, modelled in Dafny

This project models the stateful logic of a React portfolio site:

- **The two contact forms.** One is the routed terminal-style page `ContactTerminal`, which posts to the site's own `/api/contact` relay. The other is the older `Contact` page, written against a Formspree endpoint.
- **The relay handler** `api/contact.js`.
- **The toast provider** both forms report through.
- **The animated widgets:**
  - the cursor glow with its particle buffer and palette cycling (`CursorFX`);
  - the decoding text effect (`GlitchText`);
  - the semicircle gauge (`SemiCircleProgress`);
  - the shooting stars, meteors, hover highlight and selection of the 3-D skills scene (`Skills3D`).

There is one module per source file, plus two shared modules:

- `Wrappers` holds `Option`.
- `Seqs` holds `Survivors`. It describes what the backwards `for … splice` loops leave behind; two source files have such loops.

Modelling choices:

- **Pure source expressions** are Dafny functions with lemmas about them:
  - the regular expression `/^[^\s@]+@[^\s@]+\.[^\s@]+$/`;
  - the field guards;
  - `clamp`;
  - the palette fallback;
  - the handler's decision.
- **Components that keep state** are classes. Their fields are what the source keeps in React state, refs or closure variables. Their methods are the event handlers and animation callbacks, each stated against a specification function.
- **`await`.** Each async handler is split at its `await`. `Submit` runs up to and including issuing the request. `Settle` is what happens once the request has ended.
- **Random draws, clock readings and intersection events** are parameters of those methods. Timers firing are explicit calls, such as `Toast.Provider.Expire` and `Gauge.Tick`.
- **Numbers.** Positions, velocities and progress values are `real`.
- **Particle life.** A `CursorFX` particle's life starts at 1 and loses 0.016 per frame. It is kept in thousandths, as the integers 1000 and 16.

## Model

| member | source | states |
|---|---|---|
| Seqs.Survivors | src/components/CursorFX.jsx:143-148 | After a backwards advance-and-splice loop, every kept item is live and is the advanced form of an original item. Every original whose advanced form is live is kept. The list never grows. |
| Seqs.SurvivorsAppend | src/components/CursorFX.jsx:143-148 | The loop keeps survivors in their original order: the survivors of a concatenation are the survivors of each part, concatenated. |
| Seqs.SurvivorsNoneExpire | src/pages/Skills3D.jsx:574-583 | When every item stays live after its step, nothing is removed and each item is advanced in place. |
| Seqs.SurvivorsFrom | src/pages/Skills3D.jsx:565-571 | One iteration at index i: the survivors from i onwards are item i if it survives, followed by the survivors after i. |
| Seqs.SpliceStep | src/pages/Skills3D.jsx:565-571 | One iteration of the backwards loop keeps its invariant: splicing out an expired item, or advancing a live one in place, extends the processed suffix by one. |
| EmailPattern.ValidEmail | src/pages/ContactTerminal.jsx:25 | The test is true exactly when the string matches `^[^\s@]+@[^\s@]+\.[^\s@]+$`, with JavaScript's `\s` set. Equivalently: no whitespace, exactly one `@` after a non-empty local part, and a `.` in the domain with characters on both sides. |
| EmailPattern.MatchesIffShaped | src/pages/Contact.jsx:18-20 | Both directions: a split of the string into local part, `@`, domain label, `.`, rest exists if and only if the string has the whitespace, single-`@` and dotted-domain shape. |
| EmailPattern.SplitShaped | src/pages/Contact.jsx:18-20 | A string the pattern splits at an `@` and a `.` has no whitespace, its only `@` at the split, and a `.` inside the domain. |
| EmailPattern.ShapedSplit | src/pages/Contact.jsx:18-20 | A string with no whitespace, a single `@` after a non-empty local part and a `.` inside the domain is matched by the pattern, split at that `@` and `.`. |
| Toast.Without | src/components/Toast.jsx:11 | The expiry filter keeps exactly the entries whose id differs from the expired one, and never lengthens the list. |
| Toast.WithoutAppend | src/components/Toast.jsx:11 | Expiry distributes over concatenation, so the remaining toasts keep their relative order. |
| Toast.WithoutAbsent | src/components/Toast.jsx:11 | Expiring an id no toast carries leaves the list unchanged. |
| Toast.WithoutIdempotent | src/components/Toast.jsx:11 | Expiring the same id twice is the same as expiring it once. |
| Toast.PushThenExpire | src/components/Toast.jsx:8-12 | Pushing a toast under a fresh id and then letting its timer fire gives back the list as it was. |
| Toast.ClassName | src/components/Toast.jsx:19 | Every rendered toast's class is `toast ` followed by a non-empty variant name. |
| Toast.Render | src/components/Toast.jsx:18-22 | One rendered element per toast, in list order, carrying that toast's variant class and message. |
| Toast.Provider.constructor | src/components/Toast.jsx:6 | The toast list starts empty. |
| Toast.Provider.Push | src/components/Toast.jsx:8-10 | A push appends exactly one entry with the given id, message and variant after the existing ones. |
| Toast.Provider.Expire | src/components/Toast.jsx:11 | The removal timer leaves the list filtered by id. |
| Toast.PushDefaultsToSuccess | src/components/Toast.jsx:8 | A push without a variant adds a success toast, which renders after the earlier ones as `toast success`. |
| ContactTerminal.Set | src/pages/ContactTerminal.jsx:21-23 | `onChange` replaces the named field and leaves the other four unchanged. |
| ContactTerminal.Validate | src/pages/ContactTerminal.jsx:28-35 | The fill-in message appears exactly when name, email or message is empty. The bad-email message appears exactly when all three are set and the email fails the pattern. The request goes out exactly when name and message are set and the email passes. |
| ContactTerminal.Report | src/pages/ContactTerminal.jsx:44-50 | The toast is a success exactly when the response was ok, and its message is never empty. An ok response gives "Message sent. I’ll reply soon!". A rejected `fetch` shows the rejection's own message, and the network fallback only when that message is empty. |
| ContactTerminal.HttpErrorReport | src/pages/ContactTerminal.jsx:45 | A non-ok response is an error toast. It shows the server's non-empty `error` text, and otherwise "Failed to send", never the network fallback. |
| ContactTerminal.Terminal.constructor | src/pages/ContactTerminal.jsx:9-16 | The form starts with empty fields and the default subject, and nothing is loading. |
| ContactTerminal.Terminal.OnChange | src/pages/ContactTerminal.jsx:21-23 | The form becomes the one-field update; `loading` is untouched. |
| ContactTerminal.Terminal.Submit | src/pages/ContactTerminal.jsx:27-43 | A failing guard pushes its error toast and sends nothing. Otherwise `loading` is set and the whole form, honeypot included, is the request body. The form is unchanged either way. |
| ContactTerminal.Terminal.Settle | src/pages/ContactTerminal.jsx:44-53 | The outcome's toast is pushed. The form is reset only on an ok response, and `loading` is cleared in every case. |
| ContactTerminal.CtrlEnterTwice | src/pages/ContactTerminal.jsx:57-61 | The keyboard path has no in-flight guard: two presses send two requests, and the first response clears `loading` while the second is still pending. |
| Contact.Set | src/pages/Contact.jsx:14-16 | `onChange` replaces the named field and leaves the others unchanged. |
| Contact.Validate | src/pages/Contact.jsx:24-32 | There are three guards in order: fill-in, email shape, and the placeholder endpoint. Each iff ensures names the precise condition for its message, and for the request going out. |
| Contact.ShippedNeverSends | src/pages/Contact.jsx:30-32 | With the endpoint as shipped on line 6, which ends in the placeholder id, every submission stops at a guard. |
| Contact.Report | src/pages/Contact.jsx:42-50 | An ok response gives the success toast "Thanks! Your message has been sent.". A non-ok response gives the prefix followed by the body text. A failed `fetch` or body read gives the network error. |
| Contact.ContactForm.constructor | src/pages/Contact.jsx:11-12 | The page starts with three empty fields, not loading, posting to the given endpoint: the shipped placeholder of line 6, or the id a deployer puts in its place. |
| Contact.ContactForm.OnChange | src/pages/Contact.jsx:14-16 | The form becomes the one-field update. |
| Contact.ContactForm.Submit | src/pages/Contact.jsx:22-41 | A failing guard pushes its toast and sends nothing. Otherwise `loading` is set and exactly name, email and message are posted. |
| Contact.ContactForm.Settle | src/pages/Contact.jsx:42-53 | The outcome's toast is pushed. The form is cleared only on an ok response, and `loading` is cleared always. |
| Contact.ShippedSubmit | src/pages/Contact.jsx:22-32 | On the shipped page a submission is always an error toast, never sets `loading` and never changes the form. |
| ContactApi.Recipients | api/contact.js:17 | There is one recipient: `TO_EMAIL` when it is set and non-empty, otherwise the fallback address. |
| ContactApi.Outbound | api/contact.js:15-21 | The message has the fixed sender and the configured recipient. Reply-to is the submitted email, the text is the submitted message, and the subject is the fixed prefix followed by the name. |
| ContactApi.Decide | api/contact.js:8-26 | The status is 405 iff the method is not POST, 400 iff a POST lacks a truthy name, email or message, 200 iff the provider delivered, and 500 otherwise. The 405 and 400 bodies are fixed error texts, the 200 body is `ok: true` with the provider's id, and the 500 body carries the thrown message. A message reaches the provider iff the guards pass and the client was constructed. |
| ContactApi.IgnoresOtherFields | api/contact.js:10-11 | The handler has no honeypot check: changing `website`, or any property other than name, email and message, never changes the reply. |
| ContactApi.NoEmailShapeCheck | api/contact.js:11-22 | The handler does not check the email's shape: any complete POST reaches the provider and, on delivery, returns 200 with the provider's id. |
| ContactApi.MissingBodyIs400 | api/contact.js:10-11 | A POST without a body is read as `{}` and rejected with 400 "Missing fields". |
| ContactApi.ServerResponse.Write | api/contact.js:9 | `res.status(code).json(body)` records exactly that status and body, as one more write. |
| ContactApi.Handler | api/contact.js:8-26 | Exactly one response is written, and its status and body are the decision. The message handed to the provider is the decision's. |
| CursorFX.Clamp | src/components/CursorFX.jsx:27 | The result is never below the lower bound, lies within the bounds when they are ordered, and is the value itself when already inside. With crossed bounds it is the lower bound. |
| CursorFX.LastNPush | src/components/CursorFX.jsx:50-53 | One shift-if-full-then-push step on a capped buffer keeps exactly the newest `n` items. |
| CursorFX.SpawnShape | src/components/CursorFX.jsx:46-63 | After a six-particle spawn on a buffer within its cap, the buffer holds min(old + 6, cap) items: the newest old ones in order, then the six new ones. |
| CursorFX.Sparks | src/components/CursorFX.jsx:49-61 | The particles one spawn creates are one per draw, in push order: each is offset from the mouse, tinted from the current hue, at full life. |
| CursorFX.FindIndex | src/components/CursorFX.jsx:96 | `findIndex` returns the first matching index, and -1 exactly when no entry matches. |
| CursorFX.FindIndexDistinct | src/components/CursorFX.jsx:96 | In a list without repeats, each entry is found at its own index. |
| CursorFX.NextHueAt | src/components/CursorFX.jsx:96-97 | The fallback moves each palette hue to the next palette entry, wrapping from the last entry to the first. |
| CursorFX.NextHueOutside | src/components/CursorFX.jsx:96-97 | A hue not in the palette becomes the palette's first entry, 265. |
| CursorFX.PaletteCycle | src/components/CursorFX.jsx:66-97 | Six fallback steps from any palette hue come back to it: the fallback cycles through all six colours. |
| CursorFX.HueAfter | src/components/CursorFX.jsx:67-98 | A non-interactive target keeps the hue. A colour attribute that parses sets the hue from it. Otherwise the hue takes the palette fallback step. |
| CursorFX.Cursor.constructor | src/components/CursorFX.jsx:15-44 | The mouse target starts at the centre clamped into the margins. The hue starts at 265, the buffer is empty, and the cap is 60 or 180. |
| CursorFX.Cursor.OnResize | src/components/CursorFX.jsx:17-23 | New bounds, with the mouse target clamped into the new margins. Hue and particles are unchanged. |
| CursorFX.Cursor.SpawnParticles | src/components/CursorFX.jsx:46-63 | Under reduced motion nothing changes. Otherwise the buffer becomes the newest `maxParticles` of the old particles followed by the six new ones. |
| CursorFX.Cursor.OnMove | src/components/CursorFX.jsx:101-106 | The mouse target is clamped into the margins, and a spawn happens at the clamped point with the current hue. |
| CursorFX.Cursor.OnOver | src/components/CursorFX.jsx:107 | The hue becomes `HueAfter` of the old hue and the hovered target; nothing else changes. |
| CursorFX.Cursor.Frame | src/components/CursorFX.jsx:142-148 | When shown, every particle moves, ages by one step and is removed once its life is used up, with the rest kept in order. Under reduced motion or a faded glow the buffer is untouched. |
| GlitchText.ScrambleHasNoSpace | src/components/GlitchText.jsx:15 | The scramble alphabet has 67 characters and no space, so scrambled output keeps spaces recognisable. |
| GlitchText.BuildFrame | src/components/GlitchText.jsx:28-33 | The frame string has the target's length. Positions before the reveal count show the target. Later non-space positions show the picked scramble character, and a position is a space exactly when the target's is. |
| GlitchText.Progress | src/components/GlitchText.jsx:25 | Progress is capped at 1, equal to the raw ratio below it, and exactly 1 from the end of the duration on. |
| GlitchText.Reveal | src/components/GlitchText.jsx:28 | For progress in (0, 1] the reveal count lies between 0 and the length, and at 1 it is the whole length. |
| GlitchText.Glitch.constructor | src/components/GlitchText.jsx:12-13 | The display starts as the text, not done. |
| GlitchText.Glitch.Run | src/components/GlitchText.jsx:17-39 | Locked or reduced motion shows the text at once and is done. Otherwise a fresh animation starts, not done. |
| GlitchText.Glitch.Mount | src/components/GlitchText.jsx:43 | A locked component shows its text and is done on mount; otherwise nothing changes. |
| GlitchText.Glitch.Focus | src/components/GlitchText.jsx:52 | Focus re-runs the effect unless locked, and does nothing when locked. |
| GlitchText.Glitch.Frame | src/components/GlitchText.jsx:24-37 | Before the delay nothing changes. Afterwards the display keeps the text's length, its revealed prefix and its spaces. At the end of the duration the display is the text, done, with no further frame. |
| SemiCircleProgress.Clamped | src/components/SemiCircleProgress.jsx:9 | The clamped value always lies in [0, 100]. A missing value gives 0, values in range are unchanged, values above 100 give 100 and values below 0 give 0. |
| SemiCircleProgress.Round | src/components/SemiCircleProgress.jsx:27 | `Math.round` gives the integer within one half of the input, with halves rounding up. |
| SemiCircleProgress.RoundRange | src/components/SemiCircleProgress.jsx:27 | Rounding keeps [0, 100] inside [0, 100] and leaves integers alone. |
| SemiCircleProgress.RoundMonotone | src/components/SemiCircleProgress.jsx:27 | Rounding is monotone. |
| SemiCircleProgress.Progress | src/components/SemiCircleProgress.jsx:25 | Progress is capped at 1, equal to the raw ratio below it, and 1 from the end of the duration on. |
| SemiCircleProgress.Eased | src/components/SemiCircleProgress.jsx:26 | The ease-out curve starts at 0 and ends at 1. |
| SemiCircleProgress.EasedUnit | src/components/SemiCircleProgress.jsx:26 | On [0, 1] the eased value stays in [0, 1]. |
| SemiCircleProgress.EasedMonotone | src/components/SemiCircleProgress.jsx:26 | On [0, 1] the eased value never decreases. |
| SemiCircleProgress.Shown | src/components/SemiCircleProgress.jsx:25-27 | The displayed percentage lies in [0, 100] during the animation. It is 0 at the start and the rounded target at the end. |
| SemiCircleProgress.ShownMonotone | src/components/SemiCircleProgress.jsx:24-29 | As the clock moves forward the count-up never goes down. |
| SemiCircleProgress.DashOffset | src/components/SemiCircleProgress.jsx:38 | The intended arc offset lies between 0 and the circumference `Math.PI * 60`. It is the full circumference at 0% and none of it at 100%. |
| SemiCircleProgress.DashOffsetMonotone | src/components/SemiCircleProgress.jsx:38 | A larger percentage hides less of the arc. |
| SemiCircleProgress.DashOffsetAsWritten | src/components/SemiCircleProgress.jsx:48 | The offset attribute as written is literal brace text, not a number. |
| SemiCircleProgress.DashOffsetAsWrittenIgnoresPct | src/components/SemiCircleProgress.jsx:48 | As written, 0% and 100% get the same attribute, while the intended offsets differ. |
| SemiCircleProgress.Gauge.constructor | src/components/SemiCircleProgress.jsx:9-10 | The gauge starts at 0% with the clamped value and an attached observer. |
| SemiCircleProgress.Gauge.OnValue | src/components/SemiCircleProgress.jsx:15-36 | The effect depends on `clamped` only. A new value whose clamped value differs attaches a fresh observer; one with the same clamped value leaves the observer as it was. A running count-up keeps its captured target until a later `Intersect` starts a new one. |
| SemiCircleProgress.Gauge.Intersect | src/components/SemiCircleProgress.jsx:18-33 | The first intersecting entry starts a count-up towards the clamped value and disconnects. Later callbacks change nothing, so each observer starts at most one count-up. A count-up that was still running is replaced by the new one. |
| SemiCircleProgress.Gauge.Tick | src/components/SemiCircleProgress.jsx:24-29 | Each frame sets `pct` on the eased curve, within [0, 100] whenever the clock reading is not before the start, and schedules another frame until the duration is over. The last frame shows the rounded target. |
| SemiCircleProgress.Gauge.Offset | src/components/SemiCircleProgress.jsx:38-48 | The intended offset for the current percentage lies within the circumference, and is all of it at 0%. |
| SemiCircleProgress.IntersectTwice | src/components/SemiCircleProgress.jsx:18-31 | Two callbacks on one observer start exactly one count-up when either intersects, and none otherwise. |
| SemiCircleProgress.SameClampedNoRestart | src/components/SemiCircleProgress.jsx:15-36 | After a count-up has disconnected the observer, a new value with the same clamped value (200 after 150, say) does not re-run the effect, so a later intersection starts no second count-up. |
| Skills3D.NewStreak | src/pages/Skills3D.jsx:476-481 | A new streak enters at x = -12, fully transparent, moving forward in z. |
| Skills3D.NewStreakInside | src/pages/Skills3D.jsx:479 | Every streak the spawner can create starts inside the removal bounds. |
| Skills3D.StepStreak | src/pages/Skills3D.jsx:567-568 | A streak moves by its velocity and fades in by 0.06 per frame, never past 0.95. |
| Skills3D.NewMeteor | src/pages/Skills3D.jsx:493-496 | A new meteor starts unrotated and drifts left and down. |
| Skills3D.NewMeteorInside | src/pages/Skills3D.jsx:494 | Every meteor the spawner can create starts inside the removal bounds. |
| Skills3D.LabelAt | src/pages/Skills3D.jsx:590-595 | A label is visible exactly when the projected depth lies in [-1, 1]; the projected origin maps to the centre of the canvas. |
| Skills3D.ResolveSound | src/pages/Skills3D.jsx:540-543 | A hovered result is a direct child of the cloud and the nearest such ancestor-or-self of the intersected object. |
| Skills3D.ResolveComplete | src/pages/Skills3D.jsx:541-543 | When some ancestor-or-self of the intersected object is a child of the cloud, a planet is found. |
| Skills3D.Scene.constructor | src/pages/Skills3D.jsx:400-405 | The scene starts with empty streak, meteor, mesh and label lists, nothing hovered, selected or focused. |
| Skills3D.Scene.AddPlanet | src/pages/Skills3D.jsx:442-450 | The planet's group and its title label are pushed together, so every label shows the skill of the mesh at its index. The core starts dim. |
| Skills3D.Scene.SpawnStreak | src/pages/Skills3D.jsx:474-484 | The cap is 2 under reduced motion and 5 otherwise (`MaxStreaks`). At the cap nothing changes. Otherwise exactly one new streak is appended, so the count never exceeds the cap. |
| Skills3D.Scene.SpawnMeteor | src/pages/Skills3D.jsx:491-499 | The cap is 2 under reduced motion and 6 otherwise (`MaxMeteors`). At the cap nothing changes. Otherwise exactly one new meteor is appended, so the count never exceeds the cap. |
| Skills3D.Scene.UpdateStreaks | src/pages/Skills3D.jsx:565-572 | Every streak is stepped. Exactly those now right of x = 12, below y = -6 or past z = 8 are removed, and the rest keep their order. |
| Skills3D.Scene.UpdateMeteors | src/pages/Skills3D.jsx:574-583 | Every meteor is stepped (`StepMeteor`: it moves by its velocity and turns by its spin). Exactly those now left of x = -12, below y = -6 or behind z = -10 are removed, and the rest keep their order. |
| Skills3D.Scene.LabelStyles | src/pages/Skills3D.jsx:589-596 | One style per label, each computed from the mesh at the same index, which always exists. |
| Skills3D.Scene.Hover | src/pages/Skills3D.jsx:538-550 | The parent walk ends at the planet `Resolve` names, or at none. On a change the old planet is dimmed and the new one lit, and otherwise no intensity changes. |
| Skills3D.Scene.Click | src/pages/Skills3D.jsx:509-514 | A click with nothing hovered does nothing. Otherwise the hovered planet is selected and becomes the camera's focus. |
| Skills3D.Scene.OnKey | src/pages/Skills3D.jsx:612-616 | Escape clears the selection, and any other key leaves it. |
| Skills3D.Scene.Close | src/pages/Skills3D.jsx:635 | The backdrop clears the selection. |
| Skills3D.AtMostOneLit | src/pages/Skills3D.jsx:545-550 | Whatever the hover history, no two planets are lit at once. |

## Left out

- Rendering: the three.js scene, shaders, textures, canvas drawing and the spotlight gradient. Style, class and cursor writes are also out, except for the hand-cursor flag, as are the markup and the glitch layers. None of these holds stateable logic.
- Floating point: positions, velocities and progress values are exact reals. The `CursorFX` life counter is exact thousandths.
- Timers and observers: `requestAnimationFrame`, `setTimeout`, `IntersectionObserver`, `ResizeObserver` and `matchMedia` are explicit method calls here. A clock reading enters as the already divided progress ratio.
- `Math.random`: every random value is a parameter. Toast ids, particle jitter, scramble picks and streak and meteor draws are all inputs.
- `fetch`, the Resend client and `process.env`: these are inputs describing how the call ended, or the configured address.
- `CursorFX` colours: the RGB-to-hue conversion of a `data-cursor-color` attribute (src/components/CursorFX.jsx:72-92) is not modelled. The rounded hue it yields is an input of `HueAfter`.
- `CursorFX` spotlight: the position and alpha easing (src/components/CursorFX.jsx:134-137) is left out. `CursorFX.Cursor.Frame` takes `alpha > 0.02` as its parameter `visible`.
- `CursorFX` keyboard: the `using-keyboard` class switching is DOM plumbing.
- `CursorFX` listener leak: the `visibilitychange` listener (src/components/CursorFX.jsx:121) is never removed, because cleanup passes a different function (line 192). This is listener bookkeeping.
- Skills3D geometry: the golden-spiral placement, the planet spin and the star field are left out.
- Skills3D camera: the lerp towards `focusTarget`, and clearing it within 0.05 (src/pages/Skills3D.jsx:553-557), are float numerics.
- Skills3D spawn timers (lines 560-562): `SpawnStreak` and `SpawnMeteor` are called directly.
- Skills3D.Scene.Hover: the raycast is the input `first`. The `cloud.children.includes(top)` test is the parent link being the cloud, which three.js keeps consistent with the children list.
- Skills3D.Scene.Click: the copy of the hovered planet's skill is represented by the planet itself. The camera's focus point, 10.2 units out along the planet's direction, is represented by the planet as well.
- Skills3D planet loading: planets are built asynchronously in order. Each completed iteration is one `AddPlanet` call.
- SemiCircleProgress.Gauge: the effect's early return without an element and the unmount cleanup are left out. The circumference `Math.PI * 60` is the constant `Circumference`, written at double precision.
- SemiCircleProgress.Clamped: a NaN or non-numeric `value` is outside the model. A missing value is `None`.
- GlitchText.Glitch: `Run` represents `cancelAnimationFrame` plus the new request by setting `animating`. The intersection trigger at threshold 0.35 is the caller invoking `Run`.
- ContactApi: body properties that are not strings are out of scope. The Resend SDK's own error handling is out of scope too: sending reports only thrown, absent-message or delivered outcomes.
- ContactTerminal.Report: an error response whose JSON body is `null` is not represented. There `data.error` throws a `TypeError`, whose engine-specific message the catch would show. `Body` has only the unparseable and the object cases.
- Strings are sequences of Unicode scalar values, not UTF-16 code units. Lengths and the character-class tests differ only for characters outside the Basic Multilingual Plane.
- Concurrency: only the interleavings written as explicit `Submit`, `Settle`, `Intersect` and `Tick` calls are covered.
- SemiCircleProgress.Gauge.Intersect: an intersection during a running count-up models only the new count-up. The effect's cleanup only disconnects the observer (src/components/SemiCircleProgress.jsx:35), so in the component the old `tick` chain goes on calling `setPct` for its own target until its 1.2 s are up, interleaved with the new chain. The model keeps one `target`, and that earlier chain's writes are not represented.
- `api/contact.js` has none of the following, so the model has none of them either:
  - a honeypot rejection;
  - HTML escaping;
  - truncation of name and subject;
  - a GET liveness probe;
  - `ok: false` in error bodies;
  - a server-side email check.

  The two forms test presence with JavaScript truthiness, without trimming. The relay ignores the submitted subject. `ContactApi.IgnoresOtherFields` and `ContactApi.NoEmailShapeCheck` state these absences.

## Findings

| source | as written | input that shows it | evidently intended | confidence | as-written member | corrected member |
|---|---|---|---|---|---|---|
| src/components/SemiCircleProgress.jsx:48 | `strokeDashoffset="{circumference - dash}"` is a quoted JSX attribute, so the browser receives the literal brace text and the arc never follows `pct`. The same holds for `strokeDasharray` on the same line. | `pct = 0` and `pct = 100` render the same attribute | offset = circumference − (pct / 100) · circumference: the full arc hidden at 0%, none at 100% | high, not executed | SemiCircleProgress.DashOffsetAsWrittenIgnoresPct | SemiCircleProgress.DashOffset |
