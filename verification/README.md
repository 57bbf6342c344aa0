# Jet Lag hide-and-seek apps: a verified model

This project models the deterministic core of three browser apps for a
hide-and-seek game played across a city.

- **Seeker app.** The seekers spend question cards (matching, radar,
  thermometer, photo) and mark the answers on a map. Each answered question
  shades the part of the map where the hider cannot be.
- **Hider app.** The hider runs a game clock and answers questions. For each
  answer the hider draws a card into a hand of at most six. At the end the
  hider scores the time survived plus the minutes written on the "Time +"
  cards in the hand.
- **Combined game app.** A role is chosen, an hour of hiding is counted
  down, and then the hunt is counted up. The app also keeps the seekers'
  card counters and the hider's hand, and ends with the final score.

The model is split into these modules:

| Module | What it models |
|---|---|
| `Text` | The JavaScript string operations the apps rely on: `includes`, `startsWith`, `replace` with a one-character pattern, `padStart`, `toString` of a whole number, and the first run of digits (`/\d+/`). |
| `Numbers` | `parseFloat` on decimal numerals, with its NaN result. |
| `Distance` | `distanceToMeters`, which turns the distance tokens on the cards into meters. |
| `Shapes` | The geometry of the shaded layers: donut rings, matching half-planes, dividing lines, and the perpendicular bisector of a thermometer move. |
| `Shading` | `addShadedArea` as a function from an answered question to the list of shapes it adds. |
| `Seeker` | The seeker app's state, as a class whose methods update it in place. |
| `Clock` | `formatTime`, which the hider app and the game app share word for word. |
| `Cards` | The hider's cards: the hand limit, discarding by id, finding a veto, and the time bonus. |
| `Hider` | The hider app's state, as a class. |
| `Game` | The combined game app's state, as a class. |

Conventions:

- Map layers are shape records: `Circle`, `Polygon`, `Polyline`.
- The floating-point cosine, sine and square root are given as a `Maths` record of functions. JavaScript numbers are reals.
- Random card draws and `Date.now()` ids are method parameters.
- A timer tick is one method call.

## Model

| member | source | states |
|---|---|---|
| Text.ContainsMeansOccurs | seeker-app.js:63-71 | `includes` computed position by position holds exactly when the needle occurs at some index (both directions) |
| Text.ReplaceFirst | seeker-app.js:64 | `replace` with a one-character pattern returns the string unchanged when the character is absent. Otherwise only its first occurrence is replaced. |
| Text.NatToString | hider-app.js:38 | `toString` of a whole number writes digits with no leading zero. It writes one digit below 10 and two from 10 to 99. |
| Text.NatToStringRoundTrip | hider-app.js:38 | reading back the digits of `n.toString()` gives `n` |
| Text.PadStart | hider-app.js:38 | `padStart(width, c)` keeps the text and prefixes copies of `c` up to the width; text already as wide is unchanged |
| Text.ZeroPaddingValue | hider-app.js:38 | zeros put in front of a digit string do not change the number it denotes |
| Text.FirstDigitRun | hider-app.js:80 | `match(/\d+/)[0]` is all digits, and it is empty exactly when the text has no digit |
| Text.FirstDigitRunAfter | hider-app.js:80 | after text without digits, the first digit run is the digit prefix of what follows |
| Numbers.ParseFloat | seeker-app.js:64-73 | `parseFloat` yields a number exactly when, after white space and one sign, the text starts with a digit or a point and a digit; otherwise NaN |
| Numbers.ParseWholeNumber | seeker-app.js:64-73 | `parseFloat` reads a whole number's decimal text back as that number, whatever non-numeric text follows |
| Numbers.ParseDecimal | seeker-app.js:64 | `parseFloat` reads "n.f" back as n plus the fraction f |
| Distance.ExpandGlyphs | seeker-app.js:63 | a token with neither glyph is unchanged; with only "½" its first "½" becomes "0.5", and with only "¼" its first "¼" becomes "0.25" |
| Distance.DistanceToMeters | seeker-app.js:61-75 | a token with no "m" is exactly one mile in meters. The result is NaN exactly when the token has an "m" and the number read from it does not parse; that text is the glyph-expanded token when it contains "mi", the token itself otherwise. |
| Distance.MilesTokens | seeker-app.js:63-66 | a token containing "mi" takes the miles branch, whatever else it holds. Its value is `parseFloat` of the glyph-expanded text times 1609.34. |
| Distance.KilometreTokens | seeker-app.js:67-70 | a token with "km" and no "mi" is `parseFloat` of the token times 1000, with no glyph expansion |
| Distance.MeterTokens | seeker-app.js:71-73 | a token with "m" but neither marker is `parseFloat` of the token, unscaled |
| Distance.UnitlessTokens | seeker-app.js:74 | a token with no "m" at all is exactly 1609.34 meters |
| Distance.UnitMarkersContainM | seeker-app.js:63-73 | both unit markers contain "m", so the order of the tests decides the unit |
| Distance.MilesWinOverKilometres | seeker-app.js:63-70 | "n km mi" is read as n miles: the miles test comes first |
| Distance.WholeMilesAgreeWithManualShade | seeker-app.js:62-75 | the token "n mi" gives the same radius as n miles chosen in the manual-shading dialog |
| Distance.HalfMileAgreesWithManualShade | seeker-app.js:62-66 | "½ mi" gives the dialog's half-mile radius |
| Distance.QuarterMileAgreesWithManualShade | seeker-app.js:62-66 | "¼ mi" gives the dialog's quarter-mile radius |
| Distance.RadarCardTokens | seeker-app.js:25-75 | the radar cards' tokens give 8046.7, 4828.02, 1609.34, 804.67 and 402.335 meters |
| Distance.ThermometerCardTokens | seeker-app.js:33-75 | the thermometer cards' tokens give 100, 200 and 500 meters |
| Distance.MilesToMeters | seeker-app.js:671 | the manual-shading radius of a non-negative number of miles is at least that number |
| Shapes.BuildDonut | seeker-app.js:432-450 | the vertex loop runs i = 0..64 inclusive. Both rings get 65 vertices. Outer vertex i lies at angle i·360/64 and 50 km. Because of `unshift`, inner vertex j lies at angle index 64 − j: the inner ring is the forward ring reversed. |
| Shapes.Ring | seeker-app.js:438-447 | a ring has 65 vertices, vertex i at angle i·360/64 from the centre, offset by the radius over 111000 in latitude and over 111000·cos(lat) in longitude |
| Shapes.HalfPlaneBounds | seeker-app.js:485-523 | four vertices. "North" shades only points with lat ≤ the location's, two of them on it and two strictly below. "South" has all lat ≥, "East" all lng ≤, "West" all lng ≥, each with two vertices on the location's line and two strictly beyond. |
| Shapes.HalfPlaneSpans | seeker-app.js:485-523 | each shaded strip reaches both sides of the location along the dividing line |
| Shapes.MatchingLine | seeker-app.js:537-541 | for north/south the dividing line has constant latitude and spans lng ± 0.5; otherwise it has constant longitude and spans lat ± 0.5 |
| Shapes.EndpointSides | seeker-app.js:553-558 | the moved-to point lies half the squared move on one side of the bisector, the start as far on the other |
| Shapes.BisectorLine | seeker-app.js:553-623 | the dividing line's midpoint is the move's midpoint, and both of its ends have zero dot product with the movement (dy, dx). The movement line joins start and end. |
| Shapes.BisectorHalfPlane | seeker-app.js:581-602 | the half-plane's near edge is the dividing line. Its far edge is the line shifted by +(50000/length)·(dy, dx) toward the moved-to point, or by the negation on the other branch. |
| Shapes.ShiftedSide | seeker-app.js:589-600 | shifting a point by k times the movement moves its side by k times the squared move |
| Shapes.BisectorShadedSide | seeker-app.js:581-602 | the far vertices lie on the moved-to point's side on the first branch and on the start's side otherwise; the near vertices lie on the bisector |
| Shapes.Bisector | seeker-app.js:549-623 | no shapes exactly when the perpendicular's length is 0. Otherwise three layers: the dividing line (two points), one shaded four-vertex polygon, and the dashed movement line from start to end. |
| Shading.AnsweredDirection | seeker-app.js:485-523 | each of North, South, East and West is shaded exactly when the question is of its kind and the answer names it |
| Shading.RadarShades | seeker-app.js:383-471 | nothing exactly when the radius is NaN or the answer is neither "Yes" nor "No". Otherwise at most two layers, the last a circle at the location of the parsed radius: shaded for "No", a boundary for "Yes". |
| Shading.MatchingShades | seeker-app.js:474-546 | nothing exactly when the details name neither north/south nor east/west. Otherwise at most two layers, the last the dividing line through the location. |
| Shading.ThermometerShadesAsWritten | seeker-app.js:549-624 | the app's thermometer layers: none exactly when the perpendicular's length is 0, otherwise the dividing line, the half-plane and the movement line from start to end |
| Shading.ThermometerShades | seeker-app.js:549-624 | the corrected thermometer layers, with the same lines and the same no-movement case as the app's |
| Shading.ShadesFor | seeker-app.js:375-625 | at most three layers per question. Nothing without a location, unanswered, for a photo question, or when the source throws on a NaN radius or zero-length move. |
| Shading.NothingWithoutLocationOrAnswer | seeker-app.js:376 | a question with no location, or not answered, adds no shapes |
| Shading.PhotoShadesNothing | seeker-app.js:375-625 | photo questions add no shapes |
| Shading.RadarNo | seeker-app.js:383-429 | radar "No" adds exactly one shaded circle at the location, of the parsed radius |
| Shading.RadarYes | seeker-app.js:430-471 | radar "Yes" adds one donut polygon (65-vertex outer ring at 50 km, 65-vertex inner ring at the parsed radius, wound backwards) and then one boundary circle of that radius |
| Shading.RadarOtherAnswer | seeker-app.js:406 | a radar answer other than "Yes" or "No" adds nothing |
| Shading.MatchingOtherQuestions | seeker-app.js:478-481 | a matching question about neither north/south nor east/west adds nothing |
| Shading.MatchingAnswerShadesOppositeSide | seeker-app.js:481-546 | a directional answer adds one four-vertex strip on the far side of the location from the answer, then the dividing line |
| Shading.MatchingUnmatchedAnswer | seeker-app.js:525-546 | a directional question whose answer names no applicable direction adds only the dividing line |
| Shading.ThermometerNeedsStart | seeker-app.js:551 | a thermometer question without a starting point adds nothing |
| Shading.ThermometerInApp | seeker-app.js:549-551 | an answered thermometer question with a start point adds the as-written thermometer layers |
| Shading.CorrectionSwapsAnswers | seeker-app.js:583-602 | the corrected layers for "Closer" are the app's layers for "Farther", and for any other answer the app's layers for "Closer" |
| Shading.SideMeasuresNearness | seeker-app.js:553-567 | the side of the bisector is half the difference of squared distances to start and end: positive exactly nearer the end, negative exactly nearer the start |
| Shading.BisectorFarSide | seeker-app.js:581-602 | the far vertices of the half-plane are strictly nearer the end on the first branch and strictly nearer the start otherwise; the near vertices are equidistant |
| Shading.ThermometerAsWrittenShadesHiderSide | seeker-app.js:585-593 | as written, "Closer" shades a region whose far corners are nearer the moved-to point, which is where the hider is |
| Shading.ThermometerCounterexample | seeker-app.js:585-611 | the move (0, 0) → (0, 0.01) answered "Closer" shades a far corner nearer the moved-to point |
| Shading.ThermometerShadesRuledOutSide | seeker-app.js:549-624 | the corrected layers: "Closer" shades the half whose far corners are strictly nearer the start, any other answer the half nearer the end; the near corners are equidistant. The dividing line and movement line are drawn around it. |
| Seeker.Remaining | seeker-app.js:840 | a card shows its count minus the questions used, never more than the count; it is non-negative exactly when no more were used than the count |
| Seeker.AlreadyUsed | seeker-app.js:257 | `some` over the used questions, tried from the first, holds exactly when one of them has the given details |
| Seeker.ThermometerCountCanGoNegative | seeker-app.js:256-258 | each of the three thermometer tiles passes the already-used test once, so the card can be played three times against a count of two and show −1 |
| Seeker.NoneUsed | seeker-app.js:96-101 | every card type starts with an empty list of used questions |
| Seeker.MarkersFor | seeker-app.js:344-373 | a question without a location adds no marker; otherwise its location's marker comes first, and a thermometer with a start point adds the start's marker second |
| Seeker.SeekerApp.constructor | seeker-app.js:95-108 | the initial state: not started, no dialog, no used questions, no selection, no markers or shading |
| Seeker.SeekerApp.StartGame | seeker-app.js:704 | the start button sets the game started and changes nothing else |
| Seeker.SeekerApp.CancelSelection | seeker-app.js:283-292 | clears the active type, details, start point and selected point; nothing else changes |
| Seeker.SeekerApp.UseQuestion | seeker-app.js:256-281 | an already-used question changes nothing. A photo question opens the photo list. Any other becomes the active question with no point chosen. |
| Seeker.SeekerApp.HandleMapClick | seeker-app.js:189-254 | without an active question, or with no or empty details, nothing changes. Radar records a pending unanswered question and drops the selection. The first thermometer click sets the start. Otherwise the click becomes the selected point and the answer dialog opens. |
| Seeker.SeekerApp.ConfirmPhotoQuestion | seeker-app.js:294-313 | appends one answered photo question with answer "Sent" and no location to the photo list, and closes the dialog |
| Seeker.SeekerApp.AddQuestionMarker | seeker-app.js:344-373 | the markers become the old markers followed by the question's markers |
| Seeker.SeekerApp.AddShadedArea | seeker-app.js:375-625 | the shaded layers become the old layers followed by the question's shapes, with the thermometer side as written; the donut comes from the vertex loop. It reports a throw exactly when the radius is NaN for "Yes"/"No" or the thermometer move has length 0, and then adds nothing. |
| Seeker.SeekerApp.SubmitAnswer | seeker-app.js:315-342 | reports an error and changes nothing exactly when no point is chosen and the type is not radar. Otherwise it files one answered question under its type, adds its markers and shapes, and lowers that type's remaining count by one, leaving the others. If the shading throws, the dialog and the selection stay as they were; otherwise the dialog closes and the selection is cleared. |
| Seeker.SeekerApp.HandleManualShade | seeker-app.js:668-684 | appends one circle of miles × 1609.34 meters and closes the dialog |
| Seeker.SeekerApp.ClearShadedAreas | seeker-app.js:661-666 | removes every shaded layer and keeps the questions and markers |
| Seeker.SeekerApp.ResetGame | seeker-app.js:627-659 | back to the start screen with no used questions (every remaining count back to the card count), no selection, markers or shading |
| Clock.Pad2 | hider-app.js:38 | a padded field is all digits, denotes its number and is at least two characters; below 100 it is exactly two |
| Clock.FieldsDecompose | hider-app.js:35-37 | hrs·3600 + mins·60 + secs recombine to the seconds, with minutes and seconds below 60 |
| Clock.FormatTime | hider-app.js:34-39 | the clock has colons at the third and sixth positions from the end and at least 8 characters; below 100 hours exactly 8 |
| Clock.SplitJoin | hider-app.js:38 | three fields joined by colons split back into the same fields |
| Clock.FormatTimeRoundTrip | hider-app.js:34-39 | reading the clock string back recovers the seconds exactly |
| Clock.FormatTimeFields | hider-app.js:34-39 | the clock splits into three fields; the hours read back as the whole hours, and the minutes and seconds fields read back as numbers below 60 |
| Clock.FormatTimeShape | app.js:163-168 | below 100 hours the clock is "hh:mm:ss" with digits in every field |
| Cards.PreviewMatchesBonus | hider-app.js:299-303 | the preview's minutes times 60 equal the final score's time bonus |
| Cards.Minutes | hider-app.js:80 | the minutes of a card are the number its first digit run denotes; a kind with no digit counts 0 (see Left out) |
| Cards.TimeBonus | hider-app.js:77-82 | the bonus in seconds is 0 when the hand holds no time card (that it is 60 times the preview's minutes is `Cards.PreviewMatchesBonus`) |
| Cards.BonusMinutes | hider-app.js:299-301 | the preview shows 0 minutes exactly when every card is either not a time card or names 0 minutes |
| Cards.BonusOfConcat | hider-app.js:77-82 | the bonus of a split hand is the sum of the parts' bonuses |
| Cards.BonusWithout | hider-app.js:77-82 | taking a card out lowers the bonus by what that card adds |
| Cards.BonusIgnoresOrder | hider-app.js:77-82 | two hands holding the same cards in any order have the same bonus |
| Cards.TimeCardMinutes | hider-app.js:78-81 | a card "Time +n" followed by a unit starts with "Time +" and is worth n minutes, 60·n seconds |
| Cards.DeckWorth | hider-app.js:11-82 | Veto and Duplicate add nothing; the four time cards add 300, 600, 900 and 1200 seconds |
| Cards.WithoutId | hider-app.js:72-74 | filtering by id keeps only cards of the hand, none with that id, and never lengthens it |
| Cards.WithoutIdCounts | hider-app.js:72-74 | every card of another id is kept as many times as the hand holds it, and none of that id is kept |
| Cards.WithoutIdConcat | hider-app.js:72-74 | the filter works piece by piece on a split hand, so the kept cards keep their order |
| Cards.WithoutAbsentId | hider-app.js:72-74 | a hand with no card of that id is unchanged |
| Cards.FindVeto | app.js:216 | `find` yields nothing exactly when no card is a Veto; otherwise it yields the first Veto card |
| Cards.FinalScore | hider-app.js:76-89 | the hunting time is the time, the time bonus is 60 times the preview's minutes, and the total is their sum |
| Hider.Entry.Shown | hider-app.js:62 | the time shown in the history reads back as the seconds recorded |
| Hider.HiderApp.constructor | hider-app.js:14-22 | the initial state: not started, empty hand and history, zero count and time |
| Hider.HiderApp.StartGame | hider-app.js:41-44 | starts the game and the timer, nothing else |
| Hider.HiderApp.Tick | hider-app.js:25-32 | one second adds 1 to the clock exactly when the game is on and the timer runs |
| Hider.HiderApp.ToggleTimer | hider-app.js:157 | the pause button flips the timer, nothing else |
| Hider.HiderApp.AnswerQuestion | hider-app.js:46-70 | closes the dialog. The drawn card is appended only when the hand has fewer than 6 cards, so the hand stays within 6. The count rises by exactly 1 and exactly one history entry (type, card, time) is appended even when the hand is full. |
| Hider.HiderApp.DiscardCard | hider-app.js:72-74 | the hand becomes the hand without the cards of that id |
| Hider.HiderApp.CalculateFinalScore | hider-app.js:76-89 | the hunting time is the clock, the time bonus is 60 times the preview's minutes, and the total is the clock plus that bonus |
| Hider.HiderApp.Caught | hider-app.js:314-317 | stops the clock and shows the score |
| Hider.HiderApp.ResetGame | hider-app.js:91-100 | not started, timer stopped, time 0, empty hand, count 0, empty history |
| Game.StartingCards | app.js:31-37 | every card type has a starting counter: 3 matching, 3 measuring, 2 radar, 2 thermometer and 1 photo |
| Game.HidingStep | app.js:97-110 | while hiding with time left, one second comes off; the phase stays hiding while time is left and becomes the hunt when the countdown reaches 0; in any other state nothing changes |
| Game.HidingCountdown | app.js:97-110 | from `left` seconds the countdown stays hiding at `left − k` for k < left, and after `left` ticks it is hunting at 0 |
| Game.HuntingIsStable | app.js:97-110 | once hunting, the hiding countdown changes nothing |
| Game.HourOfHiding | app.js:43-110 | the hunt begins exactly 3600 ticks after hiding starts, and not one tick earlier |
| Game.GameApp.constructor | app.js:20-48 | setup phase, no role, the starting counters, empty hand, an hour of hiding, no dialog |
| Game.GameApp.ChooseRole | app.js:272 | sets the role, nothing else |
| Game.GameApp.StartGame | app.js:170-176 | with no role the phase stays; otherwise hiding begins |
| Game.GameApp.HidingTick | app.js:97-110 | a tick with prev ≤ 1 gives 0 and the hunt; otherwise prev − 1. It runs only while hiding with time left. |
| Game.GameApp.HuntingTick | app.js:113-120 | each hunting tick adds exactly 1 to the hunting time, and only while hunting |
| Game.GameApp.UseQuestion | app.js:178-183 | opens the question form exactly when the role is seeker and the type's counter is positive |
| Game.GameApp.SubmitQuestion | app.js:185-199 | the chosen counter drops by exactly 1, every other counter is unchanged, the result is shown, and only the hider's device draws a card |
| Game.GameApp.DrawHiderCard | app.js:201-209 | a hand of 6 or more is unchanged; otherwise exactly one card is appended |
| Game.GameApp.DiscardCard | app.js:211-213 | the hand becomes the hand without the cards of that id |
| Game.GameApp.PlayVeto | app.js:215-225 | with no Veto the hand is unchanged. Otherwise the cards sharing the first Veto's id leave, the others keep their order, and the dialog closes. |
| Game.GameApp.EndGame | app.js:227-245 | finished, with the hunting time, the bonus and their sum (the same bonus rule as the hider app) shown |

## Left out

- **Rendering:**
  - Leaflet and React rendering: map and tile set-up, markers as objects, popups, the canvas and SVG stripe patterns, CSS, the England mask and all markup. Shapes and marker positions are records in sequences.
  - The popup texts and the `alert`/`confirm` dialogs. Methods model the state after a confirmation.
- **Floating point:**
  - Floating-point rounding. JavaScript numbers are reals, so `8046.7` is exact.
  - Cosine, sine and square root are supplied functions, and no accuracy claim is made about them.
- **Haversine:** the haversine helpers `isWithinRadius` and `calculateDistance` are never used by the modelled code.
- **`parseFloat` limits:** exponent forms and "Infinity" are not read. The cards never carry them.
- **Assumptions about the map:**
  - Shading.Placeable: the model assumes a question location where the cosine of the latitude is positive. Every point of the Web Mercator map satisfies this. It is a precondition of the shape builder and of Seeker.SeekerApp.SubmitAnswer.
  - Shading.ShadingThrows: a radar "Yes" or "No" whose radius does not parse (NaN), and a thermometer with no movement (0 / 0 coordinates), make Leaflet throw before any layer is added. The model gives no shapes there. `Seeker.SeekerApp.SubmitAnswer` stops at that point, as the source's handler does. The exception itself and React's handling of it are not modelled.
  - The thermometer lemmas assume a positive length and a positive squared move.
- **Seeker state not modelled:**
  - the GPS position and its marker;
  - the temporary click marker;
  - `timestamp` and `timeUsed`.
- **Seeker.SeekerApp.SubmitAnswer:**
  - Null details are modelled as "".
  - The source throws a TypeError when no question type is active and a point is set. The model therefore requires an active type or no point; the dialog only opens with one.
- **Seeker.SeekerApp.HandleMapClick:** the radar branch sets the dialog content to the bare string `'answer'`, which no dialog renders. The pending question it records is modelled, but no way from it to an answer is. Radar shading is modelled through `Shading.ShadesFor` of an answered radar question.
- **Hider.Entry:**
  - It keeps the answer time in seconds; the source stores the string `formatTime(gameTime)`. `Hider.Entry.Shown` gives that string, and `Clock.FormatTimeRoundTrip` shows that the string and the seconds determine each other.
  - The entry's `timestamp` is not modelled.
- **Cards.Minutes:** a "Time +" card whose kind holds no digit counts 0 minutes. The source would throw on the missing match, but no card in the deck is like that.
- **Game state not modelled:**
  - the game app's player count, team, GPS and `lastThermoPosition`;
  - the question form's `data`, shown in the result dialog;
  - the rendering of the setup form.
- **Timers:**
  - A timer tick is one method call. Interval set-up, clearing and timing are not modelled.
  - Random draws and `Date.now()` ids are parameters.

## Findings

| source | as written | input that shows it | evidently intended | confidence | as-written member | corrected member |
|---|---|---|---|---|---|---|
| seeker-app.js:585-601, 611 | For the answer "Closer", the half-plane's far edge is shifted by +(50000/length)·(dy, dx), toward the moved-to point. That shades the side the hider is on, although the comment (586-587) and the popup ("NOT this side (farther)") say it shades the farther side. | start (0, 0), end (0, 0.01), answer "Closer": the first far corner is nearer the end than the start | "Closer" rules out the half nearer the start, and "Farther" the half nearer the end | not executed | Shading.ThermometerAsWrittenShadesHiderSide, Shading.ThermometerCounterexample | Shading.ThermometerShades, Shading.ThermometerShadesRuledOutSide |

The app model keeps the shading as written: `Shading.ShadesFor` and `Seeker.SeekerApp.AddShadedArea` draw `Shading.ThermometerShadesAsWritten` (`Shading.ThermometerInApp`). The corrected definition `Shading.ThermometerShades` stands beside it, and `Shading.CorrectionSwapsAnswers` shows that it is the app's shading with "Closer" and "Farther" exchanged.
