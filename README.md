# cherrycake — a verified model of the site's data-shaping core

cherrycake is a Next.js/React site that presents an analysis of Beethoven's
Grosse Fuge through several views: a tension canvas, a counterpoint weave, a
motif constellation, a motif graph, two Tonnetz views, a form timeline and a
narratives page. It also has a home page with a carousel of those views and a
contact form, and a contact endpoint. Underneath the drawing code, every view
shapes its JSON data with a small amount of deterministic logic. That logic
is what this project models and proves things about:

- **Score-time bookkeeping** (`ScoreTime`, `TonnetzSync`, `CounterpointWeave`).
  Each measure's largest event end is tallied. The measures are laid end to
  end in ascending order, which gives every measure a start offset. A binary
  search maps an offset back to its measure.
- **The loop clock** (`LoopClock`). The canvas views share a frame-throttled
  clock. It latches a start time, skips frames closer together than
  `1000 / targetFPS`, and turns elapsed time into a progress in `[0, 1)` and
  a segment index.
- **Set selection.** Nodes, links, notes and narratives are picked by range
  tests: the Tonnetz highlight sets, active nodes, active notes, the
  constellation's highlighted motifs and the segment narratives.
- **Graph filters and tallies.** These are the motif-graph filter (it never
  leaves a dangling link) and the Tonnetz map's link filter and degree table.
- **Domain-to-screen maps.** These are clamps, scales and normalisations into
  `[0, 1]`, and the bounds of stroke widths, brightness and node sizes.
- **Text helpers and validators.** These are keyword extraction, the
  narrative search, the measure line, the contact e-mail check, log
  truncation and the endpoint's answer.
- **Page state machines.** The two carousels and the contact form are
  modelled as classes whose methods are the event handlers.

Each component is one module (`TonnetzSync`, `CounterpointWeave`,
`MotifGraphPro`, `TonnetzMap`, `FormTimeline`, `TensionCanvas`,
`TonnetzPathway`, `MotifConstellation`, `Narratives`, `Contact`, `HomePage`,
`GrosseFugePage`). Several modules share logic that the source copies from
file to file:

- `Js` holds JavaScript values and string operations: truthiness, `\s`,
  `toLowerCase`, `includes`, decimal conversion and `join`.
- `Seqs` holds `filter`, `slice(0, n)` and `Math.min`/`Math.max` over lists.
- `ScoreTime` holds the measure tally and the cumulative starts.
- `LoopClock` holds the throttled clock.
- `TonnetzGraph` holds the Tonnetz data types, the link filter, `find` and
  `toXY`.

JavaScript numbers are modelled as `real` for times, positions and weights,
and as `int` for measures, pitches and ids. The state that a component
updates in place is modelled with imperative Dafny:

- the clock is a class;
- a `forEach` or `for` loop is a method with loop invariants, proved equal
  to a specification function;
- the page state is a class whose fields are the React state.

Pure expressions are modelled as functions, with lemmas that state what they
promise.

Three divisions in the source have no guard, and each becomes a precondition:

- `normalize` in the tension canvas, when every tension is equal;
- `xScale` in the tension canvas, for a one-measure curve;
- `timeToX` in the counterpoint weave, for an empty piece.

The motif constellation's node size divides by `max - min` without a guard.
There, the NaN it produces is modelled as `None`, because the view then falls
back to a radius of 5 (`val || 5`).

Some behaviours of the code as written are worth knowing. Each is modelled
as the code does it:

- **First constellation segment.** The constellation starts with
  `currentSegmentIndex` at 0. On the first pass through the loop, segment 0
  is therefore never "entered", and its motifs are not highlighted until the
  loop comes round again (`MotifConstellation.Constellation.AnimateFrame`).
- **Floating keywords.** The keywords only change when the new segment has a
  narrative. A segment without narratives keeps showing the previous
  segment's keywords.
- **Success timer.** The contact form's three-second timer sets the status
  back to idle unconditionally (`HomePage.ContactForm.ResetTimerFires`). If a
  second submission is under way when the timer fires, the form leaves the
  loading state while that request is still pending.
- **Link widths.** A motif-constellation link of weight 0 is drawn 1 wide
  (`width || 1`). That is wider than links of weight below 1/3
  (`MotifConstellation.DrawnWidthBounds`).
- **Pathway camera.** The Tonnetz pathway's animation effect depends on the
  current segment index, so every segment change ends the effect's run. The
  next run puts the camera and its target back at the initial camera and
  resets the throttle, and its closure already holds the new index. Frames
  inside a segment therefore never re-aim, and the camera does not glide
  toward a segment's triads: it moves one 2% step on the frame that detects
  the change and is then reset (`TonnetzPathway.RestartHoldsCamera`).
  `TonnetzPathway.Pathway` models a single run.
- **Violoncello colour.** In the motif graph's `nodeColor`, the `violoncello`
  alternative of `/cello|violoncello/i` can never decide the colour
  (`MotifGraphPro.VioloncelloAlternativeRedundant`).

## Model

| member | source | states |
|---|---|---|
| Js.ToLowerIdempotent | src/app/narratives/page.tsx:63-66 | Lower-casing twice is lower-casing once. Lower-casing a term makes it blank exactly when it was blank. |
| Js.IncludesToLower | src/app/narratives/page.tsx:63-66 | If a text contains a term, the lower-cased text contains the lower-cased term. |
| Js.IncludesTrans | src/app/narratives/page.tsx:65-66 | `includes` is transitive: a part of a part of a text is a part of the text. |
| Js.NatToDecimalRoundTrip | src/components/MotifGraphPro.tsx:119 | Reading the decimal string of a natural number back gives that number. |
| Js.IntToDecimalInjective | src/components/MotifGraphPro.tsx:119 | Distinct integers have distinct decimal strings. |
| Js.JoinLastChar | src/app/narratives/page.tsx:212 | A joined string ends with the last character of its last part. |
| Seqs.Prefix | src/components/MotifConstellation.tsx:169 | `slice(0, n)`: the first `n` elements, or the whole list when it is shorter; always a prefix of the input. |
| Seqs.Filter | src/app/narratives/page.tsx:64-67 | `filter` keeps no more elements than it was given, and each one it keeps passes the test and comes from the input. |
| Seqs.FilterMembership | src/app/narratives/page.tsx:64-67 | An element is in the filtered list exactly when it is in the input and passes the test. |
| Seqs.FilterIsSubsequence | src/app/narratives/page.tsx:64-67 | The filtered list keeps the input's order. |
| Seqs.FilterFirst | src/components/MotifConstellation.tsx:194-196 | The filter is empty exactly when no element passes. Otherwise its first element is the first element of the input that passes. |
| Seqs.SeqMin | src/components/FormTimeline.tsx:97 | `Math.min(...xs)` is an element of the list and is at most every element. |
| Seqs.SeqMax | src/components/FormTimeline.tsx:98 | `Math.max(...xs)` is an element of the list and is at least every element. |
| ScoreTime.MaxEndsCharacterized | src/components/TonnetzSync.tsx:44-50 | The measure table holds exactly the measures that have an event. Each maps to max(0, the largest end of its events). |
| ScoreTime.MaxEndsNonNegative | src/components/CounterpointWeave.tsx:82-88 | No measure's `maxEnd` is negative, because every entry starts at 0. |
| ScoreTime.StartOfFirst | src/components/CounterpointWeave.tsx:90-92 | The lowest measure starts at 0. |
| ScoreTime.StartOfNext | src/components/CounterpointWeave.tsx:91-94 | Each measure starts where the previous measure (in ascending order) ends. |
| ScoreTime.TotalIsLastEnd | src/components/CounterpointWeave.tsx:96 | `maxTime` is 0 with no measures. Otherwise it is where the last measure ends. |
| ScoreTime.MeasureWithinTotal | src/components/CounterpointWeave.tsx:90-96 | Every measure starts at 0 or later and ends no later than `maxTime`. |
| ScoreTime.AscendingKeys | src/components/TonnetzSync.tsx:57 | The measure keys are listed once each, in strictly ascending numeric order. |
| TonnetzSync.RowTimings | src/components/TonnetzSync.tsx:39-42 | A row contributes an event exactly when both its measure and its offset are numbers (`Js.NumberOrUndefined`, the `typeof === 'number'` test), and then with exactly those values. |
| TonnetzSync.InvalidRowIgnored | src/components/TonnetzSync.tsx:40-42 | A row without a numeric measure or offset contributes nothing, wherever it stands among the rows. |
| TonnetzSync.TimingsMeasures | src/components/TonnetzSync.tsx:39-46 | The measures with events are exactly the measures of the rows that carry a numeric measure and offset. |
| TonnetzSync.TallyMeasures | src/components/TonnetzSync.tsx:37-51 | The first loop builds exactly the table of each measure's largest event end, with `ql` defaulting to 0. |
| TonnetzSync.CumulativeAnchors | src/components/TonnetzSync.tsx:53-62 | The second loop lists every measure once, in ascending order, each at the sum of the lengths of the measures before it. |
| TonnetzSync.BuildMeasureAnchors | src/components/TonnetzSync.tsx:36-63 | `buildMeasureAnchors` returns the anchors of the measure table of its rows. |
| TonnetzSync.AnchorMeasures | src/components/TonnetzSync.tsx:40-46 | There is an anchor for a measure exactly when some row has that numeric measure and a numeric offset. |
| TonnetzSync.AnchorsStartAtZero | src/components/TonnetzSync.tsx:55-58 | The first anchor's offset is 0. |
| TonnetzSync.AnchorsStep | src/components/TonnetzSync.tsx:57-60 | Each later anchor's offset is the previous anchor's offset plus the previous measure's `maxEnd`. |
| TonnetzSync.AnchorOffsetsSorted | src/components/TonnetzSync.tsx:45-59 | Anchor offsets never decrease. |
| TonnetzSync.AnchorsUnique | src/components/TonnetzSync.tsx:53-62 | The anchors are determined by the measure table: two lists that both fit the description are equal. |
| TonnetzSync.LastAtOrBefore | src/components/TonnetzSync.tsx:70 | This finds the last anchor whose offset is at most `t`, or the first anchor when every offset exceeds `t`. |
| TonnetzSync.ApproxMeasureOfOffset | src/components/TonnetzSync.tsx:65-73 | The result is null exactly when there are no anchors. Otherwise it is an anchor's measure. For sorted offsets, it is the measure of the last anchor at or before `t`, or the first anchor's measure when none is. |
| TonnetzSync.ActiveRange | src/components/TonnetzSync.tsx:112-115 | With no active segment, or an index outside the list, there is no range. Otherwise the range is that segment's start and end measures. |
| TonnetzSync.ToggleSegment | src/components/TonnetzSync.tsx:180 | A click makes segment `i` active exactly when it was not the active one, and otherwise clears the selection. |
| TonnetzSync.ToggleTwice | src/components/TonnetzSync.tsx:180 | Two clicks on the same segment return to the state before them. |
| TonnetzSync.SegmentStep | src/components/TonnetzSync.tsx:178-180 | Entering a segment selects it, leaving clears the selection, and a click toggles it. |
| TonnetzSync.HoverThenClickDeselects | src/components/TonnetzSync.tsx:178-180 | A pointer enters a segment before clicking it, and that click deselects it. |
| TonnetzSync.SelectionFollowsLastEvent | src/components/TonnetzSync.tsx:178-180 | After any non-empty sequence of pointer events, a selected segment is the one the last event touched, and that event was not a leave. |
| TonnetzSync.Highlight | src/components/TonnetzSync.tsx:117-137 | Nothing is highlighted without a range or without anchors. Otherwise a node id is highlighted exactly when one of its occurrences maps to a measure in `[a, b]`. A link index is highlighted exactly when both of its ends are highlighted. |
| TonnetzSync.ClampZoom | src/components/TonnetzSync.tsx:265 | The zoom is always in `[0.5, 3]`, and a zoom already in range is unchanged. |
| TonnetzSync.WheelZoom | src/components/TonnetzSync.tsx:262-265 | The wheel keeps the zoom in range. Scrolling down never zooms in and scrolling up never zooms out. |
| TonnetzSync.ZoomIn | src/components/TonnetzSync.tsx:381 | "+" never exceeds 3, and from a zoom in range it stays in range and does not shrink. |
| TonnetzSync.ZoomOut | src/components/TonnetzSync.tsx:453 | "−" never goes below 0.5, and from a zoom in range it stays in range and does not grow. |
| TonnetzSync.ZoomOutUndoesZoomIn | src/components/TonnetzSync.tsx:381-453 | Away from the clamps, "−" after "+" restores the zoom. |
| TonnetzSync.ZoomInUndoesZoomOut | src/components/TonnetzSync.tsx:381-453 | Away from the clamps, "+" after "−" restores the zoom. |
| TonnetzSync.StepView | src/components/TonnetzSync.tsx:262-281 | Zoom controls leave the pan alone. Reset returns to zoom 1 and pan (0, 0). A drag moves the pan by the pointer's travel and keeps the zoom. |
| TonnetzSync.ZoomStaysInRange | src/components/TonnetzSync.tsx:264-265 | From a zoom in `[0.5, 3]`, every sequence of view controls keeps the zoom in `[0.5, 3]`. |
| TonnetzGraph.VisibleLinks | src/components/TonnetzMap.tsx:54-57 | With "other" hidden, every remaining link has a present, non-empty kind that is not "other". |
| TonnetzGraph.VisibleLinksAll | src/components/TonnetzSync.tsx:139-141 | With "other" shown, the links are returned unchanged. |
| TonnetzGraph.VisibleLinksHidden | src/components/TonnetzMap.tsx:56 | With "other" hidden, a link stays exactly when its kind is present, non-empty and not "other". The survivors keep their order. |
| TonnetzGraph.FindNode | src/components/TonnetzMap.tsx:139-140 | `find` gives nothing exactly when no node has the id. Otherwise it gives the first node with that id. |
| TonnetzGraph.LinkEnds | src/components/TonnetzMap.tsx:139-142 | A link is drawn exactly when both of its ends are among the nodes, and it is drawn between those two nodes. |
| TonnetzGraph.ToXYRoundTrip | src/components/TonnetzMap.tsx:68 | For a non-zero scale, `toXY` is an affine bijection: the placement can be read back. |
| TonnetzGraph.ToXYInjective | src/components/TonnetzMap.tsx:68 | Two distinct lattice points are never placed on the same spot. |
| TonnetzGraph.OccurrenceWeight | src/components/TonnetzMap.tsx:62 | The starting degree is at least 1, and it is the number of occurrences when there are any. |
| TonnetzGraph.CappedRadius | src/components/TonnetzMap.tsx:156 | The radius never exceeds 22, and below the cap it is the size plus the growth term. |
| TonnetzMap.NodeWeightsCharacterized | src/components/TonnetzMap.tsx:61-62 | The degree table starts keyed by exactly the node ids. Each id has the occurrence weight of the last node with that id. |
| TonnetzMap.NodeWeightsPositive | src/components/TonnetzMap.tsx:62 | Every starting degree is at least 1. |
| TonnetzMap.TallyCounts | src/components/TonnetzMap.tsx:63 | Each link adds exactly 1 to its source and 1 to its target. An id not yet in the table starts from 1. |
| TonnetzMap.Degree | src/components/TonnetzMap.tsx:60-65 | The two `forEach` loops build exactly the table of occurrence weights plus one per link end. |
| TonnetzMap.DegreeSpec | src/components/TonnetzMap.tsx:60-65 | An id has a degree exactly when it is a node or a link end. A node's degree is its weight plus its link ends. Any other id's degree is 1 plus its link ends. Every degree is at least 1. |
| TonnetzMap.SelfLoopCountsTwice | src/components/TonnetzMap.tsx:63 | A self-loop adds two to its node's degree. |
| LoopClock.Trunc | src/components/TensionCanvas.tsx:112 | The quotient behind `%` is truncated toward zero. |
| LoopClock.JsRemBounds | src/components/TensionCanvas.tsx:112 | For a non-negative elapsed time, `elapsed % LOOP` lies in `[0, LOOP)`. |
| LoopClock.JsRemPeriodic | src/components/TensionCanvas.tsx:112 | One more whole loop leaves the remainder unchanged. |
| LoopClock.ProgressInUnitInterval | src/components/TensionCanvas.tsx:111-112 | Once time runs from the latched start, the progress lies in `[0, 1)`. |
| LoopClock.ProgressPeriodic | src/components/TensionCanvas.tsx:111-112 | The elapsed times `t` and `t + LOOP` give the same progress. |
| LoopClock.SegmentIndexInRange | src/components/TonnetzPathway.tsx:153 | With progress in `[0, 1)` and at least one segment, the segment index names a segment. |
| LoopClock.LatchOnce | src/components/TensionCanvas.tsx:107-109 | Over any run of frames, a non-zero start reference never changes again, and from 0 the first frame with a non-zero time latches it for good. |
| LoopClock.EmbedFrameIntervalDoubles | src/components/TensionCanvas.tsx:96-97 | With 30 frames per second embedded and 60 otherwise, an embedded view waits twice as long between accepted frames. |
| LoopClock.FrameClock.constructor | src/components/TensionCanvas.tsx:95-97 | The clock starts with `lastTime` at 0, the start reference at 0 and the interval `1000 / targetFPS`. |
| LoopClock.FrameClock.Tick | src/components/TensionCanvas.tsx:99-112 | A frame is accepted exactly when at least one interval has passed since the last accepted frame. A skipped frame changes nothing. An accepted frame sets `lastTime`, latches the start, and yields a progress in `[0, 1)`. |
| CounterpointWeave.LoadedEvents | src/components/CounterpointWeave.tsx:57 | Loading keeps no rests and no more entries than the data has. |
| CounterpointWeave.LoadedEventsMembership | src/components/CounterpointWeave.tsx:57 | An event is loaded exactly when it is present in the data and is not a rest. |
| CounterpointWeave.LoadedEventsKeepOrder | src/components/CounterpointWeave.tsx:57 | The loaded events keep the order of the data: they form an order-preserving subsequence of its entries. |
| CounterpointWeave.EventTimings | src/components/CounterpointWeave.tsx:86 | Each event is read as its measure, offset and quarter length. |
| CounterpointWeave.TallyEvents | src/components/CounterpointWeave.tsx:82-88 | The `measuresData` loop builds exactly the table of each measure's largest event end. |
| CounterpointWeave.CumulativeStarts | src/components/CounterpointWeave.tsx:90-96 | The `measureStarts` loop puts every measure at the total length of the measures before it, and `maxTime` is the total. |
| CounterpointWeave.MeasureStarts | src/components/CounterpointWeave.tsx:78-96 | Every measure with events starts at the sum of the lengths of the lower measures, and `maxTime` is the sum of all of them. |
| CounterpointWeave.EventWithinPiece | src/components/CounterpointWeave.tsx:82-96 | Every event has a measure start and ends no later than `maxTime`. |
| CounterpointWeave.MaxTimeNonNegative | src/components/CounterpointWeave.tsx:96 | The length of the piece is never negative. |
| CounterpointWeave.Place | src/components/CounterpointWeave.tsx:104-105 | Each event is placed at `measureStarts[measure] + offset`. |
| CounterpointWeave.SortByStartSorted | src/components/CounterpointWeave.tsx:103-107 | The sorted part is ordered by start time. |
| CounterpointWeave.SortByStartPermutes | src/components/CounterpointWeave.tsx:103-107 | The sort is a permutation of its input. |
| CounterpointWeave.SortByStartStable | src/components/CounterpointWeave.tsx:103-107 | The sort is stable: events with the same start time keep their input order. |
| CounterpointWeave.PartEventsSpec | src/components/CounterpointWeave.tsx:99-108 | A part gets exactly its own events, each at its start time, sorted by start time. Events of every other part are dropped. |
| CounterpointWeave.Dissonance | src/components/CounterpointWeave.tsx:111-128 | The dissonance always lies in `[0, 0.9]`. |
| CounterpointWeave.DissonanceSymmetric | src/components/CounterpointWeave.tsx:112 | The dissonance does not depend on the order of the two pitches. |
| CounterpointWeave.DissonanceTranspose | src/components/CounterpointWeave.tsx:112 | Transposing both pitches together leaves the dissonance unchanged. |
| CounterpointWeave.DissonanceZero | src/components/CounterpointWeave.tsx:112-127 | The dissonance is 0 exactly for unisons and octaves. |
| CounterpointWeave.OctavesConsonant | src/components/CounterpointWeave.tsx:112-114 | Pitches any whole number of octaves apart have dissonance 0. |
| CounterpointWeave.DissonanceMax | src/components/CounterpointWeave.tsx:112-127 | The maximum 0.9 is reached exactly by the minor-second class. |
| CounterpointWeave.OverlapsIff | src/components/CounterpointWeave.tsx:210 | Two notes overlap exactly when each starts before the other ends and both are non-empty. The test is symmetric, and notes that only touch do not overlap. |
| CounterpointWeave.OverlapSum | src/components/CounterpointWeave.tsx:205-214 | The summed dissonance against one part is between 0 and 0.9 per overlapping note. |
| CounterpointWeave.PartsSum | src/components/CounterpointWeave.tsx:201-215 | The summed dissonance over the other parts is between 0 and 0.9 per overlapping note. |
| CounterpointWeave.MeanBounded | src/components/CounterpointWeave.tsx:217-219 | A mean of values in `[0, 0.9]` lies in `[0, 0.9]`. |
| CounterpointWeave.AverageDissonance | src/components/CounterpointWeave.tsx:198-219 | The nested loops compute the mean dissonance against overlapping notes of the other parts, or 0 when there are none. It lies in `[0, 0.9]`. |
| CounterpointWeave.ActiveIsDrawn | src/components/CounterpointWeave.tsx:186-193 | An active note is always a drawn one. |
| CounterpointWeave.ActiveOfMembership | src/components/CounterpointWeave.tsx:182-195 | A part lists an active note exactly when one of its notes is active at the playhead, with that pitch and start. |
| CounterpointWeave.CollectActive | src/components/CounterpointWeave.tsx:175-195 | The frame loop collects the active notes part by part in `PART_ORDER`, and note by note in each part. |
| CounterpointWeave.CurrentTimeBounds | src/components/CounterpointWeave.tsx:157 | The playhead stays within `[0, maxTime]`, and it never reaches the end of a non-empty piece. |
| CounterpointWeave.AnimateFrame | src/components/CounterpointWeave.tsx:143-157 | A throttled frame leaves the clock alone. An accepted frame yields `progress * maxTime`, which lies within the piece. |
| CounterpointWeave.ChartWidth | src/components/CounterpointWeave.tsx:131-132 | The chart width is what the 150-unit paddings leave: 1620 in embed mode and 3540 otherwise. |
| CounterpointWeave.TimeToXSpan | src/components/CounterpointWeave.tsx:135 | Time 0 is at the left padding, `maxTime` is at the right padding, and later times lie further right. |
| MotifGraphPro.IdString | src/components/MotifGraphPro.tsx:119-130 | `String` keeps text as it is and writes numbers in decimal. |
| MotifGraphPro.NumericIdsStayDistinct | src/components/MotifGraphPro.tsx:119 | Stringifying numeric ids never merges two of them. |
| MotifGraphPro.NormalizeNode | src/components/MotifGraphPro.tsx:118-127 | The id is stringified. `part` defaults to "" and `count` to 1. `group` is kept only when it is a number. |
| MotifGraphPro.NormalizeLink | src/components/MotifGraphPro.tsx:128-133 | The ends are stringified. `weight` is kept exactly when it is a number. `kind` is kept unchanged. |
| MotifGraphPro.Normalize | src/components/MotifGraphPro.tsx:118-133 | Every node and link is normalised in place, and none is added or lost. |
| MotifGraphPro.InitPartFilter | src/components/MotifGraphPro.tsx:137-140 | The filter holds exactly the distinct non-empty parts, all switched on. |
| MotifGraphPro.AllowedKinds | src/components/MotifGraphPro.tsx:151-155 | The allowed kinds are only ever drawn from transpose, invert and similar. |
| MotifGraphPro.FilterGraphNodes | src/components/MotifGraphPro.tsx:157-158 | A node is kept exactly when its count reaches `minCount` and its part is not switched off. The kept nodes keep their order. |
| MotifGraphPro.FilterGraphLinks | src/components/MotifGraphPro.tsx:159-164 | A link is kept exactly when it passes the weight test and the kind test and joins two kept nodes. The kept links keep their order. |
| MotifGraphPro.NoDanglingLinks | src/components/MotifGraphPro.tsx:159-163 | Both ends of every kept link are kept nodes. |
| MotifGraphPro.UnknownKindDropped | src/components/MotifGraphPro.tsx:162 | A link with a kind other than transpose, invert or similar is always dropped. |
| MotifGraphPro.InitialPartFilterKeepsAll | src/components/MotifGraphPro.tsx:137-158 | With every part switched on, every node with enough occurrences is kept. |
| MotifGraphPro.MinCountMonotone | src/components/MotifGraphPro.tsx:157 | Raising `minCount` only removes nodes. |
| MotifGraphPro.NodeVal | src/components/MotifGraphPro.tsx:169 | The node value is `count × 1.5` clamped into `[4, 18]`. |
| MotifGraphPro.NodeValMonotone | src/components/MotifGraphPro.tsx:169 | A more frequent motif is never drawn smaller. |
| MotifGraphPro.NodeColor | src/components/MotifGraphPro.tsx:68-75 | The colour is one of the table's colours or the default. An exactly listed part takes its own colour, and an empty part takes the default. The pattern branches, in order, are stated by `ViolinPartsFirst`, `ViolaParts`, `CelloParts` and `UnmatchedDefault`. |
| MotifGraphPro.VioloncelloAlternativeRedundant | src/components/MotifGraphPro.tsx:73 | Every part matching `violoncello` also matches `cello`. |
| MotifGraphPro.CelloParts | src/components/MotifGraphPro.tsx:69-73 | An unlisted part that mentions cello but neither violin nor viola is drawn in the cello colour. |
| MotifGraphPro.ViolaParts | src/components/MotifGraphPro.tsx:69-72 | An unlisted part that mentions viola but not violin is drawn in the viola colour. |
| MotifGraphPro.UnmatchedDefault | src/components/MotifGraphPro.tsx:69-74 | An unlisted part that mentions none of violin, viola and cello takes the default colour, since `violoncello` cannot match without `cello`. |
| MotifGraphPro.ViolinPartsFirst | src/components/MotifGraphPro.tsx:69-71 | An unlisted part mentioning violin takes the violin colour before the viola and cello tests. |
| MotifGraphPro.LinkColor | src/components/MotifGraphPro.tsx:77-88 | The faint default is used exactly for a missing kind or one outside the three known kinds. |
| MotifGraphPro.FmtPatternPlaceholder | src/components/MotifGraphPro.tsx:90-92 | The placeholder `(pattern)` appears exactly for a missing or empty pattern, and the text is always parenthesised. |
| FormTimeline.Clamp | src/components/FormTimeline.tsx:46-48 | The result is in `[a, b]` when `a ≤ b`, and `n` is unchanged when already in range. |
| FormTimeline.ClampIdempotent | src/components/FormTimeline.tsx:46-48 | Clamping twice is clamping once. |
| FormTimeline.ParseSegment | src/components/FormTimeline.tsx:71-75 | The measures are kept, and `score` is kept exactly when it is a number (`Js.NumberOrUndefined`); any other value leaves it undefined. |
| FormTimeline.ParseSegments | src/components/FormTimeline.tsx:71-75 | Every segment is parsed in place. |
| FormTimeline.MeasureDomain | src/components/FormTimeline.tsx:95-100 | The domain is `{0, 1}` without segments. Otherwise it is the smallest start and the largest end, both attained. |
| FormTimeline.MakeDims | src/components/FormTimeline.tsx:90-93 | The width is 1000 and the inner width leaves the padding on both sides. |
| FormTimeline.ScaleXSpan | src/components/FormTimeline.tsx:102-107 | A degenerate domain maps to `padding`. Otherwise `minM` maps to `padding` and `maxM` to `padding + innerW`, and the map is monotone. |
| FormTimeline.Span | src/components/FormTimeline.tsx:120 | The span is never 0, so the normalising division is always defined. It is positive for ordered extremes and is 1 when they coincide. |
| FormTimeline.NormalizeYBounds | src/components/FormTimeline.tsx:121 | A height between the extremes lands in `[0, 1]`: the lowest on 0 and, when the extremes differ, the highest on 1. |
| FormTimeline.TensionPoints | src/components/FormTimeline.tsx:109-122 | There is one point per segment. |
| FormTimeline.TensionPointsSpec | src/components/FormTimeline.tsx:111-121 | Each point is at its segment's midpoint, and its height lies in `[0, 1]`. The lowest score maps to 0 and the highest to 1. Equal scores all map to 0. A missing score counts as 0. |
| FormTimeline.BandWidth | src/components/FormTimeline.tsx:181 | A band is at least 2 wide and otherwise as wide as its segment. |
| TensionCanvas.ChartWidth | src/components/TensionCanvas.tsx:86-87 | The chart width is what the 200-unit side paddings leave: 1520 in embed mode and 3440 otherwise. |
| TensionCanvas.ChartHeight | src/components/TensionCanvas.tsx:86-88 | The chart height is what the 200 top and 300 bottom paddings leave: 580 in embed mode and 1660 otherwise. |
| TensionCanvas.NormalizeSpan | src/components/TensionCanvas.tsx:80-83 | The lowest tension maps to 0 and the highest to 1. Anything between them maps into `[0, 1]`. |
| TensionCanvas.XScaleSpan | src/components/TensionCanvas.tsx:90-91 | Measure 1 is at the left padding, the last measure at the right padding, and the scale is monotone. |
| TensionCanvas.YScaleInChart | src/components/TensionCanvas.tsx:92-93 | A normalised tension is drawn inside the chart. |
| TensionCanvas.CurrentMeasureInRange | src/components/TensionCanvas.tsx:113 | With at least two measures, `currentMeasure` lies in `[1, len)`. The indicator is always drawn, on a measure before the last. |
| TensionCanvas.StrokeOf | src/components/TensionCanvas.tsx:217-265 | A curve segment is hidden exactly when its first measure is after the playhead. It is drawn in full exactly when both ends are at or before the playhead. Otherwise it is drawn partly, with a fraction in `[0, 1]`. |
| TensionCanvas.SegmentProgress | src/components/TensionCanvas.tsx:217-219 | The partial fraction is clamped into `[0, 1]`. |
| TensionCanvas.PartialReachesPlayhead | src/components/TensionCanvas.tsx:217-250 | A segment containing the playhead is drawn up to the playhead. |
| TensionCanvas.CurveStrokes | src/components/TensionCanvas.tsx:205-268 | The curve loop gives one stroke per pair of consecutive measures. |
| TensionCanvas.RevealIsPrefix | src/components/TensionCanvas.tsx:221 | For ascending measures, the curve is revealed as a prefix: a later segment is never drawn while an earlier one is hidden. |
| TensionCanvas.StrokeStyleBounds | src/components/TensionCanvas.tsx:214-226 | For normalised tensions, thickness lies in `[2, 15]` and brightness in `[100, 255]`, and both grow with tension. |
| TensionCanvas.AnimateFrame | src/components/TensionCanvas.tsx:99-113 | This is the throttled clock with a 90 s loop. An accepted frame yields `currentMeasure = 1 + progress × (len − 1)`, which lies in `[1, len)` for two or more measures. |
| TonnetzPathway.MaxTime | src/components/TonnetzPathway.tsx:118-122 | `maxTime` is at least 0 and at least every occurrence. It equals one of them unless it is 0. |
| TonnetzPathway.ActiveNodesSpec | src/components/TonnetzPathway.tsx:160-162 | A node is active exactly when one of its occurrences lies in `[start × 10, end × 10]`. Active nodes keep their order. |
| TonnetzPathway.SumBounds | src/components/TonnetzPathway.tsx:166-167 | The sum of `n` values between `lo` and `hi` lies between `n × lo` and `n × hi`. |
| TonnetzPathway.MeanWithin | src/components/TonnetzPathway.tsx:166-167 | A mean lies between the smallest and the largest value. |
| TonnetzPathway.RetargetInsideActive | src/components/TonnetzPathway.tsx:164-172 | The new target lies inside the bounding box of the active nodes, at zoom 2. |
| TonnetzPathway.Ease | src/components/TonnetzPathway.tsx:176-178 | One frame closes 2% of the gap and never overshoots. |
| TonnetzPathway.EaseStepsGap | src/components/TonnetzPathway.tsx:176-178 | After `k` frames toward a fixed target, the gap is `0.98^k` of the first, and the camera stays between its start and the target. |
| TonnetzPathway.RestartHoldsCamera | src/components/TonnetzPathway.tsx:124-178 | After the effect re-runs, camera and target are the initial camera, so any number of frames in the same segment leave the camera exactly there. The frame that sees the next segment moves it 2% toward the new target. |
| TonnetzPathway.TonnetzToScreenOrientation | src/components/TonnetzPathway.tsx:185-195 | The camera point is at the canvas centre. Lattice x grows to the right and lattice y grows upward. |
| TonnetzPathway.NodeActiveAtOwnOccurrences | src/components/TonnetzPathway.tsx:280-282 | A node glows at each of its own occurrences. |
| TonnetzPathway.NoOccurrencesNeverActive | src/components/TonnetzPathway.tsx:280-282 | A node without occurrences never glows, at any score time. |
| TonnetzPathway.StyleOf | src/components/TonnetzPathway.tsx:231-233 | An unknown kind takes the "other" colour, opacity and width. |
| TonnetzPathway.Pathway.constructor | src/components/TonnetzPathway.tsx:124-134 | The camera and its target start at (0, 0) with zoom 1.5, and the clock starts at 0. |
| TonnetzPathway.Pathway.AnimateFrame | src/components/TonnetzPathway.tsx:136-178 | A throttled frame changes nothing. An accepted frame moves to the segment under the playhead when it differs and exists, and re-aims at that segment's active nodes (or keeps the target when none is active). The camera then eases 2% toward the target. |
| MotifConstellation.DropSeps | src/components/MotifConstellation.tsx:167 | Removing a leading run of separators leaves a string that does not start with one. |
| MotifConstellation.Split | src/components/MotifConstellation.tsx:167 | `split` gives at least one piece, and no piece contains a separator. |
| MotifConstellation.SplitWord | src/components/MotifConstellation.tsx:167 | A single word splits into itself. |
| MotifConstellation.SplitAfterWord | src/components/MotifConstellation.tsx:167 | A word followed by a separator splits off as the first piece. |
| MotifConstellation.SplitJoin | src/components/MotifConstellation.tsx:167 | Splitting undoes joining words with single spaces. |
| MotifConstellation.ExtractKeywords | src/components/MotifConstellation.tsx:161-171 | Non-empty given keywords are returned unchanged. Otherwise there are at most five words, each longer than two characters and free of separators. |
| MotifConstellation.KeywordsOfSentence | src/components/MotifConstellation.tsx:166-170 | For a sentence of words, the keywords are its first five words longer than two characters, in order. |
| MotifConstellation.SegmentKeywordsSpec | src/components/MotifConstellation.tsx:194-215 | A segment has keywords exactly when one of its narratives lies in its range. They are those of the first such narrative. |
| MotifConstellation.CollectHighlighted | src/components/MotifConstellation.tsx:199-208 | The loop collects exactly the ids of the nodes with an occurrence in `[start, end]`. |
| MotifConstellation.NodeVals | src/components/MotifConstellation.tsx:134-141 | There is one size per node. |
| MotifConstellation.ValBetween | src/components/MotifConstellation.tsx:139 | Between the extremes the size lies in `[5, 30]`: the minimum count gets 5 and the maximum gets 30. |
| MotifConstellation.ValMonotone | src/components/MotifConstellation.tsx:139 | The size grows with the count. |
| MotifConstellation.NodeSizeBounds | src/components/MotifConstellation.tsx:134-141 | Every drawn radius lies in `[5, 30]`. When every count is equal, the size is NaN and the radius falls back to 5. |
| MotifConstellation.NodeSizeMonotone | src/components/MotifConstellation.tsx:139 | Radii never shrink as counts grow. |
| MotifConstellation.LinkLookOf | src/components/MotifConstellation.tsx:143-147 | The width is ten times the alpha. For a weight in `[0, 1]`, the width lies in `[0, 3]` and the alpha in `[0, 0.3]`. |
| MotifConstellation.DrawnWidthBounds | src/components/MotifConstellation.tsx:295 | A drawn link is never invisible: a positive weight is drawn `3 × weight` wide, and weight 0 is drawn 1 wide. |
| MotifConstellation.Constellation.constructor | src/components/MotifConstellation.tsx:126-158 | After loading, nothing glows, there are no keywords, and the clock is unlatched. |
| MotifConstellation.Constellation.AnimateFrame | src/components/MotifConstellation.tsx:175-226 | Without nodes nothing runs. Otherwise the start is latched and the progress is in `[0, 1)`. The state changes only when the index differs and names a segment. Then the highlighted ids are exactly the nodes occurring in the segment, and the keywords are those of its first narrative, if any. |
| Narratives.FilteredClustersSpec | src/app/narratives/page.tsx:60-68 | Without data the list is empty, and a blank term keeps every cluster. Any other term keeps, in order, exactly the clusters whose lower-cased Korean or English narrative contains the lower-cased term. |
| Narratives.FilteredSegmentsSpec | src/app/narratives/page.tsx:70-78 | The segment list is filtered by the same three cases. |
| Narratives.SameRuleForBoth | src/app/narratives/page.tsx:64-77 | A cluster and a segment with the same narratives are kept or dropped together. |
| Narratives.MissingNarrativesNeverMatch | src/app/narratives/page.tsx:65-66 | A card with neither narrative never matches a non-blank term. |
| Narratives.SearchIgnoresCase | src/app/narratives/page.tsx:62-63 | A term and its lower-cased form select the same cards. |
| Narratives.MatchNarrows | src/app/narratives/page.tsx:65-66 | A card matching a term also matches every part of it. |
| Narratives.IncludesBlank | src/app/narratives/page.tsx:62 | A term that contains a non-blank term is not blank. |
| Narratives.SearchNarrowsClusters | src/app/narratives/page.tsx:60-68 | Typing more never brings a cluster back: the result is a subsequence of the shorter term's result. |
| Narratives.SearchNarrowsSegments | src/app/narratives/page.tsx:70-78 | The same holds for segments. |
| Narratives.SegIdKeepsZeroIndex | src/app/narratives/page.tsx:233 | `??` differs from the same chain written with logical or exactly when the index is 0 and the id is present and non-zero: the card keeps index 0. |
| Narratives.MeasuresLineSpec | src/app/narratives/page.tsx:210-214 | The line is shown exactly for a non-empty list. It ends with "…" exactly when there are more than 16 measures. The measures are printed by `Js.Decimals`, whose digits never produce that ending. |
| Narratives.MeasuresShown | src/app/narratives/page.tsx:212 | The listed measures are the first sixteen, in order. |
| Contact.EmailRegexIff | src/app/api/contact/route.ts:18 | The pattern accepts exactly the strings with no whitespace, exactly one `@` that is not first, and a dot after the `@` with text on both sides. |
| Contact.PartsGiveShape | src/app/api/contact/route.ts:18 | A match of the pattern has exactly one `@` and a domain dot. |
| Contact.ShapeGivesParts | src/app/api/contact/route.ts:18 | A string of that shape matches the pattern. |
| Contact.EmailExamples | src/app/api/contact/route.ts:18 | `ab@c.de` and `a.b@c.d.e` match; `a@b@c.d`, `a@bc.` and `a b@c.d` do not. |
| Contact.LogMessage | src/app/api/contact/route.ts:30 | A message of at most 100 characters is logged as is. A longer one is logged as its first 100 characters plus `...`. |
| Contact.LogMessageIdempotent | src/app/api/contact/route.ts:30 | Shortening a shortened message changes nothing. |
| Contact.SubjectNamesSender | src/app/api/contact/route.ts:28-50 | The subject starts with the site tag and names the sender. A missing or empty name falls back to 익명 (`Contact.NameOr`). |
| Contact.HandleSpec | src/app/api/contact/route.ts:4-85 | The answer is 200, 400 or 500. It is 500 for an unreadable body. A missing field gives 400 before the address is examined. It is 200 exactly for a text address of the accepted shape and a non-empty text message. The wrong-shape 400 is given exactly when both fields are present and the address fails. |
| Contact.MailDoesNotChangeAnswer | src/app/api/contact/route.ts:35-77 | SMTP configuration and send failures never change the answer or the log. Mail goes out exactly when the relay is configured and sending succeeds. |
| Contact.AcceptedLog | src/app/api/contact/route.ts:27-32 | An accepted request logs the address as given and a non-empty name, with the message cut to 100 characters plus `...` when longer. |
| HomePage.MaxSlide | src/app/page.tsx:42 | `ceil(len / 2) − 1`: slides `0..m` hold every item in pairs, and the last slide is not empty. |
| HomePage.LoadedWindow | src/app/page.tsx:172 | On slide `s`, items `2s − 2` to `2s + 2` are loaded and `2s ± 3` are not. At most five iframes load. |
| HomePage.FourItemWindow | src/app/page.tsx:172 | For four items, `maxSlide` is 1. Slide 0 loads items 0 to 2, and slide 1 loads all four. |
| HomePage.Carousel.constructor | src/app/page.tsx:13-42 | The carousel starts on slide 0 with `maxSlide = ceil(4 / 2) − 1`. |
| HomePage.Carousel.Prev | src/app/page.tsx:210-211 | This goes back one slide, never before 0. The slide changes exactly when the button is enabled. |
| HomePage.Carousel.Next | src/app/page.tsx:220-221 | This goes on one slide, never past `maxSlide`. The slide changes exactly when the button is enabled. |
| HomePage.Carousel.GoTo | src/app/page.tsx:232-235 | A dot click selects its slide and stays in range. |
| HomePage.Update | src/app/page.tsx:73-78 | The named field takes the new value, and the other two keep theirs. |
| HomePage.UpdateRestores | src/app/page.tsx:73-78 | Changing a field and changing it back restores the form. |
| HomePage.FailureMessage | src/app/page.tsx:58-69 | A non-ok response shows the fixed send-failure text. A thrown `Error` shows its own message, and anything else shows the generic text. |
| HomePage.FormAnswer | src/app/page.tsx:52-56 | The endpoint answers the form 200 exactly when the address has the accepted shape and the message is non-empty, and 400 otherwise. The form never causes a 500. |
| HomePage.ContactForm.constructor | src/app/page.tsx:6-12 | The form starts empty and idle with no error. |
| HomePage.ContactForm.HandleChange | src/app/page.tsx:73-78 | While the inputs are enabled, a change updates only the named field. |
| HomePage.ContactForm.BeginSubmit | src/app/page.tsx:44-56 | Submitting sets the status to loading, clears the error, and posts the current fields. |
| HomePage.ContactForm.FinishSubmit | src/app/page.tsx:58-70 | Whatever the status is by then (idle, if an earlier success timer has fired), an ok response gives success and an emptied form, and any failure gives an error with its message and keeps the fields. |
| HomePage.ContactForm.ResetTimerFires | src/app/page.tsx:66 | Three seconds after a success the status returns to idle, whatever it is by then. |
| GrosseFugePage.SlidesAreItems | src/app/projects/grosse-fuge/page.tsx:42 | The slides `0..maxSlide` are exactly the items, and each item's iframe is loaded on its own slide. |
| GrosseFugePage.LoadedWindow | src/app/projects/grosse-fuge/page.tsx:175 | On slide `s`, the item shown and its existing neighbours are loaded and nothing further away. At most three iframes load. |
| GrosseFugePage.Carousel.constructor | src/app/projects/grosse-fuge/page.tsx:6-42 | The carousel starts on slide 0 with `maxSlide = 4 − 1`. |
| GrosseFugePage.Carousel.Prev | src/app/projects/grosse-fuge/page.tsx:214-215 | This goes back one slide, never before 0. The slide changes exactly when the button is enabled. |
| GrosseFugePage.Carousel.Next | src/app/projects/grosse-fuge/page.tsx:224-225 | This goes on one slide, never past `maxSlide`. The slide changes exactly when the button is enabled. |
| GrosseFugePage.Carousel.GoTo | src/app/projects/grosse-fuge/page.tsx:236-239 | A dot click selects its slide and stays in range. |

## Left out

- Drawing is not modelled: canvas, SVG and three.js output, colours (including the constellation's `PART_COLORS`), glow, noise, pulse, the weave's fibre offsets, grid lines and the constellation's camera orbit. Only the gates and bounds above are kept.
- `requestAnimationFrame` scheduling, React effect lifecycles, `alive` flags and re-renders are not modelled; each `animate` callback is one method call.
- `TonnetzPathway.Pathway.AnimateFrame`: the class models one run of the pathway effect. Its segment-index update stands for the state change that ends the run. The re-run itself is not a method, because it resets the throttle's last frame time to 0 while the start time persists. Its effect on the camera is stated by `TonnetzPathway.RestartHoldsCamera`.
- `fetch` and `Promise.all` data loading, the nodemailer relay, environment variables and the log timestamp are not modelled, because they are I/O. Whether SMTP is configured and whether sending succeeds are parameters of `Contact.Handle`. The mail's text and HTML bodies are not modelled.
- `Math.random` placement of the floating keywords is not modelled, because it is nondeterministic. Only the keyword texts are modelled.
- IEEE floating point is not modelled: numbers are unbounded reals and integers, NaN and infinities do not arise, and `Math.floor` and truncation are exact. The one place where NaN changes behaviour (the constellation's node size) is modelled as `None`.
- `TonnetzSync.ApproxMeasureOfOffset`: `(lo + hi) >> 1` is a 32-bit shift. The model divides by 2, which agrees for any list shorter than 2^31.
- `Js.ToLower`: only ASCII letters are lower-cased. Full Unicode case mapping is not modelled. Strings are sequences of code points, not UTF-16 units, so `length` and `substring` count characters.
- `Contact.Handle`: `String()` coercion of non-string fields is not modelled. The name is a string or missing. An address that is a JSON array would be coerced to its joined text and may match; the model's field values are scalars only.
- `MotifGraphPro.NormalizeNode`: the `Number(...)` coercion of `n` and `count` is not modelled. Both are taken as numbers or missing. The elements of `pattern` and `occurrences` are taken as integers, and `label` as a string or missing.
- `CounterpointWeave.MeasureStarts`: events are taken as well-typed records with numeric `measure`, `offset` and `ql`, as the view's type declares. Malformed rows are modelled only in `TonnetzSync`.
- `MotifConstellation.CollectHighlighted`: nodes are taken as well-typed, with an `occurrences` list. The source calls `occurrences.some` unguarded, although the graph file's own description makes the field optional. A node without it throws inside `animate` after the segment index is set and before the next frame is requested, which stops the animation at the first segment change. The model does not capture that stop.
- `TensionCanvas.NormalizeSpan`: requires distinct extremes. When every tension is equal, `normalize` divides 0 by 0 and the source draws NaN coordinates.
- `TensionCanvas.XScaleSpan`: requires at least two measures. With a single measure `xScale` divides by 0 and the source draws at NaN.
- `CounterpointWeave.TimeToXSpan`: requires a non-empty piece. With `maxTime` 0 `timeToX` divides by 0 and the source draws notes at NaN or infinite positions.
- `TonnetzSync.RowTimings`: a row's measure is an integer or missing. The source keeps any numeric measure, including a fractional one, and such a row cannot be represented.
- `FormTimeline.ParseSegment`: `start_measure` and `end_measure` are taken as numbers. The `Number(...)` coercion of strings and other values, and the NaN it can produce, are not modelled.
- Record keys are not modelled as strings: a measure table is a map keyed by integers. `Object.keys` order is replaced by the numeric sort the code applies.
- HTML form validation (`type="email"`, `required`) is not modelled. The endpoint's own checks are modelled instead.
- The carousels' `translateX` offsets, the narratives page's language toggle and tab switch, `Header.tsx`, the motif and fuge pages, layout, OG images, configuration, fonts and styling wrappers are not modelled, because they are presentation.
- Embed-mode DOM mutation and the `data-typo` attribute are not modelled, because they are direct DOM side effects.
