# Sonar survey coverage planner: a verified model

The planner keeps survey areas, transect plans, sonar runs and coverage gaps. It measures on a grid how much of an
area the processed runs have covered, reports what is missing with a recommended resurvey line, and takes runs and
gaps through reviewed state machines under optimistic locking. This project models the Go backend's geometry kernel,
its workflow as a concurrent protocol over the database, and its rate limiter, and proves what they guarantee.

`dafny verify dfyconfig.toml` checks everything.

## How the model is laid out

| files | what they hold |
|---|---|
| `Plane`, `Rings`, `Triangles`, `Polygons`, `Rectangles`, `Distance`, `Algebra`, `Collections` | points and boxes, the even-odd ring test and shoelace area, what both are for triangles and so for all rings, polygons with holes, distance to a track; `Algebra` and `Collections` hold facts about real arithmetic, sets and sequences |
| `Grid`, `Coverage`, `CoverageFacts`, `Boundaries`, `Resurvey`, `MoreSurvey`, `Transects`, `FlownPlans`, `OneCell` | the analysis lattice, the coverage calculation, what its results mean, its independence of how rings are written, the recommended line, the effect of more survey, generated plans and what flying them covers |
| `States`, `Checksums`, `Texts`, `Tables`, `Records` | state machines, the two fingerprints, what printed numbers and texts read back as, versioned tables with their histories, the entities with the services' checks and the repositories' writes |
| `Workflow` | the concurrent system: requests in flight, one database statement per step, any interleaving, a request may stop for good after any step |
| `Evolution`, `Invariant`, `Reading`, `Preservation`, `PlanSteps`, `RunSteps`, `GapSteps`, `RunInputs`, `Reachability` | the invariant, that every step keeps it, and what holds after every run of events |
| `Origins`, `OriginSteps`, `StoredRows`, `StoredGaps` | where every stored column comes from: the requests that have arrived, and what each stored run, review and gap says in their terms |
| `Growth`, `Freezing`, `Overtaking` | one successful writer per version, when locked plans and archived areas are final, and when a request can overtake a lock |
| `Measures`, `Agreement`, `CacheHits` | what of a boundary a finding depends on, exactly, and when the detection cache is right |
| `AuditTrail`, `StaleSnapshots`, `DistinctWrites` | which row an audit event shows, when it is not the one replaced, and that no write is logged twice |
| `Scenarios` | runs of the whole system in which the cache and the audit log are wrong |
| `Repositories`, `Requests`, `LoneUpdates`, `LoneInserts`, `Services`, `Idempotence` | the repositories and services as objects that update rows in place, tied to undisturbed runs of the concurrent system, and what repeating a request does |
| `RateLimiter`, `LaggingClocks` | the rate limiter object, its behaviour over whole runs, and the exact clock lag up to which its sweep is invisible |

The imperative parts of the source are methods with loops and objects with updated fields, each proved against a
specification function; the lemmas are about those functions. The concurrent system is a state machine: `Apply` gives
the effect of one event (a request arrives, moves one statement on, or is abandoned), `After(events)` the state after
any sequence of events, with the answers given so far, and the main theorems are about `After(events)` for all
sequences. Each service method leaves
the database as the request's own steps would when nothing interferes, whatever other requests are waiting half way.

## Abstractions

- Coordinates, lengths and ratios are exact reals and counters are unbounded integers. `math.Hypot` becomes a
  comparison of squared distances. The infinite start values of bounding boxes become `None`.
- The two SHA-256 fingerprints are modelled by what they are computed from, so equal fingerprints mean equal inputs.
  The run checksum's input is modelled character by character, with `%.3f` rounding to whole millimetres; a formatted
  time is a stand-in that is injective and free of the separator, as the real format is. The coverage hash's input is
  a record of the marshalled fields.
- GeoJSON payloads are the geometry they parse to. Text is a sequence of characters.
- One database statement is one atomic step. Unique indexes are those of the model structs; generated ids and the row
  order of queries without an order are arbitrary. No statement of the modelled requests deletes a row.
- History variables: a table remembers the first version and every edit of each row, the audit event of a lock the
  version that was expected (for updates of plans and areas the source logs it), and a gap the boundary it was
  detected with. No step of the model decides anything by them.
- A successful request is answered with the row that its audit event shows. For areas, new plans and imports the source
  reads the row once more before it answers.
- Time in the rate limiter is an integer number of nanoseconds with 0 for the zero time.

## Where the code and its documentation differ

The model follows the code.

- `gb-532.md:35` lets a run be rejected from any step; `run_state.go:20` does not let a processed run be rejected.
  `gb-532.md:36` sends false positives through a resurvey; `gap_severity.go:25` closes them directly.
- `gb-532.md:34` speaks of filtering small fragments and of an input hash; the code only raises a flag for a small gap
  and reports it all the same, and the hash leaves the area's boundary out (`Scenarios.CacheHitCanBeStale`;
  `Agreement.AgreeIffSameMeasure` says exactly which redrawings matter).
- `gb-532.md:54` says that the idempotency key prevents repetition; the code checks its length only, and repetition is
  prevented by the input hash.
- `gb-532.md:52` promises snapshots before and after every change; for plans and areas the snapshot before can be an
  older row than the one replaced (`Scenarios.SnapshotCanBeStale`; `AuditTrail.AuditsMatchWrites` tells from the event
  itself when it is not).
- `README.md:12` says that locking a plan fixes the version that is executed; the update statement does not test the
  state, so this needs requests that expect a version they have read (`Overtaking.LockIsOvertakenIff`).

## Model

| member | source | states |
|---|---|---|
| `Plane.PolygonBounds` | backend/internal/geometry/coverage.go:232-243 | the loop gives the bounding box of all positions, holes included |
| `Plane.BoundsAreTheHull` | backend/internal/geometry/coverage.go:232-243 | that box exists exactly when there is a position, holds every position, and each of its sides holds one |
| `Rings.RingContains` | backend/internal/geometry/coverage.go:266-277 | the loop with its carried previous position answers the even-odd parity of the crossed edges of the closed walk round the ring, the empty ring included; which edges are crossed is told by `Triangles.CrossesIffPassesRight` |
| `Rings.CrossesIsSymmetric` | backend/internal/geometry/coverage.go:270-271 | the crossing test of an edge does not depend on the edge's direction, although the formula divides by the difference of the ends |
| `Rings.RingArea` | backend/internal/geometry/coverage.go:245-252 | the loop with its index modulo the length gives half of what the closed walk sweeps from the origin; what that is for slanted edges is told by the `Triangles` rows |
| `Rings.RotatingTheRing` | backend/internal/geometry/coverage.go:245-277 | starting the ring at any other vertex changes neither containment nor signed area |
| `Rings.ReversingTheRing` | backend/internal/geometry/coverage.go:245-277 | reversing the ring keeps containment of every point and negates the signed area |
| `Rings.ClosingTheRing` | backend/internal/geometry/coverage.go:245-277 | appending the closing position of RFC 7946 section 3.1.6 changes neither containment nor area |
| `Rings.SplittingTheRing` | backend/internal/geometry/coverage.go:245-277 | cutting along any diagonal between two vertices: containment is the exclusive-or of the parts, signed area the sum |
| `Rings.ShiftingTheRing` | backend/internal/geometry/coverage.go:245-277 | translation moves containment with the point and keeps the area |
| `Rings.RectangleIsHalfOpen` | backend/internal/geometry/coverage.go:266-277 | an axis-aligned rectangle contains exactly its half-open box and its signed area is width times height |
| `Triangles.CrossesIffPassesRight` | backend/internal/geometry/coverage.go:270-271 | an edge is crossed if and only if it straddles the point's height and some point of the edge, given as a mean of its ends, has that height and lies strictly to the right |
| `Triangles.EdgeByTurn` | backend/internal/geometry/coverage.go:270-271 | the same test without a quotient: the point is on the left of an edge going up or on the right of one going down |
| `Triangles.TriangleContainsItsInside` | backend/internal/geometry/coverage.go:266-277 | any three corners not on one line contain every strictly positive mean of them |
| `Triangles.TriangleContainsNothingElse` | backend/internal/geometry/coverage.go:266-277 | and a point is contained only if it is a mean of the corners with non-negative weights, for any three corners |
| `Triangles.RingIsItsFan` | backend/internal/geometry/coverage.go:245-277 | every ring: containment is the parity of the fan triangles that contain the point, signed area the sum over the fan, so the triangles decide all rings |
| `Triangles.SlidingACornerKeepsTheArea` | backend/internal/geometry/coverage.go:245-252 | sliding a corner of any triangle parallel to the opposite side keeps the signed area |
| `Triangles.RightTriangleIsHalfARectangle` | backend/internal/geometry/coverage.go:245-252 | a right triangle with legs w and h along the axes has signed area w * h / 2 |
| `Triangles.TriangleIsHalfItsTurn` | backend/internal/geometry/coverage.go:245-252 | the signed area of a triangle is half the turn of its corners |
| `Polygons.PolygonContains` | backend/internal/geometry/coverage.go:254-264 | the loop with early exit answers: inside the exterior and inside no hole |
| `Polygons.PolygonArea` | backend/internal/geometry/coverage.go:112-121 | exterior area less all hole areas, never below zero, 0 for no rings |
| `Polygons.RingStaysInItsBox` | backend/internal/geometry/coverage.go:266-277 | a ring contains no point outside the half-open box of its positions (parity: a closed walk straddles a level line an even number of times) |
| `Polygons.PolygonStaysInItsBox` | backend/internal/geometry/coverage.go:232-264 | a point a polygon contains lies in the half-open bounding box, minimum sides in and maximum sides out |
| `Rectangles.RectangleFacts` | backend/internal/geometry/coverage.go:112-264 | a rectangular boundary has its own box as bounding box, contains exactly its half-open box, and has width times height as area |
| `Distance.ProjectionIsNearest` | backend/internal/geometry/coverage.go:301-310 | the clamped projection lies on the segment and no point of the segment is nearer, degenerate segments included |
| `Distance.ProjectionDecides` | backend/internal/geometry/coverage.go:285-309 | the distance test passes exactly when some point of the segment lies within half a swath |
| `Distance.CoveragePasses` | backend/internal/geometry/coverage.go:279-299 | the loops with their early breaks count the tracks that have some segment point within half a swath |
| `Grid.WindowMissesNothing` | backend/internal/geometry/coverage.go:140-154 | every cell of the unbounded lattice whose centre the boundary contains lies in the scanned rows and columns |
| `Grid.EnclosedIsTheWholeLattice` | backend/internal/geometry/coverage.go:149-156 | the scanned cells that count are exactly the contained centres of the whole lattice |
| `Grid.WindowSize` | backend/internal/geometry/coverage.go:140-144 | the window has rows times columns cells |
| `CoverageFacts.CellsJustReach` | backend/internal/geometry/coverage.go:145-146 | the numbers of columns and rows are the least whose cells together reach across the box |
| `CoverageFacts.TooLargeIff` | backend/internal/geometry/coverage.go:134-149 | the outcome is "too large" if and only if the resolution is positive, there are tracks, the box has width and height, and the least columns and rows that reach across it make more than 60000 cells |
| `Grid.HullIsUnique` | backend/internal/geometry/coverage.go:146-168 | a set of cells has one tight box, so the accumulated box does not depend on the scan order |
| `Coverage.Scan` | backend/internal/geometry/coverage.go:145-171 | the nested loop's counters are the sizes of the inside, covered and twice-covered cell sets, and its four extremes are the tight box of the uncovered cells |
| `Coverage.CalculateCoverage` | backend/internal/geometry/coverage.go:133-194 | the calculation, every error case included, gives the outcome defined on sets of cells |
| `CoverageFacts.ResultIsConsistent` | backend/internal/geometry/coverage.go:175-193 | 0 <= overlap <= coverage <= 1, coverage + gap = 1, between 1 and 60000 samples, and the boundary's area |
| `CoverageFacts.SamplesAreAllCentres` | backend/internal/geometry/coverage.go:145-156 | the sample count is the number of centres that the boundary contains over the whole unbounded lattice |
| `CoverageFacts.NoGapMeansAllCovered` | backend/internal/geometry/coverage.go:175-177 | the coverage ratio is 1 exactly when no analysed cell is uncovered |
| `CoverageFacts.GapBoxIsTight` | backend/internal/geometry/coverage.go:164-169 | a reported gap is the closed ring of the tight box around exactly the analysed cells that no track covers |
| `CoverageFacts.FragmentFlagIsExact` | backend/internal/geometry/coverage.go:342-345 | the fragment flag is set exactly when there is a gap and its block of rows and columns has fewer than four cells |
| `Resurvey.RecommendationClosesTheGap` | backend/internal/geometry/coverage.go:316-347 | for every boundary and track set: surveying again with one more run on the recommended line gives coverage 1 and gap 0 if and only if its swath is at least the short side of the gap box less the resolution |
| `MoreSurvey.OutcomeIgnoresOrder` | backend/internal/geometry/coverage.go:279-299 | permuting the tracks changes nothing in the outcome |
| `MoreSurvey.MoreSurveyNeverHurts` | backend/internal/geometry/coverage.go:150-183 | adding tracks or widening swaths never lowers coverage or overlap, never raises the gap ratio or severity, and a remaining gap box lies within the old one |
| `Boundaries.RewritingKeepsTheBoundary` | backend/internal/geometry/coverage.go:112-121 | for a polygon with holes: starting rings elsewhere, reversing them or adding closing positions, each ring in its own way, changes neither containment of any point, nor the area, nor the bounding box |
| `Boundaries.OutcomeIgnoresRepresentation` | backend/internal/geometry/coverage.go:133-194 | so it changes nothing in the outcome of a coverage calculation, errors included |
| `Transects.Generate` | backend/internal/service/transect_plan.go:70-87 | the two line-laying loops and both error cases: exactly the lines at half a spacing plus whole spacings that fall short of the far side |
| `Transects.GeneratedLinesCrossTheBox` | backend/internal/service/transect_plan.go:74-84 | every generated line runs straight across the whole box along the axis of the heading; the first lies half a spacing from the near side, each next one a spacing further, the last before the far side, and a further one would not |
| `Transects.HeadingsFollowTheNearerAxis` | backend/internal/service/transect_plan.go:75 | for every heading: the lines are level if and only if it is a compass heading nearer to the east-west axis than to the north-south axis, or the diagonal at 45 or 225 degrees |
| `Transects.LinesReachEverywhere` | backend/internal/service/transect_plan.go:76-84 | every position across the area is within half a spacing of a line if and only if the remainder of the span is 0 or above half a spacing; always within one spacing |
| `Transects.FarSideIsMissed` | backend/internal/service/transect_plan.go:76-84 | with a remainder above 0 and at most half a spacing the far side is farther than half a spacing from every line |
| `FlownPlans.FlownPlanCoversIff` | backend/internal/geometry/coverage.go:279-299 | for every boundary and any other tracks: when one run is flown on the generated lines with a swath of at least their spacing, coverage is 1 if and only if every analysed centre lies within the last line's offset plus half the swath or is covered by another track |
| `Transects.FlyingThePlanCovers` | backend/internal/service/transect_plan.go:61-93 | the part of that condition which needs no centres: coverage 1 and gap 0 for every boundary and resolution when the swath is at least the spacing and the remainder is good, and always at twice the spacing |
| `FlownPlans.FlownRectangleIsCoveredIff` | backend/internal/service/transect_plan.go:76-84 | for every rectangle: that coverage is 1 if and only if the last row or column of centres lies within the last line's offset plus half the swath |
| `FlownPlans.ShortRemainderLeavesAStrip` | backend/internal/service/transect_plan.go:61-93 | a concrete failing case from end to end: on an 11 metre square with spacing 10 one line is generated, and flying it with swath 10 gives coverage 0 and gap 1 at resolution 21 |
| `States.SeverityIsMonotone` | backend/internal/constants/gap_severity.go:52-61 | a larger gap ratio never has a lower severity |
| `States.TransitionsClimb` | backend/internal/constants/run_state.go:16-23 | both transition tables climb a rank from 0 to 4, so they have no cycle |
| `Origins.TablesAreTheseEdges` | backend/internal/constants/gap_severity.go:21-28 | the run table allows exactly seven moves and the gap table exactly six, listed in full |
| `Origins.ChecksAreInFull` | backend/internal/service/survey_area.go:99-111 | for every input: lines pass if and only if there is at least one and each has two positions; a boundary passes if and only if its exterior has four positions and its area is above 0 and at most 1000000000 square metres |
| `Texts.EncodedLengthIsBetween` | backend/internal/service/sonar_run.go:109-111 | the length of a rejection reason counts UTF-8 bytes: as many as characters exactly for ASCII texts, three a character from U+0800 to U+FFFF |
| `Checksums.PayloadIsDecodable` | backend/internal/service/sonar_run.go:122-127 | two checksum inputs are equal if and only if track, plan, both times and the swath in whole millimetres are, bars inside the track notwithstanding |
| `Texts.DecimalIsTheNumeral` | backend/internal/service/sonar_run.go:125 | the `%d` text of a number is the only text of digits without a leading zero that reads as it |
| `Texts.RoundedIsNearest` | backend/internal/service/sonar_run.go:125 | a printed number is rounded to the nearest unit of its last place, and of two equally near ones to the even one |
| `Texts.PayloadSays` | backend/internal/service/sonar_run.go:122-127 | the hashed text is the track, the numeral of the plan, the swath read back to the nearest millimetre, and both times, each after a bar |
| `Checksums.SortedIsSorted` | backend/internal/geometry/coverage.go:197-198 | sorting gives an ordered permutation |
| `Checksums.HashIgnoresOnlyOrder` | backend/internal/geometry/coverage.go:196-208 | two checksum lists hash alike if and only if they are permutations of each other |
| `Records.UniqueIdsAreTheSameIds` | backend/internal/service/coverage_gap.go:144-154 | the deduplicated ids have no repetition and the same members |
| `Records.SourcesPass` | backend/internal/service/coverage_gap.go:67-77 | the run-by-run checks pass if and only if every run's plan is one of the area's and every run is processed with usable lines |
| `RunInputs.AllFound` | backend/internal/service/coverage_gap.go:58-64 | as many rows as unique ids means that every requested id was found |
| `RunInputs.OrderDoesNotMatter` | backend/internal/service/coverage_gap.go:65-85 | listing the same runs in another order gives the same hash and the same outcome |
| `Evolution.SameStateSameRow` | backend/internal/repository/coverage_gap.go:62-71 | no ABA: a run or gap found in the state in which it was read earlier is still the very row that was read |
| `Evolution.ExplanationIsAllNotes` | backend/internal/service/coverage_gap.go:129-130 | along any history of legal edits the explanation is the first one followed, for each edit in order, by the literal mark and that edit's note |
| `Evolution.ReviewAppendsItsNote` | backend/internal/service/coverage_gap.go:129-130 | the text a review replaces is a proper prefix of the new one, which ends with the review's note |
| `Tables.VersionsCount` | backend/internal/repository/sonar_run.go:68-77 | along any history the version is the first one plus the number of edits, and edit i replaced version first + i |
| `Tables.SeenEvolves` | backend/internal/repository/sonar_run.go:68-77 | a row read at any earlier time is related to the present row by every reflexive and transitive relation that single edits keep |
| `PlanSteps.StepPlanKeeps` | backend/internal/service/transect_plan.go:40-149 | every statement of plan creation, update, lock and copy keeps the system invariant |
| `RunSteps.RunMoveMatches` | backend/internal/service/sonar_run.go:90-115 | a run transition whose conditional update matches replaces exactly the row its checks were made on, whatever happened in between |
| `RunSteps.StepRunKeeps` | backend/internal/service/sonar_run.go:43-120 | every statement of import and run transition keeps the system invariant |
| `GapSteps.GapMoveMatches` | backend/internal/service/coverage_gap.go:113-133 | a review whose conditional update matches appends its note to exactly the explanation it read |
| `GapSteps.DetectedIsSound` | backend/internal/service/coverage_gap.go:58-103 | a gap stored from rows that were read and checked earlier rests on sound runs of the present store, hashes them, and holds what they give |
| `GapSteps.StepGapKeeps` | backend/internal/service/coverage_gap.go:47-138 | every statement of detection and review keeps the system invariant |
| `Preservation.StepAreaKeeps` | backend/internal/service/survey_area.go:61-97 | every statement of area creation and update keeps the system invariant |
| `Reachability.ApplyKeeps` | backend/internal/service/coverage_gap.go:47-138 | every event of every request keeps the system invariant |
| `Reachability.AlwaysSound` | backend/internal/service/coverage_gap.go:47-138 | the invariant holds after every run of events: legal histories, unique keys, sound references, and what each request in flight has read is a row that was there |
| `Reachability.GapsRestOnSoundRuns` | backend/internal/service/coverage_gap.go:58-104 | after every run: each gap's source runs exist, are processed or superseded, have valid navigation, sit on locked plans, and those plans belong to the gap's area; its hash and finding are those of these runs for the boundary it was detected with |
| `Reachability.RunsSitOnLockedPlans` | backend/internal/service/sonar_run.go:48-50 | after every run: each run sits on a locked plan, and one past its quality check has valid navigation |
| `Reachability.KeysStayUnique` | backend/internal/model/sonar_run.go:12-19 | however requests interleave: one run per checksum and per code, one gap per input hash, one area per code |
| `Reachability.VersionsCountWrites` | backend/internal/repository/sonar_run.go:68-77 | after every run: each row's version is its first version plus the number of writes it received |
| `Reachability.RunHistoriesArePaths` | backend/internal/constants/run_state.go:16-23 | after every run: a run's history is a path in its transition table from imported, of at most four transitions |
| `Reachability.GapHistoriesArePaths` | backend/internal/constants/gap_severity.go:21-28 | after every run: a gap's history is a path in its transition table from detected, of at most four transitions |
| `Reachability.NoNoteIsLost` | backend/internal/service/coverage_gap.go:113-138 | after every run: a gap's explanation is the detection text for its stored finding followed, for each successful review in commit order, by the literal mark and that review's note |
| `Reachability.RowsBeginWell` | backend/internal/service/sonar_run.go:66-69 | after every run: areas began as drafts, plans as drafts, runs as imported at version 1, gaps as detected at version 1 with the text of their own result |
| `OriginSteps.AlwaysAsked` | backend/internal/service/coverage_gap.go:47-138 | after every run: each first version and each write of every area, plan, run and gap has, column by column, what a request that has arrived asked for, the conditions that request must meet held, and every request in flight still carries what it arrived with |
| `OriginSteps.StepAsked` | backend/internal/service/coverage_gap.go:47-138 | every statement of every request keeps that |
| `StoredRows.RunsAreAsImported` | backend/internal/service/sonar_run.go:43-69 | after every run: each stored run still has the plan, code, lines, swath, quality and checksum input of an import request that has arrived, with usable lines and a positive duration |
| `StoredRows.InvalidRunsGoNowhere` | backend/internal/service/sonar_run.go:106-108 | so a run whose import said invalid navigation stays imported or is rejected, and no stored gap ever rests on it |
| `StoredRows.StoredBoundariesAreProper` | backend/internal/service/survey_area.go:61-95 | after every run: the present boundary of every stored area meets the limits |
| `StoredRows.ReviewsWereAskedFor` | backend/internal/service/coverage_gap.go:113-138 | after every run: every review in a gap's history has the target state, note and expected version of a review request that has arrived, along an edge of the table, and its note ends the text |
| `StoredGaps.StoredGapIsMeasured` | backend/internal/service/coverage_gap.go:102 | after every run, for every stored gap and the tracks of its stored runs: its ratios are the shares of all contained centres passed at least once, at least twice and never; its area is the boundary's times the share never passed; critical from 12 in 100, at least major from 5 in 100 |
| `StoredGaps.StoredLineClosesTheGap` | backend/internal/service/coverage_gap.go:102 | after every run, for every stored gap that misses something: its ring goes round the tight box of the squares never passed, its line runs through the middle of that box and one cell beyond both ends, and one more run on that line gives coverage 1 if and only if its swath is at least the short side of the box less one cell |
| `StoredGaps.NothingMissedShowsTheMiddle` | backend/internal/service/coverage_gap.go:102 | after every run: a stored gap that misses nothing has the middle of the boundary's box as ring and line |
| `StoredGaps.StoredGapHasTracks` | backend/internal/service/coverage_gap.go:58-80 | after every run: the source runs of every stored gap are stored, so those tracks exist |
| `Texts.DetectionTextSays` | backend/internal/service/coverage_gap.go:102 | the text of a new gap names the resolution to the nearest tenth of a metre, the number of cells and the number of fragments |
| `Reachability.HashesAgree` | backend/internal/service/coverage_gap.go:81-90 | a stored gap has the hash of a checked request if and only if area, coordinate system, algorithm, chosen resolution and the set of runs agree |
| `Measures.OkIffMeasurable` | backend/internal/geometry/coverage.go:133-174 | coverage can be calculated or not independently of which tracks there are, as long as there are some |
| `Measures.SameMeasureSameFinding` | backend/internal/geometry/coverage.go:140-193 | two boundaries with the same contained centres, area and box middle have the same finding for every track list |
| `Agreement.TellApart` | backend/internal/geometry/coverage.go:140-193 | two boundaries that differ in contained centres, area or box middle are told apart by the findings of a single track with positive swath |
| `Agreement.AgreeIffSameMeasure` | backend/internal/geometry/coverage.go:140-208 | the exact condition for the hash to leave the boundary out: two boundaries have equal findings for all track lists with positive swaths if and only if they contain the same centres, have the same area and their boxes the same middle |
| `CacheHits.HitsAgreeWithRecomputation` | backend/internal/service/coverage_gap.go:81-96 | after every run: a cache hit holds the finding of a fresh calculation, for any order or repetition of ids and a zero or explicit resolution, when the boundary of the detection and the present one measure the same |
| `CacheHits.BoundaryWasTheAreas` | backend/internal/service/coverage_gap.go:91-103 | after every run: the boundary a gap was detected with is one that its area has had |
| `CacheHits.HitsAgreeWhileTheAreaMeasuresTheSame` | backend/internal/service/coverage_gap.go:81-96 | what a caller can check: if all boundaries the area has had measure the same, every hit is right |
| `Scenarios.HashIgnoresTheBoundary` | backend/internal/geometry/coverage.go:196-208 | redrawing the boundary leaves the hash of the same runs as it was |
| `Scenarios.CacheHitCanBeStale` | backend/internal/service/coverage_gap.go:81-90 | a run from the empty system (area, plan, lock, import, three transitions, detection, redrawn boundary, detection) whose last request is answered with a stored gap of ratio 0 and minor severity while a calculation on what it read gives ratio 1 and critical severity |
| `AuditTrail.AuditsMatchWrites` | backend/internal/service/transect_plan.go:106-112 | after every run: each audit event follows a committed write, and its snapshot before is the row this write replaced if and only if the request expected the snapshot's version; for runs and gaps it always is |
| `AuditTrail.WriteReplacesReadIff` | backend/internal/repository/transect_plan.go:51-72 | a matching conditional update of an area or plan replaces the row that was read if and only if it expected that row's version |
| `StaleSnapshots.PlanSnapshotIsStaleIff` | backend/internal/service/transect_plan.go:95-112 | a plan update that passes its check can go on to log a snapshot that is not the row it replaced if and only if it expects a version above the one it read |
| `StaleSnapshots.LockSnapshotIsStaleIff` | backend/internal/service/transect_plan.go:116-130 | the same for locks |
| `StaleSnapshots.AreaSnapshotIsStaleIff` | backend/internal/service/survey_area.go:75-95 | the same for area updates |
| `Scenarios.SnapshotCanBeStale` | backend/internal/service/transect_plan.go:95-112 | a run from the empty system whose log shows a plan row that was not the one replaced |
| `DistinctWrites.EachUpdateIsLoggedOnce` | backend/internal/service/sonar_run.go:112-118 | after every run: two audit events of updates never describe the same write |
| `DistinctWrites.AlwaysHeldOnce` | backend/internal/service/sonar_run.go:112-118 | the invariant behind it: every update made is known to at most one request in flight or audit event, and its version is below the row's |
| `Growth.RowChangesOnlyByItsWrite` | backend/internal/repository/transect_plan.go:51-72 | in every step a row stays the same unless a conditional update matches its present version, and then its version rises by one; no step loses a row or a history |
| `Growth.VersionsNeverFall` | backend/internal/repository/survey_area.go:50-60 | along every run a stored row stays stored and its version never falls |
| `Growth.OneWriterPerVersion` | backend/internal/repository/sonar_run.go:68-77 | over all interleavings at most one request ever succeeds for a given row and expected version |
| `Freezing.LockedStaysLocked` | backend/internal/repository/transect_plan.go:63-72 | with no assumption on requests: a locked plan stays locked after every further event |
| `Freezing.FrozenRowsNeverChange` | backend/internal/service/transect_plan.go:95-107 | when no request expects a version above that of the row it loads, a locked plan and an archived area never change again, in no column and not in version |
| `Overtaking.LockIsOvertakenIff` | backend/internal/service/transect_plan.go:95-109 | an update that has passed the draft check can go on to overwrite the plan after it is locked if and only if it expects a version above the one it read |
| `Overtaking.ArchiveIsOvertakenIff` | backend/internal/service/survey_area.go:75-92 | the same for area updates and archived areas |
| `LoneUpdates.AreaUpdateAlone` | backend/internal/service/survey_area.go:75-97 | the steps of an undisturbed area update end in the state, with the audit event and with the answer (row or kind of error) of the one-piece request |
| `LoneUpdates.PlanUpdateAlone` | backend/internal/service/transect_plan.go:95-114 | the same for a plan update: state, audit event and answer |
| `LoneUpdates.PlanLockAlone` | backend/internal/service/transect_plan.go:116-132 | the same for locking a plan: state, audit event and answer |
| `LoneUpdates.RunMoveAlone` | backend/internal/service/sonar_run.go:90-120 | the same for a run transition: state, audit event and answer |
| `LoneUpdates.GapMoveAlone` | backend/internal/service/coverage_gap.go:113-138 | the same for a review: state, audit event and answer |
| `LoneInserts.AreaCreateAlone` | backend/internal/service/survey_area.go:61-73 | the same for creating an area: state, audit event and answer |
| `LoneInserts.PlanCreateAlone` | backend/internal/service/transect_plan.go:40-59 | the same for creating a plan: state, audit event and answer |
| `LoneInserts.PlanCopyAlone` | backend/internal/service/transect_plan.go:134-149 | the same for copying a plan: state, audit event and answer |
| `LoneInserts.ImportAlone` | backend/internal/service/sonar_run.go:43-76 | the same for an import: state, audit event, and the answer with the mark whether the run was there before |
| `LoneInserts.DetectAlone` | backend/internal/service/coverage_gap.go:47-111 | the same for a detection: state, audit event, and the answer with the mark whether the gap was there before |
| `Requests.GoesItsWay` | backend/internal/service/coverage_gap.go:47-111 | a request left alone passes through any chain of single steps that lead from one to the next, and ends with its answer |
| `Idempotence.RunStays` | backend/internal/service/sonar_run.go:58-69 | a stored run keeps all but its state through every further run of events, and no other run ever gets its checksum |
| `Idempotence.RunsComeFromSources` | backend/internal/service/sonar_run.go:51-66 | every stored run has usable lines and the checksum of a source with its plan and swath and a positive duration |
| `Idempotence.ImportIsIdempotent` | backend/internal/service/sonar_run.go:58-69 | however much later and after whatever else: an import with the checksum of a stored run, under whatever code and quality, answers with that run and changes nothing, exactly when its lines are usable; otherwise it is refused for its lines |
| `Idempotence.DetectIsIdempotent` | backend/internal/service/coverage_gap.go:58-90 | however much later and after whatever else: a repeated detection (ids in any order and repetition, zero or explicit resolution) answers with the stored gap and changes nothing if and only if all its runs are still processed and the area still has the coordinate system and chosen resolution of the hash; once a run is superseded it is refused as not processed |
| `Repositories.SurveyAreaRepository.Create` | backend/internal/repository/survey_area.go:43-48 | inserts at version 1 under a new id unless the code is taken; otherwise nothing changes |
| `Repositories.SurveyAreaRepository.Update` | backend/internal/repository/survey_area.go:50-60 | replaces exactly the row with this id and version, at the next version, or changes nothing and reports a conflict |
| `Repositories.TransectPlanRepository.Update` | backend/internal/repository/transect_plan.go:51-61 | the same for plan content; the state is not tested |
| `Repositories.TransectPlanRepository.Transition` | backend/internal/repository/transect_plan.go:63-72 | the same for the plan state, which must also match |
| `Repositories.TransectPlanRepository.Copy` | backend/internal/repository/transect_plan.go:74-87 | adds a draft with the source's content, marked name and next version under a new id; all other rows stay |
| `Repositories.SonarRunRepository.ByIDs` | backend/internal/repository/sonar_run.go:45-51 | each existing row with one of the ids exactly once, however often its id is listed |
| `Repositories.SonarRunRepository.ByChecksum` | backend/internal/repository/sonar_run.go:53-59 | finds a row if and only if one has this checksum |
| `Repositories.SonarRunRepository.Create` | backend/internal/repository/sonar_run.go:61-66 | inserts at version 1 unless the code or the checksum is taken |
| `Repositories.SonarRunRepository.Transition` | backend/internal/repository/sonar_run.go:68-77 | replaces the state of exactly the row with this id, version and state, or changes nothing and reports a conflict |
| `Repositories.CoverageGapRepository.ByInputHash` | backend/internal/repository/coverage_gap.go:47-53 | finds a row if and only if one has this hash |
| `Repositories.CoverageGapRepository.Create` | backend/internal/repository/coverage_gap.go:55-60 | inserts at version 1 unless the hash is taken |
| `Repositories.CoverageGapRepository.Transition` | backend/internal/repository/coverage_gap.go:62-71 | replaces state and explanation of exactly the row with this id, version and state, or changes nothing and reports a conflict |
| `Services.SurveyAreaService.Update` | backend/internal/service/survey_area.go:75-97 | answer, rows and audit log are those of the one-piece request, and the system invariant holds again |
| `Services.TransectPlanService.Update` | backend/internal/service/transect_plan.go:95-114 | the same for a plan update |
| `Services.TransectPlanService.Lock` | backend/internal/service/transect_plan.go:116-132 | the same for locking a plan |
| `Services.TransectPlanService.Copy` | backend/internal/service/transect_plan.go:134-149 | the same for copying a plan |
| `Services.SonarRunService.Import` | backend/internal/service/sonar_run.go:43-76 | the same for an import; and a new row has, column by column, the request's plan, code, lines, swath and quality, the state imported, and the checksum of its source |
| `Services.SonarRunService.Transition` | backend/internal/service/sonar_run.go:90-120 | the same for a run transition; and the answered row is the stored one in the state asked for, at the next version |
| `Services.CoverageGapService.Detect` | backend/internal/service/coverage_gap.go:47-111 | the same for a detection, for some order in which the rows come back; what a stored gap then says is told by the `StoredGaps` rows |
| `Services.CoverageGapService.Calculate` | backend/internal/service/coverage_gap.go:81-110 | the hash lookup, the calculation on a miss, and the insert; a new gap shows the ring, line and ratios of the calculation, the area times the gap ratio, and its severity |
| `Services.CoverageGapService.Transition` | backend/internal/service/coverage_gap.go:113-138 | the same for a review; and the answered row is the stored one in the state asked for, with the literal mark and the note appended, at the next version |
| `Services.CoverageGapService.UniqueIDs` | backend/internal/service/coverage_gap.go:144-154 | the loop over a seen set gives the ids in order of first occurrence, without repetition and with the same members |
| `Services.CoverageGapService.Inputs` | backend/internal/service/coverage_gap.go:65-80 | the loop gives the first problem in run order, or the checksums and tracks of all runs |
| `Services.FirstProblem` | backend/internal/service/coverage_gap.go:67-77 | the first problem found is the answer, whatever later runs are like |
| `RateLimiter.Limiter.Handle` | backend/internal/middleware/audit.go:48-66 | the table after one request is the recorded one, swept when it is large, and the decision is by the count in the request's window |
| `RateLimiter.Limiter.Sweep` | backend/internal/middleware/audit.go:57-63 | the deleting loop leaves exactly the entries that are not older than two windows |
| `RateLimiter.SweepIsForLargeTables` | backend/internal/middleware/audit.go:57-63 | an entry is in the table after a request if and only if it was there or is the client's, and the table holds at most 2000 clients or the entry started at most two windows ago; other clients' entries stay as they are |
| `RateLimiter.SweepIsInvisible` | backend/internal/middleware/audit.go:46-72 | when captured times lag by at most a window and a tick, every decision is that of a limiter that never deletes |
| `RateLimiter.DecidedByOwnTimes` | backend/internal/middleware/audit.go:48-66 | then a client's outcome depends only on the times of its own requests |
| `RateLimiter.AdmissionBound` | backend/internal/middleware/audit.go:52-66 | with a clock that does not run back, any half-open interval of n windows admits at most (n + 1) times the capacity |
| `RateLimiter.DeniedOnlyWhenFull` | backend/internal/middleware/audit.go:52-66 | a denial comes only when exactly the capacity has been admitted within the last window |
| `RateLimiter.RunAdmissionBound` | backend/internal/middleware/audit.go:46-72 | the admission bound for the real limiter, with sweeps and any mix of clients |
| `LaggingClocks.SweepIsInvisibleIff` | backend/internal/middleware/audit.go:57-63 | the sweep is invisible in all runs with a given largest lag if and only if that lag is at most a window and one tick |
| `LaggingClocks.LateRunShowsTheSweep` | backend/internal/middleware/audit.go:57-63 | a concrete run of one burst, two thousand other clients and a late request in which the sweep turns a denial into an admission |

## Left out

- Floating point: rounding, NaN and infinities, the finiteness checks, and the overflow of `columns*rows`.
- GeoJSON parsing and marshalling, `json.Marshal`, SHA-256 and time formatting: library code, see Abstractions.
- Coordinate system validation: a string test on two names.
- SQL, the ORM, migrations, seed data (the store starts empty), column size limits, foreign keys and positive-value constraints beyond the swath of a run.
- HTTP handlers, request binding, authentication, roles, request ids, logging, and how errors become responses. A run's swath is positive because request binding refuses others.
- Columns that no decision reads: timestamps, processing time, creator and importer, default swath, owner team.
- The actor, action name and metadata of audit events, save the expected version; a copy's audit event stores the copy but not its source.
- Lists, summaries, paging, the quality evidence of a run (track length, speed, warnings) and the evidence view of a gap.
- Creating areas and plans as service methods: they are requests of the concurrent system (`LoneInserts.AreaCreateAlone`, `LoneInserts.PlanCreateAlone`), and the methods would add nothing to them.
- That an archived area gets no new plan: the check and the insert are separate statements and copying does not look at the area, so the code does not promise it.
- That every write is audited, or that the audited row after a write is exactly the one written: write, re-read and audit event are separate statements. What does hold is `AuditTrail.AuditsMatchWrites` and `DistinctWrites.EachUpdateIsLoggedOnce`.
- Failures of the database itself other than a request that stops between two statements.
- Trimming and upper-casing of an area's code, name and coordinate system: requests carry the texts that result.
- The frontend.
