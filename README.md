# Veneer core, modelled in Dafny

Veneer renders a Google Form and the Google Sheet of its answers as one web page. The "dance party" view shows the people who signed up as dancers on a floor. This project models in Dafny the deterministic logic behind that page and proves properties of the model.

- **Dance-floor layout engine** (`src/lib/dance-party.ts`), modules `DanceScoring`, `DancePairing`, `DanceUnits`, `DancePlacement` and `DanceDock`. This covers:
  - song numbering and priority scores;
  - sorting dancers into leader, follower and flex pools;
  - a priority shuffle with hashed jitter;
  - FIFO pair matching and message rebalancing;
  - unit keys and pose images without repeats;
  - placement on [0, 1] and minimum-spacing enforcement;
  - dock-style magnification.
- **Deterministic randomness** (`src/lib/util.ts`):
  - `Djb2` is the djb2 hash over UTF-16 code units, modulo 2^32.
  - `Prng` has the Mulberry32 generator as a class over a 32-bit state, the seeded Fisher-Yates shuffle on an array, and the shuffle bag of dancer images.
- **Sheet side**:
  - `ExcelColumn`, `SheetPipe`, `ColumnStats`, `CellRenders` and `DanceExtra` model the stages of `sheet-data-pipeline.svelte.ts`. Columns are objects, because `makeRaw` shares one default column record between slots.
  - `SheetData` holds the shared cell types and row and column selection.
  - `GoogleSheets` and `LegacyGoogleSheets` model the two Sheets API adapters and their hidden-row and hidden-column stripping.
  - `SheetTypeDetect` and `GroupDetect` model the column-title detectors. Their regular expressions are in `FieldPatterns`.
- **Form side**:
  - `GoogleForm` inserts the header field and numbers the input fields.
  - `GroupSerialization` is the compact text format for additional group members. Its round trip is proved.
  - `LocaleContent` holds the bilingual Korean/English label and content utilities.
- **Text passes**: `LinkList` rewrites definition lists into link lists, and `Undent` models the `undent` template tag.
- **Addresses**:
  - `UrlId` models Veneer ids, URL templates and the sheet and form recognisers.
  - `DocumentIds` models the `DocumentId` class and `UrlPatterns` the regular-expression pieces they share.
  - `Presets` models hostname-to-preset resolution.
- **Helpers without rows**:
  - `JsString` models the JavaScript string built-ins the source relies on: UTF-16 length, `trim`, `split`, `join`, `includes`, `indexOf`, code-unit order and number rendering.
  - `Sorting` models the stable `Array.prototype.sort` with a comparator.
  - `Wrappers` holds `Option` and `Result`.

Strings are `seq<char>`. Wherever the source depends on UTF-16 code units (hashing, `.length`, the default sort order), the model converts through `JsString.CodeUnits`. The URL regexes have no `u` flag, so their wildcard `.` matches one code unit; `UrlPatterns.CharMatches` therefore refuses a character outside the Basic Multilingual Plane there, where the source's `.` takes only the high surrogate and the next literal fails. JavaScript numbers become `real` where they are positions, scores or offsets, and `int` where the source does integer arithmetic; its 32-bit arithmetic (the djb2 hash, Mulberry32 and `Math.imul`) is written out on `int` modulo 2^32. When the source throws, for example a `TypeError` on a missing header cell or a missing URL template, the model returns `Err`.

The documentation of `disambiguate` promises a `#N` suffix for repeated names. The code looks up the first occurrence with `indexOf`, so its suffix is always empty. The model follows the code: `DancePairing.Disambiguate` proves the suffix is empty.

## Model

| member | source | states |
|---|---|---|
| Djb2.HashString | src/lib/util.ts:31-37 | the loop computes `Hash(s)`, the djb2 fold `h := (33h + unit) mod 2^32` over the UTF-16 code units from 5381, always an unsigned 32-bit value |
| Djb2.HashConcat | src/lib/util.ts:31-37 | the hash of `a + b` depends on `a` only through `Hash(a)`: the fold continues over the code units of `b` |
| Prng.ImulIsProduct | src/lib/util.ts:47-48 | `Math.imul`, read as unsigned, is the product modulo 2^32 |
| Prng.Mulberry32.constructor | src/lib/util.ts:43-44 | the captured state starts as `seed >>> 0` |
| Prng.AdvanceOnce | src/lib/util.ts:46 | one call adds the golden increment 0x6d2b79f5 modulo 2^32 |
| Prng.Mulberry32.Next | src/lib/util.ts:45-50 | a call advances the state by one step and returns the mix of the new state, a float in [0, 1) |
| Prng.SeededRandom | src/lib/util.ts:57-59 | the generator is seeded with the djb2 hash of the seed string |
| Prng.PickIndexExact | src/lib/util.ts:67 | `Math.floor(rand() * (i + 1))` equals the integer quotient of the 32-bit mix times `i + 1` by 2^32, an index in [0, i] |
| Prng.ShufflePermutes | src/lib/util.ts:64-71 | the Fisher-Yates loop permutes its input, whatever indices it draws |
| Prng.SwapWithDrawn | src/lib/util.ts:66-69 | one iteration draws once from the generator and leaves the remaining shuffle equal to the whole one |
| Prng.SeededShuffle | src/lib/util.ts:64-71 | a fresh array holding the shuffle of `arr` by the draws of the generator, a permutation of `arr`; the generator is called once per index from the last down to 1 |
| Prng.PoolCounts | src/lib/util.ts:81 | the pool holds each of `1..n` exactly once |
| Prng.PermutationOfPool | src/lib/util.ts:81-85 | a shuffled bag has `n` entries, all in `1..n` and pairwise different |
| Prng.ConstantPermutation | src/lib/util.ts:89-97 | only a one-image pool has a bag without an entry that differs from its first |
| Prng.AvoidRepeatAtBoundary | src/lib/util.ts:89-97 | the boundary fix keeps the bag a permutation of the pool; for two or more images the first entry that differs from entry 0 is entry 1 (pool entries are distinct), so the new bag is the old one with entries 0 and 1 swapped and its first entry changes; a one-image bag is left unchanged |
| Prng.TakeFromBag | src/lib/util.ts:99-102 | the push loop appends a prefix of the bag and stops at `count` or at the end of the bag |
| Prng.AppendPartialBag | src/lib/util.ts:84-103 | whole bags followed by a prefix of one more bag have the shape the shuffle bag produces |
| Prng.AppendWholeBag | src/lib/util.ts:84-103 | whole bags followed by a whole bag are whole bags |
| Prng.BagRound | src/lib/util.ts:84-103 | one round of the outer loop keeps every image in `1..n`, no image next to itself (two or more images) and the bag-by-bag shape |
| Prng.AssignDancerImages | src/lib/util.ts:78-106 | exactly `count` images (none for `count <= 0`), all in `1..numImages`, no image directly after itself when there are two or more images, drawn bag by bag |
| DanceScoring.GetSongNumber | src/lib/dance-party.ts:241-249 | at least 1; exactly 1 without a first signup time or with one that is not positive |
| DanceScoring.SongNumberMonotone | src/lib/dance-party.ts:241-249 | the song number never goes back as the clock advances |
| DanceScoring.SongNumberOfHour | src/lib/dance-party.ts:238-248 | `hours` hours after the hour of the first signup it is song `hours + 1` |
| DanceScoring.GetSongSlot | src/lib/dance-party.ts:254-256 | the slot starts with the form title and is longer than it |
| DanceScoring.SongSlotInjective | src/lib/dance-party.ts:254-256 | different songs of the same form get different slots |
| DanceScoring.ComputePriority | src/lib/dance-party.ts:268-288 | the full early-signup bonus without a timestamp or when all signups share one instant, and for the earliest signup; none for the latest |
| DanceScoring.PriorityBounds | src/lib/dance-party.ts:268-295 | with non-negative weights and a timestamp within the range, the score lies in [0, `maxPossibleScore`] |
| DanceScoring.GetTimestampRange | src/lib/dance-party.ts:297-313 | zeros when no dancer has a timestamp; otherwise the least and the greatest timestamp present, both of which occur; every timestamp lies in the range |
| DanceScoring.RangeOfUnique | src/lib/dance-party.ts:297-313 | that description fixes the range: a roster has only one |
| DanceScoring.Lerp | src/lib/dance-party.ts:966-968 | `t = 0` gives `a` and `t = 1` gives `b` |
| DanceScoring.LerpBetween | src/lib/dance-party.ts:966-968 | for `t` in [0, 1] the result lies between the end points |
| DanceScoring.Clamp | src/lib/dance-party.ts:970-972 | never above `max`; not below `min` when `min <= max`; a value already inside is kept |
| DanceScoring.ClampMonotone | src/lib/dance-party.ts:970-972 | clamping keeps the order of its arguments |
| DancePairing.PoolCount | src/lib/dance-party.ts:323-356 | a pool holds every copy of each dancer who goes to its side, and no one else |
| DancePairing.ClassifyPartition | src/lib/dance-party.ts:319-356 | the three pools together hold exactly the roster: each dancer lands in exactly one |
| DancePairing.ClassifyDancers | src/lib/dance-party.ts:323-356 | the loop builds, in roster order, the leaders, the followers and the flex pool; `unknown` goes by the parity of the hash of `songSlot + '\0unknown\0' + name` |
| DancePairing.ByKeyDescendingIsStrict | src/lib/dance-party.ts:375 | the comparator `b.sortKey - a.sortKey` is a strict weak order |
| DancePairing.PriorityShuffle | src/lib/dance-party.ts:358-377 | a permutation of the pool in non-increasing order of priority plus hashed jitter |
| DancePairing.PriorityShuffleStable | src/lib/dance-party.ts:374 | the sort is stable: the dancers whose key equals that of any dancer leave the shuffle in their pool order |
| DancePairing.PairUpMembers | src/lib/dance-party.ts:400-412 | a matching loop loses and duplicates no one: its pairs and what is left of both queues |
| DancePairing.TwosMembers | src/lib/dance-party.ts:414-417 | pairing flex two at a time loses no one and leaves at most one |
| DancePairing.MatchConservation | src/lib/dance-party.ts:384-423 | the pairs and the solos hold exactly the three pools, and two per pair plus the solos is the roster size |
| DancePairing.MatchFifo | src/lib/dance-party.ts:400-402 | while both queues last, the `i`-th leader is paired with the `i`-th follower |
| DancePairing.MatchSolos | src/lib/dance-party.ts:419-420 | the solos are the last leaders, or the last followers, or at most one flex member |
| DancePairing.MatchPairs | src/lib/dance-party.ts:388-423 | the four queue loops produce exactly the matching plan |
| DancePairing.RichCandidates | src/lib/dance-party.ts:454-461 | exactly the other, not yet donated pairs whose two members both carry a message |
| DancePairing.FindRichCandidates | src/lib/dance-party.ts:455-461 | the inner scan collects exactly `RichCandidates` |
| DancePairing.ExchangeKeepsSides | src/lib/dance-party.ts:472-482 | a swap permutes the leaders and permutes the followers |
| DancePairing.ExchangeBalanced | src/lib/dance-party.ts:442-485 | a swap between a messageless pair and a rich pair leaves each with exactly one message |
| DancePairing.BalanceMessages | src/lib/dance-party.ts:429-488 | the loop's result is the balancing plan: the input for fewer than two pairs or a non-positive rate, otherwise the per-pair decisions taken in order; the same number of pairs, the leaders and the followers permuted, only messageless and rich pairs change and each changed pair ends with one message |
| DancePairing.UnvisitedKept | src/lib/dance-party.ts:442-485 | a pair that has not had its turn yet and did not start with two messages is still as it started |
| DancePairing.StepOfMessageless | src/lib/dance-party.ts:443-484 | at its turn a messageless pair gets exactly one message when its `msgbal` roll is below the rate and a rich candidate is open, and is left alone otherwise |
| DancePairing.SettledStays | src/lib/dance-party.ts:442-485 | a pair that has had its turn and is not rich is never changed again |
| DancePairing.MessagelessPairIff | src/lib/dance-party.ts:429-488 | a pair that starts without a message ends with exactly one if and only if its roll is below the rate and a rich pair is open to it at its turn; otherwise it is returned as it was |
| DancePairing.DonorsGiveOnce | src/lib/dance-party.ts:440-484 | every donor index is a real pair and holds exactly one message from its donation on, so it never donates twice |
| DancePairing.CountOf | src/lib/dance-party.ts:495 | at most the number of names; zero exactly when the name is absent |
| DancePairing.IndexOfName | src/lib/dance-party.ts:497 | the first position holding the name, -1 exactly when it is absent |
| DancePairing.Disambiguate | src/lib/dance-party.ts:494-504 | the suffix is always empty, because the count stops at the first occurrence |
| DancePairing.CodeUnitOrderIsStrict | src/lib/dance-party.ts:512 | the default `sort()` order is a strict weak order |
| DancePairing.BuildUnitKey | src/lib/dance-party.ts:510-513 | the key is the member names, each with its empty suffix, sorted and joined with `\0` |
| DancePairing.KeyOfSorted | src/lib/dance-party.ts:512 | a unit key lists a permutation of its names in code-unit order |
| DancePairing.PairKeySymmetric | src/lib/dance-party.ts:506-513 | a pair's key does not depend on which member leads |
| DancePairing.OffsetArrives | src/lib/dance-party.ts:545-548 | the linear fallback's offset from the first choice reaches every position of the pool |
| DancePairing.FreeImageExists | src/lib/dance-party.ts:544-549 | a pool without repeats has a free image while fewer images than it holds are used |
| DancePairing.AssignUniqueImage | src/lib/dance-party.ts:515-553 | always an image of the pool; the first choice when the used set is as large as the pool or the first choice is free; otherwise a free image whenever one exists |
| DanceUnits.PoolsDistinct | src/lib/dance-party.ts:157-160 | the paired pool is the 26 poses 7 to 32 and the solo pool the poses 1 to 6, neither with repeats |
| DanceUnits.BuildPairUnits | src/lib/dance-party.ts:592-609 | one pair unit per balanced pair, in order, with the pair's key, the better of its two scores and a paired image; among the first 26 units no image repeats |
| DanceUnits.ImagesGrow | src/lib/dance-party.ts:599-600 | recording a unit's image keeps the used set equal to the images placed, with no repeat among the first 26 |
| DanceUnits.PairUnitsMembers | src/lib/dance-party.ts:602-608 | the pair units hold exactly the members of the pairs |
| DanceUnits.SoloUnitsMembers | src/lib/dance-party.ts:623-629 | the solo units hold the solos, in order |
| DanceUnits.NewSoloUnit | src/lib/dance-party.ts:614-629 | a solo unit with the solo's key, its own score and an image of the solo pool, not yet used by that role while any is free |
| DanceUnits.BuildSoloUnits | src/lib/dance-party.ts:611-630 | one solo unit per solo, in order, with its key, score and a solo-pool image; `lead` and `unknown` solos share one used set and the others another, so within one role class the first six solos never share an image |
| DanceUnits.SoloImagesGrow | src/lib/dance-party.ts:619-622 | drawing a solo's image past its own class's used set keeps both classes' images distinct |
| DanceUnits.PipelineConserves | src/lib/dance-party.ts:570-582 | classifying, shuffling, matching and balancing keep everyone: the balanced pairs and the solos hold exactly the roster |
| DanceUnits.PairUnitScore | src/lib/dance-party.ts:594-596 | a pair unit's score, the larger of its members' priorities, lies in [0, `maxPossibleScore`] |
| DanceUnits.AssembleUnits | src/lib/dance-party.ts:584-632 | the pair units followed by the solo units keep everyone, have that shape and bounded scores |
| DanceUnits.PairScoresBounded | src/lib/dance-party.ts:592-609 | every pair unit's score lies in [0, `maxPossibleScore`] |
| DanceUnits.SoloScoresBounded | src/lib/dance-party.ts:613-630 | every solo unit's score lies in [0, `maxPossibleScore`] |
| DanceUnits.BuildDanceUnits | src/lib/dance-party.ts:555-633 | no dancers give no units; otherwise, for the roster's timestamp range, the units are one pair unit per pair of the balanced matching of the shuffled pools, in order, then one solo unit per leftover solo, in order; every dancer is in exactly one unit; scores lie in [0, `maxPossibleScore`] for non-negative weights |
| DanceUnits.AssembledFollowsPlan | src/lib/dance-party.ts:584-632 | the pair units followed by the solo units are exactly the plan's pairs and then its solos |
| DanceUnits.UnitPlanSolos | src/lib/dance-party.ts:574-579 | the plan's solos are the last shuffled leaders, the last shuffled followers, or at most one flex dancer |
| DancePlacement.ByPositionIsStrict | src/lib/dance-party.ts:656-658 | the index comparator (position, then unit key) is a strict order |
| DancePlacement.PermutationOfRange | src/lib/dance-party.ts:655 | a rearrangement of the indices 0 to n-1 holds every index exactly once and nothing else |
| DancePlacement.SortedIndices | src/lib/dance-party.ts:655-658 | every unit index exactly once, ordered by position with ties ordered by unit key |
| DancePlacement.Positions | src/lib/dance-party.ts:661 | the positions read in sorted-index order |
| DancePlacement.Swept | src/lib/dance-party.ts:663-669 | the sweep keeps the first value, never moves a value left and leaves neighbours at least the spacing apart |
| DancePlacement.SweptOfSpaced | src/lib/dance-party.ts:663-669 | positions already spaced are not moved |
| DancePlacement.SweptIdempotent | src/lib/dance-party.ts:663-669 | sweeping twice is sweeping once |
| DancePlacement.SpacedIncreasing | src/lib/dance-party.ts:663-669 | after the sweep, values k steps apart differ by at least the spacing |
| DancePlacement.Fit | src/lib/dance-party.ts:671-698 | the fitting step moves each value by the same rule (compress when the spread is too wide, otherwise shift and clamp) |
| DancePlacement.FitInRange | src/lib/dance-party.ts:671-698 | for a spacing in (0, 1] every fitted value lies in [margin, 1 - margin], and the compression never divides by zero |
| DancePlacement.FitMonotone | src/lib/dance-party.ts:671-698 | for a spacing up to 1 fitting keeps the order of values |
| DancePlacement.FitCentred | src/lib/dance-party.ts:684-697 | when the spread fits, the clamp never bites: every value moves by the centring shift |
| DancePlacement.FitCompressedEnds | src/lib/dance-party.ts:676-683 | a spread that is too wide is scaled onto exactly [margin, 1 - margin] |
| DancePlacement.FitStrict | src/lib/dance-party.ts:671-698 | for a spacing in (0, 1) distinct values stay distinct and in order |
| DancePlacement.SweptPositions | src/lib/dance-party.ts:661-669 | the swept positions of two or more units are spaced apart and span at least the spacing |
| DancePlacement.Layout | src/lib/dance-party.ts:661-698 | one final position per unit, in sorted order |
| DancePlacement.LayoutInRange | src/lib/dance-party.ts:671-698 | for a spacing in (0, 1] every final position lies within the margins |
| DancePlacement.LayoutOrdered | src/lib/dance-party.ts:663-698 | for a spacing in (0, 1] the final positions follow the sorted order, strictly when the spacing is below 1 |
| DancePlacement.LayoutSpacedWhenFitting | src/lib/dance-party.ts:684-697 | when the swept spread fits, neighbours stay at least the spacing apart and the layout is centred on 0.5 |
| DancePlacement.LayoutCompressedEnds | src/lib/dance-party.ts:676-683 | when the swept spread is too wide, the outermost units land exactly on the margins |
| DancePlacement.LayoutOrderOfUnits | src/lib/dance-party.ts:651-710 | a unit left of another before spacing is not right of it after, and strictly left for a spacing below 1 |
| DancePlacement.SortedOrder | src/lib/dance-party.ts:656-658 | a unit further left comes earlier in the sorted order |
| DancePlacement.SortedMonotone | src/lib/dance-party.ts:656-658 | positions never decrease along the sorted order |
| DancePlacement.LayoutRangeOfUnits | src/lib/dance-party.ts:700-709 | every unit's written-back position lies within the margins |
| DancePlacement.SweepStep | src/lib/dance-party.ts:664-668 | one sweep iteration extends the swept prefix by one value |
| DancePlacement.SweepApart | src/lib/dance-party.ts:663-669 | the in-place sweep leaves the buffer equal to the swept positions |
| DancePlacement.FitIntoMargins | src/lib/dance-party.ts:671-698 | the in-place fitting leaves the buffer equal to the fitted positions |
| DancePlacement.WriteBack | src/lib/dance-party.ts:700-707 | each unit keeps everything but its position, and the unit at sorted index j gets the j-th new position |
| DancePlacement.EnforceMinSpacing | src/lib/dance-party.ts:651-710 | no change for at most one unit or a non-positive spacing; otherwise only positions change, each the layout value at its unit's sorted place, within the margins for a spacing in (0, 1], and the left-to-right order of units at distinct positions is kept (strictly below 1) |
| DancePlacement.RawPosition | src/lib/dance-party.ts:731-736 | a pair keeps its hash position; a solo moves towards the solo cluster centre without passing it |
| DancePlacement.CenterBias | src/lib/dance-party.ts:739-740 | zero without a positive best score, otherwise between 0 and the bias cap |
| DancePlacement.CenterBiasMonotone | src/lib/dance-party.ts:739-740 | a higher priority never gets a smaller pull towards the centre |
| DancePlacement.PullTowardsCentre | src/lib/dance-party.ts:741 | the biased position's distance from 0.5 is the raw distance times one minus the bias |
| DancePlacement.JitterOffset | src/lib/dance-party.ts:744-746 | the vertical offset lies within plus or minus the jitter range |
| DancePlacement.PlaceUnit | src/lib/dance-party.ts:729-752 | a placed unit keeps its unit and has a vertical offset within the jitter range |
| DancePlacement.PlaceUnitPull | src/lib/dance-party.ts:735-741 | a placed unit is pulled towards the centre by its bias |
| DancePlacement.PlaceUnitInRange | src/lib/dance-party.ts:729-741 | with affinity and bias cap in [0, 1] a unit is placed within [0, 1] |
| DancePlacement.SoloClusterCenter | src/lib/dance-party.ts:727 | the solo cluster centre lies in [0, 1] |
| DancePlacement.PlaceAll | src/lib/dance-party.ts:729-752 | each unit placed on its own, in order |
| DancePlacement.PlaceDanceUnits | src/lib/dance-party.ts:715-756 | each unit keeps its unit, jitter and flip; for spacing up to 1 with unit-range settings every position is in [0, 1], and for spacing below 1 units keep their strict left-to-right order from their biased hash positions |
| DancePlacement.LeaderOnLeft | src/lib/dance-party.ts:171-206 | the table has an entry exactly for images 1 to 32 |
| DancePlacement.GetBubbleAlignment | src/lib/dance-party.ts:762-771 | the two bubbles go to different members, and the leader is on the left exactly when the table entry (default true) differs from the mirror flag |
| DancePlacement.FlipSwapsBubbles | src/lib/dance-party.ts:767 | mirroring an image swaps the two bubbles |
| DancePlacement.UnknownImageLeaderLeft | src/lib/dance-party.ts:766 | an image missing from the table puts the leader left unless mirrored |
| DancePlacement.FollowerLeftImages | src/lib/dance-party.ts:171-206 | the follower is on the left of an unmirrored image exactly for images 2-4, 8-10, 13, 15 and 21 |
| DanceDock.Abs | src/lib/dance-party.ts:857 | the absolute value is non-negative and equals the value or its negation |
| DanceDock.GetDockScale | src/lib/dance-party.ts:781-799 | 1 from the radius on; `maxScale` for a unit right under the scrub point |
| DanceDock.DockScaleBounds | src/lib/dance-party.ts:781-799 | with `maxScale >= 1` every scale lies between 1 and `maxScale` |
| DanceDock.BeyondRadiusIdle | src/lib/dance-party.ts:786-787 | a unit at or beyond the radius is not magnified |
| DanceDock.DockScaleMonotone | src/lib/dance-party.ts:781-799 | with a non-increasing falloff, a nearer unit is magnified at least as much |
| DanceDock.SortedPositions | src/lib/dance-party.ts:837 | the sorted copy is a permutation of the positions in non-decreasing order |
| DanceDock.SpacingNonNegative | src/lib/dance-party.ts:838-847 | the average gap of sorted positions is never negative |
| DanceDock.NeighborRadiusNonNegative | src/lib/dance-party.ts:848 | a non-negative neighbour count gives a non-negative radius |
| DanceDock.CoincidentUnitsNoRadius | src/lib/dance-party.ts:838-853 | two or more units at one position give a zero radius, so every unit stays idle |
| DanceDock.AverageGap | src/lib/dance-party.ts:838-847 | the gap-summing loop yields the sorted spread over the number of gaps, or 0.2 for fewer than two units |
| DanceDock.PositionOrder | src/lib/dance-party.ts:876-877 | every unit index exactly once, by non-decreasing position |
| DanceDock.PositionOrderStable | src/lib/dance-party.ts:876-877 | the sort is stable: of two units at the same position, the one with the smaller index comes first |
| DanceDock.LastAtMost | src/lib/dance-party.ts:880-883 | the last sorted place whose position is at most the scrub point, or -1 |
| DanceDock.SplitOfSorted | src/lib/dance-party.ts:880-883 | in sorted positions, a place is at or before the split exactly when its position is at most the scrub point |
| DanceDock.FindSplit | src/lib/dance-party.ts:880-883 | the split loop yields the last place at or left of the scrub point |
| DanceDock.RightAccNonNegative | src/lib/dance-party.ts:890-901 | with non-negative extras the right sweep's running total is non-negative |
| DanceDock.LeftAccNonNegative | src/lib/dance-party.ts:904-922 | with non-negative extras the left sweep's running total is non-negative |
| DanceDock.RightAccGrows | src/lib/dance-party.ts:890-901 | the right sweep's total grows outward from the split |
| DanceDock.LeftAccGrows | src/lib/dance-party.ts:904-922 | the left sweep's total grows outward from the split |
| DanceDock.RightAccFlat | src/lib/dance-party.ts:890-901 | past two unmagnified units the right shift stays flat |
| DanceDock.LeftAccFlat | src/lib/dance-party.ts:904-922 | past two unmagnified units the left shift stays flat |
| DanceDock.RightWritesAt | src/lib/dance-party.ts:890-901 | the right sweep writes its running total to each unit right of the split and touches no other unit |
| DanceDock.LeftWritesAt | src/lib/dance-party.ts:904-922 | the left sweep writes its negated running total to each unit up to the split and touches no other unit |
| DanceDock.SweepRight | src/lib/dance-party.ts:890-901 | the in-place right sweep leaves exactly those writes in `dx` |
| DanceDock.SweepLeft | src/lib/dance-party.ts:904-922 | the in-place left sweep leaves exactly those writes in `dx` |
| DanceDock.Scales | src/lib/dance-party.ts:856-859 | each unit's scale is the dock scale of its distance from the scrub point |
| DanceDock.Extras | src/lib/dance-party.ts:865-866 | each unit's extra width is the icon height times its scale minus one |
| DanceDock.Permute | src/lib/dance-party.ts:895-916 | the extras read in sorted order |
| DanceDock.IdleLayout | src/lib/dance-party.ts:851-853 | every unit has scale 1 and no shift |
| DanceDock.SweepsWriteOffsets | src/lib/dance-party.ts:885-922 | after both sweeps every unit holds the lens shift of its sorted place |
| DanceDock.LensOffsets | src/lib/dance-party.ts:885-922 | the zero-filled `dx` after both sweeps holds each unit's lens shift |
| DanceDock.ComputeLens | src/lib/dance-party.ts:855-924 | steps 1 to 3 for a positive radius yield the lens layout |
| DanceDock.ComputeDockLayout | src/lib/dance-party.ts:826-925 | nothing for no units, all idle for a zero radius, otherwise the lens layout |
| DanceDock.LensLayoutAt | src/lib/dance-party.ts:855-924 | unit k of the lens layout has its own scale and the shift of its sorted place |
| DanceDock.SideOfUnit | src/lib/dance-party.ts:879-883 | a unit is right of the split exactly when its position is right of the scrub point |
| DanceDock.ExtrasNonNegative | src/lib/dance-party.ts:861-866 | with `maxScale >= 1` and a non-negative icon height no extra width is negative |
| DanceDock.DockLayoutScales | src/lib/dance-party.ts:826-925 | every scale lies between 1 and `maxScale`; a unit under the scrub point gets `maxScale`; one at or beyond the radius gets 1 |
| DanceDock.DockLayoutSides | src/lib/dance-party.ts:868-922 | units right of the scrub point shift right and units at or left of it shift left |
| DanceDock.OrderOfPositions | src/lib/dance-party.ts:876-877 | a unit strictly left of another comes earlier in position order |
| DanceDock.DockLayoutOutward | src/lib/dance-party.ts:868-922 | of two units on the same side, the one further out shifts at least as far |
| DanceDock.FindNearestUnit | src/lib/dance-party.ts:931-943 | -1 for no units, otherwise a unit at least distance from the scrub point, the first such |
| DanceDock.UnitsOf | src/lib/dance-party.ts:952-960 | the dance units of a placed floor, in order |
| DanceDock.ComputeDanceFloor | src/lib/dance-party.ts:952-960 | no units for no dancers; every dancer appears on the floor exactly once; with unit-range settings every unit is within [0, 1]; every vertical offset is within the jitter range |
| ExcelColumn.Letters | src/lib/google-document-util/sheet-data-pipeline.svelte.ts:15-24 | capital letters only, empty exactly for 0 |
| ExcelColumn.IndexToExcelColumn | src/lib/google-document-util/sheet-data-pipeline.svelte.ts:12-25 | an error exactly for a negative index, otherwise the letters of the 1-based column |
| ExcelColumn.ValueOfLetters | src/lib/google-document-util/sheet-data-pipeline.svelte.ts:15-24 | reading the letters back gives the column number |
| ExcelColumn.LettersOfValue | src/lib/google-document-util/sheet-data-pipeline.svelte.ts:15-24 | every string of capital letters is the letters of its value |
| ExcelColumn.ExcelColumnBijective | src/lib/google-document-util/sheet-data-pipeline.svelte.ts:12-25 | distinct indices get distinct names, every name is a column name, and every column name is some index's |
| ExcelColumn.LettersInjective | src/lib/google-document-util/sheet-data-pipeline.svelte.ts:15-24 | distinct numbers get distinct letters |
| ExcelColumn.NameHasValue | src/lib/google-document-util/sheet-data-pipeline.svelte.ts:15-24 | a column name stands for a number of at least 1 whose letters it is |
| ExcelColumn.ExcelColumnExamples | src/lib/google-document-util/sheet-data-pipeline.svelte.ts:12-25 | indices 0, 25, 26, 701 and 702 give A, Z, AA, ZZ and AAA |
| SheetPipe.Column.constructor | src/lib/google-document-util/sheet-data-pipeline.svelte.ts:27-32 | a column record holds the four given fields |
| SheetPipe.States | src/lib/google-document-util/sheet-data-pipeline.svelte.ts:34-36 | the current fields of every slot's record |
| SheetPipe.NewDefaultColumn | src/lib/google-document-util/sheet-data-pipeline.svelte.ts:27-32 | the default record: empty title, numeric, the largest safe integer as minimum length and 0 as maximum |
| SheetPipe.MakeColumn | src/lib/google-document-util/sheet-data-pipeline.svelte.ts:34-36 | a new record with the default's current fields and the given title |
| SheetPipe.RawCell | src/lib/google-document-util/sheet-data-pipeline.svelte.ts:54-58 | a string cell keeps its text and has no timestamp; an array cell takes its first element as text and its second as timestamp when that is a number; the render is the text |
| SheetPipe.MaxRowLength | src/lib/google-document-util/sheet-data-pipeline.svelte.ts:61 | the length of a longest row, 0 for no rows |
| SheetPipe.RawRows | src/lib/google-document-util/sheet-data-pipeline.svelte.ts:53-59 | every fetched cell converted in place |
| SheetPipe.MakeRaw | src/lib/google-document-util/sheet-data-pipeline.svelte.ts:46-69 | an empty pipe in UTC for a failed fetch; otherwise the converted rows, the sheet's time zone and as many slots as the longest row, all holding the one default record |
| SheetPipe.IndexedRows | src/lib/google-document-util/sheet-data-pipeline.svelte.ts:75 | each row gains a leading cell whose digits read back as its 1-based number |
| SheetPipe.AddIndex | src/lib/google-document-util/sheet-data-pipeline.svelte.ts:73-77 | a new `#` record in front of the columns and the row number in front of every row |
| SheetPipe.Label | src/lib/google-document-util/sheet-data-pipeline.svelte.ts:82 | `title:LETTERS`, or the letters alone for an empty title, and the letters read back as the 1-based position |
| SheetPipe.AppendColumnLabel | src/lib/google-document-util/sheet-data-pipeline.svelte.ts:79-85 | every column becomes a new record with its label as title and its other fields unchanged |
| SheetPipe.LabelledColumn | src/lib/google-document-util/sheet-data-pipeline.svelte.ts:80-83 | the new record for one column |
| SheetPipe.Values | src/lib/google-document-util/sheet-data-pipeline.svelte.ts:88 | the values of a row's cells |
| SheetPipe.JoinEmpty | src/lib/google-document-util/sheet-data-pipeline.svelte.ts:88 | a comma join is empty exactly for no parts or one empty part |
| SheetPipe.NonEmptyRowIff | src/lib/google-document-util/sheet-data-pipeline.svelte.ts:88 | a row is kept exactly when it has two or more cells or one cell with a value |
| SheetPipe.NonEmptyRows | src/lib/google-document-util/sheet-data-pipeline.svelte.ts:88 | the positions of the kept rows |
| SheetPipe.StripEmptyRows | src/lib/google-document-util/sheet-data-pipeline.svelte.ts:87-90 | the kept rows in order, columns unchanged |
| SheetPipe.HeaderTitles | src/lib/google-document-util/sheet-data-pipeline.svelte.ts:113-115 | each title is the header cell's value, or the first row's value when it is empty; no titles exactly when that fallback cell is missing |
| SheetPipe.CountTitles | src/lib/google-document-util/sheet-data-pipeline.svelte.ts:119 | never more than the row's cells |
| SheetPipe.NonHeaderRows | src/lib/google-document-util/sheet-data-pipeline.svelte.ts:119 | the rows with fewer than three values that are titles |
| SheetPipe.CountTitlesAtLeast | src/lib/google-document-util/sheet-data-pipeline.svelte.ts:119 | three title values in a row count at least three |
| SheetPipe.ExtractColumnHeaders | src/lib/google-document-util/sheet-data-pipeline.svelte.ts:104-123 | no change for no rows; otherwise an error exactly when a fallback title cell is missing, else one new distinct record per header title of the first longest row and the rows without copies of the header |
| SheetPipe.MakeColumns | src/lib/google-document-util/sheet-data-pipeline.svelte.ts:113-115 | one new distinct record per title |
| SheetPipe.HeaderCopiesDropped | src/lib/google-document-util/sheet-data-pipeline.svelte.ts:117-119 | a row repeating three titles is dropped |
| SheetPipe.KeptColumns | src/lib/google-document-util/sheet-data-pipeline.svelte.ts:180-181 | the positions, in order, of the columns with a length or a title |
| SheetPipe.StripEmptyColumns | src/lib/google-document-util/sheet-data-pipeline.svelte.ts:179-183 | the kept columns, and in every row the cells at the kept positions |
| SheetPipe.StripEmptyColumnsAligned | src/lib/google-document-util/sheet-data-pipeline.svelte.ts:179-183 | after stripping, each cell still sits under the column it sat under before |
| ColumnStats.RowEntries | src/lib/google-document-util/sheet-data-pipeline.svelte.ts:95 | one entry per cell, with its column index |
| ColumnStats.EntriesWithin | src/lib/google-document-util/sheet-data-pipeline.svelte.ts:94-99 | every visited cell has a column slot |
| ColumnStats.EntriesCover | src/lib/google-document-util/sheet-data-pipeline.svelte.ts:94-99 | every cell of the rows is visited |
| ColumnStats.EntriesStep | src/lib/google-document-util/sheet-data-pipeline.svelte.ts:94-95 | the outer loop visits the rows in order |
| ColumnStats.MaxForAppend | src/lib/google-document-util/sheet-data-pipeline.svelte.ts:96 | the running maximum continues from where it stood |
| ColumnStats.MinForAppend | src/lib/google-document-util/sheet-data-pipeline.svelte.ts:97 | the running minimum continues from where it stood |
| ColumnStats.NumericForAppend | src/lib/google-document-util/sheet-data-pipeline.svelte.ts:130-132 | the running numeric flag continues from where it stood |
| ColumnStats.LengthBounds | src/lib/google-document-util/sheet-data-pipeline.svelte.ts:96-97 | the bounds enclose the start values and every visited length in slots holding the record |
| ColumnStats.NumericForIff | src/lib/google-document-util/sheet-data-pipeline.svelte.ts:128-134 | the flag survives exactly when it was set and every visited value in slots holding the record is numeric |
| ColumnStats.AdjustRowLengths | src/lib/google-document-util/sheet-data-pipeline.svelte.ts:95-98 | each record's bounds after one row are the running extremes of its cells; nothing else changes |
| ColumnStats.LengthStep | src/lib/google-document-util/sheet-data-pipeline.svelte.ts:96-97 | one cell moves only the bounds of the record in its slot |
| ColumnStats.AdjustColumnLengths | src/lib/google-document-util/sheet-data-pipeline.svelte.ts:92-102 | each record's bounds become the extremes over all cells in slots holding it; every cell's length lies between its column's bounds |
| ColumnStats.CellWithinBounds | src/lib/google-document-util/sheet-data-pipeline.svelte.ts:92-102 | every cell's length lies between the bounds of the record in its slot |
| ColumnStats.SharedRecordSeesAllCells | src/lib/google-document-util/sheet-data-pipeline.svelte.ts:61-63 | when every slot holds the one default record, its maximum bounds every cell of the sheet |
| ColumnStats.AdjustRowTypes | src/lib/google-document-util/sheet-data-pipeline.svelte.ts:129-133 | one row clears the flag of a record that sees a non-numeric value; nothing else changes |
| ColumnStats.AdjustColumnTypes | src/lib/google-document-util/sheet-data-pipeline.svelte.ts:125-137 | a record stays numeric exactly when it was and every cell in its slots is numeric; nothing else changes |
| ColumnStats.ColumnNumericIff | src/lib/google-document-util/sheet-data-pipeline.svelte.ts:125-137 | a record in one slot is numeric afterwards exactly when it was before and each of its cells is numeric |
| ColumnStats.EntryOrigin | src/lib/google-document-util/sheet-data-pipeline.svelte.ts:94-95 | every visited entry is some cell of the rows |
| CellRenders.MapRow | src/lib/google-document-util/sheet-data-pipeline.svelte.ts:142-146 | the inner loop rewrites each cell of a row by its column index |
| CellRenders.MapCells | src/lib/google-document-util/sheet-data-pipeline.svelte.ts:141-147 | the nested loops rewrite every cell by its column index |
| CellRenders.Zeros | src/lib/google-document-util/sheet-data-pipeline.svelte.ts:144 | n zeros |
| CellRenders.PadStartShape | src/lib/google-document-util/sheet-data-pipeline.svelte.ts:144 | padding keeps the text at the end, puts only zeros before it, and reaches the target length unless the text is longer |
| CellRenders.PadNumericRenders | src/lib/google-document-util/sheet-data-pipeline.svelte.ts:139-150 | a non-empty value in a numeric column without a timestamp is rendered padded to the column maximum; other cells unchanged |
| CellRenders.LeadingZeros | src/lib/google-document-util/sheet-data-pipeline.svelte.ts:157 | the run of zeros at the start, followed by a non-zero or the end |
| CellRenders.GhostZerosShape | src/lib/google-document-util/sheet-data-pipeline.svelte.ts:157 | removing the markup gives the text back; the wrapped part is all leading zeros and nothing after it starts with a zero |
| CellRenders.GhostLeadingZeros | src/lib/google-document-util/sheet-data-pipeline.svelte.ts:152-163 | numeric cells without timestamps get their leading zeros wrapped; other cells unchanged |
| CellRenders.MaskDigits | src/lib/google-document-util/sheet-data-pipeline.svelte.ts:170-171 | each digit becomes `*`, every other character stays |
| CellRenders.MaskDigitsShape | src/lib/google-document-util/sheet-data-pipeline.svelte.ts:170-171 | no digit is left and the length is kept |
| CellRenders.HidePhoneNumbers | src/lib/google-document-util/sheet-data-pipeline.svelte.ts:165-177 | every cell is rewritten by the contact rule of its column |
| CellRenders.HideCellShape | src/lib/google-document-util/sheet-data-pipeline.svelte.ts:168-172 | in a contact column no digit is left in value or render and lengths are kept; other cells are untouched |
| DanceExtra.TitlesOf | src/lib/google-document-util/sheet-data-pipeline.svelte.ts:218-221 | the titles of the column records |
| DanceExtra.FindTitle | src/lib/google-document-util/sheet-data-pipeline.svelte.ts:218-221 | the first matching title, -1 exactly when none matches |
| DanceExtra.RowsWithRole | src/lib/google-document-util/sheet-data-pipeline.svelte.ts:231-232 | exactly the rows whose role text the pattern accepts |
| DanceExtra.Reverse | src/lib/google-document-util/sheet-data-pipeline.svelte.ts:241 | the rows in reverse order |
| DanceExtra.CollectExtraDance | src/lib/google-document-util/sheet-data-pipeline.svelte.ts:215-245 | no change without a name and a role column; otherwise the total, follow and leader counts with the found columns, and the rows reversed |
| DanceExtra.MissingRoleNotCounted | src/lib/google-document-util/sheet-data-pipeline.svelte.ts:231-232 | a row without a role cell is counted as neither follow nor leader |
| DanceExtra.UndefinedIsNoFollow | src/lib/google-document-util/sheet-data-pipeline.svelte.ts:231 | the text `undefined` of a missing cell does not match the follow pattern |
| DanceExtra.UndefinedIsNoLeader | src/lib/google-document-util/sheet-data-pipeline.svelte.ts:232 | the text `undefined` of a missing cell does not match the leader pattern |
| DanceExtra.UndefinedLacks | src/lib/google-document-util/sheet-data-pipeline.svelte.ts:231-232 | a pattern with a letter missing from `undefined` does not occur in it |
| DanceExtra.MissingLetter | src/lib/google-document-util/sheet-data-pipeline.svelte.ts:231-232 | a text lacking one of a pattern's letters in either case does not contain the pattern |
| DanceExtra.DanceExtraShape | src/lib/google-document-util/sheet-data-pipeline.svelte.ts:215-245 | both counts are at most the total, which is the number of rows, and the found role and name columns have matching titles |
| DanceExtra.ReverseReverse | src/lib/google-document-util/sheet-data-pipeline.svelte.ts:241 | reversing twice gives the rows back |
| SheetData.FirstLongest | src/lib/google-document-util/sheet-data-pipeline.svelte.ts:106-111 | the header row is the first row of maximal length |
| SheetData.FirstLongestUnique | src/lib/google-document-util/detect-sheet-type.ts:13-19 | there is only one first longest row, so both header scans pick the same row |
| SheetData.FindHeaderRow | src/lib/google-document-util/detect-sheet-type.ts:14-19 | the scan replaces its choice only by a strictly longer row and ends on the first longest row |
| SheetData.KeptIndices | src/lib/google-document-util/google-sheets.ts:63-64 | exactly the indices the filter keeps, ascending |
| SheetData.Select | src/lib/google-document-util/google-sheets.ts:63-64 | the elements at the kept indices, in that order |
| SheetData.KeptPrefix | src/lib/google-document-util/google-sheets.ts:64 | filtering a shorter row keeps a prefix of what a longer row keeps |
| SheetData.KeptAll | src/lib/google-document-util/google-sheets.ts:63-64 | a filter that keeps every index keeps all of them in order |
| SheetData.SelectAll | src/lib/google-document-util/google-sheets.ts:63-64 | keeping every index gives the sequence back |
| SheetData.HiddenIndices | src/lib/google-document-util/google-sheets.ts:40-41 | exactly the positions flagged hidden, ascending |
| GoogleSheets.AdjustRow | src/lib/google-document-util/google-sheets.ts:43-54 | a row without values becomes null; otherwise each value is converted |
| GoogleSheets.AdjustGoogleSheetData | src/lib/google-document-util/google-sheets.ts:30-57 | an error exactly when the first sheet has no first grid; otherwise titles, time zone, hidden lists and one converted row per API row |
| GoogleSheets.KeptRows | src/lib/google-document-util/google-sheets.ts:63 | exactly the present rows that are not hidden, unless hidden rows are kept |
| GoogleSheets.KeptCells | src/lib/google-document-util/google-sheets.ts:64 | exactly the cells that are not hidden, unless hidden columns are kept |
| GoogleSheets.StripHidden | src/lib/google-document-util/google-sheets.ts:59-72 | the kept rows with their kept cells, in order; an index list survives only when its flag is set |
| GoogleSheets.StripHiddenFiltering | src/lib/google-document-util/google-sheets.ts:62-64 | each remaining row is a present, unhidden input row with its unhidden cells |
| GoogleSheets.StripNothingHidden | src/lib/google-document-util/google-sheets.ts:62-64 | with both flags set only the null rows are dropped, and the rest come back unchanged |
| LegacyGoogleSheets.AdjustGoogleSheetData | src/lib/google-sheets.ts:60-84 | the input back unchanged when there is no first grid; otherwise titles, hidden lists and every row's converted values |
| LegacyGoogleSheets.StripHidden | src/lib/google-sheets.ts:86-99 | the unhidden rows with their unhidden cells, in order; an index list survives only when its flag is set |
| LegacyGoogleSheets.LegacyStripKeeps | src/lib/google-sheets.ts:89-91 | a row survives exactly when rows are unhidden or it is not hidden, and likewise a cell |
| LegacyGoogleSheets.LegacyStripNothing | src/lib/google-sheets.ts:89-91 | with both flags set the rows come back unchanged |
| SheetTypeDetect.CellTitle | src/lib/google-document-util/detect-sheet-type.ts:22-24 | a string cell is its own title; an array cell's title is its first element, or empty for an empty array |
| SheetTypeDetect.Titles | src/lib/google-document-util/detect-sheet-type.ts:22-24 | the title of every header cell |
| SheetTypeDetect.DetectSheetType | src/lib/google-document-util/detect-sheet-type.ts:10-37 | the classification of the sheet by its first longest row |
| SheetTypeDetect.SheetTypeEmpty | src/lib/google-document-util/detect-sheet-type.ts:11 | an empty sheet has no type |
| SheetTypeDetect.SheetTypeByHeader | src/lib/google-document-util/detect-sheet-type.ts:26-36 | a dance event exactly with a name and a role column; otherwise a playlist exactly with a title and an artist column; otherwise none |
| SheetTypeDetect.DanceEventWins | src/lib/google-document-util/detect-sheet-type.ts:26-29 | a name and a role column make a dance event whatever else is there |
| GroupDetect.DetectGroupRegistration | src/lib/group-registration/detect.ts:35-71 | the loop reports the matches of the scan, skipping past each matched triple |
| GroupDetect.DetectShort | src/lib/group-registration/detect.ts:38 | fewer than three fields hold no match |
| GroupDetect.DetectSound | src/lib/group-registration/detect.ts:43-64 | every match is a genuine name, role and group triple at its own index |
| GroupDetect.DetectOrdered | src/lib/group-registration/detect.ts:66-67 | matches come in index order and never overlap |
| GroupDetect.DetectComplete | src/lib/group-registration/detect.ts:38-68 | every triple is reported unless it begins inside an earlier reported triple |
| GoogleForm.InsertIndex | src/lib/google-form.ts:227-228 | the header position is within the fields |
| GoogleForm.AdjustGoogleFormData | src/lib/google-form.ts:214-257 | the form's own questions become the fields with the header inserted and the input fields numbered; `hasInput` and `hasRequired` say whether some input field exists and whether one is required; the other form fields are copied and left unchanged |
| GoogleForm.NumberInputs | src/lib/google-form.ts:244-254 | the pass numbers the form's questions in place and reports whether an input field, and a required one, was seen |
| GoogleForm.NumberedQuestions | src/lib/google-form.ts:244-254 | the loop yields the numbered fields and the two flags |
| GoogleForm.NumberField | src/lib/google-form.ts:245-253 | an input field gets the next number, which then grows by one |
| GoogleForm.NumberedKeepsFields | src/lib/google-form.ts:245-253 | numbering changes nothing but `inputIndex` |
| GoogleForm.HeaderPlacement | src/lib/google-form.ts:227-240 | one header is inserted, after a leading image or video and otherwise first, with the other fields in order around it |
| GoogleForm.HeaderNotNumbered | src/lib/google-form.ts:230-248 | the title and description header is not an input field and gets no number |
| GoogleForm.InputCountMonotone | src/lib/google-form.ts:244-254 | a longer prefix never has fewer input fields |
| GoogleForm.InputCountStep | src/lib/google-form.ts:246-252 | one more field adds one input exactly when it is an input field, and a required input exactly when it is a required one |
| GoogleForm.NumberingIncreasing | src/lib/google-form.ts:244-248 | a later input field gets a larger number |
| GoogleForm.NumberingOnto | src/lib/google-form.ts:244-248 | every number from 1 to the input count labels some input field |
| GoogleForm.NumberingInRange | src/lib/google-form.ts:244-248 | every input field's number lies between 1 and the input count |
| GoogleForm.InputCountPositive | src/lib/google-form.ts:246-247 | the count is positive exactly when some field is an input field |
| GoogleForm.RequiredInputExists | src/lib/google-form.ts:250-252 | the running flag is set exactly when some input field is required |
| GoogleForm.RequiredNeedsInput | src/lib/google-form.ts:246-252 | a required field that is not an input field never sets `hasRequired` |
| GroupSerialization.ResolvePrefix | src/lib/group-registration/serialization.ts:34-54 | a role comes only from one or two role letters |
| GroupSerialization.ResolvePrefixCases | src/lib/group-registration/serialization.ts:34-54 | leader exactly for one `l` or `ㄹ`, follower exactly for one `f` or `ㅍ`, both exactly for `b` or two letters of different roles, either case |
| GroupSerialization.ResolveRolePrefix | src/lib/group-registration/serialization.ts:59-63 | the canonical prefixes `L`, `F` and `LF` resolve back to their roles |
| GroupSerialization.MemberLines | src/lib/group-registration/serialization.ts:76-87 | one line per member, in order |
| GroupSerialization.Serialize | src/lib/group-registration/serialization.ts:71-90 | the members' lines joined by line feeds, empty exactly for no members |
| GroupSerialization.JoinStartsWithFirst | src/lib/group-registration/serialization.ts:89 | a join starts with its first part |
| GroupSerialization.LeadingDigits | src/lib/group-registration/serialization.ts:99-104 | the run of leading digits |
| GroupSerialization.Copies | src/lib/group-registration/serialization.ts:232 | n copies of one member |
| GroupSerialization.ParseToken | src/lib/group-registration/serialization.ts:224-259 | only an empty or count token yields other than one member; a plain word is one role-less member of that name |
| GroupSerialization.CountedToken | src/lib/group-registration/serialization.ts:228-233 | a counted token is its count of unnamed members with its letters' role |
| GroupSerialization.LeadingDigitsOf | src/lib/group-registration/serialization.ts:99 | the digits before a non-digit are all the leading digits |
| GroupSerialization.SameRolePairIsNull | src/lib/group-registration/serialization.ts:46-53 | `2LL` is two unnamed members without a role |
| GroupSerialization.UnrecognisedPrefix | src/lib/group-registration/serialization.ts:242-255 | a colon token whose prefix does not resolve is a role-less member named by the whole token |
| GroupSerialization.SkipSpace | src/lib/group-registration/serialization.ts:193 | the first index that is not whitespace |
| GroupSerialization.ScanTo | src/lib/group-registration/serialization.ts:202 | the first index holding the quote, or the end |
| GroupSerialization.ScanWord | src/lib/group-registration/serialization.ts:208 | the first index that is whitespace, or the end |
| GroupSerialization.TokenAt | src/lib/group-registration/serialization.ts:196-210 | a token always moves past its first character |
| GroupSerialization.QuotedStep | src/lib/group-registration/serialization.ts:197-204 | a quoted token runs to the matching quote, which is skipped |
| GroupSerialization.WordStep | src/lib/group-registration/serialization.ts:205-210 | an unquoted token runs to the next whitespace |
| GroupSerialization.UnclosedQuote | src/lib/group-registration/serialization.ts:197-204 | an unclosed quote runs to the end of the line |
| GroupSerialization.SkipBlanks | src/lib/group-registration/serialization.ts:193 | the whitespace loop stops at the first non-blank |
| GroupSerialization.ScanQuoted | src/lib/group-registration/serialization.ts:202 | the quoted-body loop stops at the closing quote or the end |
| GroupSerialization.ScanUnquoted | src/lib/group-registration/serialization.ts:208 | the word loop stops at the next blank or the end |
| GroupSerialization.NextToken | src/lib/group-registration/serialization.ts:196-210 | one iteration reads one token and moves on |
| GroupSerialization.NextQuoted | src/lib/group-registration/serialization.ts:197-204 | one quoted token and the index after its closing quote |
| GroupSerialization.TokenizeLine | src/lib/group-registration/serialization.ts:186-214 | the loop yields the tokens of the line |
| GroupSerialization.SpacedWordsSnoc | src/lib/group-registration/serialization.ts:157 | each absorbed word adds a space and the word |
| GroupSerialization.AbsorbWord | src/lib/group-registration/serialization.ts:156-158 | taking one more word into a name |
| GroupSerialization.PlainRun | src/lib/group-registration/serialization.ts:156 | the end of the run of plain words |
| GroupSerialization.OpenStep | src/lib/group-registration/serialization.ts:148-161 | a named, role-prefixed colon token absorbs the following plain words into its name |
| GroupSerialization.TokenStep | src/lib/group-registration/serialization.ts:162-165 | any other token contributes what it parses to alone |
| GroupSerialization.AbsorbWords | src/lib/group-registration/serialization.ts:154-159 | the inner loop appends the run of plain words to the name |
| GroupSerialization.NextMembers | src/lib/group-registration/serialization.ts:143-165 | one iteration of the line loop |
| GroupSerialization.ParseLine | src/lib/group-registration/serialization.ts:135-169 | the loop yields the members of the line's tokens |
| GroupSerialization.AppendAssoc | src/lib/group-registration/serialization.ts:121 | appending members is associative |
| GroupSerialization.Parse | src/lib/group-registration/serialization.ts:112-125 | nothing for blank text, else every line's members in order |
| GroupSerialization.ParseBlank | src/lib/group-registration/serialization.ts:113 | blank text parses to no members |
| GroupSerialization.NameAbsorbsWords | src/lib/group-registration/serialization.ts:146-161 | `F:Jane Doe` style lines give one member whose name is the words joined by single spaces |
| GroupSerialization.OpenToEnd | src/lib/group-registration/serialization.ts:146-161 | a name-opening token whose plain words reach the end of the line is one member |
| GroupSerialization.PlainRunAll | src/lib/group-registration/serialization.ts:156 | when every later token is plain the run reaches the end |
| GroupSerialization.SingleToken | src/lib/group-registration/serialization.ts:205-210 | a blank-free token not opening with a quote is read back whole |
| GroupSerialization.SingleTokenLine | src/lib/group-registration/serialization.ts:135-169 | a one-token line parses as its token |
| GroupSerialization.PrefixedToken | src/lib/group-registration/serialization.ts:242-252 | `P:name` with a resolving prefix is that name with that role |
| GroupSerialization.BareOne | src/lib/group-registration/serialization.ts:236-240 | `1` is one unnamed member without a role |
| GroupSerialization.CountedOne | src/lib/group-registration/serialization.ts:228-233 | `1P` is one unnamed member with the role of `P` |
| GroupSerialization.ParseMemberToken | src/lib/group-registration/serialization.ts:224-259 | the token written for a serializable member parses back to it |
| GroupSerialization.MemberLineBlankFree | src/lib/group-registration/serialization.ts:76-87 | a serializable member's line is non-empty, blank-free and does not open with a quote |
| GroupSerialization.ParseMemberLine | src/lib/group-registration/serialization.ts:135-169 | each serialized line parses back to its member and holds no line break |
| GroupSerialization.LinesMembersSnoc | src/lib/group-registration/serialization.ts:120-122 | one more line adds its members at the end |
| GroupSerialization.MemberLinesSnoc | src/lib/group-registration/serialization.ts:76-87 | one more member adds its line at the end |
| GroupSerialization.LinesMembersOfLines | src/lib/group-registration/serialization.ts:120-122 | parsing the lines of serializable members gives them back |
| GroupSerialization.AppendMemberLine | src/lib/group-registration/serialization.ts:76-87 | serializing one more member keeps the round trip |
| GroupSerialization.RoundTrip | src/lib/group-registration/serialization.ts:71-125 | parsing what `serialize` writes gives the members back, for names without whitespace and role-less names that cannot be read as a prefix, a count or a quote |
| LinkList.DefsEnd | src/lib/markdown/dl-to-link-list.ts:26-30 | the end of the run of `~` lines |
| LinkList.FirstWhitespace | src/lib/markdown/dl-to-link-list.ts:34 | the first whitespace position, or the end |
| LinkList.DefinitionUrl | src/lib/markdown/dl-to-link-list.ts:34 | a URL only when the definition is `~`, optional blanks, an `http://` or `https://` URL without whitespace and optional trailing blanks |
| LinkList.Kept | src/lib/markdown/dl-to-link-list.ts:58-70 | the kept line positions, ascending |
| LinkList.LinkListifyDefinitionList | src/lib/markdown/dl-to-link-list.ts:14-73 | the method computes the link-list rewrite of the text |
| LinkList.ListifyLines | src/lib/markdown/dl-to-link-list.ts:19-55 | the block loop yields the rewritten lines |
| LinkList.CollectDefinitions | src/lib/markdown/dl-to-link-list.ts:25-30 | the `~` lines after a term, and the index after them |
| LinkList.KeptNext | src/lib/markdown/dl-to-link-list.ts:60-70 | one more line is kept unless it is dropped |
| LinkList.RemoveBlanks | src/lib/markdown/dl-to-link-list.ts:58-70 | the filter loop yields the kept lines in order |
| LinkList.RemoveBlankStep | src/lib/markdown/dl-to-link-list.ts:61-69 | one iteration of the filter loop: the kept lines become those of the kept positions among the first k + 1 lines |
| LinkList.SingleUrlDefinition | src/lib/markdown/dl-to-link-list.ts:33-39 | a term with one URL definition becomes one `- [term](url)` line |
| LinkList.BlockSingle | src/lib/markdown/dl-to-link-list.ts:33-39 | a block with one URL definition is one link line |
| LinkList.KeptBlock | src/lib/markdown/dl-to-link-list.ts:42-49 | a term with several definitions or a non-URL one is kept as written |
| LinkList.BlockUnchanged | src/lib/markdown/dl-to-link-list.ts:47 | such a block is the term and its definitions |
| LinkList.PassThrough | src/lib/markdown/dl-to-link-list.ts:52-54 | a line not followed by a definition is copied |
| LinkList.NoDefinitionsUnchanged | src/lib/markdown/dl-to-link-list.ts:19-55 | text without definition lines passes through the block loop unchanged |
| LinkList.DefinitionUrlOf | src/lib/markdown/dl-to-link-list.ts:34 | `~ url` yields the URL |
| LinkList.ListifyNoBreaks | src/lib/markdown/dl-to-link-list.ts:19-55 | the rewritten lines hold no line feed |
| LinkList.BlockNoBreaks | src/lib/markdown/dl-to-link-list.ts:42-49 | a kept block holds no line feed |
| LinkList.LinkLineNoBreak | src/lib/markdown/dl-to-link-list.ts:36 | a link line holds no line feed |
| LinkList.UrlNoBreak | src/lib/markdown/dl-to-link-list.ts:34 | the URL holds no line feed |
| LinkList.ListifyNonEmpty | src/lib/markdown/dl-to-link-list.ts:19-55 | a non-empty list of lines yields at least one line |
| LinkList.JoinedIsOut | src/lib/markdown/dl-to-link-list.ts:59 | joining and re-splitting the rewritten lines gives them back |
| LinkList.NonBlankKept | src/lib/markdown/dl-to-link-list.ts:65-69 | a non-blank line is never dropped |
| LinkList.NeverDroppedKept | src/lib/markdown/dl-to-link-list.ts:60-70 | a line the test never drops is kept |
| LinkList.DroppedIff | src/lib/markdown/dl-to-link-list.ts:65-67 | a line is dropped exactly when it is blank between a kept list item and a following list item |
| LinkList.KeptStep | src/lib/markdown/dl-to-link-list.ts:60-70 | each line adds itself or nothing |
| LinkList.KeptStable | src/lib/markdown/dl-to-link-list.ts:60-70 | whether a line is kept is settled when it is visited |
| Undent.NormalizeLineEndings | src/lib/tag-functions/undent.ts:6 | no carriage return is left |
| Undent.LeadingWhitespace | src/lib/tag-functions/undent.ts:17-18 | the run of leading whitespace |
| Undent.MinIndent | src/lib/tag-functions/undent.ts:15-20 | none exactly for all-blank lines; otherwise the least indentation of a non-blank line |
| Undent.Dedent | src/lib/tag-functions/undent.ts:23 | each line with the indentation sliced off |
| Undent.Undent | src/lib/tag-functions/undent.ts:1-26 | the undent of the text: line endings normalised, a blank first and last line dropped, the least indentation of the non-blank lines sliced off every line, joined by line feeds and trimmed; by `UndentTrimmed`, `UndentNoCR`, `UndentFixed` and `UndentIdempotent` the result is trimmed, holds no carriage return, trimmed text without carriage returns is kept as it is, and undenting twice is undenting once |
| Undent.NormalizeWithoutCr | src/lib/tag-functions/undent.ts:6 | text without carriage returns is unchanged |
| Undent.NormalizeCons | src/lib/tag-functions/undent.ts:6 | other characters are copied |
| Undent.NormalizeCrLfFirst | src/lib/tag-functions/undent.ts:6 | a leading CR LF becomes one LF |
| Undent.NormalizeCrFirst | src/lib/tag-functions/undent.ts:6 | a leading lone CR becomes LF |
| Undent.CrLfBecomesLf | src/lib/tag-functions/undent.ts:6 | each CR LF becomes one LF |
| Undent.LoneCrBecomesLf | src/lib/tag-functions/undent.ts:6 | each lone CR becomes LF |
| Undent.DropBlankEdgesFrom | src/lib/tag-functions/undent.ts:9-12 | the filter keeps the inner lines and drops a blank last line |
| Undent.BlankEdgesDropped | src/lib/tag-functions/undent.ts:9-12 | a blank first or last line is dropped and every other line kept |
| Undent.IndentRemoved | src/lib/tag-functions/undent.ts:14-23 | the common indentation is whitespace, is removed from every non-blank line, and some line is left unindented |
| Undent.BlankLinesStayBlank | src/lib/tag-functions/undent.ts:23 | a blank line stays blank |
| Undent.UndentTrimmed | src/lib/tag-functions/undent.ts:25 | the result is trimmed |
| Undent.JoinNoCR | src/lib/tag-functions/undent.ts:23 | lines without carriage returns join to text without them |
| Undent.UndentNoCR | src/lib/tag-functions/undent.ts:6-25 | the result has no carriage return |
| Undent.EdgesKept | src/lib/tag-functions/undent.ts:9-12 | non-blank edge lines are kept |
| Undent.UndentFixed | src/lib/tag-functions/undent.ts:1-26 | trimmed text without carriage returns is its own undent |
| Undent.UndentIdempotent | src/lib/tag-functions/undent.ts:1-26 | undenting twice is undenting once |
| LocaleContent.AboveThreeFifths | src/lib/locale-content.ts:56-57 | a share above 0.6 is five times the count exceeding three times the total |
| LocaleContent.ClassifyScript | src/lib/locale-content.ts:50-59 | Korean exactly when Hangul is over 60% of the script characters, English exactly when Latin letters are, mixed for no script characters |
| LocaleContent.LastBalanced | src/lib/locale-content.ts:82-88 | the last position before the end where the bracket depth is back to zero, or -1 |
| LocaleContent.SplitTrailingParenGroup | src/lib/locale-content.ts:78-98 | the method computes the trailing-group split |
| LocaleContent.ScanToOpening | src/lib/locale-content.ts:82-88 | the backward scan stops at the matching `(` with depth 0, or runs off the start with non-zero depth |
| LocaleContent.DepthOfSlice | src/lib/locale-content.ts:82-88 | the depth over a slice is the difference of the depths at its ends |
| LocaleContent.SurplusAboveMatch | src/lib/locale-content.ts:82-88 | before the match the scan always has unmatched `)` |
| LocaleContent.TrailingParenGroupShape | src/lib/locale-content.ts:78-98 | a split is the trimmed text before a `(` and the balanced, non-empty text between it and the final `)`, with a non-empty part before |
| LocaleContent.InnerBalanced | src/lib/locale-content.ts:84-94 | the scan stops on a `(` and the text inside the group is balanced |
| LocaleContent.SplitBilingualLabel | src/lib/locale-content.ts:112-132 | a split exactly when there is a trailing group and the two parts are one Korean and one English; the result keeps the text and puts each part under its script |
| LocaleContent.SkipWhitespace | src/lib/locale-content.ts:157-158 | the first position that is not whitespace |
| LocaleContent.MarkerLanguage | src/lib/locale-content.ts:157-158 | a begin or end marker line gives Korean or English, never shared |
| LocaleContent.FlushBuffer | src/lib/locale-content.ts:177-183 | the buffered lines, joined and trimmed, are added as one segment when not empty |
| LocaleContent.SegmentBilingualContent | src/lib/locale-content.ts:169-212 | the method computes the segmentation |
| LocaleContent.ScanFound | src/lib/locale-content.ts:185-205 | a marker was found exactly when some line is a marker |
| LocaleContent.StepFound | src/lib/locale-content.ts:188-204 | one line sets the found flag exactly when it is a marker |
| LocaleContent.SegmentWithNone | src/lib/locale-content.ts:169-212 | no segments exactly for empty text or text without marker lines |
| LocaleContent.SegmentContentNone | src/lib/locale-content.ts:169-212 | null exactly for empty text or text without `~~ begin/end Korean/English ~~` lines |
| LocaleContent.FlushSegments | src/lib/locale-content.ts:177-183 | a flush adds one segment for the buffer or none |
| LocaleContent.FlushContent | src/lib/locale-content.ts:189-202 | a marker line closes the buffer as a block of content lines |
| LocaleContent.BufferContent | src/lib/locale-content.ts:204 | a content line joins the buffer |
| LocaleContent.StepSound | src/lib/locale-content.ts:187-205 | each line keeps segments matched to blocks of content lines |
| LocaleContent.ScanSound | src/lib/locale-content.ts:187-205 | the whole scan keeps that invariant |
| LocaleContent.FinalSound | src/lib/locale-content.ts:207-208 | after the final flush every segment comes from a block of content lines |
| LocaleContent.FlushContentOnly | src/lib/locale-content.ts:177-183 | flushing keeps blocks made of content lines |
| LocaleContent.SegmentWithTrimmed | src/lib/locale-content.ts:178-180 | every segment is the non-empty trimmed join of its block |
| LocaleContent.SegmentWithContent | src/lib/locale-content.ts:187-205 | marker lines never appear in segments: every block line is a content line of the text |
| LocaleContent.SegmentsTrimmed | src/lib/locale-content.ts:178-180 | every segment text is non-empty and trimmed |
| LocaleContent.SegmentsOfBlocksText | src/lib/locale-content.ts:178-180 | each segment is the trimmed join of its block of lines |
| LocaleContent.ScanContentLines | src/lib/locale-content.ts:204 | content lines after the last marker only grow the buffer |
| LocaleContent.SegmentWithLastMarker | src/lib/locale-content.ts:187-211 | the lines after the last marker form one final segment in that marker's language |
| LocaleContent.ScanAfterLastMarker | src/lib/locale-content.ts:187-205 | after the last marker the language is that marker's and the buffer holds the lines after it |
| LocaleContent.ScanAtMarker | src/lib/locale-content.ts:189-202 | a marker line empties the buffer and sets the language |
| LocaleContent.LastMarkerLanguage | src/lib/locale-content.ts:187-211 | an unterminated `begin` section is tagged with its language: the trailing lines are flushed under the last marker's language |
| LocaleContent.AddBilingualData | src/lib/locale-content.ts:233-254 | the question is kept; its title and description are split; options get splits exactly when at least one option splits |
| LocaleContent.LocaleTextAndTooltip | src/lib/locale-content.ts:259-277 | without a split, the fallback and no tooltip; with one, the text in the locale's script and the tooltip in the other, the two being the two parts |
| LocaleContent.LocaleText | src/lib/locale-content.ts:259-266 | the fallback without a split, else the Korean part for the `ko` locale and the English part otherwise; by `LocaleTextAndTooltip` the shown text of a split label is the part in the locale's script |
| LocaleContent.LocaleTooltip | src/lib/locale-content.ts:271-277 | no tooltip without a split, else the part in the other language; by `LocaleTextAndTooltip` the text and the tooltip of a split label are its two different parts |
| UrlId.VeneerIdGroups | src/lib/google-document-util/url-id.ts:29 | the groups exist exactly when the Veneer id pattern matches, and the id is the prefix, a dot and the id part |
| UrlId.IsVeneerId | src/lib/google-document-util/url-id.ts:29 | the Veneer id pattern; by `VeneerIdShape` and `VeneerIdGroups` it holds exactly for one of s, f, g, b, h, a dot and one or more letters, digits, `_` or `-`, and then the id splits into that prefix and id part |
| UrlId.VeneerIdShape | src/lib/google-document-util/url-id.ts:29 | a Veneer id is exactly one of the letters s, f, g, b, h, a dot and one or more of letters, digits, `_` and `-` |
| UrlId.VeneerIdSplit | src/lib/google-document-util/url-id.ts:54 | splitting a Veneer id at `.` gives exactly its prefix and its id |
| UrlId.IndexOfFrom | src/lib/google-document-util/url-id.ts:60 | the result is the first occurrence at or after the start, or -1 when there is none |
| UrlId.ReplaceFirst | src/lib/google-document-util/url-id.ts:60 | without an occurrence the string is unchanged; otherwise the first occurrence gives way to the replacement with its `$` patterns expanded |
| UrlId.Substitute | src/lib/google-document-util/url-id.ts:60 | a replacement without `$` is inserted as written; `$$`, `$&`, `` $` `` and `$'` expand to a dollar, the match, the text before and the text after, as JavaScript's `replace` does |
| UrlId.NoBraceNoOccurrence | src/lib/google-document-util/url-id.ts:31-37 | in a template with no brace before `{ID}`, the first `{ID}` is the placeholder |
| UrlId.ReplaceTemplate | src/lib/google-document-util/url-id.ts:60 | replacing that `{ID}` puts the id, its `$` patterns expanded against that occurrence, between the template's two halves |
| UrlId.TemplateS | src/lib/google-document-util/url-id.ts:32 | the sheet template is its two halves around `{ID}` |
| UrlId.TemplateF | src/lib/google-document-util/url-id.ts:33 | the form template is its two halves around `{ID}` |
| UrlId.TemplateG | src/lib/google-document-util/url-id.ts:34 | the forms.gle template is its two halves around `{ID}` |
| UrlId.TemplateB | src/lib/google-document-util/url-id.ts:35 | the bit.ly template is its two halves around `{ID}` |
| UrlId.TemplateH | src/lib/google-document-util/url-id.ts:36 | the shorturl.at template is its two halves around `{ID}` |
| UrlId.TemplateOf | src/lib/google-document-util/url-id.ts:31-37 | every Veneer prefix has a template with one placeholder and no brace before it |
| UrlId.ApiUrlOfSheet | src/lib/google-document-util/url-id.ts:56-58 | a sheet id of 44 code units asked for as an API address gives the sheets API address |
| UrlId.TemplateUrlOfVeneerId | src/lib/google-document-util/url-id.ts:53-61 | every other Veneer id, which holds no `$`, gives its template with the id verbatim in place of `{ID}` |
| UrlId.TemplateUrlOfId | src/lib/google-document-util/url-id.ts:53-61 | any dot-free id under a known prefix, such as one captured from an address, gives its template with the id's `$` patterns expanded in place of `{ID}` |
| UrlId.DollarAmpersand | src/lib/google-document-util/url-id.ts:60 | `$&` in a replacement stands for the matched `{ID}` |
| UrlId.DollarAmpersandId | src/lib/google-document-util/url-id.ts:53-61 | the sheet id `a$&b` gives the address ending `/d/a{ID}b`, the placeholder put back by `replace` |
| UrlId.UnknownPrefixFails | src/lib/google-document-util/url-id.ts:60 | a prefix without a template is an error (the source throws) |
| UrlId.UrlFromVeneerId | src/lib/google-document-util/url-id.ts:53-61 | the address of a Veneer id: by `ApiUrlOfSheet` the sheets API address for a 44-unit sheet id asked for as an API address, by `TemplateUrlOfVeneerId` otherwise the prefix's template with the id in place of `{ID}` (by `TemplateUrlOfId`, for an id taken from an address, with its `$` patterns expanded), and by `UnknownPrefixFails` an error where the source throws for a prefix without a template |
| UrlId.MatchSheetUrl | src/lib/google-document-util/url-id.ts:13 | a matched sheet id is non-empty and has neither `?` nor `/`; a wildcard dot matches one code unit, so a character outside the Basic Multilingual Plane there fails the pattern |
| UrlId.SheetIdAfter | src/lib/google-document-util/url-id.ts:13 | the same for the optional `d/` and `e/` segments tried longest first |
| UrlId.MatchFormUrl | src/lib/google-document-util/url-id.ts:15 | a matched form id is non-empty and has no `/`; the wildcard dots match one code unit as in the sheet pattern |
| UrlId.AstralHostRejected | src/lib/google-document-util/url-id.ts:13-15 | an address with a character outside the Basic Multilingual Plane at the first dot of `docs.google.com` yields no id |
| UrlId.SheetAndFormDisjoint | src/lib/google-document-util/url-id.ts:24-27 | no address matches both the sheet and the form pattern |
| UrlId.DocumentIdFromUrlIff | src/lib/google-document-util/url-id.ts:63-71 | the result is the sheet id exactly when the sheet pattern matches, the form id exactly when the form pattern matches, and null exactly when neither does |
| UrlId.FoundIdShape | src/lib/google-document-util/url-id.ts:63-71 | a found id is `s.` or `f.` and its captured id; a sheet id has no `?` or `/`, a form id no `/` |
| UrlId.GoogleDocumentIdFromUrl | src/lib/google-document-util/url-id.ts:63-71 | the Veneer id of a Google address: by `DocumentIdFromUrlIff` `s.` and the sheet id exactly when the sheet pattern matches, otherwise `f.` and the form id exactly when the form pattern matches, otherwise null; by `FoundIdShape` a sheet id has no `?` or `/` and a form id no `/`; by `AstralHostRejected` a character outside the Basic Multilingual Plane at a wildcard gives null |
| UrlPatterns.RunFrom | src/lib/google-document-util/url-id.ts:13-21 | a greedy run of characters outside the stop set ends at the end of the text or at a stop character |
| UrlPatterns.CaptureAt | src/lib/common.ts:3-11 | `beforeId` and `id` together are the matched prefix of the text, and the id holds no stop character |
| UrlPatterns.DisjointAt | src/lib/google-document-util/url-id.ts:13-21 | two patterns with different fixed characters at one position never both match there |
| DocumentIds.SheetPathLength | src/lib/common.ts:3 | the optional `d/` and `e/` part is 0, 2 or 4 characters long and lies inside the address |
| DocumentIds.MatchDocument | src/lib/common.ts:1-12 | a match exactly when the pattern's fixed start matches, its wildcard dots each taking one code unit, and then the id has no `/` and `beforeId + id` is a prefix of the address |
| DocumentIds.Matches | src/lib/common.ts:24-25 | the loop tries the five patterns in their declared order |
| DocumentIds.DocumentId.constructor | src/lib/common.ts:21-47 | the new object's fields are those of the loop over the five patterns applied to the address; by `AstralShortLinkIgnored` a character outside the Basic Multilingual Plane at a wildcard leaves `id` empty and `url` the input |
| DocumentIds.AstralShortLinkIgnored | src/lib/common.ts:9-46 | an address with a character outside the Basic Multilingual Plane at the dot of `bit.ly` matches no pattern, so the fields keep their initial values |
| DocumentIds.DocumentId.TryPattern | src/lib/common.ts:24-46 | one turn of the loop: the fields after one more pattern |
| DocumentIds.DocumentId.ApplyMatch | src/lib/common.ts:27-44 | the loop body for a match sets `idSheet`, `idForm`, `url` and `id` as its prefix says |
| DocumentIds.StepFields | src/lib/common.ts:30-44 | the loop body's fields, one by one, in terms of those it found |
| DocumentIds.PatternsDisjoint | src/lib/common.ts:1-12 | two different patterns never both match one address |
| DocumentIds.MatchesAtMostOne | src/lib/common.ts:24-46 | so at most one turn of the loop applies its body |
| DocumentIds.UrlOrigKept | src/lib/common.ts:22 | `urlOrig` is never reassigned by the loop |
| DocumentIds.NoMatchesBetween | src/lib/common.ts:24-46 | turns without a match change nothing |
| DocumentIds.OnlyMatchIn | src/lib/common.ts:24-46 | with at most one match the result is that one body applied to the starting fields |
| DocumentIds.UrlOrigIsInput | src/lib/common.ts:22 | `urlOrig` is the address given |
| DocumentIds.NoMatchKeepsInput | src/lib/common.ts:17-23 | without a match `id` stays empty, `url` is the input and neither `idSheet` nor `idForm` is set |
| DocumentIds.OnlyMatchCounts | src/lib/common.ts:24-46 | with a match the result is that pattern's body applied to the initial fields |
| DocumentIds.SheetFields | src/lib/common.ts:30-34 | a sheet address sets `idSheet` and `id`, and the canonical address only for a 44-unit id |
| DocumentIds.FormFields | src/lib/common.ts:35-39 | a form address sets `idForm` and `id`, and the canonical address only for a 56-unit id |
| DocumentIds.ShortLinkFields | src/lib/common.ts:40-44 | a short link keeps `beforeId + id`, a prefix of the input, and sets neither `idSheet` nor `idForm` |
| DocumentIds.SheetStep | src/lib/common.ts:30-34 | the body for a sheet match, field by field |
| DocumentIds.FormStep | src/lib/common.ts:35-39 | the body for a form match, field by field |
| DocumentIds.ShortStep | src/lib/common.ts:40-44 | the body for a short-link match, field by field |
| Presets.StripWww | src/lib/presets.ts:100 | one leading `www.` is removed and any other host is unchanged |
| Presets.ResolvePresetName | src/lib/presets.ts:99-107 | the preset of a host: by `WwwIgnored` one leading `www.` makes no difference, by `NullCases` null exactly for a host mapped to null or an unknown host, by `ResolvedNamesExist` every name it gives is a preset, with the examples of `ResolveExamples` |
| Presets.WwwIgnored | src/lib/presets.ts:99-107 | a host with and without one leading `www.` resolves alike |
| Presets.NullCases | src/lib/presets.ts:103-104 | null exactly for a host mapped to null and for an unknown host |
| Presets.DomainTableConsistent | src/lib/presets.ts:10-22 | every preset name in the domain table is a key of the preset table |
| Presets.ResolvedNamesExist | src/lib/presets.ts:99-107 | every name the resolver gives names a preset |
| Presets.ResolveExamples | src/lib/presets.ts:99-107 | `www.btango.com` gives btango, `tangodj.btango.com` btango-dj, the Veneer home and an unknown host null |

## Left out

- GroupSerialization.ParseToken: a counted or bare token whose count is 2^32 or more (such as `4294967296L`, or a digit run so long that `parseInt` gives `Infinity`) makes `Array.from({ length })` throw a RangeError in the source; the model returns that many members instead. Counts below 2^32 too large for memory are not modelled either.
- GroupSerialization.Copies: total for every `n`, where `Array.from({ length: n })` throws a RangeError for n of 2^32 or more.
- I/O and the network are not modelled: the Google Sheets and Forms fetches and `getGoogleDocumentId`, which follows short-link redirects through a server route.
- The clock is a parameter (`now`), and so are `excelDateToUnix` and `excelDateToJsDate`; `renderRelativeTimes` (dayjs and the current time) is left out.
- `console.warn`, `console.time` and `console.log` calls are left out.
- Floating point is modelled as exact `real` arithmetic, without IEEE rounding; the dock falloff (`Math.cos` or `Math.exp`) is a function parameter with values in [0, 1] and value 1 at distance 0.
- `getDancerScale` and its `DANCER_SCALES` table are left out: a constant table of floats with nothing to prove.
- `formattedValue` is a string in the model; a cell without one is read as the empty string.
- The optional media fields of a form question (images and videos of options) are not modelled.
- `makeGoogleSheetUrl` is modelled with its encoded query as an opaque parameter, since the query does not depend on the id.
- Keys inherited from `Object.prototype` (such as `constructor`), which a JavaScript record lookup would find, are not modelled in the table lookups.
- The default form and sheet ids of the presets are not proved to be well-formed Veneer ids.
- `undent` is modelled on the string the template has already interpolated.
- `adjustGoogleFormData` numbers the fields in place; the model builds the numbered sequence and assigns it to the field once.
- LegacyGoogleSheets.AdjustGoogleSheetData: requires every row of the first grid to carry a `values` array, because the older adapter maps `rowDatum.values` unguarded and throws otherwise.
- Prng.AssignDancerImages: requires at least one image when `count > 0`, because the source's loop never ends for an empty pool.
- DancePlacement.PlaceDanceUnits: `verticalJitter` is a non-negative integer, as the layout configuration uses it; fractional jitter is not modelled.
- DancePlacement.EnforceMinSpacing: the bounds and ordering ensures assume `minSpacing <= 1`, the documented range; a larger spacing makes the compression factor negative and is not covered.
- DancePlacement.SortedIndices: breaks ties between equal positions by the code-unit order of the unit keys, where the source uses `localeCompare`; the two orders differ (code units put `B` before `a`, a locale order puts `a` first), so units at equal positions may be ordered differently.
- DanceExtra.CollectExtraDance: returns the reversed rows as a new value; the source's `rows.reverse()` also reverses the caller's array in place, and that aliasing is not modelled.
- GroupSerialization.ResolvePrefix: lower-cases ASCII letters only; the source's `toLowerCase` also folds other scripts, which no prefix uses.
