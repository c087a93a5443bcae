# Isoform browser layout core, in Dafny

The isoform browser plots the transcripts of one gene: annotated reference
transcripts and transcripts built from long-read clusters. `getGene.py`
prepares that plot. This project models the layout core of that module and
proves properties of it:

- **Blocks** (`assignBlocks`, `assignBlocksReverse`). The exons, sorted by
  ascending start (or, on the reverse strand, by descending end), are merged
  into plot blocks. A block is a genomic stretch without a gap in exon
  coverage. Each exon is stamped with its block number and with its start in
  the display coordinates, where introns shared by all transcripts collapse.
  Each transcript collects the numbers of the blocks its exons fall in. Each
  block records its genomic range and its right-hand boundary in display
  space.
- **Annotation blocks** (`annotationBlocks`, `annotationBlocksReverse`). The
  same merge runs over the exons of annotated transcripts only. The running
  boundary starts at the display start of the first such exon.
- **Regions** (`findRegions`). The start and end events of all exons are
  sorted by position and swept. Whenever the sweep jumps more than
  `MIN_REGION_SIZE` (50) bases, every transcript open at that point is tagged
  with the current region id, and the counter moves on.
- **Ordering** (`orderTranscripts`). The display rows come from a greedy
  nearest-neighbour tour, starting at the first transcript. Two transcripts
  are as far apart as the size of the symmetric difference of their region
  sets.
- **Grouping distances** (`getExon`, `toBoolean`, `calcDis`, and the part of
  `groupTran` before the clustering).
  - Each non-annotated transcript's exons are shifted to offsets from the
    leftmost start and painted into a list of flags.
  - Two transcripts are apart by (L1 + L2 - 2 L3) / (L1 + L2 - L3).
  - The distance matrix is filled below the diagonal and then added to its
    transpose.
  - The requested number of clusters is cut down to the number of
    transcripts.
- **Labels** (`reduceNameLength`). Long transcript names are shortened.

### How the model is arranged

- `Transcript` and `Exon` are classes whose stamped fields the methods
  update. These fields are `blocks`, `regions` and `tranIx` for transcripts,
  and `block` and `adjStart` for exons.
- Each loop of `assignBlocks`, `assignBlocksReverse`, `annotationBlocks`,
  `annotationBlocksReverse`, `findRegions`, `orderTranscripts`, the
  distance-matrix fill of `groupTran` and `reduceNameLength` is a method with
  loop invariants. The loops of the pure helpers `getExon`, `toBoolean` and
  `calcDis` are functions. The methods of the first three are proved
  against a specification function in a pure module beside them:
  - `Blocks` against `BlockSpec`;
  - `Regions` against `RegionSpec`;
  - `Ordering` against `OrderSpec`.
- `Coverage`, `Grouping` and `Names` hold the distance and label code.
- Python exceptions that the code raises on legal input are results. They
  use `Result` with `IndexError`, `KeyError`, `TypeError` or
  `ZeroDivisionError`.

`findRegions` tags the open transcripts only when a later position jumps
more than MIN_REGION_SIZE past `curPos` (getGene.py:307-312), and it tags
nothing after its loop (getGene.py:317-318). So the stretch after the last
jump is never tagged: a lone exon [100, 120] gets no region at all, as
RegionSpec.ShortTranscriptUntagged states.

## Model

| member | source | states |
|---|---|---|
| Structs.Transcript.constructor | getGene.py:545-559 | a new transcript has its name, ID, annotation flag and coordinates; no exons, no row index (None), and empty block and region sets |
| Structs.Exon.constructor | getGene.py:581-590 | a new exon belongs to its transcript, has its name and coordinates, and has no block number and no display start yet (None) |
| BlockSpec.Sweep | getGene.py:173-189 | the block partition of an exon list gives every exon a block number, and it has no block exactly when there is no exon |
| BlockSpec.BlockIdsContiguous | getGene.py:169-189 | block numbers start at 0 for the first exon; each exon is in its predecessor's block or the next one; the last exon is in the last block; every number is below the block count, and every block holds an exon |
| BlockSpec.EveryBlockHasAnExon | getGene.py:173-189 | every block number below the block count is carried by some exon |
| BlockSpec.NewBlockExactly | getGene.py:175-185 | an exon opens a new block exactly when it starts after the end of every earlier exon of the current block, i.e. after the largest end seen in that block |
| BlockSpec.BlocksSeparatedForward | getGene.py:173-189 | for input sorted by ascending start, each block starts after the previous block ends, and every exon lies inside its block |
| BlockSpec.BlocksSeparatedReverse | getGene.py:207-224 | for input sorted by descending end, each block lies wholly below the previous one, and every exon lies inside its block (start = high end, end = low end) |
| BlockSpec.DisjointExonsOwnBlocks | getGene.py:175-181 | when every exon starts after the previous one ends, each exon gets its own block, equal to that exon, numbered by its position |
| BlockSpec.BoundariesIncrease | getGene.py:187-188 | block boundaries strictly increase from the starting boundary, and the last one is that start plus the display widths of all blocks |
| BlockSpec.BoundariesOfBlocks | getGene.py:222-223 | the same rise and total for block records built from any well-formed extents, on either strand |
| BlockSpec.SumWidthsOfBlocks | getGene.py:187-188 | the widths of the block records add up to the widths end - start + 1 of the block extents |
| BlockSpec.AdjStartInBlock | getGene.py:184-188 | each exon's display start is the previous block's boundary (or the starting boundary) plus its offset into its block, so it lies at or after that origin and before its block's boundary |
| BlockSpec.AdjStartAt | getGene.py:219-223 | the same placement for one exon, on either strand |
| BlockSpec.OrientedSorted | getGene.py:194-197 | mirroring an exon list sorted by descending end gives a list sorted by ascending start |
| BlockSpec.StepFacts | getGene.py:178-181 | one merge step either widens the last block to the exon's end (when the exon starts no later than that block's end) or opens a new block equal to the exon |
| BlockSpec.MaxEndAttained | getGene.py:178-181 | the running block end bounds the end of every exon merged so far and equals one of them |
| BlockSpec.BlockExtent | getGene.py:175-187 | a block is the range from the start of its first exon to the largest end among its exons |
| BlockSpec.BlockScan | getGene.py:178-185 | scanning from the exon that opens a block stops exactly where the block ends; the stopping exon opens the next block, or there is none |
| BlockSpec.SweepPrefix | getGene.py:173-185 | the block numbers of a prefix of the exon list are the prefix of the block numbers |
| BlockSpec.ThreeSpansSweep | getGene.py:173-189 | worked example: exons [100,200], [150,250] and [500,600] form the blocks [100,250] and [500,600], numbered 0, 0, 1 |
| BlockSpec.ThreeTranscriptScenario | getGene.py:160-191 | the same example on the forward strand gives the block records (100,250,151) and (500,600,252) and the display starts 0, 50, 151 |
| Blocks.AssignBlocks | getGene.py:160-191 | the returned blocks are those of the specified partition; every exon holds its block number and display start; each transcript's block set grows by exactly the blocks of its exons |
| Blocks.BlocksOfExactly | getGene.py:182-183 | a block is in a transcript's added set exactly when one of that transcript's exons lies in it |
| Blocks.MergeBlock | getGene.py:173-189 | one outer pass stamps the exons of one block, appends the next block record and adds its width to the running boundary |
| Blocks.StampBlock | getGene.py:178-185 | the inner loop stops exactly where the block ends, with the block end equal to the largest end of its exons; all those exons are stamped |
| Blocks.JoinExon | getGene.py:179-185 | one inner pass widens the block end to the largest end seen so far and stamps one exon |
| Blocks.StampExon | getGene.py:182-184 | the exon receives its block number and display start, and its transcript gains the block |
| Blocks.MirrorsOriented | getGene.py:209-216 | the mirrored view (-end, -start) of the exon intervals is the reverse-strand orientation the specification uses |
| Blocks.AssignBlocksReverse | getGene.py:194-226 | the same as assignBlocks on the mirrored intervals: blocks hold (highest end, lowest start) and the running boundary; exons and transcripts are stamped as specified |
| Blocks.SweepMirrored | getGene.py:207-224 | the loops of assignBlocksReverse give the forward partition of the mirrored intervals |
| Blocks.MergeBlockReverse | getGene.py:207-224 | one outer pass on the reverse strand appends the next block record and its width |
| Blocks.StampBlockReverse | getGene.py:212-220 | the reverse inner loop stops where the block ends, with the block end equal to the lowest start of its exons |
| Blocks.JoinExonReverse | getGene.py:214-220 | one reverse inner pass lowers the block end to the lowest start seen so far and stamps one exon |
| Blocks.AnnotatedExonsExactly | getGene.py:234-237 | an exon is kept exactly when it is in the list and its transcript comes from the annotations |
| Blocks.FilterAnnotated | getGene.py:234-237 | the filter loop keeps exactly the exons of annotated transcripts, in list order |
| Blocks.ScanAnnotated | getGene.py:249-253 | the annotation inner loop stops where the block ends, at the largest end of its exons |
| Blocks.ScanAnnotatedReverse | getGene.py:276-280 | the reverse annotation inner loop stops where the block ends, at the lowest start of its exons |
| Blocks.MergeAnnotated | getGene.py:244-257 | one outer pass over annotated exons appends the next block record and adds its width to the running boundary |
| Blocks.SweepAnnotated | getGene.py:244-258 | the annotation outer loop builds the specified block list from the given starting boundary |
| Blocks.AnnotationBlocks | getGene.py:229-259 | with no annotated exon the result is IndexError; when the first one has no display start, TypeError; otherwise the forward blocks of the annotated exons from that display start, at least one and no more than there are annotated exons; nothing is modified |
| Blocks.AnnotationBlocksReverse | getGene.py:262-285 | the same on the reverse strand, with the same IndexError and TypeError cases |
| RegionSpec.TranEvents | getGene.py:296-298 | one transcript's exons give twice as many events, all carrying its index |
| RegionSpec.Events | getGene.py:294-298 | every event names one of the transcripts |
| RegionSpec.EventsEmpty | getGene.py:294-301 | there are no events exactly when no transcript has an exon |
| RegionSpec.SortByPosStable | getGene.py:300 | the sort orders the events by position and keeps, at every position, the original order of the events there (a stable sort) |
| RegionSpec.SortByPosInput | getGene.py:300 | the sort keeps exactly the events it was given |
| RegionSpec.InsertSorted | getGene.py:300 | inserting an event into a sorted list keeps it sorted and adds exactly that event |
| RegionSpec.InsertAt | getGene.py:300 | inserting an event puts it last among the events at its own position and changes no other position |
| RegionSpec.SortedEventsInRange | getGene.py:300-306 | every sorted event names one of the transcripts |
| RegionSpec.Start | getGene.py:301-303 | the sweep begins with no transcript open, none tagged and the counter at 0 |
| RegionSpec.Advance | getGene.py:307-312 | the region-closing half of an event keeps the open set and the number of transcripts |
| RegionSpec.RunStopsAtFailure | getGene.py:313-316 | once a close of a transcript that is not open has failed, later events change nothing |
| RegionSpec.CounterMovesOnlyWhenOpen | getGene.py:307-316 | the counter moves by one exactly at a jump of more than MIN_REGION_SIZE with some transcript open, and exactly the open transcripts receive the old counter as a tag |
| RegionSpec.CloseGood | getGene.py:308-311 | closing a region over a non-empty open set keeps every handed-out id below the counter and each id handed out |
| RegionSpec.TickGood | getGene.py:306-316 | one event keeps the sweep state well kept and only adds tags |
| RegionSpec.RunGood | getGene.py:305-316 | the whole sweep keeps the state well kept and only adds tags |
| RegionSpec.RegionIdsBelowCounter | getGene.py:305-317 | every region id a transcript ends with is below the final counter, and every id below it went to some transcript |
| RegionSpec.ShortTranscriptUntagged | getGene.py:305-318 | worked example: a lone exon [100,120] is never tagged, since there is no close after the last event |
| RegionSpec.OverlappingEvents | getGene.py:294-298 | worked example: the events of exons [100,200] and [150,250], in exon order |
| RegionSpec.OverlappingSorted | getGene.py:300 | sorting those events moves the second start before the first end |
| RegionSpec.OverlappingRun | getGene.py:305-316 | the sweep over them tags region 0 and then fails |
| RegionSpec.OverlappingExonsFail | getGene.py:294-316 | a transcript with overlapping exons is tagged with region 0 and then fails with KeyError at the second close of the same index |
| RegionSpec.RunSnoc | getGene.py:305-316 | the sweep over one more event is the sweep so far followed by that event, unless it already failed |
| Regions.TagOpen | getGene.py:309-310 | each open transcript gains the region id; no other transcript changes |
| Regions.ExonEvents | getGene.py:296-298 | the inner loop builds one transcript's specified events, in exon order |
| Regions.BuildEvents | getGene.py:294-298 | the event list is the specified events of all transcripts, transcript by transcript |
| Regions.AdvanceTo | getGene.py:307-312 | the region-closing step of the loop does what the specified half-step does, to the counter, position and transcripts |
| Regions.SweepEvents | getGene.py:301-316 | with no event, IndexError and nothing changes; otherwise the transcripts gain exactly the tags of the specified sweep, and the result is the counter or KeyError |
| Regions.FindRegions | getGene.py:288-318 | the transcripts gain exactly the region ids that the specified sweep of the stably sorted exon events hands them; IndexError with no exon at all; KeyError at a close of a transcript not open |
| OrderSpec.DistIsSymmetricDifference | getGene.py:350 | the distance is the size of the regions in one set but not the other |
| OrderSpec.DistMetric | getGene.py:327-330 | the distance is 0 exactly for equal region sets, and it is symmetric |
| OrderSpec.DistTriangle | getGene.py:327-334 | the distance obeys the triangle inequality |
| OrderSpec.Dists | getGene.py:348-350 | the distances from the current transcript to every transcript, in list order |
| OrderSpec.FirstMinIsFirstMinimum | getGene.py:347-353 | the scan finds nothing exactly when all are visited; otherwise an unvisited index with minimal distance, strictly below every unvisited index before it |
| OrderSpec.ScanBestIsFirstMinimum | getGene.py:347-353 | the same for region sets: the earliest closest unindexed transcript, or none when all are indexed |
| OrderSpec.UnvisitedShrinks | getGene.py:340-357 | each round takes a new transcript, so the unvisited set shrinks and the loop ends |
| OrderSpec.TourEnds | getGene.py:353-354 | when the scan finds nothing, the tour stops and every transcript is on it or was indexed before |
| OrderSpec.TourMoves | getGene.py:356-357 | when the scan finds a transcript, it is new and the tour continues from it |
| OrderSpec.TourExtends | getGene.py:340-357 | the tour extends its start without repeats, adds nothing indexed beforehand, and covers every other transcript |
| OrderSpec.TourGreedy | getGene.py:347-356 | every step of the tour picks the earliest closest transcript not yet indexed |
| OrderSpec.GreedyFirstStep | getGene.py:347-356 | the step to the transcript the scan found is greedy |
| OrderSpec.GreedyOrderIsGreedyPermutation | getGene.py:336-357 | the tour starts at transcript 0, never repeats, reaches every transcript not indexed beforehand, and each step is greedy; with nothing indexed beforehand it covers all N |
| OrderSpec.FreshGreedyOrderCovers | getGene.py:336-357 | with every tranIx None, the greedy order starts at 0 and lists each transcript exactly once |
| OrderSpec.GreedyOrderLength | getGene.py:336-357 | with every tranIx None, the tour has one entry per transcript |
| OrderSpec.EqualRegionsKeepListOrder | getGene.py:347-357 | when all region sets are equal, the tour is the list order 0, 1, ..., N-1 |
| OrderSpec.EqualRegionsNext | getGene.py:347-353 | with equal region sets, each scan picks the next index, or nothing at the end |
| Ordering.Indexed | getGene.py:349 | the positions whose tranIx is set |
| Ordering.NextClosest | getGene.py:347-351 | the inner loop returns the specified scan: the earliest closest transcript without an index |
| Ordering.Stamp | getGene.py:341-345 | the label is the ID for an annotated transcript, else its name; the current transcript gets its index and no other changes |
| Ordering.StampedAt | getGene.py:345 | along a tour without repeats, the k-th transcript holds index k and all others keep theirs |
| Ordering.Labels | getGene.py:341-344 | the labels of the tour's transcripts, in tour order |
| Ordering.Visit | getGene.py:341-345 | one round's writes: the labels so far are the tour's labels and the stamps are the tour's stamps |
| Ordering.IndexedAfter | getGene.py:349 | after the stamps of a partial tour, the indexed transcripts are those on it or indexed beforehand |
| Ordering.Pick | getGene.py:347-354 | the scan of a round picks the specified next tour step |
| Ordering.Round | getGene.py:340-357 | one round stamps the current transcript, appends its label and picks the next tour step by the scan over the unchanged region sets |
| Ordering.Rounds | getGene.py:337-357 | the loop follows the greedy tour from transcript 0 and ends with its labels and stamps |
| Ordering.OrderTranscripts | getGene.py:321-359 | an empty list fails with IndexError; otherwise the k-th transcript of the greedy tour gets tranIx k and the k-th label, and every other transcript keeps its tranIx; when no tranIx was set beforehand, tranList[0] gets 0 and the tranIx values are distinct and below N, a permutation of 0..N-1 |
| Ordering.FullPathStampsPermutation | getGene.py:336-357 | a repeat-free tour through all N positions leaves each with an index below N and no index twice |
| Ordering.FreshOrderStamps | getGene.py:336-357 | the same permutation read off the transcripts' tranIx fields, with the first transcript at 0 |
| Coverage.GetExon | getGene.py:476-482 | every exon is shifted by minVal, one pair per exon |
| Coverage.GetExonRoundTrip | getGene.py:476-482 | shifting back restores the exons, and the shift keeps each exon's length |
| Coverage.Repeat | getGene.py:490 | a list of n equal flags, empty for n not positive |
| Coverage.SliceBound | getGene.py:493 | a slice bound is clamped into the list as Python clamps it |
| Coverage.PaintFacts | getGene.py:493 | painting one exon sets exactly its offsets and keeps the rest, and grows the list by one only when the exon ends at the width |
| Coverage.ToBooleanLength | getGene.py:489-494 | the flag list has max - min entries, or one more when an exon ends at max |
| Coverage.ToBooleanCoverage | getGene.py:489-494 | a flag is True exactly when its offset lies in some exon |
| Coverage.ToBooleanTrueSet | getGene.py:489-494 | the True offsets are exactly the offsets covered by some exon |
| Coverage.ZipAnd | getGene.py:507 | the pairwise and stops at the shorter list |
| Coverage.CountIsCard | getGene.py:505-506 | the sum of a flag list is the number of True offsets |
| Coverage.ZipAndTrueSet | getGene.py:507 | the True offsets of the pairwise and are those True in both lists |
| Coverage.UnionInter | getGene.py:502 | inclusion-exclusion: union plus intersection equals the two sizes together |
| Coverage.CalcDis | getGene.py:497-509 | the division fails (ZeroDivisionError) exactly when neither list has a True flag; otherwise the distance lies in [0, 1] |
| Coverage.CalcDisIsJaccard | getGene.py:497-509 | calcDis is the Jaccard distance of the True offsets |
| Coverage.CalcDisSymmetric | getGene.py:497-509 | calcDis does not depend on argument order |
| Coverage.CalcDisZero | getGene.py:439-441 | the distance is 0 exactly when both lists have the same True offsets |
| Coverage.CalcDisOne | getGene.py:439-441 | the distance is 1 exactly when the lists share no True offset |
| Grouping.NonAnnotatedIsFilter | getGene.py:404-410 | the matched transcripts are exactly the non-annotated ones of the list |
| Grouping.MinStartIsLeast | getGene.py:402-409 | minVal is the least start of the matched transcripts |
| Grouping.MaxTranEndIsGreatest | getGene.py:401-407 | maxVal is at least 0 and every end, and it is 0 or some end |
| Grouping.MatchRange | getGene.py:401-410 | the first loop gives the non-annotated transcripts, their least start (none while empty) and their greatest end |
| Grouping.Coverages | getGene.py:416-430 | each transcript's flag list is toBoolean of its shifted exons over max - min |
| Grouping.CoverageLists | getGene.py:416-430 | the loop builds the specified flag lists |
| Grouping.FillRow | getGene.py:450-451 | a row of the lower triangle holds calcDis against each earlier transcript, failing exactly when one of those divides by zero; nothing else changes |
| Grouping.LowerTriangle | getGene.py:448-451 | the zero matrix with calcDis below the diagonal; it fails exactly when two transcripts cover nothing |
| Grouping.AddTranspose | getGene.py:452 | every entry becomes the entry plus its mirror |
| Grouping.DistanceMatrix | getGene.py:443-452 | a symmetric matrix, zero on the diagonal and calcDis elsewhere; ZeroDivisionError exactly when two transcripts cover nothing |
| Grouping.Names | getGene.py:455-459 | the names of the transcripts, in list order |
| Grouping.GroupTran | getGene.py:394-466 | None when no transcript is non-annotated; otherwise the names, the distance matrix of their coverage flags (or ZeroDivisionError) and cluster_num cut down to the transcript count |
| Grouping.GroupDistanceIsJaccard | getGene.py:419-452 | for exons within [minVal, maxVal], the distance between two transcripts is the Jaccard distance of the offsets their exons cover |
| Names.Split | getGene.py:518 | a split has at least one field and no field contains the separator |
| Names.JoinSplit | getGene.py:518-519 | joining the fields of a split gives the name back |
| Names.SplitJoin | getGene.py:518-519 | splitting a join of separator-free fields gives the fields back |
| Names.JoinLength | getGene.py:519 | a join is at least as long as its first field, and at least as long as its first three fields and two separators |
| Names.ReduceNameFacts | getGene.py:513-525 | names under 30 characters are kept; longer names with at least three fields become field 0 and field 2 (and get shorter); longer names with fewer fields become their first 25 characters |
| Names.ReduceNameLength | getGene.py:513-525 | one new name per name, in order, each the reduced name |

## Left out

- Loading annotations and matches (`getAnnotations`, `getGeneFromAnnotation`, `getMatchedIsoforms`, `getGeneFromMatches`, `getClustersForGene`): glue over modules that are not part of this model. The transcript and exon lists are taken as given.
- `writeFasta` and `getName`: file output and a one-line accessor, outside the layout core.
- The KMeans clustering in `groupTran` (getGene.py:467-470): a foreign, nondeterministic call. The pandas DataFrames (`df`, `distanceTable`, `colorDF`) are replaced by plain sequences and a two-dimensional array. The logger calls are left out.
- Grouping.GroupTran: returns the names, the distance matrix and the clamped cluster count instead of the `colorDF` of KMeans labels.
- Coverage.CalcDis: the distance is an exact real number, not a float, so rounding is not modelled.
- Grouping.MatchRange: `float('inf')` as the initial minVal becomes `None`, which is replaced by the first start.
- OrderSpec.FirstMin: `Best.Best(reverse=True)` is not part of this model. Its update is taken to replace the best only on a strictly smaller value, so the earliest transcript wins a tie.
- Regions.FindRegions: returns the final region counter, which `findRegions` only logs (it returns None).
- RegionSpec.Event: the transcript and exon names in each event record are left out; they are only unpacked, never used.
- Exon: `strand`, `QScore`, `leading` and `trailing` are left out, and so are Transcript's `score`, `full`, `partial`, `chr`, `source` and codon fields. The layout core reads none of them.
- Blocks.AssignBlocks: requires every exon to start no later than it ends and the list to hold no exon twice, so it does not model an exon object stamped twice through aliasing. It also does not model the source's behaviour on a malformed interval. If the exon that opens a block has start > end, the inner guard `start <= blockEnd` (getGene.py:178) fails at once, `exonIx` never advances, and the outer loop appends blocks forever: `assignBlocks` never returns on the single exon [200, 100]. A malformed exon that does not open a block (say [150, 120] after [100, 200]) is merged normally. The requirement excludes both cases, which is stronger than the source needs for the second.
- Blocks.AssignBlocksReverse: the same requirements as Blocks.AssignBlocks, for the same reason. A block-opening exon with start > end makes the loops of getGene.py:207-224 run forever.
- Blocks.AnnotationBlocks: requires the annotated exons to be well formed, as for Blocks.AssignBlocks. When the first annotated exon has an adjStart, a block-opening exon with start > end makes the loops of getGene.py:244-257 run forever.
- Blocks.AnnotationBlocksReverse: the same requirement as Blocks.AnnotationBlocks. A block-opening exon with start > end makes the loops of getGene.py:271-284 run forever.
- Regions.FindRegions: requires the transcript list to hold no transcript twice (no aliasing between list entries).
- Ordering.OrderTranscripts: requires the transcript list to hold no transcript twice (no aliasing between list entries).
- Coverage.ToBooleanCoverage: stated only for exons that lie within [0, max - min] with start <= end. Outside that range Python's negative slice indices wrap around. The model computes those cases literally but proves nothing about them.
- Grouping.GroupDistanceIsJaccard: stated only for exons within [minVal, maxVal], for the same reason.
- Block: the `annot` flag of a block record is always False here, since no core code sets it.
