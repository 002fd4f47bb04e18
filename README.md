# Python_SSCOFS core in Dafny

This project models two parts of Python_SSCOFS. The first is the Puget Sound
shoreline pipeline: it turns Washington Department of Ecology shoreline
features into a light-weight GeoJSON coastline for a map viewer. The second
is the part of the SSCOFS (Salish Sea and Columbia River Operational Forecast
System) tooling that names, chooses, caches and exports forecast files.

The shoreline pipeline:

- downloads the features in chunks of object ids, with retries, and keeps
  one feature per object id;
- reads line strings out of feature collections;
- clips the lines to a bounding box;
- thins each line's points in projected metres;
- drops short remnants;
- snaps shared endpoints together through a grid-bucketed clusterer;
- stitches segments into longer polylines;
- splits long polylines into chunks of bounded length;
- writes one feature per segment, each carrying its bounding box.

Three scripts sit on top of these stages: a viewer builder, a plain
simplifier and a parameter-grid experiment. A comparison tool computes the
joint bounds of two collections.

The SSCOFS part covers:

- the NOAA bucket URL of a forecast or nowcast file;
- the newest run cycle for a moment, or for a bucket listing searched
  backwards over days;
- the forecast hour that lands on a wanted local hour or moment;
- the cache file name of a run, and which runs a bulk download fetches;
- the region-masked (cropped to a box around a centre point), interleaved
  export of mesh coordinates and velocities;
- the hour lists that end up in an export manifest.

Some pieces of the system are not part of this model. The coordinate
projection and `math.hypot` are function parameters, because nothing here
depends on their numerics. Float parsing and formatting, the network, the
file system, clocks and time-zone arithmetic are parameters too, so each
result is stated for every behaviour they could have. Python's implicit
behaviour is written out explicitly:

- `int()` on floats truncates toward zero;
- `round` is half-to-even;
- `str.split` and `str.replace` keep their Python semantics, and `str.strip`
  strips the ASCII whitespace characters;
- `strptime("%Y-%m-%d")` accepts exactly what it accepts in Python;
- `sorted` is modelled as a sorted permutation.

Where a docstring and the code disagree, the model follows the code. The
docstring of `process_hour_worker` says it returns `(hour, None)` on failure.
The code returns the 3-tuple `(hour, None, str(e))`, and
`GenerateCurrentData.ProcessHourWorker` models that 3-tuple.

## Model

| member | source | states |
|---|---|---|
| Geometry.Dist2 | Python_SSCOFS/coastline_tools/coastline_pipeline.py:145-147 | the squared distance used by the thinning test is never negative |
| Geometry.PathLength | Python_SSCOFS/coastline_tools/coastline_pipeline.py:74-85 | a polyline's projected length is never negative |
| Geometry.PathLengthSnoc | Python_SSCOFS/coastline_tools/coastline_pipeline.py:80-85 | appending a vertex adds exactly the length of the new edge, which is what the running `total` of the length loops accumulates |
| Geometry.PathLengthJoin | Python_SSCOFS/coastline_tools/coastline_pipeline.py:74-85 | the length of two polylines that share a junction vertex is the sum of their lengths |
| Geometry.SeqMinIsMin | Python_SSCOFS/coastline_tools/coastline_pipeline.py:92 | `min` returns an element that is no larger than any other |
| Geometry.SeqMaxIsMax | Python_SSCOFS/coastline_tools/coastline_pipeline.py:92 | `max` returns an element that is no smaller than any other |
| Geometry.LineBbox | Python_SSCOFS/coastline_tools/coastline_pipeline.py:88-92 | the (min lon, min lat, max lon, max lat) of a non-empty line; `Geometry.LineBboxTight` proves the box tight |
| Geometry.LineBboxTight | Python_SSCOFS/coastline_tools/coastline_pipeline.py:88-92 | every vertex of a line lies inside its `line_bbox`, and each of the four bounds is attained by some vertex |
| Numeric.Trunc | Python_SSCOFS/fetch_sscofs.py:291 | `int(x)` on a float is the integer nearest to x on the side of zero |
| Numeric.RoundHalfEven | Python_SSCOFS/fetch_sscofs.py:406 | `round(x)` is within one half of x, and an exact tie goes to the even neighbour |
| Numeric.RoundHalfEvenNearest | Python_SSCOFS/fetch_sscofs.py:406 | no integer is closer to x than `round(x)` |
| Sorting.Sort | Python_SSCOFS/coastline_tools/fetch_wa_ecology_coastline.py:41 | the result is in ascending order and holds exactly the input's elements with their multiplicities |
| Sorting.SortedUnique | Python_SSCOFS/coastline_tools/fetch_wa_ecology_coastline.py:41 | two ascending sequences holding the same multiset are equal, so the sorted order is unique |
| Sorting.SortDependsOnlyOnElements | Python_SSCOFS/generate_current_data.py:310-311 | sorting depends only on the multiset of hours, not on the order in which the hours completed |
| Sorting.SortOfSorted | Python_SSCOFS/generate_current_data.py:424-425 | sorting an ascending list leaves it unchanged |
| Text.Split | Python_SSCOFS/coastline_tools/build_viewer_coastline.py:32 | `str.split(sep)` gives one piece more than the number of separators, no piece contains the separator, and joining the pieces gives the text back |
| Text.SplitJoin | Python_SSCOFS/coastline_tools/build_viewer_coastline.py:32 | splitting the join of separator-free pieces gives the pieces back |
| Text.SplitNoSeparator | Python_SSCOFS/generate_current_data.py:500 | a string without the separator splits into itself alone |
| Text.SplitPrefix | Python_SSCOFS/generate_current_data.py:500-501 | a separator-free text followed by the separator splits off as the first piece, and the rest splits on its own |
| Text.StripLeft | Python_SSCOFS/coastline_tools/experiment_simplification.py:30 | the result is a suffix of the input that starts with no whitespace |
| Text.StripRight | Python_SSCOFS/coastline_tools/experiment_simplification.py:30 | the result is a prefix of the input that ends with no whitespace |
| Text.StripMeaning | Python_SSCOFS/coastline_tools/build_viewer_coastline.py:32 | `strip` removes exactly the leading and trailing whitespace: the result is a contiguous slice of the input with all whitespace outside it and with no whitespace at either of its ends |
| Text.StripEnds | Python_SSCOFS/coastline_tools/experiment_simplification.py:30 | the strip of a whitespace-only string is empty, and otherwise it starts and ends with non-whitespace |
| Text.ReplaceChar | Python_SSCOFS/coastline_tools/experiment_simplification.py:90 | `str.replace` between single characters keeps the length and changes exactly the occurrences of the old character |
| Text.ReplaceCharRemovesAll | Python_SSCOFS/coastline_tools/experiment_simplification.py:90 | after replacing a character with a different one, none of it is left (no '.' survives the '.' to 'p' step) |
| Text.RemoveChar | Python_SSCOFS/sscofs_cache.py:33-34 | `replace(c, "")` leaves no c behind, shortens the text by exactly the number of c's, and leaves a text without c unchanged |
| Text.FormatIntRoundTrip | Python_SSCOFS/fetch_sscofs.py:108-109 | zero-padded `{n:0wd}` has exactly w digits when n fits, and reading the digits back gives n |
| Text.NatDigitsValue | Python_SSCOFS/generate_current_data.py:500-501 | the decimal digits of a natural number read back as that number |
| Calendar.DaysInMonth | Python_SSCOFS/fetch_sscofs.py:95-98 | every month has 28 to 31 days |
| Calendar.IsoFormat | Python_SSCOFS/fetch_sscofs.py:427 | `date.isoformat()`: the year in four digits, the month and the day in two, joined by '-'; `Calendar.ParseIsoFormat` reads it back to the date |
| Calendar.SlashPath | Python_SSCOFS/fetch_sscofs.py:106 | `strftime("%Y/%m/%d")`: the same fields joined by '/' |
| Calendar.Compact | Python_SSCOFS/fetch_sscofs.py:107 | `strftime("%Y%m%d")`: the same fields run together, eight digits that `Calendar.ParseShortForm` and `SscofsCache.CompactInjective` tie back to the date |
| Calendar.ParseDate | Python_SSCOFS/fetch_sscofs.py:95-98 | `strptime(s, "%Y-%m-%d")` yields only dates that exist (years 1 to 9999, a day within its month) |
| Calendar.FieldsDate | Python_SSCOFS/fetch_sscofs.py:95-98 | three matched `%Y`, `%m`, `%d` fields only ever name an existing date |
| Calendar.TwoDigits | Python_SSCOFS/fetch_sscofs.py:106-108 | a number below 100 is written as its two decimal digits, which read back as the number |
| Calendar.IsoFormatSplit | Python_SSCOFS/fetch_sscofs.py:95-98 | an `isoformat` date splits at its hyphens into exactly the year, month and day fields |
| Calendar.ParseIsoFormat | Python_SSCOFS/fetch_sscofs.py:95-98 | `strptime` reads back every date that `isoformat` writes |
| Calendar.ParseShortForm | Python_SSCOFS/fetch_sscofs.py:95-98 | unpadded fields are accepted: "2025-7-4" is 4 July 2025 |
| Calendar.ParseNoSuchDay | Python_SSCOFS/fetch_sscofs.py:95-98 | a date that does not exist, such as 30 February, is refused |
| Calendar.PrevDay | Python_SSCOFS/latest_cycle.py:42 | stepping back one day fails exactly on 1 January of year 1 |
| Calendar.DaysBack | Python_SSCOFS/latest_cycle.py:42 | `today - timedelta(days=i)` taken one day at a time, none where it would pass 1 January of year 1; `Calendar.DaysBackForward` proves it undone by stepping forward |
| Calendar.DaysBackForward | Python_SSCOFS/latest_cycle.py:42 | going `n` days back and then `n` days forward returns to the start date |
| Calendar.PrevNext | Python_SSCOFS/latest_cycle.py:42 | stepping back a day and forward again returns to the same date |
| CoastlinePipeline.AtLeastTwo | Python_SSCOFS/coastline_tools/coastline_pipeline.py:55-61 | the `len(...) >= 2` filter keeps exactly the lines of the input that have at least two points |
| CoastlinePipeline.IterLines | Python_SSCOFS/coastline_tools/coastline_pipeline.py:49-61 | every line read from a collection has at least two points |
| CoastlinePipeline.IterLinesAppend | Python_SSCOFS/coastline_tools/coastline_pipeline.py:49-61 | the generator reads features one after another: the lines of a concatenation are the concatenation of the lines |
| CoastlinePipeline.IterLinesMembers | Python_SSCOFS/coastline_tools/coastline_pipeline.py:49-61 | a line is read iff it has at least two points and is some feature's LineString or a part of some feature's MultiLineString |
| CoastlinePipeline.Intersects | Python_SSCOFS/coastline_tools/coastline_pipeline.py:103-106 | the keep test of `clip_lines_to_bbox`: the line has a point and its bbox is not wholly beyond a side of the box, which `CoastlinePipeline.IntersectsMeaning` restates point by point |
| CoastlinePipeline.IntersectsMeaning | Python_SSCOFS/coastline_tools/coastline_pipeline.py:103-106 | a non-empty line passes the rejection test iff it is not wholly west, east, south or north of the box |
| CoastlinePipeline.Clipped | Python_SSCOFS/coastline_tools/coastline_pipeline.py:95-108 | clipping never adds lines |
| CoastlinePipeline.ClippedMeaning | Python_SSCOFS/coastline_tools/coastline_pipeline.py:95-108 | a line is kept iff it is an input line whose bounding box meets the box, and the kept lines keep their input order |
| CoastlinePipeline.ClipLinesToBbox | Python_SSCOFS/coastline_tools/coastline_pipeline.py:95-108 | the clipping loop computes exactly the clipped sequence |
| CoastlinePipeline.LineLengthMeters | Python_SSCOFS/coastline_tools/coastline_pipeline.py:74-85 | the loop's total is the projected polyline length, which is 0 for fewer than two points |
| CoastlinePipeline.LineLengthDegrees | Python_SSCOFS/coastline_tools/coastline_pipeline.py:64-71 | the loop's total is the polyline length in the plane of degrees |
| CoastlinePipeline.Keep | Python_SSCOFS/coastline_tools/coastline_pipeline.py:144-150 | thinning the interior points never adds points |
| CoastlinePipeline.KeepSubseq | Python_SSCOFS/coastline_tools/coastline_pipeline.py:144-150 | the kept interior points are a subsequence of the interior points |
| CoastlinePipeline.KeepSpacing | Python_SSCOFS/coastline_tools/coastline_pipeline.py:144-150 | each kept point is at least the tolerance (squared) away from the previously kept one |
| CoastlinePipeline.KeepUnfold | Python_SSCOFS/coastline_tools/coastline_pipeline.py:144-150 | a skipped point is closer than the tolerance to the last kept point |
| CoastlinePipeline.SimplifiedShape | Python_SSCOFS/coastline_tools/coastline_pipeline.py:131-152 | a line of at most two points is returned unchanged; a longer one becomes a subsequence of itself with the same first and last point |
| CoastlinePipeline.ThinningExample | Python_SSCOFS/coastline_tools/coastline_pipeline.py:111-128 | thinning the points x = 0..4 with tolerance 2 keeps x = 0, 2 and 4 |
| CoastlinePipeline.SimplifyLineMeters | Python_SSCOFS/coastline_tools/coastline_pipeline.py:131-152 | the thinning loop in projected metres computes the specified thinned line |
| CoastlinePipeline.SimplifyLine | Python_SSCOFS/coastline_tools/coastline_pipeline.py:111-128 | the degree-space thinning loop computes the same thinning in the plane of degrees |
| CoastlinePipeline.SimplifiedLines | Python_SSCOFS/coastline_tools/coastline_pipeline.py:170-182 | simplification never adds lines, and every line it returns has at least two points and at least the minimum length |
| CoastlinePipeline.SimplifiedLinesFrom | Python_SSCOFS/coastline_tools/coastline_pipeline.py:170-182 | every output line is the thinning of some input line |
| CoastlinePipeline.SimplifyLinesMeters | Python_SSCOFS/coastline_tools/coastline_pipeline.py:170-182 | the loop computes exactly the simplified sequence |
| CoastlinePipeline.SimplifyLines | Python_SSCOFS/coastline_tools/coastline_pipeline.py:155-167 | the degree-space loop computes the simplified sequence in the plane of degrees |
| CoastlinePipeline.LongLines | Python_SSCOFS/coastline_tools/coastline_pipeline.py:191-197 | the length filter never adds lines |
| CoastlinePipeline.LongLinesMembers | Python_SSCOFS/coastline_tools/coastline_pipeline.py:191-197 | a line survives iff it is an input line with at least two points and at least the minimum length |
| CoastlinePipeline.LongLinesSubseq | Python_SSCOFS/coastline_tools/coastline_pipeline.py:191-197 | the survivors keep their input order |
| CoastlinePipeline.FilterLinesMinLengthMeters | Python_SSCOFS/coastline_tools/coastline_pipeline.py:185-197 | a minimum of zero or less returns the input unchanged, short lines included; otherwise the result is the length-filtered sequence |
| CoastlinePipeline.FilterOutputLong | Python_SSCOFS/coastline_tools/coastline_pipeline.py:188-197 | with a positive minimum, every survivor has at least two points and at least that length |
| CoastlinePipeline.CutAt | Python_SSCOFS/coastline_tools/coastline_pipeline.py:240-248 | the end of a chunk lies between its first possible cut and the end of the line |
| CoastlinePipeline.CutAtMeaning | Python_SSCOFS/coastline_tools/coastline_pipeline.py:240-248 | a chunk grows while its accumulated length stays within the maximum, and it stops at the vertex that would exceed it or at the end of the line |
| CoastlinePipeline.CutAtIs | Python_SSCOFS/coastline_tools/coastline_pipeline.py:240-248 | the cut point is the only index with that growth-and-stop property |
| CoastlinePipeline.SplitLineMaxLengthMeters | Python_SSCOFS/coastline_tools/coastline_pipeline.py:226-251 | the splitting loop, with its `cur` and `accum`, computes exactly the specified chunks |
| CoastlinePipeline.SplitLineMaxLength | Python_SSCOFS/coastline_tools/coastline_pipeline.py:200-223 | the degree-space loop computes the same chunks in the plane of degrees |
| CoastlinePipeline.ChunksShape | Python_SSCOFS/coastline_tools/coastline_pipeline.py:226-251 | a line of fewer than two points gives no chunks; otherwise every chunk has at least two points, the first starts at the line's first point, and consecutive chunks share a vertex |
| CoastlinePipeline.ChunksBounded | Python_SSCOFS/coastline_tools/coastline_pipeline.py:242-248 | every chunk of at least three points is no longer than the maximum (a single edge may be longer) |
| CoastlinePipeline.FirstChunk | Python_SSCOFS/coastline_tools/coastline_pipeline.py:238-248 | the first chunk is the longest prefix allowed by the cut rule |
| CoastlinePipeline.ChunksMaximal | Python_SSCOFS/coastline_tools/coastline_pipeline.py:242-245 | no chunk but the last could take one more vertex without exceeding the maximum |
| CoastlinePipeline.ChunksGlue | Python_SSCOFS/coastline_tools/coastline_pipeline.py:226-251 | gluing the chunks at their shared vertices gives back the original line |
| CoastlinePipeline.GlueFirst | Python_SSCOFS/coastline_tools/coastline_pipeline.py:226-251 | chunks that start at the line's first point and whose tails glue to the rest of the line glue to the whole line |
| CoastlinePipeline.SplitLinesMaxLengthMeters | Python_SSCOFS/coastline_tools/coastline_pipeline.py:262-269 | the `extend` loop concatenates the chunks of every line, in order |
| CoastlinePipeline.SplitLinesMaxLength | Python_SSCOFS/coastline_tools/coastline_pipeline.py:254-259 | the degree-space loop concatenates the chunks of every line, in order |
| CoastlinePipeline.SplitAllParts | Python_SSCOFS/coastline_tools/coastline_pipeline.py:262-269 | every output part has at least two points and is a chunk of some input line |
| CoastlinePipeline.LinesToFeatureCollection | Python_SSCOFS/coastline_tools/coastline_pipeline.py:272-284 | one MultiLineString feature in the collection "shoreline_puget" whose properties carry only the source; `CoastlinePipeline.FeatureCollectionRoundTrip` reads the lines back |
| CoastlinePipeline.BboxFeatures | Python_SSCOFS/coastline_tools/coastline_pipeline.py:292-307 | one LineString feature per input line of two or more points, tagged with its index and bbox; `CoastlinePipeline.BboxFeaturesIds` and `CoastlinePipeline.BboxFeaturesRoundTrip` state what it holds |
| CoastlinePipeline.FeatureCollectionRoundTrip | Python_SSCOFS/coastline_tools/coastline_pipeline.py:272-284 | reading the single-MultiLineString collection back yields the written lines that have at least two points |
| CoastlinePipeline.BboxFeaturesIds | Python_SSCOFS/coastline_tools/coastline_pipeline.py:292-307 | each feature's `segment_id` is the index of an input line of at least two points, the feature is built from that line, and the ids strictly increase |
| CoastlinePipeline.BboxFeaturesCover | Python_SSCOFS/coastline_tools/coastline_pipeline.py:292-307 | every input line of at least two points gets a feature |
| CoastlinePipeline.BboxFeatureBox | Python_SSCOFS/coastline_tools/coastline_pipeline.py:296-305 | a feature is a LineString of its line whose bbox property holds the line's tight bounds |
| CoastlinePipeline.BboxFeaturesRoundTrip | Python_SSCOFS/coastline_tools/coastline_pipeline.py:287-312 | reading the per-segment collection back yields the input lines that have at least two points |
| CoastlinePipeline.AtLeastTwoAppend | Python_SSCOFS/coastline_tools/coastline_pipeline.py:55-61 | the two-point filter distributes over concatenation |
| CoastlinePipeline.LinesToFeatureCollectionWithBboxes | Python_SSCOFS/coastline_tools/coastline_pipeline.py:287-312 | the `enumerate` loop builds exactly the collection "shoreline_puget" of per-segment features |
| StitchCoastline.Offset | Python_SSCOFS/coastline_tools/stitch_coastline.py:50-51 | the k-th offset is (k / 3 - 1, k % 3 - 1), so `ox` runs in the outer loop and `oy` in the inner, each over -1, 0, 1, and no offset moves more than one cell |
| StitchCoastline.BestFold | Python_SSCOFS/coastline_tools/stitch_coastline.py:47-59 | the best candidate is -1 (none yet) or a valid cluster id |
| StitchCoastline.BestFoldNone | Python_SSCOFS/coastline_tools/stitch_coastline.py:52-61 | no cluster is chosen iff every scanned cluster is farther than the tolerance |
| StitchCoastline.BestFoldFound | Python_SSCOFS/coastline_tools/stitch_coastline.py:50-59 | a chosen cluster is within the tolerance and no scanned cluster is strictly nearer; on a tie the first scanned wins |
| StitchCoastline.MergeMean | Python_SSCOFS/coastline_tools/stitch_coastline.py:68-73 | the incremental centroid update keeps each centre the exact mean of its members |
| StitchCoastline.RemoveFirst | Python_SSCOFS/coastline_tools/stitch_coastline.py:78-79 | `list.remove` takes away exactly one occurrence of the cluster id |
| StitchCoastline.ValidAfterNew | Python_SSCOFS/coastline_tools/stitch_coastline.py:61-66 | opening a new cluster keeps the clusterer's invariant: every centre is the mean of its members, and each bucket lists exactly the clusters whose centre falls in it |
| StitchCoastline.ValidAfterStay | Python_SSCOFS/coastline_tools/stitch_coastline.py:74-76 | a merge that leaves the centre in its bucket keeps the invariant |
| StitchCoastline.ValidAfterMove | Python_SSCOFS/coastline_tools/stitch_coastline.py:74-81 | a merge that moves the centre to another bucket keeps the invariant |
| StitchCoastline.AssignStepValid | Python_SSCOFS/coastline_tools/stitch_coastline.py:43-82 | one `assign` keeps the invariant, returns a valid id, and adds at most one cluster |
| StitchCoastline.AssignStepNew | Python_SSCOFS/coastline_tools/stitch_coastline.py:61-66 | `assign` opens a new cluster, with the next id, iff no cluster in the neighbourhood is within the tolerance |
| StitchCoastline.AssignStepNearest | Python_SSCOFS/coastline_tools/stitch_coastline.py:50-59 | a merge joins the nearest cluster within the tolerance |
| StitchCoastline.AssignStepCenters | Python_SSCOFS/coastline_tools/stitch_coastline.py:61-73 | `assign` changes only the centre of the matched (or new) cluster |
| StitchCoastline.AssignStepMean | Python_SSCOFS/coastline_tools/stitch_coastline.py:68-73 | after a merge the matched cluster's centre is the mean of all points assigned to it |
| StitchCoastline.RegroupMean | Python_SSCOFS/coastline_tools/stitch_coastline.py:68-73 | the weighted update `(c*n + p)/(n+1)` is the mean after adding p |
| StitchCoastline.EndpointClusterer.constructor | Python_SSCOFS/coastline_tools/stitch_coastline.py:32-38 | a new clusterer has no clusters and empty buckets, its cell size is the tolerance, and it satisfies the invariant |
| StitchCoastline.EndpointClusterer.BucketId | Python_SSCOFS/coastline_tools/stitch_coastline.py:40-41 | the bucket of a point is each coordinate divided by the cell size, rounded half to even as Python's `round` does |
| StitchCoastline.EndpointClusterer.ScanCell | Python_SSCOFS/coastline_tools/stitch_coastline.py:52-59 | scanning one bucket folds its clusters into the best-candidate search |
| StitchCoastline.EndpointClusterer.Nearest | Python_SSCOFS/coastline_tools/stitch_coastline.py:47-59 | the nine-bucket scan computes the specified best candidate |
| StitchCoastline.EndpointClusterer.Assign | Python_SSCOFS/coastline_tools/stitch_coastline.py:43-82 | the new state and the returned id are exactly one specified `assign` step, and the invariant holds afterwards |
| StitchCoastline.EndpointClusterer.AssignPoint | Python_SSCOFS/coastline_tools/stitch_coastline.py:45-82 | assigning a projected point is exactly one specified `assign` step |
| StitchCoastline.EndpointClusterer.OpenCluster | Python_SSCOFS/coastline_tools/stitch_coastline.py:61-66 | opening a cluster returns the next id, and the new state is the point appended as a centre with count 1 and filed in its bucket |
| StitchCoastline.EndpointClusterer.Center | Python_SSCOFS/coastline_tools/stitch_coastline.py:84-87 | a cluster's centre mapped back to longitude/latitude by the inverse projection; `Stitching.MakeSegment` places it at the snapped ends |
| StitchCoastline.EndpointClusterer.MergeInto | Python_SSCOFS/coastline_tools/stitch_coastline.py:68-81 | the new state is the merge step: the matched cluster's count and centre are updated, and it moves between buckets when its bucket changes |
| Stitching.Reverse | Python_SSCOFS/coastline_tools/stitch_coastline.py:153 | `list(reversed(...))` keeps the length and mirrors the indices |
| Stitching.ChainLength | Python_SSCOFS/coastline_tools/stitch_coastline.py:150-174 | a chain has the seed's points plus, for each appended or prepended segment, its points minus the shared one |
| Stitching.CountFalseSet | Python_SSCOFS/coastline_tools/stitch_coastline.py:115-118 | marking an unused segment as used lowers the number of unused segments by one |
| Stitching.BuildingAppend | Python_SSCOFS/coastline_tools/stitch_coastline.py:149-156 | appending a segment whose oriented start is the chain's end keeps the chain connected and lists the segment once |
| Stitching.BuildingPrepend | Python_SSCOFS/coastline_tools/stitch_coastline.py:167-176 | prepending a segment whose oriented end is the chain's start keeps the chain connected and lists the segment once |
| Stitching.DoneFinal | Python_SSCOFS/coastline_tools/stitch_coastline.py:130-180 | when no segment is unused, the chains satisfy the stitching specification |
| Stitching.AddLowest | Python_SSCOFS/coastline_tools/stitch_coastline.py:130-133 | every segment below a new seed is already used, so an earlier chain holds it: the new chain starts at the lowest unused segment |
| Stitching.ForwardStep | Python_SSCOFS/coastline_tools/stitch_coastline.py:140-156 | a forward step whose piece is reversed only when no unused segment starts at the chain's end keeps the forward rule |
| Stitching.ForwardEnd | Python_SSCOFS/coastline_tools/stitch_coastline.py:141-144 | the forward loop stops only when no segment outside the seed and the appended pieces touches the end cluster |
| Stitching.BackwardStep | Python_SSCOFS/coastline_tools/stitch_coastline.py:158-176 | a backward step whose piece is prepended as stored only when no unused segment starts at the chain's start keeps the backward rule |
| Stitching.AddGreedy | Python_SSCOFS/coastline_tools/stitch_coastline.py:130-180 | a new chain that follows the join rule against the flags before it keeps every chain following it against the earlier chains' members |
| Stitching.UsedMarked | Python_SSCOFS/coastline_tools/stitch_coastline.py:130-133 | the flags before a seed mark exactly the members of the chains built so far |
| Stitching.JoinRuleExample | Python_SSCOFS/coastline_tools/stitch_coastline.py:120-178 | with A→B and B→A the chain appends B→A as stored and may not prepend it; with A→B, B→C, C→B it takes B→C then C→B as stored, not C→B reversed first |
| Stitching.BuildIndex | Python_SSCOFS/coastline_tools/stitch_coastline.py:109-113 | the endpoint dictionaries list, for every cluster, exactly the segments that start or end there |
| Stitching.SnapPair | Python_SSCOFS/coastline_tools/stitch_coastline.py:100-101 | the line's start and then its end are assigned: the new clusterer and both ids are exactly `AssignPair` on the old state, with the invariant kept |
| Stitching.MakeSegment | Python_SSCOFS/coastline_tools/stitch_coastline.py:100-107 | the segment's ids and the new clusterer are `AssignPair` on the line's endpoints; the segment keeps the interior points and its ends are the centres of those two clusters after both `assign` calls |
| Stitching.AssignPair | Python_SSCOFS/coastline_tools/stitch_coastline.py:100-101 | two `assign` steps, start then end, keep the bucket scan sound, never drop clusters, and return ids of existing clusters |
| Stitching.AssignPairValid | Python_SSCOFS/coastline_tools/stitch_coastline.py:100-101 | the two `assign` steps keep the clusterer's grid invariant |
| StitchCoastline.AssignStepScannable | Python_SSCOFS/coastline_tools/stitch_coastline.py:43-82 | one `assign` keeps every centre filed in its bucket and returns an existing id |
| Stitching.SnapAllValid | Python_SSCOFS/coastline_tools/stitch_coastline.py:97-107 | the segment loop keeps the clusterer's grid invariant |
| Stitching.SnapAllGrows | Python_SSCOFS/coastline_tools/stitch_coastline.py:97-107 | the clusters never shrink from one line to the next |
| Stitching.SnapAllScannable | Python_SSCOFS/coastline_tools/stitch_coastline.py:97-107 | the segment loop keeps every centre filed in its bucket |
| Stitching.SnapAllEnds | Python_SSCOFS/coastline_tools/stitch_coastline.py:100-107 | segment k has the ids that `assign` gives line k's first and last points in the state left by the lines before it, and its ends are those clusters' centres |
| Stitching.SnapAllSegsFor | Python_SSCOFS/coastline_tools/stitch_coastline.py:97-107 | every segment keeps its line's length and interior points and names clusters that exist at the end |
| Stitching.SnappedSegs | Python_SSCOFS/coastline_tools/stitch_coastline.py:95-107 | the segments built from a fresh clusterer correspond to their lines and are fit to be stitched |
| Stitching.AtLeastTwoSome | Python_SSCOFS/coastline_tools/stitch_coastline.py:98-99 | the skip test keeps some line iff some line has two or more points |
| Stitching.BuildSegments | Python_SSCOFS/coastline_tools/stitch_coastline.py:97-107 | ZeroDivisionError iff the cell size is 0 and some line has two or more points; otherwise the new clusterer and the segments are the `SnapAll` fold over the lines of two or more points, in order |
| Stitching.SnapEach | Python_SSCOFS/coastline_tools/stitch_coastline.py:97-107 | with a non-zero cell the loop leaves the clusterer and the segment list exactly as the `SnapAll` fold says |
| Stitching.SnapLine | Python_SSCOFS/coastline_tools/stitch_coastline.py:98-107 | one pass skips a line of fewer than two points and otherwise extends the fold by that line's snapped segment |
| Stitching.SnapLines | Python_SSCOFS/coastline_tools/stitch_coastline.py:95-107 | from a fresh clusterer: ZeroDivisionError iff the tolerance is 0 and some line has two or more points; otherwise the segments are the fold's and correspond to their lines |
| Stitching.StitchLines | Python_SSCOFS/coastline_tools/stitch_coastline.py:90-180 | a ZeroDivisionError iff the snap tolerance is 0 and some line has at least two points; no lines give no chains; otherwise the segments are the `SnapAll` fold from a fresh clusterer (ids from `assign`, ends snapped to centres), every segment is used in exactly one chain, each chain starts at the lowest-index segment still unused and follows the join rule (`AllGreedy`: forward phase to exhaustion first, a segment starting at the chain's end or start preferred), each chain is connected, no chain's ends touch a later chain, the seeds increase, and there are no more chains than segments |
| Stitching.SegmentIndex.constructor | Python_SSCOFS/coastline_tools/stitch_coastline.py:109-113 | the index starts with every segment unused and the endpoint dictionaries filled |
| Stitching.SegmentIndex.RemoveIdx | Python_SSCOFS/coastline_tools/stitch_coastline.py:115-118 | removing a segment marks it used and drops it from both dictionaries, changing nothing else |
| Stitching.SegmentIndex.PickNext | Python_SSCOFS/coastline_tools/stitch_coastline.py:120-128 | returns an unused segment that starts at (preferred) or ends at the cluster, oriented to match it; returns none iff no unused segment touches the cluster |
| Stitching.SegmentIndex.ExtendForward | Python_SSCOFS/coastline_tools/stitch_coastline.py:140-156 | appends matching segments, keeping the chain connected, until the chain's end touches no unused segment; each piece is reversed only when no unused segment starts at the chain's end (`GreedyRight`), and it stops exhausted (`ForwardDone`) |
| Stitching.SegmentIndex.ExtendBackward | Python_SSCOFS/coastline_tools/stitch_coastline.py:158-176 | prepends matching segments, keeping the chain connected, until the chain's start touches no unused segment; a piece is prepended as stored only when no unused segment starts at the chain's start (`GreedyLeft`) |
| Stitching.SegmentIndex.Prepend | Python_SSCOFS/coastline_tools/stitch_coastline.py:166-176 | one prepend marks exactly that segment used and adds it without its duplicate endpoint |
| Stitching.SegmentIndex.ChainFrom | Python_SSCOFS/coastline_tools/stitch_coastline.py:131-178 | one chain from a seed is connected, uses each of its segments once, touches no unused segment at either end, and follows the join rule against the segments unused before it (`Greedy`) |
| Stitching.SegmentIndex.ChainAll | Python_SSCOFS/coastline_tools/stitch_coastline.py:130-180 | the seed loop uses every segment exactly once; chains do not overlap, the seeds increase, each chain is seeded by the lowest-index segment still unused, and each follows the join rule against the segments the earlier chains left (`AllGreedy`) |
| BuildViewer.ParseAll | Python_SSCOFS/coastline_tools/build_viewer_coastline.py:32 | the list parses iff every item parses, and each value is its own item's parse |
| BuildViewer.ParseBbox | Python_SSCOFS/coastline_tools/build_viewer_coastline.py:31-35 | a box parses iff there are exactly four comma-separated items that all parse; failure is ValueError; the values keep their order |
| BuildViewer.ParseBboxCommas | Python_SSCOFS/coastline_tools/build_viewer_coastline.py:33-34 | text without exactly three commas is a ValueError |
| BuildViewer.ParseBboxJoin | Python_SSCOFS/coastline_tools/build_viewer_coastline.py:31-35 | four comma-free numbers joined by commas parse back to those numbers |
| BuildViewer.BuildViewerCoastline | Python_SSCOFS/coastline_tools/build_viewer_coastline.py:94-124 | a bad box is a ValueError, raised before the input is read; otherwise the stages run in order (clip, simplify with minimum 0, stitch, split, optional length filter, per-segment features), and a stitching error is passed on; the stitched segments are the `SnapAll` fold of the simplified lines from a fresh clusterer, and the chains satisfy `Stitched`, the join rule included |
| BuildViewer.ZeroMinLengthKeepsAll | Python_SSCOFS/coastline_tools/build_viewer_coastline.py:103-108 | with minimum length 0, simplification drops no line of two or more points |
| BuildViewer.PreparedCount | Python_SSCOFS/coastline_tools/build_viewer_coastline.py:100-108 | the simplified line count equals the clipped line count |
| BuildViewer.EmittedLong | Python_SSCOFS/coastline_tools/build_viewer_coastline.py:116-124 | every emitted feature is a LineString of at least two points; it is at least the minimum length when one is set, and within the chunk length when it has three or more points |
| SimplifyCoastline.SimplifyCoastline | Python_SSCOFS/coastline_tools/simplify_coastline.py:73-91 | errs (ValueError) iff the box does not parse; otherwise the output is the single-MultiLineString collection of the clipped, simplified lines |
| SimplifyCoastline.KeptFrom | Python_SSCOFS/coastline_tools/simplify_coastline.py:78-87 | every output line has at least two points and at least the minimum length, and is the thinning of an input line that meets the box |
| SimplifyCoastline.AtLeastTwoKeepsAll | Python_SSCOFS/coastline_tools/simplify_coastline.py:82-91 | the two-point filter keeps a list whose lines all have two points |
| SimplifyCoastline.SimplifyCoastlineRoundTrip | Python_SSCOFS/coastline_tools/simplify_coastline.py:82-91 | reading the written collection back yields exactly the simplified lines |
| ExperimentSimplification.BlankStrip | Python_SSCOFS/coastline_tools/experiment_simplification.py:30 | an item is blank iff it strips to the empty string |
| ExperimentSimplification.NonBlank | Python_SSCOFS/coastline_tools/experiment_simplification.py:30 | `if x.strip()` keeps exactly the items that are not blank |
| ExperimentSimplification.NonBlankSubseq | Python_SSCOFS/coastline_tools/experiment_simplification.py:30 | the kept items keep their order |
| ExperimentSimplification.ParseFloats | Python_SSCOFS/coastline_tools/experiment_simplification.py:29-30 | parsing succeeds iff every non-blank item parses; failure is ValueError; the values are the items' parses, in order |
| ExperimentSimplification.ItemsJoin | Python_SSCOFS/coastline_tools/experiment_simplification.py:29-30 | the items of comma-joined comma-free text are its non-blank pieces |
| ExperimentSimplification.ParseFloatsIgnoresBlank | Python_SSCOFS/coastline_tools/experiment_simplification.py:30 | an extra blank item does not change the parsed list |
| ExperimentSimplification.VariantName | Python_SSCOFS/coastline_tools/experiment_simplification.py:90 | a variant name holds no '.', and its length follows from the two formatted numbers |
| ExperimentSimplification.VariantNameParts | Python_SSCOFS/coastline_tools/experiment_simplification.py:90 | the name is the fixed prefix, the two numbers with '.' replaced by 'p', and ".geojson" |
| ExperimentSimplification.VariantNameInjective | Python_SSCOFS/coastline_tools/experiment_simplification.py:90 | when neither tolerance text holds '_', equal names have equal tolerance texts and equal minimum-length texts (each with '.' as 'p') |
| ExperimentSimplification.RowIndex | Python_SSCOFS/coastline_tools/experiment_simplification.py:82-83 | the inner loop makes one variant per minimum length, in order |
| ExperimentSimplification.GridSize | Python_SSCOFS/coastline_tools/experiment_simplification.py:81-96 | the nested loops make one variant per pair of tolerance and minimum length |
| ExperimentSimplification.GridIndex | Python_SSCOFS/coastline_tools/experiment_simplification.py:81-96 | variant a·\|mins\| + b uses tolerance a and minimum length b |
| ExperimentSimplification.ExperimentSimplification | Python_SSCOFS/coastline_tools/experiment_simplification.py:70-96 | a bad box, tolerance list or minimum list is a ValueError; otherwise the input is clipped once and the variants form the specified grid |
| ExperimentSimplification.VariantGrid | Python_SSCOFS/coastline_tools/experiment_simplification.py:81-101 | the nested loops compute exactly the specified grid |
| ExperimentSimplification.VariantRow | Python_SSCOFS/coastline_tools/experiment_simplification.py:82-101 | the inner loop computes exactly one row of the grid |
| ExperimentSimplification.BuildVariant | Python_SSCOFS/coastline_tools/experiment_simplification.py:83-96 | one variant has the specified file name and the simplified, labelled collection of the clipped lines |
| PlotCoastlineCompare.CollectSegments | Python_SSCOFS/coastline_tools/plot_coastline_compare.py:23-37 | on two-number positions, the collection loop reads the same lines as the pipeline's reader |
| PlotCoastlineCompare.CollectParts | Python_SSCOFS/coastline_tools/plot_coastline_compare.py:33-36 | the MultiLineString loop appends exactly the parts of at least two points |
| PlotCoastlineCompare.VisitAllMeaning | Python_SSCOFS/coastline_tools/plot_coastline_compare.py:40-60 | the running minima and maxima bound every visited point and are attained |
| PlotCoastlineCompare.VisitStep | Python_SSCOFS/coastline_tools/plot_coastline_compare.py:48-57 | visiting one more point keeps the running extremes exact |
| PlotCoastlineCompare.ScanLine | Python_SSCOFS/coastline_tools/plot_coastline_compare.py:48-57 | the point loop of one line is the specified scan |
| PlotCoastlineCompare.ScanLines | Python_SSCOFS/coastline_tools/plot_coastline_compare.py:47-57 | the line loop scans every point of every line, in order |
| PlotCoastlineCompare.BoundsFromSegments | Python_SSCOFS/coastline_tools/plot_coastline_compare.py:40-60 | a RuntimeError iff there are no points; otherwise (min_x, max_x, min_y, max_y) are the tight bounds of all points |
| PlotCoastlineCompare.BoundsUnique | Python_SSCOFS/coastline_tools/plot_coastline_compare.py:40-60 | tight bounds are unique |
| PlotCoastlineCompare.AllPointsMembers | Python_SSCOFS/coastline_tools/plot_coastline_compare.py:47-57 | a point is scanned iff it lies on some line of some list |
| PlotCoastlineCompare.FlattenNonEmpty | Python_SSCOFS/coastline_tools/plot_coastline_compare.py:58-59 | a non-empty list of two-point lines has points |
| PlotCoastlineCompare.CompareBounds | Python_SSCOFS/coastline_tools/plot_coastline_compare.py:79-86 | both collections are read as the pipeline reads them; a RuntimeError iff either has no lines; otherwise the bounds of the two together |
| FetchWaEcology.GetObjectIds | Python_SSCOFS/coastline_tools/fetch_wa_ecology_coastline.py:30-41 | a `null` id list is a TypeError; otherwise the id list is an ascending permutation of the ids returned, or empty when the key is missing |
| FetchWaEcology.ChunksConcat | Python_SSCOFS/coastline_tools/fetch_wa_ecology_coastline.py:88-89 | the chunks concatenate back to the id list |
| FetchWaEcology.ChunksSizes | Python_SSCOFS/coastline_tools/fetch_wa_ecology_coastline.py:88-89 | every chunk is non-empty and at most the chunk size, and only the last may be shorter |
| FetchWaEcology.ChunksCount | Python_SSCOFS/coastline_tools/fetch_wa_ecology_coastline.py:86-88 | the number of chunks is the ceiling `total_chunks` |
| FetchWaEcology.TryFrom | Python_SSCOFS/coastline_tools/fetch_wa_ecology_coastline.py:91-104 | a chunk fails (RuntimeError) iff every remaining attempt fails; otherwise the features are those of the first attempt that succeeds |
| FetchWaEcology.FetchChunk | Python_SSCOFS/coastline_tools/fetch_wa_ecology_coastline.py:91-104 | at most four attempts, the waits 1.5·k seconds between them, stopping at the first success; failure only after the fourth |
| FetchWaEcology.Gathered | Python_SSCOFS/coastline_tools/fetch_wa_ecology_coastline.py:85-104 | gathering fails iff some chunk fails |
| FetchWaEcology.GatheredError | Python_SSCOFS/coastline_tools/fetch_wa_ecology_coastline.py:98-104 | a gathering failure is a RuntimeError |
| FetchWaEcology.Distinct | Python_SSCOFS/coastline_tools/fetch_wa_ecology_coastline.py:106-113 | the first-seen key list holds exactly the ids that occur |
| FetchWaEcology.DistinctOrdered | Python_SSCOFS/coastline_tools/fetch_wa_ecology_coastline.py:106-113 | the keys are distinct and in order of first occurrence |
| FetchWaEcology.LastWithMeaning | Python_SSCOFS/coastline_tools/fetch_wa_ecology_coastline.py:107-113 | the feature kept for an id is its last occurrence |
| FetchWaEcology.Dedup | Python_SSCOFS/coastline_tools/fetch_wa_ecology_coastline.py:106-113 | one feature per distinct id |
| FetchWaEcology.DedupMeaning | Python_SSCOFS/coastline_tools/fetch_wa_ecology_coastline.py:106-119 | output k carries the k-th distinct id and is the last feature with that id; features without an id are dropped |
| FetchWaEcology.DedupOrder | Python_SSCOFS/coastline_tools/fetch_wa_ecology_coastline.py:106-113 | ids appear in order of their first occurrence, as a dict keeps its insertion order |
| FetchWaEcology.DedupSkip | Python_SSCOFS/coastline_tools/fetch_wa_ecology_coastline.py:111-112 | a feature without an id leaves the dictionary unchanged |
| FetchWaEcology.DedupStore | Python_SSCOFS/coastline_tools/fetch_wa_ecology_coastline.py:113 | storing a feature adds its id once at first sight and otherwise overwrites the value |
| FetchWaEcology.DedupByObjectId | Python_SSCOFS/coastline_tools/fetch_wa_ecology_coastline.py:106-118 | the dictionary loop computes exactly the specified deduplication |
| FetchWaEcology.GatherChunks | Python_SSCOFS/coastline_tools/fetch_wa_ecology_coastline.py:85-104 | the chunk loop computes exactly the specified gathering |
| FetchWaEcology.FetchWaEcologyMain | Python_SSCOFS/coastline_tools/fetch_wa_ecology_coastline.py:78-127 | a `null` id list raises TypeError with no file; no ids means exit code 1 and no file; a chunk size of 0 is a ZeroDivisionError; a negative size writes an empty collection; otherwise the file holds the deduplicated features of all chunks |
| FetchSscofs.FileName | Python_SSCOFS/fetch_sscofs.py:106-111 | `sscofs.t{CC}z.{YYYYMMDD}.{product}.{n\|f}{HHH}.nc` from the date, cycle, product, kind and hour; `LatestCycle.KeyMatchFileName` reads the fields back |
| FetchSscofs.BuildSscofsUrl | Python_SSCOFS/fetch_sscofs.py:54-117 | a ValueError iff the date is not `%Y-%m-%d` or the cycle is not a run hour; otherwise a URL under the bucket prefix ending in ".nc" |
| FetchSscofs.BuildSscofsUrlForDay | Python_SSCOFS/fetch_sscofs.py:105-117 | for an ISO date and a run cycle the URL is the prefix, the `%Y/%m/%d` directory and the file name |
| FetchSscofs.BuildSscofsUrlExamples | Python_SSCOFS/fetch_sscofs.py:89-92 | the two documented examples come out exactly as documented |
| FetchSscofs.ThreeDigits | Python_SSCOFS/fetch_sscofs.py:109 | a number below 100 written with three digits is "0" followed by its two digits |
| FetchSscofs.LatestCycleHour | Python_SSCOFS/fetch_sscofs.py:217-221 | the newest run hour not after the hour: a run hour at most h that no other such run hour exceeds |
| FetchSscofs.LatestCycleForTime | Python_SSCOFS/fetch_sscofs.py:199-225 | the run is on the same date at the newest run hour already started, so the previous-day fallback never runs |
| FetchSscofs.ComputeLatestFileForLocalHour | Python_SSCOFS/fetch_sscofs.py:228-298 | succeeds iff `now` is aware and the local hour is 0..23 (otherwise ValueError); the run is `now`'s date and newest cycle; the index is the truncated lead capped from above at the horizon; the URL is the one that `build_sscofs_url` gives |
| FetchSscofs.LeadToLocal | Python_SSCOFS/fetch_sscofs.py:276-289 | the lead to the local hour is the zone's difference or that plus 24, and lies in [0, 24) whenever the difference is within a day; without zone data it is the hour difference modulo 24, in [0, 24) |
| FetchSscofs.LocalHourFallback | Python_SSCOFS/fetch_sscofs.py:286-291 | without zone data the chosen hour lands on the local hour modulo 24, within a day |
| FetchSscofs.ClampIndex | Python_SSCOFS/fetch_sscofs.py:408-413 | the index is clamped to [0, max_hours]: unchanged inside, 0 below, max_hours above |
| FetchSscofs.LeadHours | Python_SSCOFS/fetch_sscofs.py:373 | the lead from the cycle start to the target is within a day |
| FetchSscofs.ComputeFileForDatetime | Python_SSCOFS/fetch_sscofs.py:301-433 | the reported run date is the target date's `isoformat()` and reads back as that date; the cycle label is the 2-digit newest cycle plus 'z'; the index is the clamped override or the clamped rounded lead; the URL is the one `build_sscofs_url` gives |
| FetchSscofs.RunLabels | Python_SSCOFS/fetch_sscofs.py:425-433 | the ISO run date reads back, the cycle label has three characters, and the URL exists |
| FetchSscofs.FileForDatetimeNearest | Python_SSCOFS/fetch_sscofs.py:404-413 | within the horizon the chosen file is the forecast hour nearest the target |
| LatestCycle.KeyMatch | Python_SSCOFS/latest_cycle.py:9 | a match has a 2-digit cycle, an 8-character date, the tag 'n' or 'f' and a 3-digit hour, and the key ends in ".nc", or in ".nc" and a final newline, as `$` allows |
| LatestCycle.FileNameWindow | Python_SSCOFS/latest_cycle.py:9 | an SSCOFS fields file name has the shape `KEY_RE` looks for |
| LatestCycle.CompactDigits | Python_SSCOFS/latest_cycle.py:9 | `%Y%m%d` is eight digits |
| LatestCycle.KeyMatchFileName | Python_SSCOFS/latest_cycle.py:74-79 | `KEY_RE` reads back the cycle, date, type and hour of every URL that `build_url` writes |
| LatestCycle.KeyCycle | Python_SSCOFS/latest_cycle.py:31-33 | `int(m.group(1))` when `KEY_RE` matches the key, none otherwise; `LatestCycle.PresentMeaning` says which cycles a listing presents |
| LatestCycle.BuildUrl | Python_SSCOFS/latest_cycle.py:74-79 | the bucket URL of a forecast or nowcast file, which `LatestCycle.BuildUrlAgrees` proves equal to the `build_sscofs_url` one |
| LatestCycle.PresentMeaning | Python_SSCOFS/latest_cycle.py:29-33 | a cycle is present iff some listed key carries it |
| LatestCycle.PresentCyclesMeaning | Python_SSCOFS/latest_cycle.py:29-33 | a cycle is present iff `KEY_RE` matches some key with that cycle |
| LatestCycle.AvailableMembers | Python_SSCOFS/latest_cycle.py:35 | the available cycles are exactly the observed cycles that are present |
| LatestCycle.AvailableLastIsMax | Python_SSCOFS/latest_cycle.py:35-36 | the last available cycle is the largest |
| LatestCycle.NewestOfMeaning | Python_SSCOFS/latest_cycle.py:35-36 | none iff no observed cycle is present; otherwise the largest present observed cycle |
| LatestCycle.NewestMeaning | Python_SSCOFS/latest_cycle.py:26-36 | a date's newest cycle is the largest observed cycle named by some key, and none iff there is none |
| LatestCycle.NewestCycleForDate | Python_SSCOFS/latest_cycle.py:26-36 | the listing loop computes exactly the newest cycle and returns the listing |
| LatestCycle.ProbeDay | Python_SSCOFS/latest_cycle.py:42-48 | the day `i` back: OverflowError off the calendar, a skip on an HTTP error status or no observed cycle, otherwise the day, its newest cycle and the keys; `LatestCycle.HitMeaning` states a hit |
| LatestCycle.Search | Python_SSCOFS/latest_cycle.py:41-49 | the day loop from day `i` on: the first hit, or OverflowError, or RuntimeError when every day is skipped, as `LatestCycle.SearchNotFound` and `LatestCycle.SearchFound` prove |
| LatestCycle.SearchNotFound | Python_SSCOFS/latest_cycle.py:41-49 | RuntimeError iff every day searched fails or has no observed cycle |
| LatestCycle.HitMeaning | Python_SSCOFS/latest_cycle.py:42-46 | a hit is the day that many days back, its listing and that listing's newest cycle |
| LatestCycle.SearchFound | Python_SSCOFS/latest_cycle.py:41-48 | a successful search returns the first day, counting back, with an observed cycle, and that day's newest cycle |
| LatestCycle.FindLatestCycle | Python_SSCOFS/latest_cycle.py:38-49 | the day loop computes exactly the search over today and `max_days_back` earlier days |
| LatestCycle.TryDay | Python_SSCOFS/latest_cycle.py:42-48 | one day's probe is `ProbeDay`: a date before the calendar is an OverflowError, an HTTP error status skips the day, and otherwise the newest cycle decides |
| LatestCycle.PickForecastForLocalHour | Python_SSCOFS/latest_cycle.py:51-72 | a ValueError iff the HHMM hour is outside 0..23, the minute is above 59 or the cycle is outside 0..23; otherwise the floor of the lead clipped to [0, 72] |
| LatestCycle.BuildUrlAgrees | Python_SSCOFS/latest_cycle.py:74-79 | `build_url` and `build_sscofs_url` name the same file for every run cycle |
| LatestCycle.LatestCycleAndUrlForLocalHour | Python_SSCOFS/latest_cycle.py:81-92 | search errors and hour errors are passed on; otherwise the found date's `isoformat()`, the cycle label, the hour and the forecast URL, from which `KEY_RE` reads the cycle back |
| LatestCycle.InfoFacts | Python_SSCOFS/latest_cycle.py:85-92 | the reported ISO date reads back and the URL carries the cycle |
| SscofsCache.CachedFilename | Python_SSCOFS/sscofs_cache.py:20-36 | "sscofs_", the run date without '-', "_t", the cycle without 'z', "z_f", the hour in three digits and ".nc"; `SscofsCache.CachedFilenameInjective` proves different runs get different names |
| SscofsCache.CachedFilenameShape | Python_SSCOFS/sscofs_cache.py:36 | a cache file name starts with "sscofs_" and ends with ".nc" |
| SscofsCache.IsoWithoutHyphens | Python_SSCOFS/sscofs_cache.py:33 | an ISO date without hyphens is `%Y%m%d` |
| SscofsCache.CycleWithoutZ | Python_SSCOFS/sscofs_cache.py:34 | a cycle label without 'z' is its two digits |
| SscofsCache.RunFilename | Python_SSCOFS/sscofs_cache.py:33-36 | a run's cache name is `sscofs_{YYYYMMDD}_t{CC}z_f{HHH}.nc` |
| SscofsCache.CompactInjective | Python_SSCOFS/sscofs_cache.py:33 | different dates have different `%Y%m%d` forms |
| SscofsCache.CachedFilenameInjective | Python_SSCOFS/sscofs_cache.py:33-36 | different runs (date, cycle, hour) never share a cache file |
| SscofsCache.QueueMeaning | Python_SSCOFS/sscofs_cache.py:312-321 | the download queue is exactly the uncached runs, by position, in order |
| SscofsCache.QueueEntriesHold | Python_SSCOFS/sscofs_cache.py:312-321 | every queued entry is an uncached run at its own index |
| SscofsCache.QueueIncreasing | Python_SSCOFS/sscofs_cache.py:312-321 | queue positions strictly increase |
| SscofsCache.QueueComplete | Python_SSCOFS/sscofs_cache.py:312-321 | every uncached run is queued |
| SscofsCache.NothingQueued | Python_SSCOFS/sscofs_cache.py:323-326 | the queue is empty iff every run is cached |
| SscofsCache.BulkDownloadForecasts | Python_SSCOFS/sscofs_cache.py:249-368 | the queue is the uncached runs; the result has one slot per run, in input order, whatever order the downloads finish in: the cache path for a cached or downloaded run, None for a failed one |
| SscofsCache.ScanCache | Python_SSCOFS/sscofs_cache.py:309-321 | cached runs get their path and the rest are queued |
| SscofsCache.CollectDownloads | Python_SSCOFS/sscofs_cache.py:346-360 | each completed download fills its own slot, in any completion order |
| SscofsCache.AllCachedNoNone | Python_SSCOFS/sscofs_cache.py:323-326 | with nothing to download, every slot is the cache path |
| GenerateCurrentData.MaxOf | Python_SSCOFS/generate_current_data.py:64 | `max()` bounds every element and is one of them |
| GenerateCurrentData.FixLongitude | Python_SSCOFS/generate_current_data.py:62-66 | an empty array is a ValueError; otherwise one longitude per input |
| GenerateCurrentData.FixLongitudePointwise | Python_SSCOFS/generate_current_data.py:64-66 | when the maximum exceeds 180 every longitude above 180 moves down by 360, and otherwise nothing changes |
| GenerateCurrentData.FixLongitudeRange | Python_SSCOFS/generate_current_data.py:62-66 | longitudes in [-180, 360] end in [-180, 180], and fixing twice is fixing once |
| GenerateCurrentData.CountTrue | Python_SSCOFS/generate_current_data.py:126 | the number of elements inside the region is at most the number of elements |
| GenerateCurrentData.Masked | Python_SSCOFS/generate_current_data.py:160 | masking keeps one value per true entry |
| GenerateCurrentData.MaskIndices | Python_SSCOFS/generate_current_data.py:160 | one index per true entry, each within the mask |
| GenerateCurrentData.MaskIndicesMeaning | Python_SSCOFS/generate_current_data.py:126-160 | the kept indices are exactly the true positions, strictly increasing |
| GenerateCurrentData.MaskedAt | Python_SSCOFS/generate_current_data.py:160 | masked value j is the value at the j-th true position |
| GenerateCurrentData.Interleave | Python_SSCOFS/generate_current_data.py:162-164 | the interleaving loop puts x at even slots and y at odd slots |
| GenerateCurrentData.Deinterleave | Python_SSCOFS/generate_current_data.py:162-164 | un-interleaving an interleaved buffer gives back both arrays |
| GenerateCurrentData.Reinterleave | Python_SSCOFS/generate_current_data.py:132-134 | every even-length buffer is the interleaving of its evens and odds |
| GenerateCurrentData.ExportGeometry | Python_SSCOFS/generate_current_data.py:158-174 | the count is the number of elements inside the region, and the buffer holds the lon/lat of each one in order |
| GenerateCurrentData.ExportVelocity | Python_SSCOFS/generate_current_data.py:177-196 | the file is `f{hour:03d}.bin` and holds the u/v of each element inside the region in order |
| GenerateCurrentData.VelocityFileNameHour | Python_SSCOFS/generate_current_data.py:136 | the name has 8 characters and its digits read back as the hour |
| GenerateCurrentData.VelocityFileName | Python_SSCOFS/generate_current_data.py:136 | `f{hour:03d}.bin`; `GenerateCurrentData.VelocityFileNameInjective` proves different hours get different files |
| GenerateCurrentData.VelocityFileNameInjective | Python_SSCOFS/generate_current_data.py:190 | different hours below 1000 write different files |
| GenerateCurrentData.ParseHourRange | Python_SSCOFS/generate_current_data.py:500-501 | ok iff there is a '-' and both ends parse; a single number is IndexError, anything else ValueError |
| GenerateCurrentData.ParseHourRangeDigits | Python_SSCOFS/generate_current_data.py:500-501 | "a-b" parses to (a, b) |
| GenerateCurrentData.ParseHourRangeSingle | Python_SSCOFS/generate_current_data.py:500-501 | a single number is an IndexError |
| GenerateCurrentData.HoursList | Python_SSCOFS/generate_current_data.py:273 | `range(a, b+1)` has b-a+1 entries, or none when b < a |
| GenerateCurrentData.HoursListMeaning | Python_SSCOFS/generate_current_data.py:273 | the hours are exactly a..b, ascending |
| GenerateCurrentData.ProcessHourWorker | Python_SSCOFS/generate_current_data.py:144-155 | a success is the pair (hour, result) and a failure the 3-tuple with the error |
| GenerateCurrentData.SucceededCount | Python_SSCOFS/generate_current_data.py:290-298 | each succeeding hour is kept as often as it occurs, and failing hours never |
| GenerateCurrentData.SucceededSorted | Python_SSCOFS/generate_current_data.py:290-298 | filtering a sorted list keeps it sorted |
| GenerateCurrentData.SucceededMembers | Python_SSCOFS/generate_current_data.py:290-298 | an hour is kept iff it was requested and succeeded |
| GenerateCurrentData.ManifestHoursFast | Python_SSCOFS/generate_current_data.py:286-311 | in whatever order the workers complete, the sorted completed hours are the ascending succeeding hours |
| GenerateCurrentData.GenerateFastHours | Python_SSCOFS/generate_current_data.py:273-311 | the manifest lists exactly the hours a..b that succeeded, ascending |
| GenerateCurrentData.GenerateCacheHours | Python_SSCOFS/generate_current_data.py:386-425 | a failure at hour 0 ends the run; otherwise the manifest is 0 followed by the succeeding hours from max(a, 1) to b, ascending |
| GenerateCurrentData.HoursListSnoc | Python_SSCOFS/generate_current_data.py:398 | the hour loop visits a..h as a..h-1 followed by h |

## Left out

- Coordinate projection (pyproj UTM zone 10N): a pair of function parameters, with no property of the projection assumed.
- `math.hypot`: a function parameter returning a non-negative real; the model does not compute square roots.
- Floating point: values are exact reals, and float rounding, NaN, infinities, float16/float32 casts and `nan_to_num` are not modelled.
- `float()` parsing and `f"{x:.1f}"` formatting: parameters.
- File and JSON I/O, gzip and file sizes: collections and buffers are values; nothing is read or written.
- The network (the ArcGIS REST service of the Ecology shoreline layer, and the NOAA S3 bucket): oracles given as parameters. These are the object-id answer, the per-attempt fetcher, the bucket lister, the set of cached files, and the download outcomes.
- `time.sleep`: only the list of waits is recorded.
- Concurrency: the order in which thread-pool or process-pool tasks complete is a parameter, and every result is stated for every order.
- Set iteration order in `pick_next`: modelled as a nondeterministic choice among the candidates.
- Time zones: the local-time differences are function parameters. Naive datetimes are a flag, and invalid zone names are not modelled.
- Printing, logging, argument parsing and exit banners.
- Unicode whitespace beyond ASCII (such as U+00A0 and U+2028), which Python's `str.strip` also removes: Text.StripLeft and Text.StripRight strip ASCII whitespace only.
- Unicode digits, which `strptime` and the `\d` of `KEY_RE` also accept: only ASCII digits are modelled.
- `find_latest_cycle` catches only `requests.HTTPError`, which the model's lister reports as a failed listing that skips the day. Other listing failures (a connection error, a timeout, malformed XML) propagate out of the search in the source and are not modelled.
- compute_basic_stats: its numbers only feed printed summaries.
- write_manifest: only the hour list is modelled, not the manifest's other fields.
- run_tag and model_run_str: not modelled.
- upload_to_s3: not modelled.
- failed_hours: printed only, so not modelled.
- compute_region_mask: the mask, which keeps the elements within a latitude and longitude half-width of a centre point (Seattle by default), is a parameter.
- PlotCoastlineCompare.CollectSegments: positions are (longitude, latitude) pairs. A GeoJSON position with a third number (an altitude) is not modelled; the pipeline's reader keeps its first two numbers, while the compare tool keeps it whole and its `for x, y in line` raises ValueError on it.
- The mesh bounds: not modelled.
- In sscofs_cache.py, load_sscofs_data, download_to_cache, list_cache, clear_cache and get_cache_info are I/O wrappers. Only the naming used by the cache lookup is modelled.
- The `product` literal of `build_sscofs_url` is any string in the model.
- FetchSscofs.LatestCycleForTime: its previous-day fallback is dead code, since 0 is a run hour, so the contract states only the live branch.
- FetchSscofs.ComputeFileForDatetime: its step back to the previous cycle is modelled and proved unreachable for the same reason, so the contract states only the live branch.
- GenerateCurrentData.Masked: requires the mask and the array to have equal lengths, where numpy would raise on a mismatch.
- Plotting (matplotlib figures in plot_coastline.py, plot_coastline_compare.py and plot_local_currents.py) and the basemap scripts are not part of this model.
