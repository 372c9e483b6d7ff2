# MyLogger in Dafny

A model of two parts of MyLogger, a C++ logging library that writes
OpenTelemetry-style JSON traces, and its ImGui trace-timeline viewer.

**The timeline viewer without its drawing code.** `TimelineViewer` keeps:
- the loaded traces;
- a selected trace and span;
- a view window `[view_start, view_end]` over the trace's duration;
- the filter sliders;
- a service-to-colour cache;
- a zoom selection.

Two things drive it: loading a decoded JSON document (the span records of
each trace are normalised, sorted and measured) and the keyboard and mouse
handlers (span selection, scrolling, wheel zoom, drag zoom).

The pure helpers are modelled as functions over reals:
- case-insensitive search;
- clamping;
- the time/pixel mappings;
- the colour arithmetic;
- the time-unit table.

**The logging library's sequential logic:**
- the path helpers;
- the span record `Trace`, both the header-only version and the PIMPL one;
- the OpenTelemetry line formatter (a JSON entry per span) and its file header and footer;
- the level-to-severity mapping;
- the writer strategy;
- the logger front end, which writes the header, one line group per log call, and the footer.

Modules:
- `Wrappers`: Option and Result.
- `Paths`, `LegacyLogger`: `File::fileName`, `File::dirName` and the legacy `Logger::fileName`.
- `ViewerUtils`: the `utils` namespace of the viewer.
- `DoubleLimits`, `TimeUnits`: the unit table and unit selection.
- `ViewerModel`: the records of the viewer, the filter predicate and the span layout.
- `Navigation`: the view-window and selection steps as pure functions.
- `TraceLoader`: loadFromJSON over decoded records.
- `Sliders`: the slider bounds and their fix-ups.
- `Viewer`: the `TimelineViewer` class, whose methods update its fields and are proved against the pure steps.
- `Text`: decimal and hexadecimal rendering.
- `TraceIds`: the 64-bit arithmetic and the random id generators.
- `Attributes`: `std::map<std::string, std::string>` as a key-ordered list.
- `OtelLevel`: the OpenTelemetry level enum.
- `LogTrace`: the header-only `Trace` class.
- `PimplTrace`: `TraceImpl` and the PIMPL `Trace` handle.
- `OtelFormat`: the line formatter, its streaming serialiser and the file formatter.
- `LogWriting`: the writer strategy, with the sink as a sequence of strings.
- `MyLogger`: the logger.

## Model

| member | source | states |
|---|---|---|
| Paths.FindLastSeparator | include/MyLogger/File.hpp:57 | `find_last_of("\\/")`: the found index holds a separator and none follows it; no result means the path has no separator |
| Paths.FileName | include/MyLogger/File.hpp:55-61 | the result has no separator and is a suffix of the path, preceded by a separator when it is shorter than the path |
| Paths.DirName | include/MyLogger/File.hpp:73-85 | a path that is empty or ends with a separator is returned unchanged; otherwise the result is a prefix that is "" or ends with a separator, and no separator follows it in the path |
| Paths.DirNameThenFileName | include/MyLogger/File.hpp:55-85 | `dirName(p) + fileName(p) == p` for every path |
| Paths.DirNameIdempotent | include/MyLogger/File.hpp:73-85 | dirName is idempotent and the file name of a directory part is empty |
| Paths.SplitAtLastSeparator | include/MyLogger/File.hpp:55-85 | when the last separator is at index k, fileName is the text after k and dirName the text up to and including k |
| Paths.NoSeparatorPath | include/MyLogger/File.hpp:55-85 | a non-empty path without separator is its own file name and has directory part "" |
| Paths.DirNameTestCases | tests/FileTests.cpp:88-96 | the eight dirName cases of the PathManipulation test |
| Paths.FileNameTestCases | tests/FileTests.cpp:29-36 | the three fileName cases of the PathManipulation test |
| LegacyLogger.FileName | include/MyLogger/Logger.hpp:44-50 | the legacy fileName equals File::fileName on every path and never contains a separator |
| ViewerUtils.ToLower | Viewer/Utils.cpp:12-17 | the length is kept and every character is folded by ASCII tolower |
| ViewerUtils.ToLowerIdempotent | Viewer/Utils.cpp:12-17 | lower-casing twice is lower-casing once |
| ViewerUtils.ToLowerConcat | Viewer/Utils.cpp:12-17 | lower-casing distributes over concatenation |
| ViewerUtils.Find | Viewer/Utils.cpp:27 | `std::string::find`: the first index where the needle occurs, none when it occurs nowhere |
| ViewerUtils.ContainsIgnoreCase | Viewer/Utils.cpp:20-28 | true iff the needle is empty or the lower-cased needle occurs in the lower-cased text |
| ViewerUtils.ContainsOwnPiece | Viewer/Utils.cpp:20-28 | every piece of a text is found in it (so the search is reflexive) |
| ViewerUtils.ContainsIgnoresCase | Viewer/Utils.cpp:20-28 | lower-casing either argument first does not change the answer |
| ViewerUtils.Clamp | Viewer/Utils.hpp:55-59 | for lo <= hi the result lies in [lo, hi]; a value in range is returned unchanged; lo > hi gives lo |
| ViewerUtils.TimeRatioFacts | Viewer/Utils.cpp:83-88 | 0 for an empty or inverted window; otherwise the fraction r with `s + r(e - s) == t`, in [0, 1] for t in [s, e] |
| ViewerUtils.InterpolateFacts | Viewer/Utils.cpp:91-94 | gives a at 0 and b at 1, and stays in [a, b] for a ratio in [0, 1] |
| ViewerUtils.RatioOfInterpolation | Viewer/Utils.cpp:83-94 | the ratio of an interpolated time is the interpolation parameter |
| ViewerUtils.TimeToPixel | Viewer/Utils.cpp:97-104 | 0 for a degenerate window; a time inside the window maps into [0, width] |
| ViewerUtils.PixelToTime | Viewer/Utils.cpp:107-118 | the view start when the canvas width is <= 0; a pixel on the canvas maps into the window |
| ViewerUtils.PixelOfTimeRoundTrip | Viewer/Utils.cpp:97-118 | pixelToTime(canvas_pos + timeToPixel(t)) == t on a proper window and canvas |
| ViewerUtils.TimeOfPixelRoundTrip | Viewer/Utils.cpp:97-118 | canvas_pos + timeToPixel(pixelToTime(px)) == px on a proper window and canvas |
| ViewerUtils.IsPointInRect | Viewer/Utils.cpp:137-143 | true iff the point is within the rectangle, all four edges included |
| ViewerUtils.CornersInRect | Viewer/Utils.cpp:137-143 | the four corners of a proper rectangle are inside it |
| ViewerUtils.Byte | Viewer/Utils.cpp:54-57 | `(c >> 8k) & 0xFF` is a byte |
| ViewerUtils.FromBytes | Viewer/Utils.cpp:64 | the packed colour has exactly the four given bytes |
| ViewerUtils.Col32 | Viewer/Utils.cpp:64 | IM_COL32: green in bits 8-15, alpha modulo 256 in bits 24-31, red and blue where the layout puts them |
| ViewerUtils.PackChannels | Viewer/Utils.cpp:64 | whatever the layout: green and alpha in place, red and blue in the two outer colour bytes |
| ViewerUtils.Trunc | Viewer/Utils.cpp:60 | conversion to int truncates toward zero |
| ViewerUtils.BoostChannel | Viewer/Utils.cpp:60-62 | a boosted channel is in [100, 255] |
| ViewerUtils.EnhanceColorBrightness | Viewer/Utils.cpp:51-65 | the three colour bytes are the boosted channels, each in [100, 255]; the alpha byte is kept |
| ViewerUtils.DarkenedAlpha | Viewer/Utils.cpp:77 | `int(a(1 - f))` lies in [0, a] for f in [0, 1] |
| ViewerUtils.DarkenColor | Viewer/Utils.cpp:68-80 | only the alpha byte is recomputed, as the darkened alpha modulo 256, and it never grows for f in [0, 1]; green keeps its place and red and blue stay in the outer bytes |
| ViewerUtils.ColorFromHash | Viewer/Utils.cpp:121-134 | the alpha byte is 255 and the colour bytes are bits 0-23 of the hash |
| ViewerUtils.ColorFromHashLow24 | Viewer/Utils.cpp:121-134 | hashes that agree on their low 24 bits give the same colour |
| TimeUnits.AvailableTimeUnits | Viewer/Viewer.cpp:1668-1701 | six rows in unit order; the bands are consecutive and run from 0 to DBL_MAX, and a unit's factor is where its band starts |
| TimeUnits.BandsPartition | Viewer/Viewer.cpp:1668-1701 | a value in [0, DBL_MAX) lies in exactly one band |
| TimeUnits.BandsIncrease | Viewer/Viewer.cpp:1668-1701 | the band limits increase along the table |
| TimeUnits.BandIndex | Viewer/Viewer.cpp:1668-1701 | the band that holds a value of [0, DBL_MAX) |
| TimeUnits.DetectionRange | Viewer/Viewer.cpp:1717 | `max(|min|, |max|)` is at least both magnitudes and equals one of them |
| TimeUnits.BestTimeUnit | Viewer/Viewer.cpp:1711-1729 | below DBL_MAX, the unit whose band holds the range |
| TimeUnits.DetectBestTimeUnit | Viewer/Viewer.cpp:1711-1729 | the search loop returns the unit of the band holding `max(|min|, |max|)`, and Hours from DBL_MAX on |
| TimeUnits.GetTimeUnitInfo | Viewer/Viewer.cpp:1732-1744 | the row of the table for the unit, so `getTimeUnitInfo(u).unit == u` |
| TimeUnits.ConvertTime | Viewer/Viewer.cpp:1704-1708 | the result times the unit's factor gives back the nanoseconds |
| ViewerModel.DefaultConfigIsConsistent | Viewer/Viewer.hpp:117-137 | the declared filters lie inside their sliders with min <= max and empty text filters; `zoom_factor_in < 1 < zoom_factor_out` and their product is 1 (Viewer/Viewer.hpp:201-203) |
| ViewerModel.ResetFilters | Viewer/Viewer.cpp:61-70 | the filters clearAll writes back are ordered and the text filters are empty |
| ViewerModel.ResetFiltersRestoresDefaults | Viewer/Viewer.cpp:61-70 | clearAll restores exactly the declared defaults of Viewer/Viewer.hpp:119-137 and keeps every other config field |
| ViewerModel.PassesFilters | Viewer/Viewer.cpp:312-348 | true iff the duration and the start lie in their inclusive windows and each text filter is empty or found ignoring case |
| ViewerModel.FilterTextIgnoresCase | Viewer/Viewer.cpp:312-348 | lower-casing the filter texts selects the same spans |
| ViewerModel.NamePiecesPass | Viewer/Viewer.cpp:312-348 | filters made of pieces of the span's own names let the span through when its numbers are in range |
| ViewerModel.CalculateSpanLayout | Viewer/Viewer.cpp:105-126 | the row position, a width of at least min_span_width, `indent = depth * depth_indentation`, and bar edges that map back to the span's start and end times |
| ViewerModel.EdgeUnderItsTime | Viewer/Viewer.cpp:113-121 | a bar edge placed by timeToPixel lies under the time it was placed for |
| ViewerModel.TagLines | Viewer/Viewer.cpp:27-30 | the tag lines are empty iff there are no tags |
| ViewerModel.LogLines | Viewer/Viewer.cpp:36-39 | the log lines are empty iff there are no logs |
| ViewerModel.TagLinesConcat | Viewer/Viewer.cpp:27-30 | the lines of two tag lists are the lines of the first followed by those of the second |
| ViewerModel.LogLinesConcat | Viewer/Viewer.cpp:36-39 | the lines of two log lists are the lines of the first followed by those of the second |
| ViewerModel.TagLinesSnoc | Viewer/Viewer.cpp:27-30 | one more tag adds exactly its `    key: value\n` line at the end |
| ViewerModel.LogLinesSnoc | Viewer/Viewer.cpp:36-39 | one more log adds exactly its `    log\n` line at the end |
| ViewerModel.TagBlockSnoc | Viewer/Viewer.cpp:24-31 | one more tag adds its line at the end of the tag block, after a new `  Tags:` header when it is the first |
| ViewerModel.LogBlockSnoc | Viewer/Viewer.cpp:33-40 | one more log adds its line at the end of the log block, after a new `  Logs:` header when it is the first |
| ViewerModel.SpanDescription | Viewer/Viewer.cpp:14-44 | the description starts with the fixed fields and ends with `}`; without tags or logs it is the fixed fields then `}` |
| ViewerModel.DescriptionFrame | Viewer/Viewer.cpp:14-44 | whatever the fixed lines, a description starts with them and ends with `}`, and is exactly them and `}` without tags or logs |
| ViewerModel.SpanDescriptionBlocks | Viewer/Viewer.cpp:14-44 | the whole text: the fixed fields, the `  Tags:` block only with tags, the `  Logs:` block only with logs, in that order, then `}` |
| ViewerModel.DescriptionWithOneMoreTag | Viewer/Viewer.cpp:24-31 | one more tag inserts its line at the end of the tag block, with the header for the first tag, and keeps the rest of the text |
| ViewerModel.DescriptionWithOneMoreLog | Viewer/Viewer.cpp:33-43 | one more log inserts its line just before the closing `}`, with the header for the first log, and keeps the rest of the text |
| ViewerModel.SpanDescriptionWithOneMoreTag | Viewer/Viewer.cpp:14-22 | the fixed lines do not depend on the tags, so a span's text with one more tag is the generic description with it |
| ViewerModel.SpanDescriptionWithOneMoreLog | Viewer/Viewer.cpp:14-22 | the fixed lines do not depend on the logs, so a span's text with one more log is the generic description with it |
| Navigation.ScrollLeft | Viewer/Viewer.cpp:1437-1443 | the width is kept exactly, the start never goes below 0, and without the stop the window moves back by scroll_percentage of its width |
| Navigation.ScrollRight | Viewer/Viewer.cpp:1446-1454 | the width is kept exactly, the end never passes total_duration, and without the stop the window moves forward by scroll_percentage of its width |
| Navigation.ScrollRightThenLeft | Viewer/Viewer.cpp:1437-1454 | a scroll right followed by a scroll left gives back the window when neither stop applies |
| Navigation.CenterOn | Viewer/Viewer.cpp:1356-1365 | the result lies in [0, total_duration]; when no clip applies it keeps the width and is centred on the span's midpoint |
| Navigation.ZoomKeepsCursorTime | Viewer/Viewer.cpp:1559-1570 | the window before clipping is scaled by the zoom factor, and the time under the cursor fraction does not move |
| Navigation.ScrollZoom | Viewer/Viewer.cpp:1553-1572 | the result lies in [0, total_duration] |
| Navigation.ScrollZoomUnclipped | Viewer/Viewer.cpp:1553-1572 | when neither clip applies the wheel zoom gives the scaled window, and the time under the cursor does not move |
| Navigation.ZoomedTwice | Viewer/Viewer.cpp:1559-1570 | zooming by a and then by b about the same fraction gives back the window when a * b == 1 |
| Navigation.ZoomInThenOut | Viewer/Viewer.cpp:1563-1571 | a wheel notch in followed by one out at the same cursor gives back the window when the factors are inverse and no clip applies |
| Navigation.RectangularZoom | Viewer/Viewer.cpp:1500-1550 | a release always ends the selection; without a release the view stays and a press starts a drag; the view changes only to a window inside the trace, and only for a drag wider than min_selection_width |
| Navigation.DragZoomsToDraggedTimes | Viewer/Viewer.cpp:1524-1547 | the release of a wide enough drag on a proper canvas zooms to exactly the times under the drag's two ends, inside the old window |
| Navigation.Refresh | Viewer/Viewer.cpp:87-102 | the detail text becomes the description of the span when the index is in range of the shown trace, and stays unchanged otherwise |
| Navigation.PreviousIndex | Viewer/Viewer.cpp:1368-1378 | the index stays in [-1, n-1] and moves back by at most one |
| Navigation.NextIndex | Viewer/Viewer.cpp:1381-1392 | the index stays in [-1, n-1] and moves forward by at most one |
| Navigation.UpperIndex | Viewer/Viewer.cpp:1395-1413 | the index stays in [-1, n-1], and on a non-empty trace it is a real span afterwards |
| Navigation.LowerIndex | Viewer/Viewer.cpp:1416-1434 | the index stays in [-1, n-1], and on a non-empty trace it is a real span afterwards |
| Navigation.UpAndDownMoves | Viewer/Viewer.cpp:1395-1434 | on a non-empty trace, Up from -1 selects n-1 and Down from -1 selects 0; otherwise they step by one and stop at 0 and n-1 |
| Navigation.CtrlArrowMoves | Viewer/Viewer.cpp:1368-1392 | Ctrl+Left does nothing at 0 or -1; Ctrl+Right steps from -1 to 0 and stops at n-1 |
| Navigation.PreviousNextInverse | Viewer/Viewer.cpp:1368-1392 | away from the ends, a previous step undoes a next step and a next step undoes a previous step |
| Navigation.SelectPrevious | Viewer/Viewer.cpp:1368-1378 | the previous index; the view moves only when the index changed, and then lies in the trace |
| Navigation.SelectNext | Viewer/Viewer.cpp:1381-1392 | the next index; the view moves only when the index changed, and then lies in the trace |
| Navigation.SelectUpper | Viewer/Viewer.cpp:1395-1413 | the upper index, the same view, and details refreshed when a span ends up selected |
| Navigation.SelectLower | Viewer/Viewer.cpp:1416-1434 | the lower index, the same view, and details refreshed when a span ends up selected |
| Navigation.Keyboard | Viewer/Viewer.cpp:1457-1497 | nothing changes without focus; Escape sets -1 and clears the details without moving the view |
| Navigation.KeyboardKeepsIndexInRange | Viewer/Viewer.cpp:1457-1497 | the key dispatch keeps the selected index in [-1, n-1] |
| Navigation.VerticalKeysKeepView | Viewer/Viewer.cpp:1486-1496 | Up and Down never move the view |
| Navigation.CtrlMovesViewOnlyWithSelection | Viewer/Viewer.cpp:1472-1484 | with Ctrl held the view moves only if Ctrl+Left or Ctrl+Right actually changed the index |
| Sliders.GlobalMin | Viewer/Viewer.cpp:559-584 | the running minimum over the traces with spans is at most its seed and at most every such trace's value |
| Sliders.GlobalMax | Viewer/Viewer.cpp:559-584 | the running maximum over the traces with spans is at least its seed and at least every such trace's value |
| Sliders.CachedBounds | Viewer/Viewer.cpp:555-599 | with spans, the bounds enclose every cached range of every trace with spans; without spans, the fallback 0..1000 for both sliders |
| Sliders.GlobalMinAttained | Viewer/Viewer.cpp:559-584 | without traces with spans the running minimum is its seed; with them it is the seed's minimum with the value of one actual trace that has spans |
| Sliders.GlobalMaxAttained | Viewer/Viewer.cpp:559-584 | without traces with spans the running maximum is its seed; with them it is the seed's maximum with the value of one actual trace that has spans |
| Sliders.CachedBoundsAttained | Viewer/Viewer.cpp:555-592 | with spans, each of the four bounds passed to the sliders is attained: it is the seed (max double, 0, max double, lowest double) folded with the cached value of some trace that has spans |
| Sliders.SliderBounds | Viewer/Viewer.cpp:529-552 | each slider is [min, max], the duration maximum scaled by duration_buffer_percentage, and each filter sits at its slider's ends; the text filters are kept |
| Sliders.CachedFiltersAdmitLoadedSpans | Viewer/Viewer.cpp:529-599 | right after the cache is filled, every loaded span lies within the duration and start filters, so only the text filters can hide it |
| Sliders.SpanAdmitted | Viewer/Viewer.cpp:529-552 | a span of a consistent trace whose cached ranges lie inside the bounds passes both numeric filters |
| Sliders.FixDurationFilters | Viewer/Viewer.cpp:1064-1067 | the duration filters are ordered again by raising the maximum to the minimum; nothing else changes |
| Sliders.FixTimeFilters | Viewer/Viewer.cpp:1093-1096 | the time filters are ordered again by raising the maximum to the minimum; nothing else changes |
| Sliders.FixUpsKeepOrderedPairs | Viewer/Viewer.cpp:1064-1096 | a fix-up leaves an ordered pair as it was written |
| TraceLoader.Get | Viewer/Viewer.cpp:363-398 | a field read succeeds iff the field holds a value of the expected type |
| TraceLoader.ThreadAll | Viewer/Viewer.cpp:360-510 | a loop that stops at the first throwing element: all elements are done without a failure, fewer with one |
| TraceLoader.ThreadAllStopsAtFailure | Viewer/Viewer.cpp:355-523 | once a prefix has thrown, the elements after it are never looked at |
| TraceLoader.ThreadAllSnoc | Viewer/Viewer.cpp:360-510 | one more element of a loop that has not thrown adds its value and new state, or records its exception |
| TraceLoader.EventText | Viewer/Viewer.cpp:433-443 | the log line starts with "Event: " and the name, is exactly that without a timestamp, and continues with " (timestamp: t)" when the event has one |
| TraceLoader.Loop | Viewer/Viewer.cpp:409-445 | an inner loop that completes yields one entry per element |
| TraceLoader.DecodeSpanFields | Viewer/Viewer.cpp:389-462 | a decoded span has the read identifiers, its service's colour, the read start and duration, depth 0 when absent, one tag per tag and attribute, and one log per event |
| TraceLoader.WithServiceColor | Viewer/Viewer.cpp:74-84 | serviceToColor: the service gets a colour, only a new service gets the hash colour, and no existing entry is overwritten |
| TraceLoader.FoldMinFacts | Viewer/Viewer.cpp:448-458 | the running std::min is at most the seed and every value, and equals one of them |
| TraceLoader.FoldMaxFacts | Viewer/Viewer.cpp:449-460 | the running std::max is at least the seed and every value, and equals one of them |
| TraceLoader.FoldSnoc | Viewer/Viewer.cpp:446-460 | one more span moves the running std::min and std::max to include its value |
| TraceLoader.RunningBoundsSnoc | Viewer/Viewer.cpp:446-456 | the four running bounds of the span loop, updated with one more span, are the folds over the longer prefix |
| TraceLoader.Shift | Viewer/Viewer.cpp:471-474 | each span's start moved back by the minimum, nothing else changed |
| TraceLoader.Insert | Viewer/Viewer.cpp:504-507 | insertion adds exactly the one span |
| TraceLoader.InsertKeepsSorted | Viewer/Viewer.cpp:504-507 | insertion into a start-ordered list keeps it ordered |
| TraceLoader.SortByStart | Viewer/Viewer.cpp:504-507 | std::sort by start: an ordered permutation of the spans |
| TraceLoader.Finish | Viewer/Viewer.cpp:466-507 | the trace keeps its id, name and span count; its spans are the normalised spans, sorted by start |
| TraceLoader.InShifted | Viewer/Viewer.cpp:471-507 | every stored span is one of the decoded spans with its start normalised |
| TraceLoader.FinishBounds | Viewer/Viewer.cpp:377-467 | start_time is at most every decoded start; start + total_duration is at least every decoded end and 0, and equals one of them; start_time is a decoded start when there are spans |
| TraceLoader.FinishIsConsistent | Viewer/Viewer.cpp:466-507 | a loaded trace is sorted, counts its spans, holds every span within its cached ranges and within [0, total_duration], has min_start_time 0 with spans, and has zeroed aggregates without spans, with `total_duration = 0 - DBL_MAX` |
| TraceLoader.MaxStartTimeCanExceedEveryStart | Viewer/Viewer.cpp:481-491 | max_start_time is seeded with `total_duration - spans.back().duration`, so it can exceed every start (99 against a latest start of 10) |
| TraceLoader.ExampleFolds | Viewer/Viewer.cpp:448-491 | the folds of the two-span example |
| TraceLoader.DecodeSpanFacts | Viewer/Viewer.cpp:389-393 | decoding one span only adds colours, and a decoded span carries its service's colour |
| TraceLoader.SpansColoured | Viewer/Viewer.cpp:387-463 | decoding a trace's spans only adds colours, and every decoded span carries its service's final colour |
| TraceLoader.ExtendsKeepsAgreement | Viewer/Viewer.cpp:74-84 | a later insertion never changes a colour a span already agrees with |
| TraceLoader.FinishKeepsColours | Viewer/Viewer.cpp:466-507 | normalising and sorting keep the spans' colours |
| TraceLoader.DecodeTraceFacts | Viewer/Viewer.cpp:360-510 | decoding a trace only adds colours, and a loaded trace is consistent and coloured |
| TraceLoader.ExtendsKeepsTraces | Viewer/Viewer.cpp:74-84 | traces coloured by a map stay coloured by every extension of it |
| TraceLoader.TracesLoaded | Viewer/Viewer.cpp:360-510 | loading the trace list only adds colours, and every loaded trace is consistent and coloured by the final map |
| TraceLoader.LoadDocumentOutcome | Viewer/Viewer.cpp:351-526 | "" exactly when every trace loaded, otherwise a message starting "Error: "; a text that does not parse keeps the old traces, and any other failure keeps only the traces loaded before it; colours are never overwritten; every loaded trace is consistent and coloured |
| Viewer.JoinLines | Viewer/Viewer.cpp:624-630 | the text read from a file is empty exactly when the file has no lines |
| Viewer.RunLoop | Viewer/Viewer.cpp:411-438 | the loop over a span's tags, attributes or events gives what Loop specifies: every element decoded in order, or the first element's error |
| Viewer.ReadSpanFields | Viewer/Viewer.cpp:397-448 | the span fields after the colour are read in the order DecodeSpanFields specifies, stopping at the first bad field with its error |
| Viewer.FinishTrace | Viewer/Viewer.cpp:466-507 | the trace assembled after the span loop is the one Finish specifies (starts moved to 0, start range recomputed, zero bounds for an empty trace, spans sorted) |
| Viewer.Normalise | Viewer/Viewer.cpp:469-475 | every span's start is moved back by the trace's minimum start, nothing else changes |
| Viewer.StartRange | Viewer/Viewer.cpp:477-492 | the recomputed start range is the fold of minimum and maximum over the normalised starts |
| Sliders.HasSpansSnoc | Viewer/Viewer.cpp:571-585 | some trace has spans exactly when the prefix has one or the last trace does |
| Sliders.RunningCacheSnoc | Viewer/Viewer.cpp:571-584 | a trace with spans moves the running values of cacheTraceInformation's loop to include its cached values; one without spans leaves them |
| Sliders.RunningCacheComplete | Viewer/Viewer.cpp:586-599 | after the loop the running values are the cached bounds when some trace has spans, and the fallback 0..1000 otherwise |
| Viewer.TimelineViewer.constructor | Viewer/Viewer.hpp:495-517 | the declared defaults: default configuration, no traces, no colours, window [0, 100], trace 0 selected, no span selected, minimap shown, no zoom selection |
| Viewer.TimelineViewer.ClearAll | Viewer/Viewer.cpp:47-71 | traces, colours, selection and window are reset and the filters return to their defaults while the other settings stay |
| Viewer.TimelineViewer.ServiceToColor | Viewer/Viewer.cpp:74-84 | a known service keeps its colour and leaves the map alone; a new one gets the colour of its hash, stored in the map |
| Viewer.TimelineViewer.ReadSpan | Viewer/Viewer.cpp:387-456 | reading one span gives DecodeSpan's span or error and colour map |
| Viewer.TimelineViewer.ReadSpans | Viewer/Viewer.cpp:385-463 | the span loop gives ThreadAll's spans, failure and colour map, and the time and duration ranges folded over the decoded spans |
| Viewer.TimelineViewer.LoadTrace | Viewer/Viewer.cpp:362-510 | one trace is loaded as DecodeTrace specifies, error included |
| Viewer.TimelineViewer.LoadFromJSON | Viewer/Viewer.cpp:351-526 | message, traces and colour map are those LoadDocument specifies |
| Viewer.TimelineViewer.InitializeSliderBounds | Viewer/Viewer.cpp:529-552 | the filters become SliderBounds of the given ranges |
| Viewer.GatherCache | Viewer/Viewer.cpp:557-584 | the loop's running values are the std::min and std::max of the traces' cached values over the traces with spans, from the seeds max, 0, max and lowest, and has_spans says whether some trace has spans |
| Viewer.TimelineViewer.CacheTraceInformation | Viewer/Viewer.cpp:555-613 | the sliders take the bounds cached over all traces, the window shows the selected trace whole when there is one, and the time unit is redetected only when auto-detection is on and some trace has spans |
| Viewer.TimelineViewer.LoadFromFile | Viewer/Viewer.cpp:616-644 | a file that cannot be opened or is empty gives its error and changes nothing; otherwise the load's message, traces and colours, and on success the cached slider bounds and the whole selected trace |
| Viewer.TimelineViewer.LoadFromFileSelectingFirst | Viewer/Viewer.cpp:600-604 | as LoadFromFile, but on success the first trace is selected before the view is set, so no in-range index is needed: the selected index is 0 and the view is the whole of the first trace |
| Viewer.TimelineViewer.SelectTrace | Viewer/Viewer.cpp:939-960 | the chosen trace is selected and shown whole; its cached ranges go to the sliders when it has spans; the span index is kept |
| Viewer.TimelineViewer.SelectTraceClearingSelection | Viewer/Viewer.cpp:939-960 | as SelectTrace, with no span selected afterwards, so every key press is safe on the new trace |
| Viewer.TimelineViewer.EditDurationFilters | Viewer/Viewer.cpp:1064-1067 | the duration filters are the slider values with the maximum raised to a larger minimum |
| Viewer.TimelineViewer.EditTimeFilters | Viewer/Viewer.cpp:1093-1096 | the time filters are the slider values with the maximum raised to a larger minimum |
| Viewer.TimelineViewer.UpdateSelectedSpanDetails | Viewer/Viewer.cpp:87-102 | the details text is Refresh's text for the index on the shown trace |
| Viewer.TimelineViewer.UpdateViewToCenterOnSpan | Viewer/Viewer.cpp:1356-1365 | the window is CenterOn's window for the span |
| Viewer.TimelineViewer.SelectPreviousSpan | Viewer/Viewer.cpp:1368-1378 | the navigation state becomes SelectPrevious's |
| Viewer.TimelineViewer.SelectNextSpan | Viewer/Viewer.cpp:1381-1392 | the navigation state becomes SelectNext's |
| Viewer.TimelineViewer.SelectUpperSpan | Viewer/Viewer.cpp:1395-1413 | the navigation state becomes SelectUpper's |
| Viewer.TimelineViewer.SelectLowerSpan | Viewer/Viewer.cpp:1416-1434 | the navigation state becomes SelectLower's |
| Viewer.TimelineViewer.ScrollLeft | Viewer/Viewer.cpp:1437-1443 | the window becomes Navigation.ScrollLeft's |
| Viewer.TimelineViewer.ScrollRight | Viewer/Viewer.cpp:1446-1454 | the window becomes Navigation.ScrollRight's, bounded by the selected trace |
| Viewer.TimelineViewer.HandleKeyboardNavigation | Viewer/Viewer.cpp:1457-1497 | the navigation state becomes Keyboard's for the keys pressed |
| Viewer.TimelineViewer.RectangularZoom | Viewer/Viewer.cpp:1500-1550 | zoom selection and window become Navigation.RectangularZoom's for the frame |
| Viewer.TimelineViewer.ScrollZoom | Viewer/Viewer.cpp:1553-1572 | the window becomes Navigation.ScrollZoom's for the wheel movement |
| Viewer.TimelineViewer.ResetZoom | Viewer/Viewer.cpp:1575-1579 | the window shows the trace whole |
| Viewer.TimelineViewer.DeselectSpan | Viewer/Viewer.cpp:1620-1623 | no span is selected and the details are cleared |
| Viewer.TimelineViewer.CenterOnSelectedSpan | Viewer/Viewer.cpp:1611-1619 | with a selected span in range the window is centred on it, otherwise it stays |
| Viewer.InRangeIndexIsSafe | Viewer/Viewer.cpp:1457-1497 | with the selected index in [-1, n-1] every key press reads only spans that exist |
| Viewer.StaleIndexLeavesTheTrace | Viewer/Viewer.cpp:1368-1378 | an index above n on an n-span trace makes Ctrl+Left read past the end of the spans |
| Viewer.SpanlessRecordsLoad | Viewer/Viewer.cpp:360-388 | records with both names and no "spans" array all load, with no error and the colour map unchanged |
| Viewer.ReloadLeavesStaleTraceIndex | Viewer/Viewer.cpp:800-808 | after a successful load of a longer file an index in range can be selected that a second, successfully loaded, non-empty file does not have; the Load button runs loadFromFile, which reads that index, before resetting it |
| Viewer.StaleIndexAfterFiveThenTwo | Viewer/Viewer.cpp:800-808 | a five-trace file followed by a two-trace file both load successfully, so index 4 is selectable and then out of range |
| Text.NatToString | include/MyLogger/Strategies/Formatters/OpenTelemetry/OpenTelemetryLineFormatter.hpp:65-66 | the decimal text of a `uint64_t`: digits only, no leading zero, and denoting the number |
| Text.NatToStringInjective | include/MyLogger/Strategies/Formatters/OpenTelemetry/OpenTelemetryLineFormatter.hpp:65-66 | different numbers print differently |
| Text.IntToString | include/MyLogger/Strategies/Formatters/OpenTelemetry/OpenTelemetryLineFormatter.hpp:69-70 | the text of an `int`: a minus sign exactly for a negative value, followed by the magnitude's digits |
| Text.HexPadded | include/MyLogger/Strategies/LogTrace.hpp:270-273 | exactly `width` hexadecimal digits, zero-filled, denoting the value when it fits |
| Text.Hex8 | include/MyLogger/Strategies/LogTrace.hpp:270-273 | one `setw(8)` field of a 32-bit word: eight hexadecimal digits denoting the word |
| TraceIds.Sub64 | include/MyLogger/Strategies/LogTrace.hpp:145-159 | `uint64_t` subtraction: the difference added back gives the minuend modulo 2^64, the plain difference when there is no wrap-around |
| TraceIds.HexWords | include/MyLogger/Strategies/LogTrace.hpp:269-275 | eight hexadecimal characters per drawn word |
| TraceIds.HexWordsReadBack | include/MyLogger/Strategies/LogTrace.hpp:269-275 | each group of eight characters denotes its word |
| TraceIds.HexWordsInjective | include/MyLogger/Strategies/LogTrace.hpp:269-275 | different draws of the same length give different identifiers |
| TraceIds.GenerateId | include/MyLogger/Strategies/LogTrace.hpp:271-274 | the loop writes HexWords of the drawn words |
| TraceIds.GenerateTraceId | include/MyLogger/Strategies/LogTrace.hpp:263-276 | a trace identifier is 32 hexadecimal characters that encode its four words |
| TraceIds.GenerateSpanId | include/MyLogger/Strategies/LogTrace.hpp:281-294 | a span identifier is 16 hexadecimal characters that encode its two words |
| Attributes.LessIrreflexive | include/MyLogger/Strategies/LogTrace.hpp:307 | the key order of `std::map<std::string, std::string>` is irreflexive |
| Attributes.LessTransitive | include/MyLogger/Strategies/LogTrace.hpp:307 | the key order is transitive |
| Attributes.LessTotal | include/MyLogger/Strategies/LogTrace.hpp:307 | any two different keys are ordered |
| Attributes.Lookup | include/MyLogger/Strategies/LogTrace.hpp:237-240 | a key is found exactly when some entry carries it, and the value found is that entry's |
| Attributes.Put | include/MyLogger/Strategies/LogTrace.hpp:121-125 | after `m[key] = value` the key holds the value and every other key holds what it held |
| Attributes.PutEntries | include/MyLogger/Strategies/LogTrace.hpp:121-125 | every entry after storing is the new one or an old one |
| Attributes.PutKeepsOrder | include/MyLogger/Strategies/LogTrace.hpp:121-125 | storing keeps the keys ascending, and adds one entry exactly when the key was new |
| Attributes.PutAllKeepsOrder | include/MyLogger/Strategies/LogTrace.hpp:58-61 | storing a list of pairs keeps the keys ascending |
| Attributes.PutAllLookup | include/MyLogger/Strategies/LogTrace.hpp:58-61 | after storing the pairs a key holds the value of its last pair, or its old value when no pair names it |
| Attributes.FromPairs | include/MyLogger/Strategies/LogTrace.hpp:58-61 | the attribute loop builds the map PutAll describes, in key order |
| OtelLevel.ToString | include/MyLogger/Strategies/Formatters/OpenTelemetry/OpenTelemetryLevel.hpp:21-40 | "UNKNOWN" exactly for a value that is no enumerator; an enumerator gets the name of its severity band |
| OtelLevel.ToSeverityNumber | include/MyLogger/Strategies/Formatters/OpenTelemetry/OpenTelemetryLevel.hpp:45-48 | the severity number is the enumerator's underlying value |
| OtelLevel.EnumeratorsStartTheirBands | include/MyLogger/Strategies/Formatters/OpenTelemetry/OpenTelemetryLevel.hpp:8-16 | the i-th enumerator is 4i+1, the first number of its band, so the enumerators ascend and have different names |
| LogTrace.Trace.Root | include/MyLogger/Strategies/LogTrace.hpp:45-62 | a root trace: new 32- and 16-character identifiers, no parent, the pairs as its attributes, started at the clock, not ended |
| LogTrace.Trace.Child | include/MyLogger/Strategies/LogTrace.hpp:70-91 | a child inherits the trace identifier, takes the parent's span identifier as parent, gets a new span identifier, and a copy of it is appended to the parent's children |
| LogTrace.Trace.Copy | include/MyLogger/Strategies/LogTrace.hpp:89-90 | the implicit copy holds every field of the original |
| LogTrace.Trace.AddEvent | include/MyLogger/Strategies/LogTrace.hpp:98-114 | one event, stamped with the clock and carrying its pairs as a map, appended after the others |
| LogTrace.Trace.AddAttribute | include/MyLogger/Strategies/LogTrace.hpp:121-125 | the key holds the value, every other key keeps its value, and the map stays in key order |
| LogTrace.Trace.End | include/MyLogger/Strategies/LogTrace.hpp:130-140 | the trace is ended; only the first call records the end time |
| LogTrace.Trace.DurationNanos | include/MyLogger/Strategies/LogTrace.hpp:145-159 | the end time, or the clock while running, minus the start time on `uint64_t` |
| LogTrace.Trace.CreateChildSpan | include/MyLogger/Strategies/LogTrace.hpp:167-176 | the child is made as Child makes it, and the parent's children grow by its copy and then by the child itself |
| LogTrace.DurationFrozenAfterEnd | include/MyLogger/Strategies/LogTrace.hpp:145-159 | once a trace has ended its duration no longer depends on the clock |
| PimplTrace.EventPayload | src/Trace.cpp:142-150 | the event's JSON is the pair list when there are pairs, otherwise an object holding only the name |
| PimplTrace.TraceImpl.Root | src/Trace.cpp:44-56 | new identifiers, no parent, the pairs kept only as JSON, no attributes, both clocks recorded |
| PimplTrace.TraceImpl.Child | src/Trace.cpp:61-74 | the parent's trace identifier, the parent's span identifier as parent, a new span identifier, a pointer back to the parent |
| PimplTrace.TraceImpl.Copy | src/Trace.cpp:79-95 | every field is copied, the child pointers included |
| PimplTrace.TraceImpl.AddEvent | src/Trace.cpp:136-153 | one event with EventPayload's JSON, stamped with the system clock, appended |
| PimplTrace.TraceImpl.End | src/Trace.cpp:158-167 | only the first call records the two end times |
| PimplTrace.TraceImpl.DurationNanos | src/Trace.cpp:172-184 | the system-clock end, or the clock while running, minus the start on `uint64_t` |
| PimplTrace.Trace.Root | src/Trace.cpp:191-195 | a new root implementation |
| PimplTrace.Trace.Child | src/Trace.cpp:197-204 | a new child implementation, and the parent's children grow by a copy of the child |
| PimplTrace.Trace.Copy | src/Trace.cpp:206-209 | a new implementation holding the other's values |
| PimplTrace.Trace.Move | src/Trace.cpp:211-214 | the implementation is taken over and the other trace is left without one |
| PimplTrace.Trace.CopyAssign | src/Trace.cpp:216-223 | a fresh copy of the other implementation; a self-assignment changes nothing, a moved-from handle included |
| PimplTrace.Trace.MoveAssign | src/Trace.cpp:225-232 | the other implementation is taken over; a self-assignment changes nothing |
| PimplTrace.Trace.Destroy | src/Trace.cpp:234-240 | a trace that still owns an implementation ends it if it has not ended; only the three end fields may change |
| PimplTrace.Trace.CreateChildSpan | src/Trace.cpp:242-248 | the children grow by the child's copy and then by the child |
| PimplTrace.Trace.AddAttribute | src/Trace.cpp:250-253 | the key holds the value and every other key keeps its value |
| PimplTrace.Trace.AddEvent | src/Trace.cpp:255-259 | delegates to the implementation's addEvent |
| PimplTrace.Trace.End | src/Trace.cpp:261-264 | delegates to the implementation's end |
| OtelFormat.JoinSnoc | include/MyLogger/Strategies/Formatters/OpenTelemetry/OpenTelemetryLineFormatter.hpp:77-84 | one more element adds a comma and its text, or its text alone in an empty list |
| OtelFormat.JoinStep | include/MyLogger/Strategies/Formatters/OpenTelemetry/OpenTelemetryLineFormatter.hpp:77-84 | one turn of a loop with a `first` flag extends the comma-separated text by one element |
| OtelFormat.AttributesPart | include/MyLogger/Strategies/Formatters/OpenTelemetry/OpenTelemetryLineFormatter.hpp:73-86 | the attribute block is empty exactly for an empty map |
| OtelFormat.EventsPart | include/MyLogger/Strategies/Formatters/OpenTelemetry/OpenTelemetryLineFormatter.hpp:89-121 | the event block is empty exactly when no event was recorded |
| OtelFormat.ParentPart | include/MyLogger/Strategies/Formatters/OpenTelemetry/OpenTelemetryLineFormatter.hpp:55-60 | the parentSpanId member is written exactly when the trace has a parent |
| OtelFormat.Depth | include/MyLogger/Strategies/Formatters/OpenTelemetry/OpenTelemetryLineFormatter.hpp:68-70 | the depth is 0 for a root trace and 1 for any child, however deep |
| OtelFormat.FormatBegin | include/MyLogger/Strategies/Formatters/OpenTelemetry/OpenTelemetryLineFormatter.hpp:31-35 | the OpenTelemetry formatter writes no prefix; another formatter writes its own hook's |
| OtelFormat.FormatEnd | include/MyLogger/Strategies/LogLineFormatter.hpp:38-53 | ",\n" for the OpenTelemetry formatter, the derived hook's text, or the base class's "\n" when there is no hook |
| OtelFormat.Header | include/MyLogger/Strategies/Formatters/OpenTelemetry/OpenTelemetryFileFormatter.hpp:40-93 | the OpenTelemetry header opens the trace array and is not empty |
| OtelFormat.Footer | include/MyLogger/Strategies/Formatters/OpenTelemetry/OpenTelemetryFileFormatter.hpp:98-118 | the OpenTelemetry footer closes the trace array and is not empty |
| OtelFormat.AppendMembers | include/MyLogger/Strategies/Formatters/OpenTelemetry/OpenTelemetryLineFormatter.hpp:77-84 | the attribute loop appends the members, comma-separated, in key order |
| OtelFormat.AppendEvent | include/MyLogger/Strategies/Formatters/OpenTelemetry/OpenTelemetryLineFormatter.hpp:98-117 | one event as EventText describes it |
| OtelFormat.AppendEvents | include/MyLogger/Strategies/Formatters/OpenTelemetry/OpenTelemetryLineFormatter.hpp:92-119 | the event loop appends the events' texts, comma-separated |
| OtelFormat.FormatMiddleImpl | include/MyLogger/Strategies/Formatters/OpenTelemetry/OpenTelemetryLineFormatter.hpp:41-135 | the stream writes exactly the reference entry of the trace |
| OtelFormat.AppendEventsPart | include/MyLogger/Strategies/Formatters/OpenTelemetry/OpenTelemetryLineFormatter.hpp:89-121 | the event block is appended only when there are events |
| OtelFormat.WriteHead | include/MyLogger/Strategies/Formatters/OpenTelemetry/OpenTelemetryLineFormatter.hpp:46-53 | the entry opens with the trace identifier, the trace name and the span identifier |
| OtelFormat.AppendSpanBody | include/MyLogger/Strategies/Formatters/OpenTelemetry/OpenTelemetryLineFormatter.hpp:62-70 | the span's operation, service, start, duration and depth |
| OtelFormat.AppendTail | include/MyLogger/Strategies/Formatters/OpenTelemetry/OpenTelemetryLineFormatter.hpp:124-132 | the close of the span list and the trace-level start, total duration and span count |
| OtelFormat.AppendAttributes | include/MyLogger/Strategies/Formatters/OpenTelemetry/OpenTelemetryLineFormatter.hpp:73-86 | the attribute block is appended only for a non-empty map |
| OtelFormat.FormatMiddle | include/MyLogger/Strategies/LogLineFormatter.hpp:30-33 | formatMiddle gives the derived formatter's middle text |
| OtelFormat.FormatLine | include/MyLogger/Strategies/LogLineFormatter.hpp:46-49 | a line is begin, middle and end, concatenated |
| OtelFormat.OpenTelemetryLineIgnoresLevel | include/MyLogger/Strategies/Formatters/OpenTelemetry/OpenTelemetryLineFormatter.hpp:31-35 | an OpenTelemetry line is the entry followed by ",\n", whatever the level |
| OtelFormat.EndedTraceEntryIgnoresClock | include/MyLogger/Strategies/Formatters/OpenTelemetry/OpenTelemetryLineFormatter.hpp:62-130 | an ended trace's entry does not depend on the clock |
| OtelFormat.EntryFrame | include/MyLogger/Strategies/Formatters/OpenTelemetry/OpenTelemetryLineFormatter.hpp:46-132 | every entry opens with the identifiers and closes with the single-span trailer |
| OtelFormat.ParentKeyIffParent | include/MyLogger/Strategies/Formatters/OpenTelemetry/OpenTelemetryLineFormatter.hpp:55-60 | right after the span identifier comes the parentSpanId key exactly when the trace has a parent |
| OtelFormat.RootEntryHasNoParentKey | include/MyLogger/Strategies/Formatters/OpenTelemetry/OpenTelemetryLineFormatter.hpp:55-60 | a root entry has no parentSpanId key after its span identifier |
| OtelFormat.ChildEntryHasParentKey | include/MyLogger/Strategies/Formatters/OpenTelemetry/OpenTelemetryLineFormatter.hpp:55-60 | a child entry has the parentSpanId key after its span identifier |
| OtelFormat.MembersReadBack | include/MyLogger/Strategies/Formatters/OpenTelemetry/OpenTelemetryLineFormatter.hpp:77-84 | when no key or value holds a quote, the attribute text reads back as the map it was written from |
| OtelFormat.VerbatimValuesAreAmbiguous | include/MyLogger/Strategies/Formatters/OpenTelemetry/OpenTelemetryLineFormatter.hpp:82 | values are written without escaping, so one attribute can print as two |
| LogWriting.UnlessEmpty | include/MyLogger/Strategies/LogWriter.hpp:82-87 | nothing is written exactly for an empty string, otherwise the string itself |
| LogWriting.LogWriter.constructor | include/MyLogger/Strategies/LogWriter.hpp:26-29 | the writer keeps its formatter and has written nothing |
| LogWriting.LogWriter.WriteTraceLine | include/MyLogger/Strategies/LogWriter.hpp:37-48 | begin, the formatted trace and end are written, in that order |
| LogWriting.LogWriter.WriteMessageLine | include/MyLogger/Strategies/LogWriter.hpp:55-64 | begin, the message unchanged and end are written, in that order |
| LogWriting.LogWriter.Flush | include/MyLogger/Strategies/LogWriter.hpp:69-73 | flushing writes nothing |
| LogWriting.LogWriter.WriteHeader | include/MyLogger/Strategies/LogWriter.hpp:79-88 | the header is written unless it is empty |
| LogWriting.LogWriter.WriteFooter | include/MyLogger/Strategies/LogWriter.hpp:94-103 | the footer is written unless it is empty |
| MyLogger.Logger.constructor | include/MyLogger/MyLogger.hpp:36-45 | building the logger writes the header and nothing else |
| MyLogger.Logger.Log | include/MyLogger/MyLogger.hpp:61-65 | one line group for the trace is written and the output stays header plus groups |
| MyLogger.Logger.LogMessage | include/MyLogger/MyLogger.hpp:72-76 | one line group for the message is written and the output stays header plus groups |
| MyLogger.Logger.Flush | include/MyLogger/MyLogger.hpp:81-85 | flushing writes nothing |
| MyLogger.Logger.Destroy | include/MyLogger/MyLogger.hpp:50-54 | the footer is written, so the output is header, every logged group in order, footer |
| MyLogger.LoggedGroupKeepsOutput | include/MyLogger/MyLogger.hpp:61-76 | after one more group the output is still what the writer held before, the header and the groups in order |
| MyLogger.AllEndWithAppend | include/MyLogger/MyLogger.hpp:61-76 | every logged group is three strings ending with the line formatter's end, and one more such group keeps that so |
| MyLogger.OutputAppend | include/MyLogger/MyLogger.hpp:61-76 | a logged group extends a live logger's output by its strings |
| MyLogger.OpenTelemetryFileEndsWithComma | include/MyLogger/Strategies/Formatters/OpenTelemetry/OpenTelemetryLineFormatter.hpp:140-143 | with the OpenTelemetry formatters, a closed file with at least one line ends with ",\n] }\n": a comma before the closing bracket |

## Left out

- Drawing: the ImGui windows, widgets, minimap, timeline and span text (`displaySpanText`) are not modelled. The frame loop of `handleMouseInteractions` is modelled only through the steps it calls (wheel zoom, drag zoom, reset, the context menu). Its hit-test, which maps a click to a span, is left out because it depends on the drawn rectangles.
- JSON parsing: nlohmann's parser is not part of this model. A document arrives decoded into records, and a field read that throws is a `Bad` field carrying the exception text. The `nlohmann::json` values kept by the PIMPL trace (`m_json`, the event payload) are kept as the pair list they are built from, and `getJsonString` is left out.
- Floating point: doubles and floats are reals. The `float` casts of the slider bounds and the rounding of `std::lerp` are not modelled. The sentinels `std::numeric_limits<double>::max()` and `lowest()` are exact constants.
- `IM_COL32`'s byte layout is a parameter (`ColorLayout`). `std::hash<std::string>`, the `std::random_device`/`mt19937` draws and every clock reading are parameters of the operations that use them.
- File I/O: `loadFromFile` receives the file's lines, or `None` when it cannot be opened. The writers' sinks (file, console, socket) are a sequence of the strings handed to `writeImpl`. The directory listing of the viewer's file browser is not modelled.
- Concurrency: the writer's and the logger's mutexes are left out; calls are sequential.
- `ILogger`, the legacy `Logger` apart from `Logger::fileName`, `LogFileFormatter`'s file name and mode, the socket writer, and the getters are not modelled. The three-argument constructor of `OpenTelemetryFileFormatter` does not match the one-argument constructor of its base class in the source; the model takes the file formatter as a value.
- `formatTimeWithUnit`, `formatDuration` and the other display strings built with `std::format` or stream precision are not modelled; `formatReal` stands for a double's stream output in the span details.
- A derived line formatter's `formatMiddleImpl` sees the trace through `TraceView`, every field but the children.
- TraceLoader.SortByStart: `std::sort` leaves the order of equal start times unspecified; the model fixes one order (a stable insertion sort), so its result is one of the orders the source may produce.
- There is no round trip from the logger's output into the viewer's loader. The viewer reads `traceID` and `spanID`, while the formatter writes `traceId` and `spanId`. The two sets of records are modelled separately.
- OtelFormat.Entry: keys and values are copied verbatim without JSON escaping. The model states the consequence (`VerbatimValuesAreAmbiguous`) and proves read-back only for quote-free maps, rather than correcting it.
- Viewer.TimelineViewer.ScrollRight, Viewer.TimelineViewer.UpdateViewToCenterOnSpan, Viewer.TimelineViewer.CenterOnSelectedSpan: these require a loaded trace and a selected trace index in range, because the source reads `m_traces[m_selected_trace]` without a check; Viewer.TimelineViewer.CacheTraceInformation and Viewer.TimelineViewer.LoadFromFile require the index to be in range whenever there are traces, for the same reason; the Load button can break that requirement, which is the second row under "## Findings".
- Strings are sequences of Dafny characters (Unicode code points), while the source works on the bytes of `std::string`. `ViewerUtils.ToLower` folds only 'A'..'Z', which is what `::tolower` does in the C locale; other locales and multi-byte characters are not modelled.
- The header declares `loadFromJSON` with a different result than the implementation in `Viewer/Viewer.cpp`, which returns an error string ("" on success). The model follows the implementation.

## Findings

| source | as written | input that shows it | evidently intended | confidence | as-written member | corrected member |
|---|---|---|---|---|---|---|
| Viewer/Viewer.cpp:939-960 | choosing a trace in the combo box resets the view and the sliders but keeps `m_selected_span_index` | select span 5 of a 10-span trace, choose a 3-span trace, press Ctrl+Left: `selectPreviousSpan` decrements to 4 and reads `spans[4]` of a 3-element vector | clear the span selection when another trace is chosen, as `clearAll` does | not executed | Viewer.TimelineViewer.SelectTrace, Viewer.StaleIndexLeavesTheTrace | Viewer.TimelineViewer.SelectTraceClearingSelection, Viewer.InRangeIndexIsSafe |
| Viewer/Viewer.cpp:604, 800-808 | the Load button calls `loadFromFile`, whose `cacheTraceInformation` sets `m_view_end = m_traces[m_selected_trace].total_duration`, and only afterwards sets `m_selected_trace = 0` | select trace 4 of a five-trace file, then load a two-trace file: line 604 reads `m_traces[4]` of a two-element vector | reset the selected trace to 0 before the view is computed from it | not executed | Viewer.TimelineViewer.LoadFromFile, Viewer.ReloadLeavesStaleTraceIndex, Viewer.StaleIndexAfterFiveThenTwo | Viewer.TimelineViewer.LoadFromFileSelectingFirst |
