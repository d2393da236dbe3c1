# annotate_video, smart_vtt and aggregate_rekognize_labels in Dafny

This project models three Python scripts from the AudiovisualMetadataPlatform
`annotate_video` repository and proves properties of the models.

- **annotate_video.py** decorates every frame of a video.
  - Configuration and layout:
    - `ZoneConfig.load` normalises the zone table and the style table.
    - `set_content_size` lays the margin zones out around the original frame (the `content` zone).
    - `get_zone` and `get_style` look up names.
  - Binding: `Annotate.add_annotations` binds the annotations of each frame to zones and styles.
  - Drawing:
    - `annotate_frame`, `drawtext`, `drawborder` and the two `annotate` methods draw one frame.
    - The frame is modelled as the display list of drawing commands issued on the canvas.
    - A PIL failure is an oracle `fails: Cmd -> bool`, and the font's bounding box is an oracle `bbox`.
  - Driver:
    - `batched` splits the frame list into batches of 500.
    - `annotate_files` annotates each frame and carries on past the frames that fail.
    - The frame-rate parse of `main` reads ffprobe's report.
- **smart_vtt.py** turns a Whisper transcript into captions:
  - it gathers and sorts the words, then strips them;
  - it groups them into phrases at pauses;
  - `splitphrase` cuts each phrase at punctuation to bound its duration;
  - `phrase2text` renders each caption.
- **aggregate_rekognize_labels.py** aggregates label detections into sightings:
  - it buckets the detections by category, name and parents;
  - it cuts each bucket into runs at gaps, keeping the runs that are confident and long enough;
  - it prunes empty containers;
  - `ms2ts` converts the times.

Modules and files:

| file | module | models |
|---|---|---|
| `common.dfy` | `Common` | Python `str.strip`, `lower`, `in`, `split`, `join`; `int()` truncation; list flattening |
| `zones.dfy` | `Zones` | `Style`, `Zone`, the class `ZoneConfig`, and the layout specification |
| `annotate.dfy` | `Annotations` | annotations, binding, the display list, the class `Annotate` |
| `pipeline.dfy` | `Pipeline` | `batched`, `annotate_files`, the frame-rate parse |
| `captions.dfy` | `Captions` | `smart_vtt.py` |
| `labels.dfy` | `Labels` | `aggregate_rekognize_labels.py` |

How the source maps onto the model:

- **Classes with mutable fields are Dafny classes.** `ZoneConfig`, `Annotate` and the PIL canvas (`Canvas`) each become a class.
- **Loops are methods.** Each method carries loop invariants and is proved against a specification function. Every `ensures` is that function, or a relation between the old and new state.
- **Properties are stated about the specification functions.** The lemmas cover:
  - round trips;
  - idempotence;
  - if-and-only-if conditions for every error;
  - permutation and order;
  - what the layout does to every zone.
- **Object identity becomes a key.** A style shared by several zones and annotations is `Bound(key)`, a reference by key into the style table, so a change made through the table is seen by every holder.
- **Dictionaries keep their order.** A dictionary whose insertion order matters (the zones) is a sequence. The label tree, whose order only affects output formatting, is a nested `map`.
- **Exceptions are errors.** A raised exception is an `Err` of the `Result` type, with the exception's name in its message.

Where the code and its design description disagree, the model follows the code:

- **East and west zones.** The code sets `h` to the zone's size and `w` to the running canvas height for these zones (lines 132 and 136). The description gives the reverse, a band `size` wide and `pheight` tall. `Zones.Positioned` and `Zones.TrailingStep` keep the code's assignment.
- **Drawing failures.** Only `canvas.text` sits inside `try` (lines 187-191). A rectangle that fails to draw therefore raises out of `annotate_frame` and loses the frame at `annotate_files` (line 349). The description says the frame continues. `Annotations.ExecSpec` states the code's behaviour.
- **The content zone.** It is placed first and then visited again by the zone loop, so it appears twice in `curzones`. The description lists it once. `load` inserts `content` last (line 70), so the loop visits it last and no zone placed after it shifts it a second time. `Zones.ShiftAt` counts occurrences. `Zones.CountOnce` shows that `curzones` lists the content zone once until the loop reaches it.
- **Error names.** Configuration errors are pydantic `ValidationError`s, and a blank location is an `IndexError`. The description's names (`ConfigurationError` and others) are not used.

## Model

| member | source | states |
|---|---|---|
| Common.StripSlice | smart_vtt.py:29 | `strip()` removes exactly the leading and trailing whitespace: the result is the slice between them and neither end is whitespace |
| Common.LStrip | smart_vtt.py:29 | `lstrip` drops only whitespace, and the result starts with none |
| Common.RStrip | smart_vtt.py:29 | `rstrip` drops only whitespace, and the result ends with none |
| Common.StripIdempotent | smart_vtt.py:29 | stripping twice is stripping once |
| Common.FirstNonSpaceIsStripHead | annotate_video.py:76 | `strip()[0]` fails exactly on blank text, and is otherwise the first non-whitespace character |
| Common.FirstNonSpace | annotate_video.py:76 | the character found is never whitespace |
| Common.LowerChar | annotate_video.py:76 | `lower()` maps each of `A`-`Z` to its lower-case letter, 32 code points on, and keeps every other character (ASCII folding only) |
| Common.Trunc | annotate_video.py:114 | `int()` truncates toward zero: the result is the whole part of the real, for either sign |
| Common.Split | annotate_video.py:288 | `split(sep)` yields at least one part, and no part holds the separator |
| Common.JoinSplit | aggregate_rekognize_labels.py:31 | joining the parts of a split with the same separator restores the string |
| Common.Join | aggregate_rekognize_labels.py:33 | joining a single part gives that part |
| Common.SplitJoin | aggregate_rekognize_labels.py:33 | splitting a join of separator-free parts restores the parts |
| Common.TakeWord | annotate_video.py:289 | the first word is a whitespace-free prefix ending at whitespace or at the end |
| Common.FirstToken | annotate_video.py:289 | `split()[0]` is whitespace-free, and is non-empty whenever the string is not blank |
| Common.FlattenAppend | smart_vtt.py:23 | `extend` over a concatenation is the concatenation of the extends |
| Zones.RoundUpEven | annotate_video.py:150-152 | the canvas height is even, and at most one more than before |
| Zones.Complement | annotate_video.py:90-93 | the missing background is the per-channel complement of the foreground, `255 - c` |
| Zones.WithDefault | annotate_video.py:72-73 | `default` is added only when absent; every declared style is kept |
| Zones.NormalLocationSpec | annotate_video.py:76 | the location fails exactly when blank, and is otherwise the lower-cased first non-blank character |
| Zones.NormalizeZoneSpec | annotate_video.py:75-85 | a zone is accepted iff its location is non-blank with a first letter in n/s/e/w/c and its style (or `default`) exists; an accepted zone differs only in location and binding |
| Zones.NormalizeIdempotent | annotate_video.py:75-85 | normalising a normalised zone changes nothing |
| Zones.WithBackground | annotate_video.py:88-95 | afterwards every style has a background: the declared one, or the complement of the foreground |
| Zones.NormalizeListSpec | annotate_video.py:75-85 | the zone loop succeeds iff every zone is accepted, and then holds each zone's normal form at its index |
| Zones.NormalizeListFailure | annotate_video.py:75-85 | the first failing zone's error is the error of the whole loop |
| Zones.NormalizeList | annotate_video.py:75-85 | a successful zone loop yields one zone per declared zone |
| Zones.NormalizeAll | annotate_video.py:75-85 | the loop over the zones computes the specification of the zone loop |
| Zones.FillBackgrounds | annotate_video.py:88-95 | the style loop fills every background |
| Zones.LoadedWellFormed | annotate_video.py:63-97 | after `load`: content last with location `c`, distinct names, normal locations, every style bound to an existing key, `default` present, every background set |
| Zones.ZoneConfig.Load | annotate_video.py:63-97 | `load` succeeds iff no zone is named `content` and every zone is accepted; then the tables are the normalised zones and the filled styles |
| Zones.FindZone | annotate_video.py:156-158 | the dictionary lookup finds the zone of that name, and fails exactly when there is none |
| Zones.ZoneConfig.GetZone | annotate_video.py:156-158 | `get_zone` returns the zone of that name, and fails exactly when it is missing |
| Zones.ZoneConfig.GetStyle | annotate_video.py:161-163 | `get_style` looks up the name, or `default` for None, and fails exactly when it is missing |
| Zones.ScaleIsProduct | annotate_video.py:114 | the repeated addition used for a fraction times a dimension is the product |
| Zones.FractionalSize | annotate_video.py:112-114 | a fractional size becomes the floor of fraction × content height (n/s) or width (e/w), between 0 and that dimension |
| Zones.AbsoluteSize | annotate_video.py:116-117 | a size of at least 1 is truncated to a whole number of at least 1 |
| Zones.ShiftAt | annotate_video.py:124-125 | the shift loop moves every zone by the offset times the number of times `curzones` lists it |
| Zones.Shift | annotate_video.py:124-125 | the shift keeps the number of zones |
| Zones.PlaceKeeps | annotate_video.py:110-141 | one iteration keeps every zone's name, title, location and style, and resolves only the visited zone's size |
| Zones.PlaceMoves | annotate_video.py:119-140 | one iteration moves the other zones only in y for a north zone and only in x for a west zone, by their count in `curzones` |
| Zones.NorthStep | annotate_video.py:119-125 | a north zone is a band of the canvas width at the top, grows the height by its size, and pushes every placed zone down by it |
| Zones.WestStep | annotate_video.py:134-140 | a west zone has x 0, h its size and w the canvas height, grows the width by its size, and pushes every placed zone right by it |
| Zones.TrailingStep | annotate_video.py:126-133 | south and east zones go at the trailing edge, grow one dimension, and move nothing else |
| Zones.Place | annotate_video.py:110-141 | one iteration keeps the number of zones and appends the visited zone to `curzones` |
| Zones.Layout | annotate_video.py:100-141 | the layout keeps one entry per declared zone |
| Zones.ResolveFont | annotate_video.py:144-148 | a font is loaded at the floor of the size; a size of at least 1 is kept; nothing else changes |
| Zones.FractionalFont | annotate_video.py:145-146 | a fractional font size becomes the floor of fraction × content height, between 0 and that height |
| Zones.CountOnce | annotate_video.py:109-141 | until the zone loop reaches the content zone, `curzones` lists it exactly once |
| Zones.LayoutKeepsIdentity | annotate_video.py:108-141 | the layout keeps every zone's identity; visited zones carry their resolved size |
| Zones.CanvasExtent | annotate_video.py:106-141 | the canvas width is content width plus the east and west sizes, and the height is content height plus the north and south sizes |
| Zones.PlacedOrder | annotate_video.py:109-141 | `curzones` is the content zone followed by the visited zones in order |
| Zones.ContentOrigin | annotate_video.py:104-141 | the content zone ends at (total west, total north) with the content extent |
| Zones.ContentAtOriginWithoutNorthOrWest | annotate_video.py:118-140 | with no north or west zone, the content zone stays at (0, 0) |
| Zones.ContentInsideCanvas | annotate_video.py:100-153 | with non-negative sizes, the content rectangle lies inside the returned canvas |
| Zones.LayoutSummary | annotate_video.py:100-153 | canvas size and content origin in terms of the per-side totals of the declared sizes |
| Zones.NorthSouthScenario | annotate_video.py:100-153 | 1920×1080 content with a 0.1 north and a 60 south zone: content at y 108, canvas 1920×1248 |
| Zones.LayoutPreservesWellFormed | annotate_video.py:100-148 | the layout and the font pass keep what `load` established |
| Zones.ZoneConfig.PlaceZone | annotate_video.py:110-141 | one iteration of the zone loop performs the specification step |
| Zones.ZoneConfig.ShiftPlaced | annotate_video.py:124-125 | the shift loop performs the specified shift |
| Zones.ZoneConfig.ResolveFonts | annotate_video.py:144-148 | the font loop resolves every style and leaves the zones alone |
| Zones.ZoneConfig.SetContentSize | annotate_video.py:100-153 | `set_content_size` stores the specified layout and fonts, keeps the tables well formed, and returns the canvas with an even height |
| Annotations.BindSpec | annotate_video.py:245-250 | binding succeeds iff the zone exists and a named style exists; a named style binds to that name, a missing one to the zone's style, a bound one stays |
| Annotations.BindKeepsBound | annotate_video.py:245-250 | binding an already bound annotation is the identity |
| Annotations.BindIdempotent | annotate_video.py:245-250 | binding twice is binding once |
| Annotations.BindListOk | annotate_video.py:243-250 | a list binds iff every annotation binds |
| Annotations.BindListAt | annotate_video.py:243-250 | a bound list holds each annotation's binding at its index |
| Annotations.BindListFailure | annotate_video.py:243-250 | the first failing annotation's error is the list's error |
| Annotations.BindListBound | annotate_video.py:243-250 | in a well-formed configuration, every annotation of a bound list is bound |
| Annotations.BindList | annotate_video.py:243-250 | a bound list has one annotation per input annotation |
| Annotations.Extend | annotate_video.py:252-254 | `extend` appends to one frame's bucket, creating it if needed, and leaves every other bucket alone |
| Annotations.AddAllFails | annotate_video.py:241-254 | `add_annotations` raises iff some frame's list fails to bind |
| Annotations.FailingEntry | annotate_video.py:241-254 | a failure comes from some entry whose list fails to bind |
| Annotations.EntryFails | annotate_video.py:241-254 | any entry whose list fails to bind makes the whole call raise |
| Annotations.AddAllFailure | annotate_video.py:241-254 | after a failing entry, the remaining entries change nothing |
| Annotations.AddAllBucketAt | annotate_video.py:241-254 | on success, each frame's bucket is the old bucket followed by that frame's bound lists in file order |
| Annotations.AddAllBuckets | annotate_video.py:241-254 | on success, every bucket is the old bucket followed by its frame's bound lists |
| Annotations.GatheredOther | annotate_video.py:252-254 | a frame with no entry gains nothing |
| Annotations.AddAllBound | annotate_video.py:241-254 | every stored annotation stays bound |
| Annotations.ExecSpec | annotate_video.py:187-191 | a frame raises iff a drawing call outside `try` fails; otherwise the canvas gains the succeeding commands, in order |
| Annotations.ExecOne | annotate_video.py:184-191 | one call is drawn when PIL accepts it, skipped when it fails inside `try`, and otherwise raises |
| Annotations.Commands | annotate_video.py:257-271 | the display list of a run of steps is their commands, in order |
| Annotations.ExecAllDrawn | annotate_video.py:264-269 | with no failing call, every command is drawn in order |
| Annotations.ExecAppend | annotate_video.py:264-269 | drawing two command lists one after the other is drawing their concatenation |
| Annotations.ExecError | annotate_video.py:341-351 | every failure of a frame is the same exception |
| Annotations.ExecPrefixRaises | annotate_video.py:264-269 | once a prefix raises, the frame raises with the same error |
| Annotations.OutlinesSpec | annotate_video.py:264-265 | one plain outline per zone, in dictionary order |
| Annotations.FrameShape | annotate_video.py:257-271 | the frame starts with the new canvas and the paste at the content origin, then one outline per zone, then the annotations' steps |
| Annotations.AnnotationShape | annotate_video.py:203-221 | a box draws two rectangles when it has a border and a label only when its text is non-empty; text is anchored `la` or `ld`; only text calls are caught |
| Annotations.Canvas.Draw | annotate_video.py:184-200 | a drawing call succeeds iff PIL accepts it, and only then adds the command |
| Annotations.DrawText | annotate_video.py:179-191 | `drawtext` issues its specified steps |
| Annotations.DrawBorder | annotate_video.py:193-200 | `drawborder` issues its specified steps |
| Annotations.DrawAnnotation | annotate_video.py:208-221 | each annotation issues its specified steps |
| Annotations.DrawOutlines | annotate_video.py:264-265 | the zone loop issues one outline per zone |
| Annotations.BucketStepsNext | annotate_video.py:267-269 | drawing one more annotation extends the bucket's run, and its failure is the bucket's failure |
| Annotations.DrawBucket | annotate_video.py:267-269 | the annotation loop issues the bucket's steps in list order |
| Annotations.DrawFrame | annotate_video.py:257-271 | a frame is the specified display list, or the error of its first uncaught failure |
| Annotations.Annotate.constructor | annotate_video.py:230-236 | the engine stores the solved layout, the canvas size with an even height, the content origin and no annotations |
| Annotations.Annotate.BindAnnotation | annotate_video.py:244-250 | binding one annotation follows the specification |
| Annotations.Annotate.BindEach | annotate_video.py:243-250 | the inner loop binds a list as specified |
| Annotations.Annotate.AppendBucket | annotate_video.py:252-254 | appending a list to a bucket is `Extend` |
| Annotations.Annotate.AppendEach | annotate_video.py:241-254 | the outer loop computes the specified buckets and error |
| Annotations.Annotate.AddAnnotations | annotate_video.py:239-254 | `add_annotations` stores the specified buckets and keeps every annotation bound |
| Annotations.Annotate.AnnotateFrame | annotate_video.py:257-271 | `annotate_frame` draws the frame's bucket, or no annotations when the frame has none |
| Pipeline.ChunksFlatten | annotate_video.py:326-329 | the batches, concatenated, are the frame list |
| Pipeline.ChunksSizes | annotate_video.py:326-329 | every batch holds 1 to n frames, and all but the last hold exactly n |
| Pipeline.Batched | annotate_video.py:326-329 | the generator yields the specified chunks |
| Pipeline.Outcomes | annotate_video.py:341-351 | each frame's outcome depends on that frame alone |
| Pipeline.OutcomesAppend | annotate_video.py:331-334 | processing two lists of frames is processing their concatenation |
| Pipeline.AnnotateFile | annotate_video.py:343-351 | one frame: open, annotate, save, or the error that stops it |
| Pipeline.AnnotateFiles | annotate_video.py:341-351 | the worker yields each frame's outcome and carries on past failures |
| Pipeline.BatchesFinished | annotate_video.py:331-334 | once every batch has run, the outcomes are those of the whole frame list |
| Pipeline.ProcessFrames | annotate_video.py:331-334 | batching has no effect on the outcomes |
| Pipeline.LineEnd | annotate_video.py:286 | a line runs up to the first line break |
| Pipeline.SplitLines | annotate_video.py:286 | `splitlines()` yields lines without line breaks |
| Pipeline.SplitLinesNewline | annotate_video.py:286 | a `\n` separates one line from the rest |
| Pipeline.FirstVideoLine | annotate_video.py:286-287 | the loop stops at the first line naming `Stream`, `Video` and `fps`, and finds none exactly when there is none |
| Pipeline.FpsPartsHead | annotate_video.py:288 | the first kept part is the first comma-separated part containing `fps`, stripped |
| Pipeline.ParseFpsSpec | annotate_video.py:286-292 | the parse succeeds iff some line is a video-stream line; otherwise it raises `Cannot determine video framerate`; the frame rate is a non-empty word |
| Pipeline.ParseFpsFirstLine | annotate_video.py:286-290 | only the first video-stream line matters |
| Captions.PhraseOf | smart_vtt.py:43-45 | a phrase spans from its first word's start to its last word's end |
| Captions.InsertByStartMultiset | smart_vtt.py:24 | insertion adds the word |
| Captions.InsertByStartSorted | smart_vtt.py:24 | insertion keeps the list sorted by start |
| Captions.SortByStartSpec | smart_vtt.py:24 | the sort permutes the words into start order |
| Captions.GatherWords | smart_vtt.py:17-24 | top-level words are kept as given; otherwise the segments' words are permuted into start order |
| Captions.NormalizeWordText | smart_vtt.py:29 | a stripped word has no whitespace at either end and is the slice of the original between its blanks |
| Captions.NormalizeWordIdempotent | smart_vtt.py:28-30 | normalising twice is normalising once |
| Captions.NormalizeWords | smart_vtt.py:28-30 | the loop normalises every word in place |
| Captions.Groups | smart_vtt.py:34-52 | there is a group iff there is a word; no group is empty; the last group ends with the last word |
| Captions.GroupsFlatten | smart_vtt.py:34-52 | the phrases hold all the words, in order |
| Captions.GroupsInside | smart_vtt.py:38 | consecutive words of a phrase are less than the gap apart |
| Captions.GroupsBetween | smart_vtt.py:38-46 | consecutive phrases are at least the gap apart |
| Captions.GroupPhrases | smart_vtt.py:34-52 | the grouping loop yields the phrases of the groups |
| Captions.PhraseText | smart_vtt.py:153-164 | `phrase2text` computes the specified text |
| Captions.TextErrorStays | smart_vtt.py:153-164 | once an empty word after text raises, the rest changes nothing |
| Captions.TextFails | smart_vtt.py:159 | `phrase2text` raises iff an empty word follows a non-empty one |
| Captions.TextEmpty | smart_vtt.py:153-164 | the text is empty iff every word is empty |
| Captions.TextJoin | smart_vtt.py:153-164 | without empty words or glue characters, the text is the words joined by spaces |
| Captions.Texts | smart_vtt.py:159 | the texts of the words, in order |
| Captions.FirstOver | smart_vtt.py:93-104 | the first word whose duration from the buffer start exceeds the limit |
| Captions.BackUpSpec | smart_vtt.py:114-122 | the back-up finds a word ending in punctuation at an index in `1 .. len-2` |
| Captions.BackUpFirst | smart_vtt.py:114-122 | no nearer word ends in punctuation |
| Captions.NextCut | smart_vtt.py:93-131 | every cut makes progress |
| Captions.NextCutReason | smart_vtt.py:104-127 | a piece is cut at punctuation or because it is over the limit |
| Captions.NextCutShort | smart_vtt.py:93-134 | a phrase within the limit stays whole |
| Captions.LongWordAlone | smart_vtt.py:96-110 | a single word over the limit becomes a piece of its own |
| Captions.PiecesFlatten | smart_vtt.py:84-146 | the pieces hold all the words of the phrase, in order, and none is empty |
| Captions.PiecesOk | smart_vtt.py:84-146 | without empty words the split cannot fail |
| Captions.BackUpNoError | smart_vtt.py:114-122 | without empty words the back-up cannot fail |
| Captions.ToPhrases | smart_vtt.py:137-141 | one phrase per piece |
| Captions.SplitPhraseSpec | smart_vtt.py:84-146 | `splitphrase` partitions the phrase's words into well-formed phrases |
| Captions.BackUp | smart_vtt.py:114-127 | the back-up loop computes the specification |
| Captions.CutBuffer | smart_vtt.py:104-131 | the cut at the limit computes the specified cut |
| Captions.Cut | smart_vtt.py:88-134 | the main loop of `splitphrase` yields the specified pieces |
| Captions.MakePhrases | smart_vtt.py:137-141 | the conversion loop builds one phrase per piece |
| Captions.PrintPhrases | smart_vtt.py:143-144 | printing fails iff some piece's text raises |
| Captions.SplitPhraseMethod | smart_vtt.py:84-146 | `splitphrase` as a whole computes the specification |
| Captions.NormalizeAll | smart_vtt.py:28-30 | every word is normalised, in place |
| Captions.BuildPhrases | smart_vtt.py:17-52 | the first half of `main` groups the gathered, normalised words |
| Captions.BuildPhrasesWords | smart_vtt.py:17-52 | the phrases hold exactly the normalised words, in order |
| Captions.RephraseErrorStays | smart_vtt.py:56-62 | the first failing phrase's error is the loop's error |
| Captions.RephraseWords | smart_vtt.py:56-62 | rephrasing keeps every word, in order |
| Captions.RephraseMethod | smart_vtt.py:56-63 | the rephrase loop computes the specification |
| Captions.CaptionsKeepWords | smart_vtt.py:17-62 | the captions hold exactly the transcript's normalised words, in order |
| Captions.MakeCaptions | smart_vtt.py:17-62 | `main` up to the writing computes the specified captions |
| Labels.ToLimits | aggregate_rekognize_labels.py:16-17 | gap and length are converted from seconds to milliseconds |
| Labels.Ms2Ts | aggregate_rekognize_labels.py:97-103 | hours, minutes and seconds add up to the time in seconds |
| Labels.Ms2TsRange | aggregate_rekognize_labels.py:97-103 | for a non-negative time, minutes and seconds lie in `[0, 60)` |
| Labels.AddSample | aggregate_rekognize_labels.py:34-40 | the three `if not in` steps append the sample to its bucket |
| Labels.BucketedSpec | aggregate_rekognize_labels.py:28-40 | each bucket holds exactly its detections' samples, in order, and exists iff it has one |
| Labels.SamplesAt | aggregate_rekognize_labels.py:28-40 | a bucket never holds more samples than there are detections |
| Labels.BucketDetections | aggregate_rekognize_labels.py:28-40 | the loop computes the specified tree |
| Labels.Commit | aggregate_rekognize_labels.py:57-60 | a run is kept iff it is confident and long enough, and is kept at most once |
| Labels.Step | aggregate_rekognize_labels.py:49-68 | one sample either opens the first run, extends the open run, or commits it and opens a new one; the open run stays well counted |
| Labels.FilterBucket | aggregate_rekognize_labels.py:46-75 | the per-bucket loop computes the specified sightings |
| Labels.RunsFlatten | aggregate_rekognize_labels.py:48-68 | the runs hold all the samples, in order |
| Labels.Runs | aggregate_rekognize_labels.py:48-68 | there is a run iff there is a sample; no run is empty; the last run ends with the last sample |
| Labels.RunsInside | aggregate_rekognize_labels.py:55 | consecutive samples of a run are at most the gap apart |
| Labels.RunsBetween | aggregate_rekognize_labels.py:55-63 | consecutive runs are more than the gap apart |
| Labels.ScanRuns | aggregate_rekognize_labels.py:46-68 | the scan has committed every run but the last, and holds the last one open |
| Labels.SightingsRuns | aggregate_rekognize_labels.py:46-73 | the sightings are the kept runs, in order |
| Labels.CommitAllConfident | aggregate_rekognize_labels.py:59 | every sighting reaches the confidence threshold |
| Labels.EmptyBucket | aggregate_rekognize_labels.py:46-73 | an empty bucket would commit the `-1` sentinel run when the thresholds allow it |
| Labels.FilterTree | aggregate_rekognize_labels.py:43-75 | filtering keeps every bucket |
| Labels.FilterKeys | aggregate_rekognize_labels.py:45-75 | the key loop filters every bucket |
| Labels.FilterNames | aggregate_rekognize_labels.py:44-75 | the name loop filters every bucket |
| Labels.FilterAll | aggregate_rekognize_labels.py:43-75 | the category loop computes the specified tree |
| Labels.PruneBuckets | aggregate_rekognize_labels.py:79-87 | pruning keeps every bucket's contents and drops exactly the empty ones |
| Labels.PruneNoEmpty | aggregate_rekognize_labels.py:79-87 | no empty container survives pruning |
| Labels.PruneKeysLoop | aggregate_rekognize_labels.py:81-83 | the key loop drops exactly the empty buckets |
| Labels.PruneNamesLoop | aggregate_rekognize_labels.py:80-85 | the name loop drops exactly the names left empty |
| Labels.PruneLoop | aggregate_rekognize_labels.py:79-87 | the category loop computes the pruned tree |
| Labels.Aggregate | aggregate_rekognize_labels.py:24-87 | the script computes the specified aggregate |
| Labels.AggregateSpec | aggregate_rekognize_labels.py:28-87 | an output bucket exists iff its detections yield sightings, and then holds them |
| Labels.AggregateRuns | aggregate_rekognize_labels.py:43-87 | an output bucket is the kept runs of its detections, each at least as confident as the threshold |

## Left out

- **I/O and external programs:**
  - not modelled: argument parsing, YAML/JSON reading and writing, ffprobe/ffmpeg runs, temporary directories, image files, `print`, timing and `traceback`;
  - the model starts from the parsed data, and ParseFps starts from ffprobe's output text;
  - a frame's image I/O is an oracle (`Io`): whether the input opens and the output saves.
- **Pixels:**
  - PIL drawing is a display list of commands, so pixels are not modelled;
  - whether PIL rejects a call is an oracle, and so is the font's bounding box;
  - `ImageFont.truetype` is `Loaded(file, px)`;
  - `ImageColor.getrgb` is not modelled: colours are RGB triples from the start.
- **Concurrency:** `ProcessPoolExecutor` is modelled as running the batches in order. Frames share no state, so the order does not affect the outcomes.
- **Numbers and sorting:**
  - Python floats are exact reals; binary rounding is not captured;
  - `sort` is a stable insertion sort on start times.
- **Pydantic parsing:** parsing and validation of the YAML documents are not modelled.
- Zones.ZoneConfig.Load: requires `Declared`, so a zone's style is a name or absent, never a `Style` object written inline in the zone (annotate_video.py:45). The source accepts such a zone and keeps its style object as it is (line 81). That object is never font-loaded (lines 144-148) or given a default background (lines 88-95), because both loops visit only the styles table. The model does not capture such zones.
- Annotations.Annotate.AddAnnotations: requires that every annotation whose style is already bound names a style in the table. A `Style` object written inline in an annotation (line 173) is therefore outside the model, and so is its drawing with a font that was never loaded.
- Annotations.BindRefs: an annotation's zone is always a name resolved through `get_zone`. The source also accepts a `Zone` object written inline (line 171) and keeps it without lookup (line 245). Such a zone is drawn at its own geometry, which `set_content_size` never computed; the model cannot represent it. The annotation generators in the same repository only write zone names.
- Common.LowerChar: folds only ASCII letters, while Python's `str.lower()` also lower-cases letters outside ASCII. For zone locations this is harmless: no character outside ASCII lower-cases to `n`, `s`, `e`, `w` or `c`, so such a location fails with the same `ValidationError` either way.
- **Text output:**
  - `s2ts`, the WebVTT file and the `ms2ts` string formatting are left out;
  - `Labels.Ms2Ts` keeps the three numbers.
- **Label tree order:** the label tree is a `map`, so dictionary order affects only the output file's layout and is not modelled. Buckets are rebuilt rather than overwritten in place.
- **Frame failures:** when a frame fails, its output file is missing. The model records the failure as that frame's outcome; it does not model the missing file.
- **Sentinel cases:** the run loop uses `-1` as its "no run yet" marker (aggregate_rekognize_labels.py:46-53). This covers two different cases.
  - The empty-bucket case cannot arise: every bucket is created non-empty, and `Labels.EmptyBucket` states what the loop would do with one.
  - A detection whose `Timestamp` is `-1` is reachable on malformed input. The run it opens looks unopened, so the next item silently drops it instead of committing it (lines 50-53); only a `-1` detection that comes last in its bucket reaches the final commit. `Labels.Step` models this as written.
  - Labels.SightingsRuns and Labels.AggregateRuns: the characterisation by independent runs is stated only for detections with no `-1` timestamp (`NoSentinel`). `Labels.AggregateSpec` covers every input.
