# RiverLithoScope core in Dafny

This project models the core of RiverLithoScope, a field-geology app that
analyses photographs of river rocks.

- **Offline heuristic engine.** The app always runs it on the first captured
  image. It reads a 128 x 128 RGB grid and computes:
  - luminance, channel averages and texture;
  - a Laplacian edge sum and its 16 x 16 cell grid;
  - the biomorphic index;
  - colour bias, fossil likelihood and roundness.

  It then matches the image against the seven rock archetypes, clamps a
  confidence, and writes a seven-section report headed by an offline marker.
- **Result view.** It cuts a report into sections and renders them as cards.
  It strips card titles, builds the raw data stream and names the export
  file.
- **Field notebook.** A newest-first list of at most twenty records kept under
  one storage key. It also offers a 32-bit string hash.
- **Cloud request.** The request the app sends to the Gemini model: prompt,
  parts, generation settings, and how a reply or a failure becomes a result.
- **App state machine.** Analysis, sync, reset, removing an image and deleting
  a record, plus the precedence of what the result card shows.
- **Mode-distribution chart.** Records are grouped by date label and mode.
- **Sensitivity control.** The slider's label, its help text and its domain.

Arithmetic is exact: `real` for the engine's floating-point values and `int`
for counters. A JavaScript value that can be `NaN` or infinite is a `Number`
datatype. `Math.sqrt` is a parameter `sqrt: real -> real` constrained by
`IsSqrt` (non-negative, and its square is its argument). The non-negative
root is unique (`Numeric.SqrtUnique`), so this choice loses nothing. The
bitwise operators of the hash are modelled with ECMAScript `ToInt32`.

Outside inputs are parameters of the operations:
- how the image load ended (`Report.Load`);
- the cloud client's outcome (`Cloud.Reply`);
- the clock, the random record id;
- the date label function of the chart.

Modules:
- `Numeric`, `Outcomes`, `Text`: arithmetic, sums and means, `Option` and
  `Result`, and the JavaScript string and number formatting the code relies on.
- `Pixels`, `Features`, `Labels`, `Archetypes`, `Report`: the heuristic
  engine.
- `Sections`, `OfflineView`: the result view's splitting and cards, and the
  round trip from the engine's report through the splitter.
- `Records`, `Storage`, `Cloud`, `App`, `Statistics`, `Sensitivity`: the
  records, the notebook, the cloud request, the app's handlers, the chart and
  the sensitivity control.

Points where the code's behaviour is easy to misread; the model follows the
code:
- The "Moderate" fossil test runs before the "High (Preliminary)" one. An
  index above 1.8 with an edge density above 0.08 therefore reports
  Moderate.
- The biomorphic index has no guard against a zero grid mean. An image
  without edges gets `NaN` and hence likelihood Low.
- A uniform black image matches "Mafic Igneous" at confidence 40 (distance
  about 0.41), below the 45 cap.
- In the result view the offline marker line is the first section. Each card
  therefore shows the body numbered one below its title: card 0 shows the
  marker, card k shows section k. Section 7, the recommendations, reaches no
  card.

## Model

| member | source | states |
|---|---|---|
| Pixels.Luminance | services/heuristicEngine.ts:104 | the weighted luminance of byte channels lies in [0, 255]; a grey pixel's luminance is its channel value |
| Pixels.Grays | services/heuristicEngine.ts:95-105 | one luminance per pixel, 16384 of them, each in [0, 255] |
| Pixels.Channel | services/heuristicEngine.ts:97-103 | one channel of every pixel in buffer order, each in [0, 255] |
| Pixels.Index | services/heuristicEngine.ts:124 | a grid coordinate maps to a buffer index below 16384 |
| Features.EdgeAt | services/heuristicEngine.ts:124-132 | the absolute Laplacian at an interior pixel is non-negative |
| Features.CellOf | services/heuristicEngine.ts:136-138 | every interior pixel maps to a cell `floor(y/8)*16 + floor(x/8)` below 256 |
| Features.GridEdges | services/heuristicEngine.ts:120-140 | 256 cell sums, all non-negative |
| Features.GridSumIsEdgeSum | services/heuristicEngine.ts:122-140 | the cell sums add up to the edge sum |
| Features.NormalizedEdge | services/heuristicEngine.ts:142 | the normalised edge density is non-negative and is the edge sum over the full 16384 * 255, not the interior |
| Features.BiomorphicIndex | services/heuristicEngine.ts:146-148 | the index is NaN exactly when the grid mean is 0, and finite otherwise |
| Features.TextureScore | services/heuristicEngine.ts:114-115 | the texture score is the non-negative root of the population variance of the luminances |
| Features.ByteMean | services/heuristicEngine.ts:107-111 | the mean of byte-valued samples lies in [0, 255] |
| Features.Extract | services/heuristicEngine.ts:94-148 | the feature vector's averages lie in [0, 255], the texture is the root of the variance, the edge density is non-negative, and the index is NaN iff the grid mean is 0 |
| Features.UniformFeatures | services/heuristicEngine.ts:104-148 | a uniform image has the pixel's channels as averages, variance and texture 0, edge density 0 and index NaN |
| Features.AccumulatePixels | services/heuristicEngine.ts:94-105 | the pixel loop's running totals are the channel sums, and the luminance list is `Grays` |
| Features.ScanRow | services/heuristicEngine.ts:123-139 | one row of the edge loop adds that row's edges to the sum and to their cells |
| Features.ScanInterior | services/heuristicEngine.ts:122-140 | the edge loop computes `EdgeSum` and `GridEdges`, and the cells add up to the edge sum |
| Labels.DetectBias | services/heuristicEngine.ts:161-165 | red, green and blue are reported only when their test holds, and neutral only when none does |
| Labels.BiasTestsExclusive | services/heuristicEngine.ts:161-165 | each colour is reported iff its test holds, and no two tests hold together |
| Labels.BiasShiftInvariant | services/heuristicEngine.ts:163-165 | adding the same amount to all three averages does not change the bias |
| Labels.RedExample | services/heuristicEngine.ts:163 | averages (200, 100, 100) give red |
| Labels.BiasName | services/heuristicEngine.ts:198 | the upper-cased bias word has 3 to 7 letters |
| Labels.FossilLikelihood | services/heuristicEngine.ts:150-159 | Moderate iff index > 1.2 and edge > 0.08; High only when index > 1.8 and the edge test failed; Low otherwise |
| Labels.ModerateShadowsHigh | services/heuristicEngine.ts:153-157 | an input meeting both the Moderate and the High test reports Moderate |
| Labels.FossilNotMonotoneInEdges | services/heuristicEngine.ts:153-157 | at index 2.0, edge density 0.05 gives High and 0.10 gives Moderate |
| Labels.NaNIndexIsLow | services/heuristicEngine.ts:148-159 | a NaN index makes both comparisons false, so the likelihood is Low |
| Labels.IndexThresholdSquared | services/heuristicEngine.ts:148-153 | with a positive mean, `sqrt(v)/mean > c` iff `v > c^2 * mean^2` |
| Labels.FossilDetails | services/heuristicEngine.ts:150-158 | the Moderate explanation quotes the formatted index |
| Labels.RoundnessOf | services/heuristicEngine.ts:186-190 | well rounded iff edge < 0.06, angular iff > 0.16, sub-angular iff in (0.11, 0.16], sub-rounded iff in [0.06, 0.11] |
| Labels.RoundnessName | services/heuristicEngine.ts:186-190 | the four roundness texts the template prints; its contract is its body, and RoundnessOf above carries which class each edge density gets |
| Labels.RoundnessMonotone | services/heuristicEngine.ts:186-190 | more edge density never gives a rounder class |
| Archetypes.BiasPenalty | services/heuristicEngine.ts:175 | the bias term is 0 when the colour bias matches the archetype and 0.5 otherwise |
| Archetypes.Distance | services/heuristicEngine.ts:172-177 | the distance is the bias term plus the root of the weighted squared offsets |
| Archetypes.Distances | services/heuristicEngine.ts:171-177 | one distance per table entry, in table order |
| Archetypes.Scan | services/heuristicEngine.ts:168-182 | the strict-less-than scan ends at the first index of the minimum |
| Archetypes.BestMatch | services/heuristicEngine.ts:168-182 | the match is an entry of the seven-entry table, at the first index of minimal distance, so a tie keeps the earlier entry |
| Archetypes.FirstMinUnique | services/heuristicEngine.ts:168-182 | the first-minimum index is unique |
| Archetypes.Confidence | services/heuristicEngine.ts:184 | the confidence always lies in [15, 45] |
| Archetypes.ConfidenceSaturates | services/heuristicEngine.ts:184 | a distance up to 0.2 gives 45, and from 1.4 on gives 15 |
| Archetypes.ConfidenceMonotone | services/heuristicEngine.ts:184 | a larger distance never gives a larger confidence |
| Archetypes.BlackProbeNearestMafic | services/heuristicEngine.ts:168-182 | for zero brightness, texture and edges with no bias, the mafic entry is the strict first minimum, at a distance strictly between 0.38 and 0.42 |
| Archetypes.ConfidenceForty | services/heuristicEngine.ts:184 | every distance strictly between 0.38 and 0.42 rounds to confidence 40 |
| Report.Analyze | services/heuristicEngine.ts:94-190 | the analysis combines the features, bias, fossil verdict, roundness, best match and clamped confidence as the engine defines them |
| Report.Body1 | services/heuristicEngine.ts:193 | the identification line with the matched name and description; its contract is its body, and Report.IgneousNames, OfflineView.BodiesSplittable and OfflineView.ImageReportSplit carry what it means for the view |
| Report.Body2 | services/heuristicEngine.ts:194 | the fixed drainage line; its contract is its body, and OfflineView.BodiesSplittable shows it survives the split |
| Report.Body3 | services/heuristicEngine.ts:195 | the transport line with the edge density as a one-decimal percentage and the roundness text; its contract is its body, and OfflineView.FixedNumeral shows the number cannot form a delimiter |
| Report.Body4 | services/heuristicEngine.ts:196-199 | the fossil, mineral and grain lines; its contract is its body, and OfflineView.BodiesSplittable shows the body survives the split |
| Report.Body5 | services/heuristicEngine.ts:200 | the placer line; its contract is its body, and Report.PlacerModerateIffIgneous carries its meaning |
| Report.Body6 | services/heuristicEngine.ts:201 | the confidence line; its contract is its body, and Archetypes.Confidence bounds the number it prints |
| Report.Body7 | services/heuristicEngine.ts:202 | the recommendations line; its contract is its body, and Report.TargetIffFossilSignal carries its meaning |
| Report.Numbered | services/heuristicEngine.ts:193-202 | the bodies each prefixed with their number and ". "; its contract is its body, and OfflineView.NumberedSplit proves the split gives the bodies back |
| Report.Compose | services/heuristicEngine.ts:192-202 | the composed report starts with the offline marker |
| Report.Bodies | services/heuristicEngine.ts:193-202 | the report has exactly seven section bodies |
| Report.ImageReport | services/heuristicEngine.ts:192-202 | the report of any decoded image starts with the offline marker |
| Report.RunLocalHeuristic | services/heuristicEngine.ts:78-205 | the promise's text starts with the offline marker iff the image loaded and was analysed |
| Report.FailureTextsUnmarked | services/heuristicEngine.ts:86 | neither load-failure message starts with the marker, and neither is empty |
| Report.HeuristicNonEmpty | services/heuristicEngine.ts:78-205 | the heuristic always resolves with non-empty text |
| Report.IgneousNames | services/heuristicEngine.ts:12-76 | exactly the first two archetype names contain "Igneous" |
| Report.PlacerModerateIffIgneous | services/heuristicEngine.ts:200 | section 5 says Moderate iff the matched archetype is one of the two igneous ones |
| Report.TargetIffFossilSignal | services/heuristicEngine.ts:202 | section 7 names structural anomalies iff either fossil test fired |
| Report.UniformImageAnalysis | services/heuristicEngine.ts:104-202 | a uniform image gets likelihood Low, class well rounded, texture 0 and the "lithology" target |
| Report.BlackImageIsMafic | services/heuristicEngine.ts:94-184 | an all-black image matches the mafic archetype (index 1) at confidence 40, below the 45 cap |
| Sections.SplitRaw | components/ResultView.tsx:36 | the split yields at least one piece, and the first piece is a prefix of the text |
| Sections.SplitPieces | components/ResultView.tsx:36 | after the empty pieces are dropped, no piece is empty and none contains a delimiter |
| Sections.SplitWhole | components/ResultView.tsx:36 | text without a delimiter is one section, or none when empty |
| Sections.SplitJoin | components/ResultView.tsx:36 | a delimiter-free prefix that cannot join into a delimiter stays in the first piece |
| Sections.SplitAtDelim | components/ResultView.tsx:36 | a digit, a full stop and a whitespace run are removed whole, leaving an empty piece before them |
| Sections.NonEmpty | components/ResultView.tsx:36 | `filter(Boolean)` keeps only non-empty pieces, all of them from the input |
| Sections.Split | components/ResultView.tsx:36-37 | the split of content and of the comparison text; its contract is its body, and Sections.SplitPieces, Sections.SplitWhole and OfflineView.ComposeSplit carry its meaning |
| Sections.SectionOr | components/ResultView.tsx:134-135 | a card shows its piece when there is a non-empty one, else the placeholder |
| Sections.RenderedOutsideCompare | components/ResultView.tsx:133-137 | outside compare mode exactly the cards below min(7, pieces) render, each with its own piece |
| Sections.EightPieceCards | components/ResultView.tsx:133-137 | with eight pieces, exactly cards 0 to 6 render in both modes, each showing its own piece |
| Sections.StripTitle | components/ResultView.tsx:155 | stripping the title never lengthens the text |
| Sections.StripTitlePrefix | components/ResultView.tsx:186 | text opening with "title:" shows the trimmed rest |
| Sections.StripTitleAbsent | components/ResultView.tsx:167 | text without "title:" is only trimmed |
| Sections.RawStream | components/ResultView.tsx:220-221 | the stream starts with the content; something follows it exactly when the comparison is non-empty, and then the separator, after which the comparison is read back whole |
| Sections.Dashed | components/ResultView.tsx:63 | every ':' and '.' of the timestamp becomes '-', and every other character is kept |
| Sections.ExportName | components/ResultView.tsx:63-64 | the file name is the prefix, the dashed timestamp and ".txt", with no ':' or '.' between them |
| Sections.ExportNameKeepsDigits | components/ResultView.tsx:63-64 | every timestamp character other than ':' and '.' appears in place in the name |
| OfflineView.FixedNumeral | services/heuristicEngine.ts:195 | `toFixed` writes a numeral whose point is followed by a digit, so no delimiter can match inside it |
| Text.Fixed | services/heuristicEngine.ts:195-199 | the toFixed(d) text of a non-negative number is a digit run, a point and d digits |
| Text.FixedValue | services/heuristicEngine.ts:195-199 | read without its point, the toFixed(d) text is x·10^d rounded to the nearest integer |
| OfflineView.NumberedSplit | services/heuristicEngine.ts:193-202 | the splitter undoes the "k. " numbering, giving back the bodies in order |
| OfflineView.ComposeSplit | components/ResultView.tsx:36 | a composed report splits into the marker line followed by its bodies |
| OfflineView.BodiesSplittable | services/heuristicEngine.ts:193-202 | every body the engine writes survives the split unchanged |
| OfflineView.AnalysisRenderable | services/heuristicEngine.ts:94-202 | the analysis of every image meets the conditions under which the bodies survive |
| OfflineView.ImageReportSplit | services/heuristicEngine.ts:192-202 | the view splits the engine's report into the marker line and the seven bodies, in order |
| OfflineView.MarkerCard | components/ResultView.tsx:186 | the first card shows the marker line without its newline |
| OfflineView.OfflineCards | components/ResultView.tsx:133-137 | on the offline report exactly cards 0 to 6 render, card k showing piece k, so the recommendations body reaches no card |
| Records.ParseMode | types.ts:2-6 | a stored mode string read back as a mode names exactly that mode's text |
| Records.ModeRoundTrip | types.ts:2-6 | each mode's text reads back as that mode, so the three texts differ |
| Storage.GetRecords | services/storageService.ts:32-35 | an unwritten slot reads as the empty list, a written one as its records |
| Storage.Save | services/storageService.ts:37-42 | the saved list is non-empty, at most twenty long and starts with the new record; Storage.SaveOrder states the rest of the order |
| Storage.SaveOrder | services/storageService.ts:37-42 | after a save the record leads, the older ones follow in order, the length is min(old + 1, 20), and only the oldest are dropped |
| Storage.SaveKeepsDuplicates | services/storageService.ts:37-42 | below capacity a save adds one more record with the id, even when the id is already present |
| Storage.FindIndex | services/storageService.ts:46 | the index found is the first record with the id, and none means no record has it |
| Storage.Synced | services/storageService.ts:48-49 | syncing sets the cloud text, clears the queued flag and changes no other field |
| Storage.Update | services/storageService.ts:44-52 | an absent id leaves the storage as it was; the list keeps its length and every position keeps its id; Storage.UpdatePresent states which record changes |
| Storage.UpdatePresent | services/storageService.ts:44-52 | an update changes exactly the first record with the id and keeps every other record |
| Storage.UpdateAbsent | services/storageService.ts:47 | an update of an absent id leaves the slot untouched |
| Storage.Delete | services/storageService.ts:54-57 | after a delete no record has the id, and the length drops by the number that had it |
| Storage.DeleteProperties | services/storageService.ts:54-57 | a delete keeps every record with another id, and deleting twice is deleting once |
| Storage.WithoutIdConcat | services/storageService.ts:56 | the filter keeps the survivors' relative order |
| Storage.HashStep | services/storageService.ts:26-27 | each step leaves the hash in the signed 32-bit range |
| Storage.HashStepIsTimes31 | services/storageService.ts:26-27 | the shift-subtract-add step is `ToInt32(31 * h + code)` |
| Storage.GenerateHash | services/storageService.ts:22-28 | the loop computes the left-to-right hash, stays 32-bit, and gives 0 for the empty string |
| Storage.Radix36 | services/storageService.ts:29 | `toString(36)` writes base-36 digits whose value is the number |
| Storage.HashText | services/storageService.ts:29 | the rendering starts with '-' iff the hash is negative |
| Storage.HashTextInjective | services/storageService.ts:29 | distinct hashes never render alike |
| Storage.GenerateHashText | services/storageService.ts:22-30 | the empty string hashes to "0" |
| Sensitivity.LabelIntervals | components/ModeSelector.tsx:27-31 | speculative iff below 30, conservative iff above 70, balanced iff 30 to 70, so exactly one label applies |
| Sensitivity.Label | components/ModeSelector.tsx:27-31 | the slider label; its contract is its body, and Sensitivity.LabelIntervals carries its meaning |
| Sensitivity.HelpText | components/ModeSelector.tsx:94-98 | the help text under the slider; its contract is its body, and Sensitivity.HelpAgreesWithLabel carries its meaning |
| Sensitivity.SliderValue | components/ModeSelector.tsx:78-82 | the values the range input can take; its contract is its body, and Sensitivity.SliderStances carries its meaning |
| Sensitivity.HelpAgreesWithLabel | components/ModeSelector.tsx:94-98 | the help text always matches the label |
| Sensitivity.SliderStances | components/ModeSelector.tsx:78-82 | on the slider, speculative is {10, 15, 20, 25} and conservative is {75, 80, 85, 90} |
| Sensitivity.InitialBalanced | App.tsx:17 | the starting value 60 is a balanced slider position |
| Cloud.InstructionFor | services/geminiService.ts:32-36 | a valid mode text gets its mode's instruction; any other string gets "undefined" |
| Cloud.ModeInstruction | services/geminiService.ts:32-36 | the instruction text of each mode; its contract is its body, and Cloud.InstructionForMode carries its meaning |
| Cloud.InstructionForMode | services/geminiService.ts:32-36 | each of the three modes has its instruction |
| Cloud.GuidanceAgreesWithLabel | services/geminiService.ts:38-42 | the prompt's guidance follows the same partition as the selector's label |
| Cloud.Guidance | services/geminiService.ts:38-42 | the guidance sentence for a sensitivity; its contract is its body, and Cloud.GuidanceAgreesWithLabel carries its meaning |
| Cloud.Temperature | services/geminiService.ts:71 | the temperature is 0.7 iff the sensitivity is below 40, else 0.3 |
| Cloud.TemperatureDisagrees | services/geminiService.ts:71 | exactly the slider values 30 and 35 are labelled balanced yet use 0.7 |
| Cloud.OrNotAvailable | services/geminiService.ts:53-54 | a missing or empty field prints "N/A" |
| Cloud.LogContextEmptyIff | services/geminiService.ts:51-54 | the log context is empty only without a log; an empty log still prints both "N/A" lines |
| Cloud.LogContext | services/geminiService.ts:51-54 | the field-observation lines; its contract is its body, and Cloud.LogContextEmptyIff carries its meaning |
| Cloud.Prompt | services/geminiService.ts:56-63 | the text part of the request; its contract is its body, and Cloud.InstructionFor, Cloud.GuidanceAgreesWithLabel and Cloud.LogContextEmptyIff carry the meaning of its pieces |
| Cloud.ImageParts | services/geminiService.ts:44-49 | one inline part per image, in order, carrying its data and type |
| Cloud.ImagePartsRoundTrip | services/geminiService.ts:44-49 | the payloads read back from the image parts are the images |
| Cloud.BuildRequest | services/geminiService.ts:56-74 | the fixed model, system instruction, topP 0.8 and topK 40; the image parts in order, then the single text part |
| Cloud.RequestKeepsImages | services/geminiService.ts:68 | the parts before the text part give back exactly the images |
| Cloud.AnalyzeGeology | services/geminiService.ts:77-81 | a reply succeeds with its text or the fallback text, never empty; a thrown error becomes the fixed message; a failure constructing the client (line 30, outside the `try`) keeps its own message |
| Statistics.InsertByTime | components/FieldStatistics.tsx:17 | inserting into a time-sorted list gives a sorted permutation with one more record |
| Statistics.SortByTime | components/FieldStatistics.tsx:17 | the sorted records are a permutation of the input, ascending by timestamp |
| Statistics.Bump | components/FieldStatistics.tsx:28 | a record of a valid mode raises its date's total by exactly one; another mode string changes no total |
| Statistics.IndexOfDate | components/FieldStatistics.tsx:21 | a date's bucket is found iff a bucket has that date |
| Statistics.FirstsSpec | components/FieldStatistics.tsx:31 | the date keys are each date once, and only the dates that occur |
| Statistics.GroupSpec | components/FieldStatistics.tsx:19-31 | buckets appear in order of each date's first record, and each counter counts exactly its date's records of that mode |
| Statistics.Group | components/FieldStatistics.tsx:19-29 | the dataMap built by the forEach; its contract is its body, and Statistics.GroupSpec checks it against the reference definitions |
| Statistics.GroupTotal | components/FieldStatistics.tsx:19-29 | the bucket totals add up to the number of records with a valid mode |
| Statistics.MaxTotal | components/FieldStatistics.tsx:32-34 | the maximum is at least 1 and every total, and is 1 or some bucket's total |
| Statistics.Height | components/FieldStatistics.tsx:66-76 | a bar's height is non-negative and at most 100% when its count is at most the maximum |
| Statistics.BarHeights | components/FieldStatistics.tsx:59-76 | each of the three bars is at most 100%, and together they make the bucket's share of the maximum, at most 100% |
| Statistics.FieldStatistics | components/FieldStatistics.tsx:11-34 | there is no chart exactly when there are no records |
| Statistics.ChartSpec | components/FieldStatistics.tsx:11-89 | a non-empty list gives at least one bucket, so the "Insufficient data" branch is unreachable; buckets follow first appearance and count every record with a valid mode |
| App.Initial | App.tsx:15-28 | the app starts in professional mode at sensitivity 60 (a balanced slider value) with an empty log, nothing captured or active, no error, and the notebook read from storage |
| App.RemoveImage | App.tsx:58-60 | only the images list changes, and it becomes the images whose id differs |
| App.ImagesWithoutKeepsOthers | App.tsx:59 | every image with another id is kept |
| App.RemoveImageIdempotent | App.tsx:58-60 | removing an image twice is removing it once, and no image with the id remains |
| App.AnalysisRequest | App.tsx:86-91 | the analysis asks with the current temperature, every image, and the prompt built with the log object even when it is empty |
| App.RunAnalysis | App.tsx:62-106 | the images, mode, sensitivity, log and connectivity are untouched, any error is non-empty, and the analysing flag ends false once there were images |
| App.AnalysisNeedsImages | App.tsx:63-66 | without images only the "Please capture or upload images for analysis." error is set, and nothing is saved or shown |
| App.AnalysisAnswered | App.tsx:74-100 | online with an answer, the new record carries the cloud text and is not queued; it is saved first and made active, and the error is cleared |
| App.AnalysisFailed | App.tsx:101-105 | online without an answer nothing is saved, the active record stays, and the error is the failure's message or "Geological computation failed." |
| App.AnalysisOffline | App.tsx:94-100 | offline the record has no cloud text and is queued; it is saved and active, and the offline notice is shown |
| App.SyncRequest | App.tsx:112-117 | a sync asks with the record's stored mode text and log but the slider's current sensitivity |
| App.SyncResendsAnalysis | App.tsx:76-87 | syncing a record an analysis wrote sends the same images in the same order with the same mode instruction |
| App.SyncDropsEmptyLog | App.tsx:81-90 | when the form was empty the analysis prompt has the observation lines but the later sync's prompt has none |
| App.SyncRecord | App.tsx:108-130 | offline the handler changes nothing; online the analysing flag ends false and the capture state is untouched |
| App.SyncAnswered | App.tsx:118-124 | an answered sync syncs exactly the first stored record with the id, replaces an active record with that id, and leaves the error as it was |
| App.SyncAnsweredAbsent | App.tsx:118-124 | an answered sync of a record no longer stored writes nothing and keeps the active record |
| App.SyncFailedKeeps | App.tsx:125-126 | a failed sync changes no record and shows "Sync failed. Connection might be unstable." |
| App.Reset | App.tsx:132-137 | reset clears the images, the active record, the error and the log, and keeps the mode, sensitivity and notebook |
| App.ResetThenAnalyze | App.tsx:132-137 | resetting twice is resetting once, and an analysis right after a reset only asks for images |
| App.DeleteRecord | App.tsx:193-196 | after a delete the notebook is reread and no record has the id, but the active record is not cleared |
| App.DeleteKeepsOthers | App.tsx:193-196 | a delete keeps every record with another id, and is idempotent |
| App.FirstText | App.tsx:343 | the first present, non-empty text of a list; empty only when every entry is missing or empty |
| App.ContentIsFirstText | App.tsx:343 | the card shows the first non-empty text among cloud, heuristic and legacy result, and is empty only when all three are |
| App.Content | App.tsx:343 | the text the result view shows; its contract is its body, and App.ContentIsFirstText carries its meaning |
| App.Comparison | App.tsx:344 | the comparison text, the heuristic result only beside a cloud answer; its contract is its body, and App.AnsweredCard and App.OfflineCard carry its meaning |
| App.Badge | App.tsx:326 | the badge text; its contract is its body, and App.BadgeOfflineIff carries its meaning |
| App.BadgeOfflineIff | App.tsx:326 | for a record of one of the three modes, the badge reads "OFFLINE HEURISTIC" exactly when there is no cloud text |
| App.AnsweredCard | App.tsx:323-344 | after an answered analysis the card shows the cloud text beside the heuristic, under the upper-cased mode badge, with no sync button |
| App.OfflineCard | App.tsx:323-344 | after an offline analysis the card shows the heuristic text alone under the offline badge; the text opens with the offline marker iff the image loaded, and the record is offered for sync once back online |
| App.SyncedCard | App.tsx:118-124 | after an answered sync of the active record, the card shows the cloud text beside the heuristic and the sync button goes |

## Left out

- IEEE-754 rounding: the engine's values are exact reals, so last-digit differences from double arithmetic are not modelled.
- `toFixed` for values of 1e21 and above (exponent notation) is not modelled. All the engine's values are far below that.
- Image decoding and canvas resampling: the 128 x 128 grid is the input. How the load ended (no 2-D context, load error, or decoded) is the parameter `Report.Load`.
- App.RunAnalysis: the load outcome is a parameter. It is not derived from the first image's URL.
- The Gemini SDK and the network: the call's outcome is the parameter `Cloud.Reply`. The system instruction is carried by name (`Cloud.GeologyAdvisor`) and its text is a constant.
- `localStorage` and JSON: the storage slot is a datatype, and the JSON round trip is taken as the identity on records. Quota and parse errors are not modelled.
- Storage.GenerateHash: the hash works over a sequence of UTF-16 code units. Turning a string into code units is not modelled.
- Text.Upper: upper-cases ASCII letters only. This is enough for the mode texts and the bias words.
- React rendering, icons and CSS, and the online/offline event listeners: connectivity is a state field.
- The history panel's "View Record" button only sets the active record, so it has no operation of its own.
- `components/SampleLogForm.tsx` and `components/Layout.tsx`: form state, the geolocation API and page chrome; the log is a state field.
- `Date.now`, `toLocaleDateString`, `toISOString` and `Math.random` ids: the time, the date label, the ISO timestamp and the record id are parameters.
- Async ordering: each handler is one sequential transition. A failure in a storage write inside the `try` is not modelled.
- Statistics.FirstsSpec: the bucket order is the date labels' first-appearance order. This is JavaScript's `Object.keys` order for non-integer-like keys such as "Oct 10". Integer-like labels, which JavaScript lists first, are not modelled.
- Statistics.SortByTime: an insertion sort stands in for `Array.prototype.sort`. Only the sorted order and the multiset of records are stated, which is all the grouping reads.
