# seed-alchemy core rules, modelled in Dafny

This project models the self-contained rules of the seed-alchemy image
generator (`simple_diffusion`): how a new image gets its file name in a
collection directory, how a failing write is retried with exponential
backoff, how the generation worker reports progress, honours a cancel request
and always ends with `task_complete`, how the settings helpers behave,
and how the thumbnail grid is sized and navigated.

Modules, one per concern:

- `Wrappers` (`wrappers.dfy`): the `Option` type.
- `ImageIds` (`image_ids.dfy`): `next_image_id` over a directory listing
  (`seq<string>`), the `re.match(r'(\d+)\.png', name)` prefix match, and the
  `'{:05d}.png'` file name built from an id, with the round trip between the two.
- `Retry` (`retry.dfy`): `retry_on_failure` as a method with a loop. The
  operation is the outcome of each successive call. The method is proved
  equal to the specification function `RetryTrace`, and the success path, the
  failure path and the sleep schedule are proved about that function.
- `Settings` (`settings.dfy`): `set_default_setting` as insert-if-absent on the
  settings map, held by the `SettingsStore` class, and `bool_setting` as a total
  conversion of a tagged value.
- `Thumbnails` (`thumbnails.dfy`): `update_icon_size`, using Python's
  truncating `int(a / b)` (the available width may be negative), and the
  `previous_image`/`next_image` cursor moves on the `ThumbnailList` class.
- `Generation` (`generation.dfy`): `GenerateThread`. It is a class with the
  `cancel` flag and the emitted signals as fields. Its methods mirror
  `run`, `run_`, `generate_callback` and `update_task_progress`. What the
  worker sees of the diffusion pipeline and the file system is an
  `Environment`:
  - whether setup raises;
  - how many sampling callbacks happen;
  - before which callback the user cancels;
  - how many save attempts fail for each returned image;
  - the collection's listing at the start.

  Exceptions used as control flow become a `RunOutcome`: `Finished`,
  `Cancelled` or `Failed`. Each method is proved against a specification
  function (`Sampling`, `ImageLog`, `PostProcess`, `RunBody`, `RunEvents`),
  and the protocol properties are lemmas about those functions.

A progress signal is recorded as `TaskProgress(step, total)`. The value the
signal carries is `Percent(step, total) = (step + 1) * 100 / total`.

The post-processing loop of `run_` advances its step counter by three per
image, whatever the upscale and face flags are. `compute_total_steps`, by
contrast, counts one unit per image plus one per enabled stage. So unless
both stages are enabled, the last progress report of a finished run is above
100 percent. For example, txt2img with 30 steps, one image and neither stage:
the total is 31, the last step is 32, and the report is 3300/31 percent.

The model keeps this behaviour as the code has it (`StepCounterEnd`,
`ProgressOvershoots`). `IntendedPostProcessSteps` models the accounting that
`compute_total_steps` assumes, where the counter advances once per stage that
ran. `IntendedProgressWithinTotal` proves that with that accounting the
progress ends at exactly 100 percent.

## Model

| member | source | states |
|---|---|---|
| ImageIds.LeadingDigits | simple_diffusion/utils.py:73 | the greedy `\d+` run: a prefix of the name, all digits, followed by a non-digit or the end |
| ImageIds.MatchImageIdIsPatternMatch | simple_diffusion/utils.py:73-74 | the match succeeds iff the name starts with one or more digits followed by `.png`; it then yields the value of those digits |
| ImageIds.MatchImageId | simple_diffusion/utils.py:73-75 | `re.match(r'(\d+)\.png', name)` and `int(match.group(1))`: the value of the leading digit run when `.png` follows it, None otherwise (its meaning is stated by MatchImageIdIsPatternMatch) |
| ImageIds.UpperCaseIgnored | simple_diffusion/utils.py:73-74 | `00001.PNG` is not matched (case-sensitive) |
| ImageIds.LetterPrefixIgnored | simple_diffusion/utils.py:73-74 | `a1.png` is not matched (anchored at the start) |
| ImageIds.SuffixAfterPngCounted | simple_diffusion/utils.py:73-75 | `7.png.bak` is matched with id 7 (prefix match) |
| ImageIds.ToDecimalIsNumeral | simple_diffusion/main.py:1035 | the decimal numeral of n is non-empty, all digits, denotes n, and has no leading zero |
| ImageIds.FormatIdIsPadded | simple_diffusion/main.py:1035 | `'{:05d}'` of n is at least 5 digits, exactly 5 below 100000, denotes n, and is zero-padded only up to width 5 |
| ImageIds.FormatImageNameRoundTrip | simple_diffusion/main.py:1034-1035 | the file name built from id n is matched by the pattern and yields n |
| ImageIds.MaxImageIdIsMaximum | simple_diffusion/utils.py:71-75 | the accumulator is at least every matched id and is itself a matched id unless it is 0 |
| ImageIds.NextImageId | simple_diffusion/utils.py:70-76 | the loop returns 1 + the largest matched id: above every id present, and one above one of them unless it is 1 |
| ImageIds.NoMatchAllocatesOne | simple_diffusion/utils.py:70-76 | with no matching name (the empty listing included) the result is 1 |
| ImageIds.OrderIndependent | simple_diffusion/utils.py:72-75 | listings with the same names in any order allocate the same id |
| ImageIds.AppendAboveMaximum | simple_diffusion/utils.py:72-75 | a name whose id is above the maximum becomes the maximum |
| ImageIds.AllocateNext | simple_diffusion/main.py:1034-1035 | after the allocated name is added to the listing, the next allocation is one higher |
| ImageIds.SequentialAllocation | simple_diffusion/main.py:1034-1035 | saving c images into an empty directory, each under the name `next_image_id` allocates from the listing as it is then, takes the names of ids 1, 2, .., c in turn and leaves c as the largest id |
| ImageIds.SequentialListing | simple_diffusion/utils.py:70-76 | a listing of exactly the names of ids 1..c is what c such saves leave, and its largest id is c, so the next allocation is c+1 |
| ImageIds.FifthImageExample | simple_diffusion/main.py:1034-1035 | after `00001.png`..`00004.png` the next name is `00005.png` |
| Retry.RetryOnFailure | simple_diffusion/utils.py:78-91 | the loop's ending, number of calls and sleeps equal `RetryTrace` |
| Retry.RetryShape | simple_diffusion/utils.py:78-91 | for any operation: at most `max_retries` calls; one sleep per failed call except the last; sleep j is `initial_delay * backoff_factor ** j`, after a failure; a returned value or propagated error is that of the last call |
| Retry.RetrySleeps | simple_diffusion/utils.py:85-91 | sleep j is `initial_delay * backoff_factor ** j` and comes after failed call j, for any operation |
| Retry.SuccessPath | simple_diffusion/utils.py:81-84 | if the first call that returns is call k < `max_retries`, its value is returned after exactly k+1 calls and k sleeps |
| Retry.FailurePath | simple_diffusion/utils.py:81-88 | if all `max_retries` calls raise, the last exception propagates after exactly `max_retries` calls and `max_retries`-1 sleeps |
| Retry.NoAttempts | simple_diffusion/utils.py:79-81 | with `max_retries <= 0` the operation is never called and the result is None |
| Retry.PowMonotone | simple_diffusion/utils.py:90 | with `backoff_factor >= 1` the factor's powers are at least 1 and never decrease |
| Retry.DelayMonotone | simple_diffusion/utils.py:90 | with a non-negative initial delay and `backoff_factor >= 1` later delays are at least as long |
| Retry.DelaysNonDecreasing | simple_diffusion/utils.py:85-91 | under the same conditions the sleeps of a run are non-negative and never decrease |
| Retry.ThreeFailuresThenSuccess | simple_diffusion/utils.py:78-91 | three failures then a success, with the defaults: the value after four calls and sleeps 0.1, 0.11, 0.121 |
| Settings.WithDefault | simple_diffusion/main.py:56-58 | an absent key gets the value, a present key keeps its value, no other key changes |
| Settings.WithDefaultIdempotent | simple_diffusion/main.py:56-58 | a second call for the same key, with any value, changes nothing |
| Settings.WithDefaultCommutes | simple_diffusion/main.py:56-58 | defaults for different keys can be applied in either order |
| Settings.SettingsStore.SetDefaultSetting | simple_diffusion/main.py:56-58 | the store's map becomes `WithDefault` of the old map |
| Settings.SettingsStore.Get | simple_diffusion/main.py:61 | `settings.value(key)`: the stored value, None iff the key is absent |
| Settings.Lower | simple_diffusion/main.py:65 | lower-casing keeps the length and maps each character |
| Settings.AsBool | simple_diffusion/main.py:60-67 | `bool_setting` on the looked-up value: a bool as itself, a string by `lower() == 'true'`, anything else false (its meaning is stated by AsBoolTrueExactly) |
| Settings.AsBoolTrueExactly | simple_diffusion/main.py:60-67 | true exactly for the stored bool true and strings spelling "true" in any case; missing values and other types give false |
| Settings.SettingsStore.BoolSetting | simple_diffusion/main.py:60-67 | `bool_setting(key)` is true iff the key is present and holds true or a string spelling "true" in any case |
| Thumbnails.TruncDiv | simple_diffusion/main.py:225 | `int(a / b)` truncates toward zero, for either sign of `a` |
| Thumbnails.ColumnCount | simple_diffusion/main.py:225-226 | at least one column |
| Thumbnails.IconSize | simple_diffusion/main.py:227-228 | the icon size lies in [100, 250] |
| Thumbnails.UpdateIconSize | simple_diffusion/main.py:222-231 | at least one column; the icon size lies in [100, 250] |
| Thumbnails.ColumnsFit | simple_diffusion/main.py:225-226 | with room for a minimum cell, the columns are as many minimum cells as fit |
| Thumbnails.IconsFit | simple_diffusion/main.py:227-228 | if c minimum cells fit, c icons of the chosen size with their spacing fit |
| Thumbnails.WideLayoutFits | simple_diffusion/main.py:224-228 | with room for a minimum cell, the column count is the largest that fits and the chosen icons fit in the available width |
| Thumbnails.NarrowLayout | simple_diffusion/main.py:224-228 | with no room for a minimum cell (a negative width included), one column of 100-pixel icons |
| Thumbnails.PreviousRow | simple_diffusion/main.py:354-357 | the row goes down by one iff it is at least 1, and stays put otherwise |
| Thumbnails.NextRow | simple_diffusion/main.py:359-362 | the row goes up by one iff that is below the count, and stays put otherwise |
| Thumbnails.MovesStayInRange | simple_diffusion/main.py:354-362 | neither move leaves [-1, count), and from a row in [0, count) neither leaves [0, count) |
| Thumbnails.ThumbnailList.PreviousImage | simple_diffusion/main.py:354-357 | the current row becomes `PreviousRow` of the old row (-1 or unchanged) and stays valid |
| Thumbnails.ThumbnailList.NextImage | simple_diffusion/main.py:359-362 | the current row becomes `NextRow` of the old row (+1 or unchanged) and stays valid |
| Generation.Truncate | simple_diffusion/main.py:1067 | `int(x)` truncates toward zero |
| Generation.PipelineSteps | simple_diffusion/main.py:1062-1069 | `compute_pipeline_steps` (its bounds are stated by PipelineStepsBounds) |
| Generation.PipelineStepsBounds | simple_diffusion/main.py:1062-1069 | the pipeline steps are the inference steps, except img2img with an image condition; with strength in [0, 1] they lie in [0, inference steps] |
| Generation.TotalSteps | simple_diffusion/main.py:1071-1078 | `compute_total_steps` (its bounds are stated by TotalStepsBounds and StepCounterEnd) |
| Generation.TotalStepsBounds | simple_diffusion/main.py:1071-1078 | 1 to 3 units per image, so the total lies in [pipeline + n, pipeline + 3n] |
| Generation.Percent | simple_diffusion/main.py:1059 | `(step + 1) * 100 / steps` over the reals (its order is stated by PercentIncreasing and PercentAbove100) |
| Generation.PercentIncreasing | simple_diffusion/main.py:1059 | a larger step gives a larger percentage |
| Generation.PercentAbove100 | simple_diffusion/main.py:1059 | the percentage exceeds 100 iff step + 1 > total, and is 100 iff step + 1 == total |
| Generation.SaveOutcome | simple_diffusion/main.py:1041 | the retried save returns its path iff fewer than `max_retries` attempts fail, and raises otherwise |
| Generation.JoinPath | simple_diffusion/main.py:1035 | `os.path.join(collection, name)` for a relative name: a `/` is put between them unless the directory is empty or already ends in one |
| Generation.SaveOutput | simple_diffusion/main.py:1033-1041 | the path written is the collection joined with the next free `'{:05d}.png'` name, or None when every attempt raises |
| Generation.SamplingEmitsNoImage | simple_diffusion/main.py:1048-1055 | sampling emits no `image_complete` and no `task_complete`; it finishes, is cancelled or divides by a zero total |
| Generation.SamplingProgress | simple_diffusion/main.py:1048-1060 | the callbacks report consecutive steps 0, 1, .. out of the total, at most one per callback |
| Generation.SamplingFinishes | simple_diffusion/main.py:1048-1055 | without a cancel request and with a non-zero total sampling finishes |
| Generation.CancelBeforeFirstCallback | simple_diffusion/main.py:1048-1050 | a cancel before the first callback ends the run with `task_complete` as the only event |
| Generation.ImageEventsValues | simple_diffusion/main.py:1012-1046 | a saved image reports steps s, s+1, s+2 and then completes with its path |
| Generation.PostProcessEnds | simple_diffusion/main.py:1001-1046 | post-processing finishes, divides by zero, or fails to write; it never emits `task_complete` |
| Generation.PostProcessFinishes | simple_diffusion/main.py:1001-1046 | with a non-zero total and every save within the retry budget it finishes |
| Generation.PostProcessPaths | simple_diffusion/main.py:1001-1046 | images complete in order, each under its own path (a prefix of the paths, all of them when it finishes); every completed image's save returned within the retry budget, and a write failure stops at the first image whose saves all raised, with no `image_complete` for it |
| Generation.PostProcessProgress | simple_diffusion/main.py:1000-1044 | the counter reports step, step+1, .. without gaps, three per image, all three for every image when it finishes |
| Generation.SavePathsConsecutive | simple_diffusion/main.py:1033-1041 | the saves take the names of consecutive ids starting one above the largest id in the listing |
| Generation.GenerateEmitsNoTaskComplete | simple_diffusion/main.py:954-1046 | `run_` never emits `task_complete` |
| Generation.TaskCompleteOnceAndLast | simple_diffusion/main.py:943-952 | `run` emits `task_complete` exactly once, last, however `run_` ends |
| Generation.GeneratePaths | simple_diffusion/main.py:998-1046 | the completed paths are the first saves' paths, each of an image whose save returned, all of them when the run finishes; a write failure stops at the first image whose saves all raised |
| Generation.RunPaths | simple_diffusion/main.py:943-1046 | the same for the whole run, `task_complete` included |
| Generation.CompletedImagesAreConsecutive | simple_diffusion/main.py:1001-1046 | at most one `image_complete` per returned image, only for images whose save returned, none for the image whose saves all raised, one each when finished, under consecutive new ids above the collection's largest |
| Generation.GenerateProgress | simple_diffusion/main.py:998-1044 | every report is out of the total, and the steps strictly increase when sampling calls back at most pipeline-steps times |
| Generation.ProgressIncreases | simple_diffusion/main.py:1000-1060 | in a run, every report uses `compute_total_steps` and the percentages strictly increase |
| Generation.GenerateFinishes | simple_diffusion/main.py:998-1046 | with no cancel, a non-zero total and saves within the budget, the run finishes; its last report is step pipeline + 3n - 1 |
| Generation.HappyPath | simple_diffusion/main.py:954-1046 | known type, working setup, no cancel, non-zero total, saves within the budget: `run_` finishes |
| Generation.StepCounterEnd | simple_diffusion/main.py:1071-1078 | the counter's end pipeline + 3n equals `compute_total_steps` iff both upscale and face are enabled |
| Generation.ProgressOvershoots | simple_diffusion/main.py:1000-1044 | as written, a finished run without both stages ends with a report above 100 percent |
| Generation.IntendedStepsConsecutive | simple_diffusion/main.py:1071-1078 | with one counter unit per stage that ran, the reports are exactly the consecutive steps up to n units per image |
| Generation.IntendedProgressWithinTotal | simple_diffusion/main.py:1071-1078 | with that accounting, every post-processing report is at most 100 percent and the last is exactly 100 |
| Generation.GenerateThread.constructor | simple_diffusion/main.py:932-941 | a new worker is not cancelled and has emitted nothing |
| Generation.GenerateThread.Cancel | simple_diffusion/main.py:1507-1509 | the window sets the worker's cancel flag |
| Generation.GenerateThread.UpdateTaskProgress | simple_diffusion/main.py:1057-1060 | emits progress of the step out of `compute_total_steps`; fails with nothing emitted iff the total is 0 |
| Generation.GenerateThread.GenerateCallback | simple_diffusion/main.py:1048-1055 | a set cancel flag stops with nothing emitted; otherwise exactly one progress report, then one preview |
| Generation.GenerateThread.RunPipeline | simple_diffusion/main.py:998 | the sampling loop's outcome, events and final cancel flag are those of `Sampling` |
| Generation.GenerateThread.PostProcessImage | simple_diffusion/main.py:1002-1046 | one image's outcome and events are those of `ImageLog` under the next free name |
| Generation.GenerateThread.PostProcessImages | simple_diffusion/main.py:1000-1046 | the loop's outcome and events are those of `PostProcess` over the successive save paths |
| Generation.GenerateThread.Run_ | simple_diffusion/main.py:954-1046 | outcome, events and cancel flag are those of `RunBody` |
| Generation.GenerateThread.Run | simple_diffusion/main.py:943-952 | the events are those of `RunEvents`: those of `run_`, then `task_complete` |

## Left out

- Qt widgets, painting, dialogs and the main window are not modelled. The settings backend is a map and `QListWidget` is a row counter.
- Image contents are not modelled: previews, upscaling, face restoration, PNG metadata and `create_thumbnail`.
- The diffusion pipeline, scheduler, prompt weighting and ControlNet preprocessing are external calls. They appear only through the `Environment`: a failing setup, a number of callbacks and a list of returned images.
- `pipeline_cache` and the choice among the Txt2Img, Img2Img and ControlNet pipelines are not modelled. Only the known/unknown task type matters to the protocol.
- File-system effects are not performed. The listing is an input. The directory changes only through the worker's own saves, and nothing else writes to it during a run.
- `time.sleep` is recorded as the delay it is asked for. Python's `ValueError` on a negative delay is the `SleepRejected` outcome.
- Threads and signal delivery are not modelled. The run is sequential, and the user's cancel request arrives at a chosen callback.
- `gc.collect`, `traceback.print_exc`, `download_file`, `recycle_file`, `reveal_in_finder` and the other file utilities are not modelled.
- Only the `'{:05d}.png'` naming shared by the move and import commands (main.py:1660-1661, 1753-1754) is modelled; the commands themselves are not.
- ImageIds.MatchImageId: `\d` is ASCII digits only. Python also matches other Unicode decimal digits.
- Settings.Lower: lower-cases ASCII letters only. Python's `str.lower` also changes non-ASCII letters; the model leaves them unchanged.
- Generation.Truncate: the product `num_inference_steps * img_strength` is exact over the reals. Python computes it in binary floating point, which can differ at the truncation boundary.
- Generation.Percent: computed over the reals, as the value `update_task_progress` computes. `task_progress` is declared `Signal(int)` and the window formats the value it receives with `{:d}`; the conversion of the computed value to that int is not modelled. ProgressIncreases states strict increase of the computed values; after a truncation to int they would only never decrease.
- Generation.Sampling: the step argument of the k-th sampling callback is taken to be k. The real value is the external pipeline's loop index; SamplingProgress, GenerateProgress and ProgressIncreases rely on this.
- Generation.SaveOutput: allocates the name once, before the retry loop, while `io_operation` calls `next_image_id` again on every attempt. The two agree because the model assumes a failed `image.save` leaves no file behind in the collection.
- Generation.RunBody: only the setup before sampling can raise (besides a zero total and a failed save). The sampling call itself and the upscale and face processors are assumed not to raise; PostProcessEnds' three endings rest on this.
- Retry.ThreeFailuresThenSuccess: the delays are exact reals. Python computes them in binary floating point (0.1 * 1.1 is 0.11000000000000001), so the exact values hold only over the reals.
- Generation.GenerateThread.constructor: takes its task type, request and collection as parameters instead of reading them from the settings.
- Generation.SaveOutput: returns only the path or None. The number of attempts and the sleeps are in `Retry.RetryOnFailure`'s results and are not passed on.
