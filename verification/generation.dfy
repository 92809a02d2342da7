/**
 * The generation worker (`GenerateThread`): it runs one request, reports
 * progress and previews from the sampling callback, post-processes and saves
 * every image the pipeline returns, and always ends with `task_complete`.
 *
 * The diffusion pipeline and the image processors are not modelled; what the
 * worker sees of them is an `Environment`: whether setting up the pipeline
 * raises, how many times sampling calls back, before which callback the user
 * asks to cancel, how many save attempts fail for each returned image, and the
 * collection's directory listing at the start. Exceptions used as control flow
 * become the `RunOutcome` of the run.
 */
module Generation {
  import opened Wrappers
  import opened ImageIds
  import Retry

  datatype TaskType = Txt2Img | Img2Img | UnknownType

  /** The kind of the configured condition (`configuration.conditions.get(...)`, None when absent). */
  datatype Condition = Img2ImgCondition | ControlNetCondition | NoCondition

  /** The parts of the image metadata that steer progress accounting. */
  datatype ImageMetadata = ImageMetadata(
    numInferenceSteps: int,
    imgStrength: real,
    condition: Condition,
    upscaleEnabled: bool,
    faceEnabled: bool)

  datatype Request = Request(metadata: ImageMetadata, numImagesPerPrompt: int)

  /** Python's `int(x)` on a float: truncation toward zero. */
  function Truncate(x: real): (n: int)
    ensures x >= 0.0 ==> 0 <= n && n as real <= x < n as real + 1.0
    ensures x < 0.0 ==> n <= 0 && n as real - 1.0 < x <= n as real
  {
    if x >= 0.0 then x.Floor else -((-x).Floor)
  }

  /** `compute_pipeline_steps`. */
  function PipelineSteps(t: TaskType, m: ImageMetadata): int {
    if t == Img2Img && m.condition == Img2ImgCondition then
      Truncate(m.numInferenceSteps as real * m.imgStrength)
    else
      m.numInferenceSteps
  }

  /** Progress units reported per image by `compute_total_steps`: the save, plus one per enabled stage. */
  function StepsPerImage(m: ImageMetadata): int {
    1 + (if m.upscaleEnabled then 1 else 0) + (if m.faceEnabled then 1 else 0)
  }

  /** `compute_total_steps`. */
  function TotalSteps(t: TaskType, req: Request): int {
    PipelineSteps(t, req.metadata) + req.numImagesPerPrompt * StepsPerImage(req.metadata)
  }

  /** The pipeline steps are the inference steps, except for img2img with an image condition, where
      they are the truncated `steps * strength`: never negative and never above the inference
      steps while the strength is in [0, 1]. */
  lemma PipelineStepsBounds(t: TaskType, m: ImageMetadata)
    requires m.numInferenceSteps >= 0 && 0.0 <= m.imgStrength <= 1.0
    ensures 0 <= PipelineSteps(t, m) <= m.numInferenceSteps
    ensures !(t == Img2Img && m.condition == Img2ImgCondition) ==> PipelineSteps(t, m) == m.numInferenceSteps
  {
    if t == Img2Img && m.condition == Img2ImgCondition {
      var s := m.numInferenceSteps as real;
      var x := s * m.imgStrength;
      assert 0.0 <= x <= s by {
        assert s * (1.0 - m.imgStrength) >= 0.0;
      }
      var n := Truncate(x);
      assert n as real <= s;
    }
  }

  /** The total is the pipeline steps plus one to three units per image. */
  lemma TotalStepsBounds(t: TaskType, req: Request)
    requires req.numImagesPerPrompt >= 0
    ensures 1 <= StepsPerImage(req.metadata) <= 3
    ensures var p, n := PipelineSteps(t, req.metadata), req.numImagesPerPrompt;
      p + n <= TotalSteps(t, req) <= p + 3 * n
  {
    var n := req.numImagesPerPrompt;
    var k := StepsPerImage(req.metadata);
    assert n * k - n == n * (k - 1) >= 0;
    assert 3 * n - n * k == n * (3 - k) >= 0;
  }

  /** `(step + 1) * 100 / total`, the percentage `update_task_progress` emits. */
  function Percent(step: int, total: int): real
    requires total != 0
  {
    (step + 1) as real * 100.0 / total as real
  }

  lemma PercentIncreasing(a: int, b: int, total: int)
    requires total > 0 && a < b
    ensures Percent(a, total) < Percent(b, total)
  {
    var t := total as real;
    var x, y := (a + 1) as real * 100.0, (b + 1) as real * 100.0;
    assert x < y;
    assert y / t - x / t == (y - x) / t;
  }

  /** The percentage exceeds 100 exactly when the step is at or past the total. */
  lemma PercentAbove100(step: int, total: int)
    requires total > 0
    ensures Percent(step, total) > 100.0 <==> step + 1 > total
    ensures Percent(step, total) == 100.0 <==> step + 1 == total
  {
    var t := total as real;
    var x := (step + 1) as real * 100.0;
    assert x / t * t == x;
    assert 100.0 * t == total as real * 100.0;
  }

  /** The signals the worker emits. A progress report is recorded by the step and total it was
      computed from; the value the signal carries is `TaskProgress(step, total)`. */
  datatype Event =
    | TaskProgress(step: int, total: int)
    | ImagePreview(step: int)
    | ImageComplete(path: string)
    | TaskComplete

  /** Why `run_` stopped by an exception other than the cancellation signal. */
  datatype Failure =
    | ZeroDivision       // `compute_total_steps()` was 0 in `update_task_progress`
    | UnknownTaskType    // neither txt2img nor img2img: `pipeline_type` is never bound
    | SetupError         // pipeline construction, source image, scheduler or prompt encoding raised
    | WriteError         // every allowed save attempt raised

  datatype RunOutcome = Finished | Cancelled | Failed(failure: Failure)

  /** How (part of) a run ended and what it emitted. */
  datatype Log = Log(outcome: RunOutcome, events: seq<Event>)

  function Then(prefix: seq<Event>, l: Log): Log {
    Log(l.outcome, prefix + l.events)
  }

  /** What the worker sees of the outside world during one run. */
  datatype Environment = Environment(
    setupFails: bool,          // something before sampling raises
    samplingCallbacks: nat,    // the sampling loop calls back with step 0, 1, .., samplingCallbacks - 1
    cancelAt: nat,             // the user asks to cancel just before that callback (never, if >= samplingCallbacks)
    writeFailures: seq<nat>,   // one entry per returned image: how many of its save attempts raise
    listing: seq<string>)      // the collection directory's names when the run starts

  /** Defaults of `retry_on_failure`, which the worker calls without arguments. */
  const MaxRetries: int := 10
  const InitialDelay: real := 0.1
  const BackoffFactor: real := 1.1

  datatype SaveError = SaveFailed

  /** The save operation of one image: its first `failures` calls raise, later ones return `path`. */
  function SaveAttempts(failures: nat, path: string): nat -> Retry.Attempt<string, SaveError> {
    k => if k < failures then Retry.Raise(SaveFailed) else Retry.Success(path)
  }

  function SaveTrace(failures: nat, path: string): Retry.Trace<string, SaveError> {
    Retry.RetryTrace(SaveAttempts(failures, path), MaxRetries, InitialDelay, BackoffFactor)
  }

  /** A save returns its path when fewer than `max_retries` attempts fail, and raises otherwise. */
  lemma SaveOutcome(failures: nat, path: string)
    ensures SaveTrace(failures, path).outcome ==
      if failures < MaxRetries then Retry.Returned(path) else Retry.Raised(SaveFailed)
  {
    var op := SaveAttempts(failures, path);
    if failures < MaxRetries {
      Retry.SuccessPath(op, MaxRetries, InitialDelay, BackoffFactor, 0, failures);
    } else {
      Retry.FailurePath(op, MaxRetries, InitialDelay, BackoffFactor, 0);
    }
  }

  /** `os.path.join(collection, name)` for a relative `name`. */
  function JoinPath(dir: string, name: string): string {
    if dir == [] || dir[|dir| - 1] == '/' then dir + name else dir + "/" + name
  }

  /** The file name `io_operation` allocates in a directory with this listing. */
  function OutputName(listing: seq<string>): string {
    FormatImageName(MaxImageId(listing) + 1)
  }

  /** The sampling loop from callback `i` on: each callback first checks the cancel flag, then
      reports progress (raising on a zero total) and one preview. Also gives the final flag. */
  function Sampling(total: int, cancel: bool, cancelAt: nat, i: nat, n: nat): (Log, bool)
    decreases if i < n then n - i else 0
  {
    if i >= n then (Log(Finished, []), cancel)
    else if cancel || i == cancelAt then (Log(Cancelled, []), true)
    else if total == 0 then (Log(Failed(ZeroDivision), []), false)
    else
      var (rest, flag) := Sampling(total, false, cancelAt, i + 1, n);
      (Then([TaskProgress(i, total), ImagePreview(i)], rest), flag)
  }

  /** One image of the post-processing loop of `run_`: progress after the upscale stage (the
      division raises on a zero total), progress after the face stage, the retried save, which
      raises exactly when all `max_retries` attempts fail (`SaveOutcome`), progress after the
      save, then `image_complete` with the saved path. */
  function ImageLog(total: int, step: int, path: string, failures: nat): Log {
    if total == 0 then Log(Failed(ZeroDivision), [])
    else if failures >= MaxRetries then Log(Failed(WriteError), [TaskProgress(step, total)] + [TaskProgress(step + 1, total)])
    else Log(Finished, ImageEvents(total, step, path))
  }

  /** The paths `n` images are saved under when each save takes the next free name of the
      directory as it is by then (the earlier saves included). */
  function SavePaths(collection: string, listing: seq<string>, n: nat): (paths: seq<string>)
    ensures |paths| == n
    decreases n
  {
    if n == 0 then []
    else
      var name := OutputName(listing);
      [JoinPath(collection, name)] + SavePaths(collection, listing + [name], n - 1)
  }

  /** The post-processing loop of `run_` as written, one image after the other, image `k` being
      saved under `paths[k]`. The step counter advances by 3 per image. */
  function PostProcess(total: int, images: seq<nat>, step: int, paths: seq<string>): Log
    requires |paths| == |images|
    decreases |images|
  {
    if images == [] then Log(Finished, [])
    else
      var first := ImageLog(total, step, paths[0], images[0]);
      if first.outcome != Finished then first
      else Then(first.events, PostProcess(total, images[1..], step + 3, paths[1..]))
  }

  /** The run after setup, given the two step counts: sampling, then, if it finished,
      post-processing from the pipeline steps on. Also gives the cancel flag afterwards. */
  function Generate(total: int, pipelineSteps: int, collection: string, cancel: bool, env: Environment): (Log, bool) {
    var (sampled, flag) := Sampling(total, cancel, env.cancelAt, 0, env.samplingCallbacks);
    if sampled.outcome != Finished then (sampled, flag)
    else (Then(sampled.events, PostProcess(total, env.writeFailures, pipelineSteps, SavePaths(collection, env.listing, |env.writeFailures|))), flag)
  }

  /** `run_`: what it emits, how it ends, and the cancel flag afterwards. */
  function RunBody(t: TaskType, req: Request, collection: string, cancel: bool, env: Environment): (Log, bool) {
    if t == UnknownType then (Log(Failed(UnknownTaskType), []), cancel)
    else if env.setupFails then (Log(Failed(SetupError), []), cancel)
    else Generate(TotalSteps(t, req), PipelineSteps(t, req.metadata), collection, cancel, env)
  }

  /** `run`: the events of `run_`, then `task_complete` whatever `run_` did. */
  function RunEvents(t: TaskType, req: Request, collection: string, cancel: bool, env: Environment): seq<Event> {
    RunBody(t, req, collection, cancel, env).0.events + [TaskComplete]
  }

  /** The event itself if it is a progress report. */
  function ProgressOf(e: Event): seq<Event> {
    if e.TaskProgress? then [e] else []
  }

  /** The path one event announces, if it is an `image_complete`. */
  function PathOf(e: Event): seq<string> {
    if e.ImageComplete? then [e.path] else []
  }

  /** The progress reports among some events, in order. */
  function ProgressReports(events: seq<Event>): seq<Event> {
    if events == [] then [] else ProgressOf(events[0]) + ProgressReports(events[1..])
  }

  /** The paths of the `image_complete` events, in order. */
  function CompletedPaths(events: seq<Event>): seq<string> {
    if events == [] then [] else PathOf(events[0]) + CompletedPaths(events[1..])
  }

  lemma AppendAssociative(a: seq<Event>, b: seq<Event>, c: seq<Event>)
    ensures (a + b) + c == a + (b + c)
  {
  }

  lemma ValuesCons(e: Event, rest: seq<Event>)
    ensures ProgressReports([e] + rest) == ProgressOf(e) + ProgressReports(rest)
    ensures CompletedPaths([e] + rest) == PathOf(e) + CompletedPaths(rest)
  {
    assert ([e] + rest)[0] == e && ([e] + rest)[1..] == rest;
  }

  lemma {:induction false} ValuesAppend(a: seq<Event>, b: seq<Event>)
    ensures ProgressReports(a + b) == ProgressReports(a) + ProgressReports(b)
    ensures CompletedPaths(a + b) == CompletedPaths(a) + CompletedPaths(b)
  {
    if a == [] {
      assert a + b == b;
    } else {
      assert a + b == [a[0]] + (a[1..] + b);
      assert a == [a[0]] + a[1..];
      ValuesCons(a[0], a[1..] + b);
      ValuesCons(a[0], a[1..]);
      ValuesAppend(a[1..], b);
    }
  }

  lemma TaskCompleteValues()
    ensures ProgressReports([TaskComplete]) == [] && CompletedPaths([TaskComplete]) == []
  {
    ValuesCons(TaskComplete, []);
    assert [TaskComplete] + [] == [TaskComplete];
  }

  /** Sampling emits neither `image_complete` nor `task_complete`, and it finishes, is cancelled
      or divides by a zero total. */
  lemma {:induction false} SamplingEmitsNoImage(total: int, cancel: bool, cancelAt: nat, i: nat, n: nat)
    ensures var l := Sampling(total, cancel, cancelAt, i, n).0;
      && TaskComplete !in l.events && CompletedPaths(l.events) == []
      && (l.outcome == Finished || l.outcome == Cancelled || l.outcome == Failed(ZeroDivision))
    decreases if i < n then n - i else 0
  {
    if i < n && !(cancel || i == cancelAt) && total != 0 {
      SamplingEmitsNoImage(total, false, cancelAt, i + 1, n);
      CallbackReports(total, i, Sampling(total, false, cancelAt, i + 1, n).0.events);
    }
  }

  /** The events of one sampling callback, followed by others: the callback reports its own
      progress first and completes no image. */
  lemma CallbackReports(total: int, i: int, rest: seq<Event>)
    ensures ProgressReports([TaskProgress(i, total), ImagePreview(i)] + rest) == [TaskProgress(i, total)] + ProgressReports(rest)
    ensures CompletedPaths([TaskProgress(i, total), ImagePreview(i)] + rest) == CompletedPaths(rest)
  {
    assert [TaskProgress(i, total), ImagePreview(i)] + rest == [TaskProgress(i, total)] + ([ImagePreview(i)] + rest);
    ValuesCons(ImagePreview(i), rest);
    ValuesCons(TaskProgress(i, total), [ImagePreview(i)] + rest);
  }

  /** Reports of consecutive steps from `i + 1`, preceded by the report of step `i`, are reports
      of consecutive steps from `i`. */
  lemma ShiftProgress(total: int, i: int, pv: seq<Event>)
    requires forall k :: 0 <= k < |pv| ==> pv[k] == TaskProgress(i + 1 + k, total)
    ensures forall k :: 0 <= k < |pv| + 1 ==> ([TaskProgress(i, total)] + pv)[k] == TaskProgress(i + k, total)
  {
    forall k | 0 <= k < |pv| + 1
      ensures ([TaskProgress(i, total)] + pv)[k] == TaskProgress(i + k, total)
    {
      if k > 0 {
        assert ([TaskProgress(i, total)] + pv)[k] == pv[k - 1];
      }
    }
  }

  /** Sampling reports, for each callback it lets through, the progress `(i+1)*100/total` of
      that callback's step, and lets through at most the callbacks that remain. */
  lemma {:induction false} SamplingProgress(total: int, cancel: bool, cancelAt: nat, i: nat, n: nat)
    ensures var pv := ProgressReports(Sampling(total, cancel, cancelAt, i, n).0.events);
      && |pv| <= (if i < n then n - i else 0)
      && forall k :: 0 <= k < |pv| ==> total != 0 && pv[k] == TaskProgress(i + k, total)
    decreases if i < n then n - i else 0
  {
    if i < n && !(cancel || i == cancelAt) && total != 0 {
      SamplingProgress(total, false, cancelAt, i + 1, n);
      var rest := Sampling(total, false, cancelAt, i + 1, n).0;
      CallbackReports(total, i, rest.events);
      ShiftProgress(total, i, ProgressReports(rest.events));
    }
  }

  /** The events of one image whose save returned `path`, as `PostProcess` emits them. */
  function ImageEvents(total: int, step: int, path: string): seq<Event> {
    [TaskProgress(step, total)] + ([TaskProgress(step + 1, total)] +
      ([TaskProgress(step + 2, total)] + [ImageComplete(path)]))
  }

  /** One step of `PostProcess` on a non-empty list of images. */
  lemma PostProcessStep(total: int, images: seq<nat>, step: int, paths: seq<string>)
    requires images != [] && |paths| == |images| && total != 0
    ensures var l := PostProcess(total, images, step, paths);
      if images[0] < MaxRetries then
        var rest := PostProcess(total, images[1..], step + 3, paths[1..]);
        l == Log(rest.outcome, ImageEvents(total, step, paths[0]) + rest.events)
      else
        l == Log(Failed(WriteError), [TaskProgress(step, total)] + [TaskProgress(step + 1, total)])
  {
  }

  /** The loop of `PostProcess` advanced past its next image: with the events so far `done`,
      the whole log is that image's, or, once it is saved, that image's then the rest's. */
  lemma PostProcessAdvance(total: int, rest: seq<nat>, paths: seq<string>, step: int, done: seq<Event>, whole: Log)
    requires rest != [] && |paths| == |rest|
    requires whole == Then(done, PostProcess(total, rest, step, paths))
    ensures var first := ImageLog(total, step, paths[0], rest[0]);
      if first.outcome != Finished then whole == Log(first.outcome, done + first.events)
      else whole == Then(done + first.events, PostProcess(total, rest[1..], step + 3, paths[1..]))
  {
    var first := ImageLog(total, step, paths[0], rest[0]);
    var next := PostProcess(total, rest[1..], step + 3, paths[1..]);
    assert done + (first.events + next.events) == (done + first.events) + next.events;
  }

  lemma ImageEventsValues(total: int, step: int, path: string)
    requires total != 0
    ensures ProgressReports(ImageEvents(total, step, path)) == [TaskProgress(step, total), TaskProgress(step + 1, total), TaskProgress(step + 2, total)]
    ensures CompletedPaths(ImageEvents(total, step, path)) == [path]
    ensures TaskComplete !in ImageEvents(total, step, path)
  {
    ValuesCons(ImageComplete(path), []);
    ValuesCons(TaskProgress(step + 2, total), [ImageComplete(path)]);
    ValuesCons(TaskProgress(step + 1, total), [TaskProgress(step + 2, total)] + [ImageComplete(path)]);
    ValuesCons(TaskProgress(step, total), [TaskProgress(step + 1, total)] + ([TaskProgress(step + 2, total)] + [ImageComplete(path)]));
  }

  /** Post-processing never emits `task_complete` and is never cancelled: it finishes, divides by
      a zero total, or fails to save. */
  lemma {:induction false} PostProcessEnds(total: int, images: seq<nat>, step: int, paths: seq<string>)
    requires |paths| == |images|
    ensures var l := PostProcess(total, images, step, paths);
      && TaskComplete !in l.events
      && (l.outcome == Finished || l.outcome == Failed(ZeroDivision) || l.outcome == Failed(WriteError))
    decreases |images|
  {
    if images != [] && total != 0 {
      PostProcessStep(total, images, step, paths);
      ImageEventsValues(total, step, paths[0]);
      PostProcessEnds(total, images[1..], step + 3, paths[1..]);
    }
  }

  /** `os.path.join(collection, name)` for each name. */
  function InDirectory(collection: string, names: seq<string>): (paths: seq<string>)
    ensures |paths| == |names|
  {
    if names == [] then [] else [JoinPath(collection, names[0])] + InDirectory(collection, names[1..])
  }

  lemma InDirectoryNamesFrom(collection: string, first: nat, count: nat)
    requires count > 0
    ensures InDirectory(collection, NamesFrom(first, count)) ==
      [JoinPath(collection, FormatImageName(first))] + InDirectory(collection, NamesFrom(first + 1, count - 1))
  {
    var names := NamesFrom(first, count);
    assert names == [FormatImageName(first)] + NamesFrom(first + 1, count - 1);
    assert names[0] == FormatImageName(first) && names[1..] == NamesFrom(first + 1, count - 1);
  }

  /** The first of the next `n` saves takes the next free name of `listing`; the others follow
      from the listing that then holds that name. */
  lemma SavePathsNext(collection: string, listing: seq<string>, n: nat)
    requires n > 0
    ensures var paths := SavePaths(collection, listing, n);
      && paths[0] == JoinPath(collection, OutputName(listing))
      && paths[1..] == SavePaths(collection, listing + [OutputName(listing)], n - 1)
  {
  }

  /** One turn of the post-processing loop from directory listing `listing`: the image is saved
      under the next free name, and the rest are saved from the listing that then holds it. */
  lemma PostProcessTurn(total: int, collection: string, listing: seq<string>, rest: seq<nat>, step: int,
                        done: seq<Event>, whole: Log)
    requires rest != []
    requires whole == Then(done, PostProcess(total, rest, step, SavePaths(collection, listing, |rest|)))
    ensures var first := ImageLog(total, step, JoinPath(collection, OutputName(listing)), rest[0]);
      var grown := listing + [OutputName(listing)];
      if first.outcome != Finished then whole == Log(first.outcome, done + first.events)
      else whole == Then(done + first.events, PostProcess(total, rest[1..], step + 3, SavePaths(collection, grown, |rest| - 1)))
  {
    SavePathsNext(collection, listing, |rest|);
    PostProcessAdvance(total, rest, SavePaths(collection, listing, |rest|), step, done, whole);
  }

  /** Saving one image after the other takes the names of the consecutive ids following the
      largest id of the listing. */
  lemma {:induction false} SavePathsConsecutive(collection: string, listing: seq<string>, n: nat)
    ensures SavePaths(collection, listing, n) == InDirectory(collection, NamesFrom(MaxImageId(listing) + 1, n))
    decreases n
  {
    if n > 0 {
      var m := MaxImageId(listing);
      var grown := listing + [OutputName(listing)];
      SavePathsConsecutive(collection, grown, n - 1);
      AllocateNext(listing);
      InDirectoryNamesFrom(collection, m + 1, n);
    }
  }

  /** Post-processing completes the images in order, each under its path, and only images whose
      save returned within the retry budget: the completed paths are a prefix of `paths`, all of
      them when it finishes, and a failed write stops at the first image whose saves all raised. */
  lemma {:induction false} PostProcessPaths(total: int, images: seq<nat>, step: int, paths: seq<string>)
    requires |paths| == |images|
    ensures var l := PostProcess(total, images, step, paths);
      var done := CompletedPaths(l.events);
      && |done| <= |paths| && done == paths[..|done|]
      && (forall k :: 0 <= k < |done| ==> images[k] < MaxRetries)
      && (l.outcome == Finished ==> done == paths)
      && (l.outcome == Failed(WriteError) ==> |done| < |images| && images[|done|] >= MaxRetries)
    decreases |images|
  {
    var l := PostProcess(total, images, step, paths);
    if images != [] && total != 0 {
      PostProcessStep(total, images, step, paths);
      if images[0] < MaxRetries {
        var rest := PostProcess(total, images[1..], step + 3, paths[1..]);
        PostProcessPaths(total, images[1..], step + 3, paths[1..]);
        ImageEventsValues(total, step, paths[0]);
        ValuesAppend(ImageEvents(total, step, paths[0]), rest.events);
        var done := CompletedPaths(l.events);
        var later := CompletedPaths(rest.events);
        assert done == [paths[0]] + later;
        assert paths == [paths[0]] + paths[1..];
        forall k | 0 <= k < |done|
          ensures images[k] < MaxRetries
        {
          if k > 0 {
            assert images[k] == images[1..][k - 1];
          }
        }
        if l.outcome == Failed(WriteError) {
          assert images[|done|] == images[1..][|later|];
        }
      } else {
        ValuesCons(TaskProgress(step + 1, total), []);
        ValuesCons(TaskProgress(step, total), [TaskProgress(step + 1, total)]);
      }
    }
  }

  /** Post-processing, as written, reports the steps `step, step+1, ..` without gaps, three per
      image, all three for every image when it finishes. */
  lemma {:induction false} PostProcessProgress(total: int, images: seq<nat>, step: int, paths: seq<string>)
    requires |paths| == |images|
    ensures var l := PostProcess(total, images, step, paths);
      var pv := ProgressReports(l.events);
      && |pv| <= 3 * |images|
      && (l.outcome == Finished ==> |pv| == 3 * |images|)
      && forall k :: 0 <= k < |pv| ==> total != 0 && pv[k] == TaskProgress(step + k, total)
    decreases |images|
  {
    var l := PostProcess(total, images, step, paths);
    if images != [] && total != 0 {
      var path := paths[0];
      PostProcessStep(total, images, step, paths);
      var pv := ProgressReports(l.events);
      if images[0] < MaxRetries {
        var rest := PostProcess(total, images[1..], step + 3, paths[1..]);
        PostProcessProgress(total, images[1..], step + 3, paths[1..]);
        ImageEventsValues(total, step, path);
        ValuesAppend(ImageEvents(total, step, path), rest.events);
        assert pv == [TaskProgress(step, total), TaskProgress(step + 1, total), TaskProgress(step + 2, total)] + ProgressReports(rest.events);
        forall k | 0 <= k < |pv|
          ensures pv[k] == TaskProgress(step + k, total)
        {
          if k >= 3 {
            assert pv[k] == ProgressReports(rest.events)[k - 3];
          }
        }
      } else {
        ValuesCons(TaskProgress(step + 1, total), []);
        ValuesCons(TaskProgress(step, total), [TaskProgress(step + 1, total)]);
      }
    }
  }

  lemma GenerateEmitsNoTaskComplete(total: int, p: int, collection: string, cancel: bool, env: Environment)
    ensures TaskComplete !in Generate(total, p, collection, cancel, env).0.events
  {
    SamplingEmitsNoImage(total, cancel, env.cancelAt, 0, env.samplingCallbacks);
    PostProcessEnds(total, env.writeFailures, p, SavePaths(collection, env.listing, |env.writeFailures|));
  }

  /** `run` emits `task_complete` exactly once, as its last event, however `run_` ends. */
  lemma TaskCompleteOnceAndLast(t: TaskType, req: Request, collection: string, cancel: bool, env: Environment)
    ensures var e := RunEvents(t, req, collection, cancel, env);
      |e| >= 1 && e[|e| - 1] == TaskComplete &&
      forall i :: 0 <= i < |e| - 1 ==> e[i] != TaskComplete
  {
    GenerateEmitsNoTaskComplete(TotalSteps(t, req), PipelineSteps(t, req.metadata), collection, cancel, env);
    var body := RunBody(t, req, collection, cancel, env).0;
    assert TaskComplete !in body.events;
    var e := RunEvents(t, req, collection, cancel, env);
    assert e[..|e| - 1] == body.events;
  }

  lemma GeneratePaths(total: int, p: int, collection: string, cancel: bool, env: Environment)
    ensures var l := Generate(total, p, collection, cancel, env).0;
      var paths := CompletedPaths(l.events);
      var saves := SavePaths(collection, env.listing, |env.writeFailures|);
      && |paths| <= |env.writeFailures| && paths == saves[..|paths|]
      && (forall k :: 0 <= k < |paths| ==> env.writeFailures[k] < MaxRetries)
      && (l.outcome == Finished ==> paths == saves)
      && (l.outcome == Failed(WriteError) ==> |paths| < |env.writeFailures| && env.writeFailures[|paths|] >= MaxRetries)
  {
    SamplingEmitsNoImage(total, cancel, env.cancelAt, 0, env.samplingCallbacks);
    PostProcessPaths(total, env.writeFailures, p, SavePaths(collection, env.listing, |env.writeFailures|));
    var sampled := Sampling(total, cancel, env.cancelAt, 0, env.samplingCallbacks).0;
    var l := Generate(total, p, collection, cancel, env).0;
    if sampled.outcome == Finished {
      var post := PostProcess(total, env.writeFailures, p, SavePaths(collection, env.listing, |env.writeFailures|));
      assert l == Log(post.outcome, sampled.events + post.events);
      ValuesAppend(sampled.events, post.events);
      assert CompletedPaths(l.events) == CompletedPaths(post.events);
    } else {
      assert l == sampled;
    }
  }

  /** The images a run completes carry the names of consecutive new ids, starting one above the
      largest id already in the collection; there is at most one `image_complete` per returned
      image, none for an image whose saves all raised (the run stops there), and exactly one
      each when the run finishes. */
  lemma CompletedImagesAreConsecutive(t: TaskType, req: Request, collection: string, cancel: bool, env: Environment)
    ensures var body := RunBody(t, req, collection, cancel, env).0;
      var paths := CompletedPaths(RunEvents(t, req, collection, cancel, env));
      && |paths| <= |env.writeFailures|
      && (forall k :: 0 <= k < |paths| ==> env.writeFailures[k] < MaxRetries)
      && (body.outcome == Finished ==> |paths| == |env.writeFailures|)
      && (body.outcome == Failed(WriteError) ==> |paths| < |env.writeFailures| && env.writeFailures[|paths|] >= MaxRetries)
      && paths == InDirectory(collection, NamesFrom(MaxImageId(env.listing) + 1, |env.writeFailures|))[..|paths|]
  {
    RunPaths(t, req, collection, cancel, env);
    SavePathsConsecutive(collection, env.listing, |env.writeFailures|);
  }

  /** The paths a run announces are those of its first saves, each of which returned within the
      retry budget, all of them when it finishes. */
  lemma RunPaths(t: TaskType, req: Request, collection: string, cancel: bool, env: Environment)
    ensures var body := RunBody(t, req, collection, cancel, env).0;
      var paths := CompletedPaths(RunEvents(t, req, collection, cancel, env));
      var saves := SavePaths(collection, env.listing, |env.writeFailures|);
      && |paths| <= |env.writeFailures| && paths == saves[..|paths|]
      && (forall k :: 0 <= k < |paths| ==> env.writeFailures[k] < MaxRetries)
      && (body.outcome == Finished ==> paths == saves)
      && (body.outcome == Failed(WriteError) ==> |paths| < |env.writeFailures| && env.writeFailures[|paths|] >= MaxRetries)
  {
    var body := RunBody(t, req, collection, cancel, env).0;
    ValuesAppend(body.events, [TaskComplete]);
    TaskCompleteValues();
    GeneratePaths(TotalSteps(t, req), PipelineSteps(t, req.metadata), collection, cancel, env);
  }

  /** A cancel requested before the first callback stops the run with no progress, no preview
      and no image: the only event is `task_complete`. */
  lemma CancelBeforeFirstCallback(t: TaskType, req: Request, collection: string, cancel: bool, env: Environment)
    requires t != UnknownType && !env.setupFails
    requires env.samplingCallbacks > 0 && (cancel || env.cancelAt == 0)
    ensures RunBody(t, req, collection, cancel, env).0 == Log(Cancelled, [])
    ensures RunEvents(t, req, collection, cancel, env) == [TaskComplete]
  {
  }

  /** Every progress report of the run after setup is out of `total`, and their steps strictly
      increase when sampling calls back no more often than the pipeline steps. */
  lemma GenerateProgress(total: int, p: int, collection: string, cancel: bool, env: Environment)
    requires env.samplingCallbacks <= p
    ensures var pv := ProgressReports(Generate(total, p, collection, cancel, env).0.events);
      && (forall k :: 0 <= k < |pv| ==> pv[k].TaskProgress? && pv[k].total == total)
      && forall i, j :: 0 <= i < j < |pv| ==> pv[i].step < pv[j].step
  {
    var l := Generate(total, p, collection, cancel, env).0;
    var pv := ProgressReports(l.events);
    SamplingProgress(total, cancel, env.cancelAt, 0, env.samplingCallbacks);
    var sampled := Sampling(total, cancel, env.cancelAt, 0, env.samplingCallbacks).0;
    if sampled.outcome == Finished {
      var post := PostProcess(total, env.writeFailures, p, SavePaths(collection, env.listing, |env.writeFailures|));
      PostProcessProgress(total, env.writeFailures, p, SavePaths(collection, env.listing, |env.writeFailures|));
      ValuesAppend(sampled.events, post.events);
      var c := |ProgressReports(sampled.events)|;
      assert forall k :: 0 <= k < |pv| ==> pv[k] == TaskProgress(if k < c then k else p + (k - c), total);
    } else {
      assert forall k :: 0 <= k < |pv| ==> pv[k] == TaskProgress(k, total);
    }
  }

  /** Within one run every progress report is out of `compute_total_steps`, and the reported
      percentages strictly increase, provided sampling calls back no more often than the pipeline
      steps it was configured with and the total is positive. */
  lemma ProgressIncreases(t: TaskType, req: Request, collection: string, cancel: bool, env: Environment)
    requires TotalSteps(t, req) > 0
    requires env.samplingCallbacks <= PipelineSteps(t, req.metadata)
    ensures var pv := ProgressReports(RunEvents(t, req, collection, cancel, env));
      var total := TotalSteps(t, req);
      && (forall k :: 0 <= k < |pv| ==> pv[k].TaskProgress? && pv[k].total == total)
      && forall i, j :: 0 <= i < j < |pv| ==> Percent(pv[i].step, total) < Percent(pv[j].step, total)
  {
    var body := RunBody(t, req, collection, cancel, env).0;
    var total := TotalSteps(t, req);
    ValuesAppend(body.events, [TaskComplete]);
    TaskCompleteValues();
    GenerateProgress(total, PipelineSteps(t, req.metadata), collection, cancel, env);
    var pv := ProgressReports(body.events);
    assert ProgressReports(RunEvents(t, req, collection, cancel, env)) == pv;
    forall i, j | 0 <= i < j < |pv|
      ensures Percent(pv[i].step, total) < Percent(pv[j].step, total)
    {
      PercentIncreasing(pv[i].step, pv[j].step, total);
    }
  }

  /** After setup the run goes through when nobody cancels during sampling, the total is
      non-zero and every image saves within the retry budget; its last progress report is then
      the post-processing counter's last value, three units per image past the pipeline steps. */
  lemma GenerateFinishes(total: int, p: int, collection: string, env: Environment)
    requires env.cancelAt >= env.samplingCallbacks && total != 0
    requires forall j :: 0 <= j < |env.writeFailures| ==> env.writeFailures[j] < MaxRetries
    ensures var l := Generate(total, p, collection, false, env).0;
      var pv := ProgressReports(l.events);
      && l.outcome == Finished
      && (|env.writeFailures| > 0 ==> |pv| > 0 && pv[|pv| - 1] == TaskProgress(p + 3 * |env.writeFailures| - 1, total))
  {
    var n := |env.writeFailures|;
    SamplingFinishes(total, env.cancelAt, 0, env.samplingCallbacks);
    PostProcessFinishes(total, env.writeFailures, p, SavePaths(collection, env.listing, |env.writeFailures|));
    var sampled := Sampling(total, false, env.cancelAt, 0, env.samplingCallbacks).0;
    var post := PostProcess(total, env.writeFailures, p, SavePaths(collection, env.listing, |env.writeFailures|));
    PostProcessProgress(total, env.writeFailures, p, SavePaths(collection, env.listing, |env.writeFailures|));
    ValuesAppend(sampled.events, post.events);
    if n > 0 {
      assert ProgressReports(post.events)[3 * n - 1] == TaskProgress(p + 3 * n - 1, total);
    }
  }

  /** The run goes through when the type is known, setup works, nobody cancels during sampling,
      the total is non-zero and every image saves within the retry budget. */
  lemma HappyPath(t: TaskType, req: Request, collection: string, env: Environment)
    requires t != UnknownType && !env.setupFails && env.cancelAt >= env.samplingCallbacks
    requires TotalSteps(t, req) != 0
    requires forall j :: 0 <= j < |env.writeFailures| ==> env.writeFailures[j] < MaxRetries
    ensures RunBody(t, req, collection, false, env).0.outcome == Finished
  {
    GenerateFinishes(TotalSteps(t, req), PipelineSteps(t, req.metadata), collection, env);
  }

  lemma {:induction false} SamplingFinishes(total: int, cancelAt: nat, i: nat, n: nat)
    requires total != 0 && cancelAt >= n
    ensures Sampling(total, false, cancelAt, i, n).0.outcome == Finished
    decreases if i < n then n - i else 0
  {
    if i < n {
      SamplingFinishes(total, cancelAt, i + 1, n);
    }
  }

  lemma {:induction false} PostProcessFinishes(total: int, images: seq<nat>, step: int, paths: seq<string>)
    requires total != 0 && |paths| == |images|
    requires forall j :: 0 <= j < |images| ==> images[j] < MaxRetries
    ensures PostProcess(total, images, step, paths).outcome == Finished
    decreases |images|
  {
    if images != [] {
      PostProcessFinishes(total, images[1..], step + 3, paths[1..]);
    }
  }

  /** As written, the post-processing counter starts at the pipeline steps and ends three units
      per image later; that end equals `compute_total_steps` only when both stages are enabled. */
  lemma StepCounterEnd(t: TaskType, req: Request)
    requires req.numImagesPerPrompt >= 1
    ensures PipelineSteps(t, req.metadata) + 3 * req.numImagesPerPrompt == TotalSteps(t, req)
            <==> req.metadata.upscaleEnabled && req.metadata.faceEnabled
  {
    var n := req.numImagesPerPrompt;
    var k := StepsPerImage(req.metadata);
    assert 3 * n - n * k == n * (3 - k);
    if 3 * n == n * k {
      assert n * (3 - k) == 0;
    }
  }

  /** As written, a run that saves all `num_images_per_prompt` images without both the upscale
      and the face stage enabled reports a last progress value above 100 percent. */
  lemma ProgressOvershoots(t: TaskType, req: Request, collection: string, env: Environment)
    requires t != UnknownType && !env.setupFails && env.cancelAt >= env.samplingCallbacks
    requires TotalSteps(t, req) > 0
    requires forall j :: 0 <= j < |env.writeFailures| ==> env.writeFailures[j] < MaxRetries
    requires |env.writeFailures| == req.numImagesPerPrompt >= 1
    requires !(req.metadata.upscaleEnabled && req.metadata.faceEnabled)
    ensures var pv := ProgressReports(RunEvents(t, req, collection, false, env));
      && |pv| > 0 && pv[|pv| - 1] == TaskProgress(PipelineSteps(t, req.metadata) + 3 * req.numImagesPerPrompt - 1, TotalSteps(t, req))
      && Percent(pv[|pv| - 1].step, TotalSteps(t, req)) > 100.0
  {
    var total := TotalSteps(t, req);
    var p := PipelineSteps(t, req.metadata);
    var n := req.numImagesPerPrompt;
    GenerateFinishes(total, p, collection, env);
    var body := RunBody(t, req, collection, false, env).0;
    ValuesAppend(body.events, [TaskComplete]);
    TaskCompleteValues();
    TotalStepsBounds(t, req);
    StepCounterEnd(t, req);
    PercentAbove100(p + 3 * n - 1, total);
  }

  /** The step arguments of the progress reports of one image if the counter advanced only for
      the stages that ran: upscale (if enabled), face restoration (if enabled), the save. */
  function IntendedImageSteps(m: ImageMetadata, step: int): seq<int> {
    var u := if m.upscaleEnabled then [step] else [];
    var f := if m.faceEnabled then [step + |u|] else [];
    u + f + [step + |u| + |f|]
  }

  /** The intended step arguments for `n` images, starting at `step`. */
  function IntendedPostProcessSteps(m: ImageMetadata, n: nat, step: int): seq<int> {
    if n == 0 then [] else IntendedImageSteps(m, step) + IntendedPostProcessSteps(m, n - 1, step + StepsPerImage(m))
  }

  /** With the counter advanced per executed stage the reports are exactly the consecutive steps
      `step .. step + n * StepsPerImage - 1`; from the pipeline steps this ends at
      `compute_total_steps - 1`, i.e. progress never exceeds 100 and ends at exactly 100. */
  lemma {:induction false} IntendedStepsConsecutive(m: ImageMetadata, n: nat, step: int)
    ensures var s := IntendedPostProcessSteps(m, n, step);
      |s| == n * StepsPerImage(m) && forall k :: 0 <= k < |s| ==> s[k] == step + k
  {
    if n > 0 {
      IntendedStepsConsecutive(m, n - 1, step + StepsPerImage(m));
      var h := IntendedImageSteps(m, step);
      var s := IntendedPostProcessSteps(m, n, step);
      assert |h| == StepsPerImage(m);
      assert forall k :: 0 <= k < |h| ==> h[k] == step + k;
      assert (n - 1) * StepsPerImage(m) + StepsPerImage(m) == n * StepsPerImage(m);
      forall k | 0 <= k < |s|
        ensures s[k] == step + k
      {
        if k >= |h| {
          assert s[k] == IntendedPostProcessSteps(m, n - 1, step + StepsPerImage(m))[k - |h|];
        }
      }
    }
  }

  /** With the intended counter, every post-processing report of a request is at most 100 percent
      and the last one is exactly 100. */
  lemma IntendedProgressWithinTotal(t: TaskType, req: Request)
    requires req.numImagesPerPrompt >= 1 && PipelineSteps(t, req.metadata) >= 0
    ensures var s := IntendedPostProcessSteps(req.metadata, req.numImagesPerPrompt, PipelineSteps(t, req.metadata));
      var total := TotalSteps(t, req);
      && total > 0 && |s| > 0
      && (forall k :: 0 <= k < |s| ==> Percent(s[k], total) <= 100.0)
      && Percent(s[|s| - 1], total) == 100.0
  {
    var n := req.numImagesPerPrompt;
    var p := PipelineSteps(t, req.metadata);
    var s := IntendedPostProcessSteps(req.metadata, n, p);
    var total := TotalSteps(t, req);
    IntendedStepsConsecutive(req.metadata, n, p);
    TotalStepsBounds(t, req);
    assert |s| == total - p;
    forall k | 0 <= k < |s|
      ensures Percent(s[k], total) <= 100.0
    {
      PercentAbove100(s[k], total);
    }
    PercentAbove100(s[|s| - 1], total);
  }

  /** The `io_operation` of `run_` under `retry_on_failure()`: allocate the next free name in the
      collection and write the image there, whose first `failures` attempts raise. Gives the
      path written, or None when the error propagates. */
  method SaveOutput(collection: string, listing: seq<string>, failures: nat) returns (saved: Option<string>)
    ensures saved == if failures < MaxRetries then Some(JoinPath(collection, OutputName(listing))) else None
  {
    var id := NextImageId(listing);
    var outputPath := JoinPath(collection, FormatImageName(id));
    var outcome, calls, sleeps := Retry.RetryOnFailure(SaveAttempts(failures, outputPath), MaxRetries, InitialDelay, BackoffFactor);
    SaveOutcome(failures, outputPath);
    if outcome.Returned? {
      saved := Some(outcome.value);
    } else {
      saved := None;
    }
  }

  /** The worker thread: the cancel flag the user sets and the signals emitted so far. */
  class GenerateThread {
    var cancel: bool
    var events: seq<Event>
    const taskType: TaskType
    const req: Request
    const collection: string

    constructor (taskType: TaskType, req: Request, collection: string)
      ensures this.taskType == taskType && this.req == req && this.collection == collection
      ensures !cancel && events == []
    {
      this.taskType := taskType;
      this.req := req;
      this.collection := collection;
      cancel := false;
      events := [];
    }

    /** What the window does to stop a running generation. */
    method Cancel()
      modifies this`cancel
      ensures cancel
    {
      cancel := true;
    }

    /** Emits the progress of `step`; false when `compute_total_steps()` is 0 (the division raises). */
    method UpdateTaskProgress(step: int) returns (ok: bool)
      modifies this`events
      ensures ok <==> TotalSteps(taskType, req) != 0
      ensures events == old(events) + if ok then [TaskProgress(step, TotalSteps(taskType, req))] else []
    {
      var steps := TotalSteps(taskType, req);
      if steps == 0 {
        return false;
      }
      events := events + [TaskProgress(step, steps)];
      ok := true;
    }

    /** The per-step callback: a set cancel flag stops the run before anything is emitted;
        otherwise one progress report and one preview. */
    method GenerateCallback(step: int) returns (r: RunOutcome)
      modifies this`events
      ensures cancel ==> r == Cancelled && events == old(events)
      ensures !cancel && TotalSteps(taskType, req) == 0 ==> r == Failed(ZeroDivision) && events == old(events)
      ensures !cancel && TotalSteps(taskType, req) != 0 ==>
        r == Finished && events == old(events) + [TaskProgress(step, TotalSteps(taskType, req)), ImagePreview(step)]
    {
      if cancel {
        return Cancelled;
      }
      var ok := UpdateTaskProgress(step);
      if !ok {
        return Failed(ZeroDivision);
      }
      events := events + [ImagePreview(step)];
      r := Finished;
    }

    /** The external sampling loop, which calls back `callbacks` times; the user's cancel
        request arrives just before callback `cancelAt`. */
    method RunPipeline(callbacks: nat, cancelAt: nat) returns (r: RunOutcome)
      modifies this
      ensures var (l, flag) := Sampling(TotalSteps(taskType, req), old(cancel), cancelAt, 0, callbacks);
        r == l.outcome && events == old(events) + l.events && cancel == flag
    {
      var total := TotalSteps(taskType, req);
      ghost var done: seq<Event> := [];
      assert Then(done, Sampling(total, cancel, cancelAt, 0, callbacks).0) == Sampling(total, cancel, cancelAt, 0, callbacks).0;
      var i := 0;
      while i < callbacks
        invariant 0 <= i <= callbacks
        invariant events == old(events) + done
        invariant var (l, flag) := Sampling(total, cancel, cancelAt, i, callbacks);
          Sampling(total, old(cancel), cancelAt, 0, callbacks) == (Then(done, l), flag)
      {
        ghost var before := Sampling(total, cancel, cancelAt, i, callbacks);
        if i == cancelAt {
          Cancel();
        }
        r := GenerateCallback(i);
        if r != Finished {
          return;
        }
        ghost var head := [TaskProgress(i, total), ImagePreview(i)];
        ghost var after := Sampling(total, cancel, cancelAt, i + 1, callbacks);
        assert before == (Then(head, after.0), after.1);
        assert done + (head + after.0.events) == (done + head) + after.0.events;
        done := done + head;
        i := i + 1;
      }
      r := Finished;
    }

    /** One image of the post-processing loop of `run_`: progress after the upscale and the
        face stages, the retried save under the next free name, progress after the save, then
        `image_complete`. `failures` is how many save attempts fail before one succeeds. */
    method PostProcessImage(step: int, listing: seq<string>, failures: nat) returns (r: RunOutcome)
      modifies this`events
      ensures var l := ImageLog(TotalSteps(taskType, req), step, JoinPath(collection, OutputName(listing)), failures);
        r == l.outcome && events == old(events) + l.events
    {
      // upscale stage (the processor itself is not modelled)
      var ok := UpdateTaskProgress(step);
      if !ok {
        return Failed(ZeroDivision);
      }
      // face restoration stage (the processor itself is not modelled)
      ok := UpdateTaskProgress(step + 1);
      // output: allocate the next name and save, retrying on failure
      var saved := SaveOutput(collection, listing, failures);
      if saved.None? {
        return Failed(WriteError);
      }
      ok := UpdateTaskProgress(step + 2);
      events := events + [ImageComplete(saved.value)];
      r := Finished;
    }

    /** The per-image loop of `run_`, over the save failures of each image; after each saved
        image the directory listing holds its file. */
    method PostProcessImages(images: seq<nat>, pipelineSteps: int, listing0: seq<string>) returns (r: RunOutcome)
      modifies this`events
      ensures var l := PostProcess(TotalSteps(taskType, req), images, pipelineSteps, SavePaths(collection, listing0, |images|));
        r == l.outcome && events == old(events) + l.events
    {
      ghost var total := TotalSteps(taskType, req);
      // the log of the whole run of the loop, after the events emitted before it
      ghost var whole := Then(events, PostProcess(total, images, pipelineSteps, SavePaths(collection, listing0, |images|)));
      var step := pipelineSteps;
      var listing := listing0;
      var rest := images;
      while rest != []
        invariant whole == Then(events, PostProcess(total, rest, step, SavePaths(collection, listing, |rest|)))
      {
        PostProcessTurn(total, collection, listing, rest, step, events, whole);
        r := PostProcessImage(step, listing, rest[0]);
        if r != Finished {
          return;
        }
        // the file now exists in the collection
        listing := listing + [OutputName(listing)];
        step := step + 3;
        rest := rest[1..];
      }
      assert events + [] == events;
      r := Finished;
    }

    /** `run_`: stop on an unknown task type or a failing setup, run the sampling loop, then
        post-process and save each returned image. */
    method Run_(env: Environment) returns (r: RunOutcome)
      modifies this
      ensures var (l, flag) := RunBody(taskType, req, collection, old(cancel), env);
        r == l.outcome && events == old(events) + l.events && cancel == flag
    {
      if taskType == UnknownType {
        return Failed(UnknownTaskType);
      }
      if env.setupFails {
        return Failed(SetupError);
      }
      ghost var total := TotalSteps(taskType, req);
      var p := PipelineSteps(taskType, req.metadata);
      assert RunBody(taskType, req, collection, cancel, env) == Generate(total, p, collection, cancel, env);
      ghost var sampled := Sampling(total, cancel, env.cancelAt, 0, env.samplingCallbacks);
      r := RunPipeline(env.samplingCallbacks, env.cancelAt);
      if r != Finished {
        return;
      }
      r := PostProcessImages(env.writeFailures, p, env.listing);
      ghost var post := PostProcess(total, env.writeFailures, p, SavePaths(collection, env.listing, |env.writeFailures|));
      AppendAssociative(old(events), sampled.0.events, post.events);
    }

    /** `run`: `run_`, then `task_complete` however it ended (normally, cancelled, or raising). */
    method Run(env: Environment)
      modifies this
      ensures events == old(events) + RunEvents(taskType, req, collection, old(cancel), env)
      ensures cancel == RunBody(taskType, req, collection, old(cancel), env).1
    {
      var outcome := Run_(env);
      events := events + [TaskComplete];
    }
  }
}
