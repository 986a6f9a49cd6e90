/**
 * src/lib.rs: `TypstTextureServer`, its job queue and the per-frame pass
 * `system_do_jobs` that compiles queued jobs and hands the rendered images
 * to their output handles.
 *
 * The asset server is replaced by what the pass and the submissions learn
 * from it: whether a handle is loaded, which template it holds, and the
 * handles it issues. Typst compilation and rendering are oracles.
 */
module TextureServer {
  import opened Wrappers
  import opened Paths
  import opened External
  import opened FileResolver
  import opened InputMerge

  /** `TypstJobOptions`. */
  datatype JobOptions = JobOptions(
    pixelsPerPt: PixelsPerPt,
    specificPage: Option<nat>,
    assetUsage: AssetUsage,
    inputUnifyMode: InputUnifyMode)

  /** `1.0f32`. */
  const OnePixelPerPt := PixelsPerPt(0x3F80_0000)

  /** `TypstJobOptions::default()`: scale 1, first page, both worlds, serde precedence. */
  const DefaultJobOptions := JobOptions(OnePixelPerPt, None, AssetUsage(true, true), DefaultUnifyMode)

  /** `TypstJob`: the output handle stands for the sending half of its channel. */
  datatype Job = Job(useTemplate: Handle, input: Dict, sendTarget: ImageHandle, jobOptions: JobOptions)

  /** `PathBufOrTemplate`. */
  datatype PathBufOrTemplate =
    | PathBuf(path: Path)
    | NewTemplate(template: StructuredInMemoryTemplate)
    | ExistingTemplate(handle: Handle)

  datatype Extent3d = Extent3d(width: u32, height: u32, depthOrArrayLayers: u32)
  datatype TextureDimension = D1 | D2 | D3
  datatype TextureFormat = Rgba8UnormSrgb | Rgba8Unorm

  /** `bevy_image::Image::new(size, dimension, data, format, usage)`. */
  datatype Image = Image(size: Extent3d, dimension: TextureDimension, data: seq<byte>,
                         format: TextureFormat, assetUsage: AssetUsage)

  /** An image sent to a job's output handle, with the template and page it came from. */
  datatype Delivery = Delivery(target: ImageHandle, template: Handle, page: nat, image: Image)

  /** The assets world as one pass sees it. */
  datatype AssetView = AssetView(
    isLoaded: Handle -> bool,
    templates: Handle -> Option<StructuredInMemoryTemplate>)

  /** Typst compilation and rendering. */
  datatype Typst = Typst(
    compile: (Engine, Dict) -> Option<PagedDocument>,
    render: (Page, PixelsPerPt) -> Pixmap)

  /** The job's template is loaded and present: otherwise the job is deferred. */
  predicate Ready(view: AssetView, job: Job) {
    view.isLoaded(job.useTemplate) && view.templates(job.useTemplate).Some?
  }

  /** The page rendered: `specific_page`, clamped to the last page, or the first page. */
  function PageIndex(pageCount: nat, specificPage: Option<nat>): (r: nat)
    ensures specificPage.None? ==> r == 0
    ensures pageCount > 0 ==> r < pageCount
    ensures specificPage.Some? && specificPage.value < pageCount ==> r == specificPage.value
    ensures specificPage.Some? && pageCount > 0 && specificPage.value >= pageCount ==> r == pageCount - 1
  {
    match specificPage
    case None => 0
    case Some(p) =>
      var last := if pageCount == 0 then 0 else pageCount - 1;   // `saturating_sub(1)`
      if last < p then last else p
  }

  /**
   * A job with the default options renders its first page at scale 1 for
   * both worlds, and its serde input wins over its dict.
   */
  lemma DefaultOptionsRenderFirstPage(engine: Engine, job: Job, typst: Typst)
    requires job.jobOptions == DefaultJobOptions
    ensures job.jobOptions.inputUnifyMode == SerdeOverridesDict
    ensures var r := Execute(engine, job, typst);
      r.Some? ==>
        var doc := typst.compile(engine, job.input).value;
        && r.value.page == 0
        && var px := typst.render(doc.pages[0], OnePixelPerPt);
           r.value.image == Image.Image(Extent3d(px.width, px.height, 1), D2, px.data, Rgba8UnormSrgb, AssetUsage(true, true))
  {
  }

  /** The number of jobs one pass may handle: the limit, or the queue length as `u32`. */
  function Budget(jobsPerFrame: Option<u32>, queueLength: nat): (r: u32)
    ensures jobsPerFrame.Some? ==> r == jobsPerFrame.value
    ensures jobsPerFrame.None? && queueLength < 0x1_0000_0000 ==> r == queueLength
    ensures jobsPerFrame.None? ==> r % 0x1_0000_0000 == queueLength % 0x1_0000_0000
  {
    match jobsPerFrame
    case Some(n) => n
    case None => queueLength % 0x1_0000_0000   // `jobs.len() as u32`
  }

  /** Compiling a ready job with its template's engine and rendering the chosen page. */
  function Execute(engine: Engine, job: Job, typst: Typst): (r: Option<Delivery>)
    ensures typst.compile(engine, job.input).None? <==> r.None?
    ensures r.Some? ==>
      var doc := typst.compile(engine, job.input).value;
      && r.value.page < |doc.pages|
      && r.value.page == PageIndex(|doc.pages|, job.jobOptions.specificPage)
      && r.value.target == job.sendTarget
      && r.value.template == job.useTemplate
      && var px := typst.render(doc.pages[r.value.page], job.jobOptions.pixelsPerPt);
         r.value.image == Image.Image(Extent3d(px.width, px.height, 1), D2, px.data, Rgba8UnormSrgb, job.jobOptions.assetUsage)
  {
    match typst.compile(engine, job.input)
    case None => None
    case Some(doc) =>
      var page := PageIndex(|doc.pages|, job.jobOptions.specificPage);
      var px := typst.render(doc.pages[page], job.jobOptions.pixelsPerPt);
      Some(Delivery(job.sendTarget, job.useTemplate, page,
                    Image.Image(Extent3d(px.width, px.height, 1), D2, px.data, Rgba8UnormSrgb, job.jobOptions.assetUsage)))
  }

  /** The engine of a ready job's template. */
  function EngineOf(view: AssetView, job: Job): Engine
    requires Ready(view, job)
  {
    ToEngine(view.templates(job.useTemplate).value).1
  }

  /** The deliveries of the taken jobs, in order: those that compile. */
  function Delivered(taken: seq<Job>, view: AssetView, typst: Typst): (r: seq<Delivery>)
    requires forall j :: j in taken ==> Ready(view, j)
    ensures |r| <= |taken|
    ensures forall d :: d in r ==> exists j :: j in taken && d.target == j.sendTarget && d.template == j.useTemplate
  {
    if |taken| == 0 then []
    else
      var job := taken[|taken| - 1];
      Delivered(taken[..|taken| - 1], view, typst) +
        match Execute(EngineOf(view, job), job, typst)
        case None => []
        case Some(d) => [d]
  }

  /** The handles of the templates the taken jobs use. */
  function TemplatesOf(taken: seq<Job>): (r: set<Handle>)
    ensures forall j :: j in taken ==> j.useTemplate in r
    ensures forall h :: h in r ==> exists j :: j in taken && j.useTemplate == h
  {
    if |taken| == 0 then {}
    else TemplatesOf(taken[..|taken| - 1]) + {taken[|taken| - 1].useTemplate}
  }

  predicate NoDuplicates<T(==)>(s: seq<T>) {
    forall i, j :: 0 <= i < j < |s| ==> s[i] != s[j]
  }

  /** The `templates` key a submission may write. */
  function KeyOf(path: PathBufOrTemplate): Option<Path> {
    match path
    case PathBuf(p) => Some(p)
    case NewTemplate(t) => Some(t.pathGiven)
    case ExistingTemplate(_) => None
  }

  /** Where a submission finds its template, and the `templates` map after it. */
  function Register(templates: map<Path, Handle>, path: PathBufOrTemplate, loaded: Handle, added: Handle)
    : (r: (map<Path, Handle>, Handle))
    ensures path.PathBuf? ==> r.0.Keys == templates.Keys + {path.path} && r.0[path.path] == r.1
    ensures path.PathBuf? && path.path in templates ==> r.0 == templates
    ensures path.PathBuf? && path.path !in templates ==> r.1 == loaded
    ensures path.NewTemplate? ==>
      r.1 == added && r.0.Keys == templates.Keys + {path.template.pathGiven} && r.0[path.template.pathGiven] == added
    ensures path.ExistingTemplate? ==> r == (templates, path.handle)
    ensures forall p :: p in templates && p != KeyOf(path).GetOr(p) ==> p in r.0 && r.0[p] == templates[p]
  {
    match path
    case PathBuf(p) =>
      if p in templates then (templates, templates[p]) else (templates[p := loaded], loaded)
    case NewTemplate(t) => (templates[t.pathGiven := added], added)
    case ExistingTemplate(h) => (templates, h)
  }

  /** Submitting the same path twice queues both jobs on the same template handle. */
  lemma SamePathSameTemplate(templates: map<Path, Handle>, p: Path, loaded1: Handle, added1: Handle,
                             loaded2: Handle, added2: Handle)
    ensures var first := Register(templates, PathBuf(p), loaded1, added1);
            Register(first.0, PathBuf(p), loaded2, added2) == (first.0, first.1)
  {
  }

  /** `TypstTextureServer`; the asset server it holds is passed to the methods that use it. */
  class TypstTextureServer {
    var templates: map<Path, Handle>
    var jobs: seq<Job>
    var jobsPerFrame: Option<u32>

    /** `new_with_fallback`: the fallback image is never used and is left out. */
    constructor ()
      ensures templates == map[] && jobs == [] && jobsPerFrame == None
    {
      templates := map[];
      jobs := [];
      jobsPerFrame := None;
    }

    /** `system_do_jobs`: one pass over the queue under this frame's budget. */
    method DoJobs(view: AssetView, typst: Typst)
      returns (deliveries: seq<Delivery>, builds: seq<Handle>,
               ghost taken: seq<Job>, ghost deferred: nat, ghost popped: seq<Job>)
      modifies this
      ensures templates == old(templates) && jobsPerFrame == old(jobsPerFrame)
      ensures PassResult(old(jobs), Budget(old(jobsPerFrame), |old(jobs)|), view, typst,
                         jobs, deliveries, builds, taken, deferred, popped)
    {
      var maxJobs := Budget(jobsPerFrame, |jobs|);
      jobs, deliveries, builds, taken, deferred, popped := Pass(jobs, maxJobs, view, typst);
    }

    /**
     * `add_job_with_dict_input`. `loaded` and `added` are the handles the
     * asset server's `load` and `add` would return, `output` the handle
     * `add_async` returns for the image.
     */
    method AddJobWithDictInput(path: PathBufOrTemplate, input: Dict, options: JobOptions,
                               loaded: Handle, added: Handle, output: ImageHandle)
      returns (h: ImageHandle)
      modifies this
      ensures h == output
      ensures templates == Register(old(templates), path, loaded, added).0
      ensures jobs == old(jobs) + [Job(Register(old(templates), path, loaded, added).1, input, output, options)]
      ensures jobsPerFrame == old(jobsPerFrame)
    {
      var template: Handle;
      match path {
        case PathBuf(p) =>
          if p !in templates {
            templates := templates[p := loaded];
          }
          template := templates[p];
        case NewTemplate(t) =>
          templates := templates[t.pathGiven := added];
          template := templates[t.pathGiven];
        case ExistingTemplate(handle) =>
          template := handle;
      }
      jobs := jobs + [Job(template, input, output, options)];
      h := output;
    }

    /** `add_job`: no input. */
    method AddJob(path: PathBufOrTemplate, options: JobOptions, loaded: Handle, added: Handle, output: ImageHandle)
      returns (h: ImageHandle)
      modifies this
      ensures h == output
      ensures templates == Register(old(templates), path, loaded, added).0
      ensures jobs == old(jobs) + [Job(Register(old(templates), path, loaded, added).1, map[], output, options)]
      ensures jobsPerFrame == old(jobsPerFrame)
    {
      h := AddJobWithDictInput(path, map[], options, loaded, added, output);
    }

    /**
     * `add_job_with_dict_and_serde_input`. `transcode` is the serde value's
     * trip through `serde_json` to a `Dict`; `None` when either step fails.
     */
    method AddJobWithDictAndSerdeInput<T>(path: PathBufOrTemplate, inputSerde: T, inputDict: Dict,
                                          options: JobOptions, transcode: T -> Option<Dict>,
                                          loaded: Handle, added: Handle, output: ImageHandle)
      returns (h: ImageHandle)
      modifies this
      ensures h == output
      ensures templates == Register(old(templates), path, loaded, added).0
      ensures transcode(inputSerde).None? ==>
                jobs == old(jobs) + [Job(Register(old(templates), path, loaded, added).1, inputDict, output, options)]
      ensures transcode(inputSerde).Some? ==>
                jobs == old(jobs) + [Job(Register(old(templates), path, loaded, added).1,
                                         Unified(transcode(inputSerde).value, inputDict, options.inputUnifyMode),
                                         output, options)]
      ensures jobsPerFrame == old(jobsPerFrame)
    {
      var serde := transcode(inputSerde);
      if serde.None? {
        h := AddJobWithDictInput(path, inputDict, options, loaded, added, output);
        return;
      }
      var unified := Unify(serde.value, inputDict, options.inputUnifyMode);
      h := AddJobWithDictInput(path, unified, options, loaded, added, output);
    }

    /** `add_job_with_serde_input`: the serde dictionary alone, with serde precedence forced. */
    method AddJobWithSerdeInput<T>(path: PathBufOrTemplate, input: T, options: JobOptions,
                                   transcode: T -> Option<Dict>,
                                   loaded: Handle, added: Handle, output: ImageHandle)
      returns (h: ImageHandle)
      modifies this
      ensures h == output
      ensures templates == Register(old(templates), path, loaded, added).0
      ensures jobs == old(jobs) + [Job(Register(old(templates), path, loaded, added).1,
                                       transcode(input).GetOr(map[]),
                                       output, options.(inputUnifyMode := SerdeOverridesDict))]
      ensures jobsPerFrame == old(jobsPerFrame)
    {
      if transcode(input).Some? {
        SerdeOverEmptyIsSerde(transcode(input).value);
      }
      h := AddJobWithDictAndSerdeInput(path, input, map[], options.(inputUnifyMode := SerdeOverridesDict),
                                       transcode, loaded, added, output);
    }

    /** `limit_jobs`. */
    method LimitJobs(limit: u32)
      modifies this
      ensures jobsPerFrame == Some(limit)
      ensures templates == old(templates) && jobs == old(jobs)
    {
      jobsPerFrame := Some(limit);
    }

    /** `unlimited_jobs`. */
    method UnlimitedJobs()
      modifies this
      ensures jobsPerFrame == None
      ensures templates == old(templates) && jobs == old(jobs)
    {
      jobsPerFrame := None;
    }
  }

  /**
   * What a pass over `queue0` with budget `maxJobs` promises. `taken` are
   * the jobs removed from the queue, `deferred` counts the jobs pushed back,
   * `builds` lists the templates whose engine was built, each once.
   */
  ghost predicate PassResult(queue0: seq<Job>, maxJobs: nat, view: AssetView, typst: Typst,
                             queue: seq<Job>, deliveries: seq<Delivery>, builds: seq<Handle>,
                             taken: seq<Job>, deferred: nat, popped: seq<Job>)
  {
    // `popped` are the jobs popped off the front, in order: the ready ones
    // are taken, the others are pushed to the back, and the queue is FIFO
    && taken == ReadyJobs(popped, view)
    && deferred == |UnreadyJobs(popped, view)|
    && queue0 + UnreadyJobs(popped, view) == popped + queue
    // a job is popped only while budget is left
    && (popped == [] || Spent(popped[..|popped| - 1], view, typst) < maxJobs)
    // no job is lost or duplicated: every job is still queued or was taken
    && multiset(queue0) == multiset(queue) + multiset(taken)
    // only jobs whose template is loaded are taken
    && (forall j :: j in taken ==> Ready(view, j))
    // the deliveries are those of the taken jobs that compile, in order
    && deliveries == Delivered(taken, view, typst)
    // deferrals and deliveries use up the budget; failed compiles do not
    && |deliveries| + deferred <= maxJobs
    && (|deliveries| + deferred == maxJobs || queue == [])
    // each template's engine is built once, and only for taken jobs
    && NoDuplicates(builds) && (forall h :: h in builds <==> h in TemplatesOf(taken))
    // with every template ready, the pass takes a prefix of the queue in order
    && ((forall j :: j in queue0 ==> Ready(view, j)) ==>
          deferred == 0 && |taken| <= |queue0| && taken == queue0[..|taken|] && queue == queue0[|taken|..])
  }

  /** The `while` loop of `system_do_jobs`, over the queue it pops and pushes. */
  method Pass(queue0: seq<Job>, maxJobs: u32, view: AssetView, typst: Typst)
    returns (queue: seq<Job>, deliveries: seq<Delivery>, builds: seq<Handle>,
             ghost taken: seq<Job>, ghost deferred: nat, ghost popped: seq<Job>)
    ensures PassResult(queue0, maxJobs, view, typst, queue, deliveries, builds, taken, deferred, popped)
    ensures PassOutputsOk(queue0, maxJobs, view, queue, deliveries, builds)
  {
    queue := queue0;
    var jobsDone: nat := 0;
    var compiledMap: map<Handle, Engine> := map[];
    deliveries, builds, taken, deferred, popped := [], [], [], 0, [];
    ghost var allReady := forall j :: j in queue ==> Ready(view, j);
    while jobsDone < maxJobs && queue != []
      invariant LoopInv(queue0, maxJobs, queue, popped, taken, deliveries, deferred, compiledMap, builds, allReady, view, typst)
      invariant jobsDone == |deliveries| + deferred
      decreases maxJobs - jobsDone, |queue|
    {
      var job := queue[0];
      if Ready(view, job) {
        var engine, cache', builds' := CachedEngine(compiledMap, builds, view, job);
        var delivery := Execute(engine, job, typst);
        TakeStep(queue0, maxJobs, queue, popped, taken, deliveries, deferred, compiledMap, builds, allReady,
                 view, typst, job, cache', builds', delivery);
        queue, compiledMap, builds, taken, popped := queue[1..], cache', builds', taken + [job], popped + [job];
        if delivery.None? {
          continue;
        }
        deliveries := deliveries + [delivery.value];
      } else {
        DeferStep(queue0, maxJobs, queue, popped, taken, deliveries, deferred, compiledMap, builds, allReady,
                  view, typst, job);
        queue, popped := queue[1..] + [job], popped + [job];
        deferred := deferred + 1;
      }
      jobsDone := jobsDone + 1;
    }
    PassEnds(queue0, maxJobs, queue, taken, deliveries, deferred, popped, compiledMap, builds, allReady, view, typst);
    PassOutputs(queue0, maxJobs, view, typst, queue, deliveries, builds, taken, deferred, popped);
  }

  /**
   * What a pass promises about what it returns: the queue it leaves is part
   * of the one it started with (a suffix of it when every template is
   * ready), deliveries stay within budget and come from queued jobs, and no
   * engine is built twice.
   */
  predicate PassOutputsOk(queue0: seq<Job>, maxJobs: nat, view: AssetView,
                          queue: seq<Job>, deliveries: seq<Delivery>, builds: seq<Handle>)
  {
    && multiset(queue) <= multiset(queue0)
    && |deliveries| <= maxJobs && |deliveries| + |queue| <= |queue0|
    && (forall d :: d in deliveries ==>
          exists j :: j in queue0 && d.target == j.sendTarget && d.template == j.useTemplate)
    && NoDuplicates(builds)
    && ((forall j :: j in queue0 ==> Ready(view, j)) ==> queue == queue0[|queue0| - |queue|..])
  }

  /** What a pass promises about the queue it leaves and the images it delivers. */
  lemma PassOutputs(queue0: seq<Job>, maxJobs: nat, view: AssetView, typst: Typst,
                    queue: seq<Job>, deliveries: seq<Delivery>, builds: seq<Handle>, taken: seq<Job>, deferred: nat,
                    popped: seq<Job>)
    requires PassResult(queue0, maxJobs, view, typst, queue, deliveries, builds, taken, deferred, popped)
    ensures PassOutputsOk(queue0, maxJobs, view, queue, deliveries, builds)
  {
    assert |multiset(queue0)| == |multiset(queue)| + |multiset(taken)|;
    assert forall j :: j in taken ==> j in multiset(taken) && j in multiset(queue0);
  }

  /** The pass invariant, once the budget is used up or the queue is empty, gives what a pass promises. */
  lemma PassEnds(queue0: seq<Job>, maxJobs: nat, queue: seq<Job>, taken: seq<Job>, deliveries: seq<Delivery>,
                 deferred: nat, popped: seq<Job>, cache: map<Handle, Engine>, builds: seq<Handle>, allReady: bool,
                 view: AssetView, typst: Typst)
    requires LoopInv(queue0, maxJobs, queue, popped, taken, deliveries, deferred, cache, builds, allReady, view, typst)
    requires allReady == forall j :: j in queue0 ==> Ready(view, j)
    requires |deliveries| + deferred == maxJobs || queue == []
    ensures PassResult(queue0, maxJobs, view, typst, queue, deliveries, builds, taken, deferred, popped)
  {
    if allReady {
      assert queue0[..|taken|] == taken && queue0[|taken|..] == queue;
    }
  }

  /** When every taken job compiles, every one of them is delivered. */
  lemma {:induction false} DeliveredAllCompile(taken: seq<Job>, view: AssetView, typst: Typst)
    requires forall j :: j in taken ==> Ready(view, j) && typst.compile(EngineOf(view, j), j.input).Some?
    ensures |Delivered(taken, view, typst)| == |taken|
  {
    if |taken| > 0 {
      var init := taken[..|taken| - 1];
      assert forall j :: j in init ==> j in taken;
      DeliveredAllCompile(init, view, typst);
    }
  }

  /** When no taken job compiles, nothing is delivered. */
  lemma {:induction false} DeliveredNoneCompile(taken: seq<Job>, view: AssetView, typst: Typst)
    requires forall j :: j in taken ==> Ready(view, j) && typst.compile(EngineOf(view, j), j.input).None?
    ensures Delivered(taken, view, typst) == []
  {
    if |taken| > 0 {
      var init := taken[..|taken| - 1];
      assert forall j :: j in init ==> j in taken;
      DeliveredNoneCompile(init, view, typst);
    }
  }

  /**
   * With every template ready and every job compiling, a pass delivers the
   * first `min(budget, queue length)` jobs, in order.
   */
  lemma FullPass(queue0: seq<Job>, maxJobs: nat, view: AssetView, typst: Typst,
                 queue: seq<Job>, deliveries: seq<Delivery>, builds: seq<Handle>, taken: seq<Job>, deferred: nat,
                 popped: seq<Job>)
    requires PassResult(queue0, maxJobs, view, typst, queue, deliveries, builds, taken, deferred, popped)
    requires forall j :: j in queue0 ==> Ready(view, j) && typst.compile(EngineOf(view, j), j.input).Some?
    ensures |deliveries| == if maxJobs < |queue0| then maxJobs else |queue0|
    ensures taken == queue0[..|deliveries|] && queue == queue0[|deliveries|..]
  {
    assert forall j :: j in taken ==> j in queue0;
    DeliveredAllCompile(taken, view, typst);
  }

  /**
   * Jobs that fail to compile use no budget: with every template ready and
   * no job compiling, any pass with a budget empties the queue.
   */
  lemma FailedCompilesCostNothing(queue0: seq<Job>, maxJobs: nat, view: AssetView, typst: Typst,
                                  queue: seq<Job>, deliveries: seq<Delivery>, builds: seq<Handle>,
                                  taken: seq<Job>, deferred: nat, popped: seq<Job>)
    requires PassResult(queue0, maxJobs, view, typst, queue, deliveries, builds, taken, deferred, popped)
    requires maxJobs > 0
    requires forall j :: j in queue0 ==> Ready(view, j) && typst.compile(EngineOf(view, j), j.input).None?
    ensures deliveries == [] && queue == [] && taken == queue0
  {
    assert forall j :: j in taken ==> j in queue0;
    DeliveredNoneCompile(taken, view, typst);
  }

  /** What holds between the iterations of `system_do_jobs`. */
  ghost predicate PassInv(jobs0: seq<Job>, queue: seq<Job>, taken: seq<Job>, deliveries: seq<Delivery>, deferred: nat,
                          cache: map<Handle, Engine>, builds: seq<Handle>, allReady: bool, view: AssetView, typst: Typst)
  {
    && multiset(jobs0) == multiset(queue) + multiset(taken)
    && (forall j :: j in taken ==> Ready(view, j))
    && deliveries == Delivered(taken, view, typst)
    && cache.Keys == TemplatesOf(taken)
    && CacheSound(cache, builds, view)
    && (allReady ==> (forall j :: j in queue ==> Ready(view, j)) && deferred == 0 && jobs0 == taken + queue)
  }

  /** Taking a ready job off the front keeps the pass invariant. */
  lemma TakeKeeps(jobs0: seq<Job>, queue: seq<Job>, taken: seq<Job>, deliveries: seq<Delivery>, deferred: nat,
                  cache: map<Handle, Engine>, builds: seq<Handle>, allReady: bool, view: AssetView, typst: Typst,
                  job: Job, cache': map<Handle, Engine>, builds': seq<Handle>, delivery: Option<Delivery>)
    requires PassInv(jobs0, queue, taken, deliveries, deferred, cache, builds, allReady, view, typst)
    requires |queue| > 0 && job == queue[0] && Ready(view, job)
    requires cache'.Keys == cache.Keys + {job.useTemplate} && CacheSound(cache', builds', view)
    requires delivery == Execute(EngineOf(view, job), job, typst)
    ensures PassInv(jobs0, queue[1..], taken + [job],
                    deliveries + (if delivery.Some? then [delivery.value] else []), deferred,
                    cache', builds', allReady, view, typst)
  {
    var rest := queue[1..];
    assert queue == [job] + rest;
    assert multiset(queue) == multiset{job} + multiset(rest);
    DeliveredSnoc(taken, job, view, typst);
    TemplatesSnoc(taken, job);
    SnocShift(taken, job, rest);
  }

  /** Moving a job that is not ready to the back keeps the pass invariant. */
  lemma DeferKeeps(jobs0: seq<Job>, queue: seq<Job>, taken: seq<Job>, deliveries: seq<Delivery>, deferred: nat,
                   cache: map<Handle, Engine>, builds: seq<Handle>, allReady: bool, view: AssetView, typst: Typst,
                   job: Job)
    requires PassInv(jobs0, queue, taken, deliveries, deferred, cache, builds, allReady, view, typst)
    requires |queue| > 0 && job == queue[0] && !Ready(view, job)
    ensures PassInv(jobs0, queue[1..] + [job], taken, deliveries, deferred + 1, cache, builds, allReady, view, typst)
  {
    var rest := queue[1..];
    assert queue == [job] + rest;
    assert multiset(queue) == multiset(rest + [job]);
    assert job in queue;
  }

  /**
   * The pass-local engine cache: every cached engine is its template's, and
   * `builds` lists each cached handle once.
   */
  ghost predicate CacheSound(cache: map<Handle, Engine>, builds: seq<Handle>, view: AssetView) {
    && NoDuplicates(builds)
    && (forall h :: h in builds <==> h in cache)
    && (forall h :: h in cache ==> view.templates(h).Some? && cache[h] == ToEngine(view.templates(h).value).1)
  }

  /** `compiled_map.entry(handle).or_insert_with(|| template.to_engine())`. */
  method CachedEngine(cache: map<Handle, Engine>, builds: seq<Handle>, view: AssetView, job: Job)
    returns (engine: Engine, cache': map<Handle, Engine>, builds': seq<Handle>)
    requires Ready(view, job) && CacheSound(cache, builds, view)
    ensures engine == EngineOf(view, job)
    ensures cache'.Keys == cache.Keys + {job.useTemplate}
    ensures CacheSound(cache', builds', view)
    ensures builds' == if job.useTemplate in cache then builds else builds + [job.useTemplate]
  {
    cache', builds' := cache, builds;
    if job.useTemplate !in cache {
      cache' := cache[job.useTemplate := ToEngine(view.templates(job.useTemplate).value).1];
      builds' := builds + [job.useTemplate];
    }
    engine := cache'[job.useTemplate];
  }

  lemma SnocShift(taken: seq<Job>, job: Job, rest: seq<Job>)
    ensures (taken + [job]) + rest == taken + ([job] + rest)
  {
  }

  lemma DeliveredSnoc(taken: seq<Job>, job: Job, view: AssetView, typst: Typst)
    requires forall j :: j in taken ==> Ready(view, j)
    requires Ready(view, job)
    ensures forall j :: j in taken + [job] ==> Ready(view, j)
    ensures Delivered(taken + [job], view, typst) ==
            Delivered(taken, view, typst) +
              match Execute(EngineOf(view, job), job, typst)
              case None => []
              case Some(d) => [d]
  {
    assert (taken + [job])[..|taken|] == taken;
  }

  lemma TemplatesSnoc(taken: seq<Job>, job: Job)
    ensures TemplatesOf(taken + [job]) == TemplatesOf(taken) + {job.useTemplate}
  {
    assert (taken + [job])[..|taken|] == taken;
  }

  // ---- the order in which a pass pops jobs ----

  /** The popped jobs whose template is ready, in order: the ones a pass takes. */
  function ReadyJobs(popped: seq<Job>, view: AssetView): (r: seq<Job>)
    ensures forall j :: j in r ==> Ready(view, j)
  {
    if |popped| == 0 then []
    else
      var init, job := popped[..|popped| - 1], popped[|popped| - 1];
      ReadyJobs(init, view) + if Ready(view, job) then [job] else []
  }

  /** The popped jobs whose template is not ready, in order: the ones a pass pushes back. */
  function UnreadyJobs(popped: seq<Job>, view: AssetView): seq<Job> {
    if |popped| == 0 then []
    else
      var init, job := popped[..|popped| - 1], popped[|popped| - 1];
      UnreadyJobs(init, view) + if Ready(view, job) then [] else [job]
  }

  /** The budget the popped jobs use up: one per delivery and one per deferral. */
  function Spent(popped: seq<Job>, view: AssetView, typst: Typst): nat {
    |Delivered(ReadyJobs(popped, view), view, typst)| + |UnreadyJobs(popped, view)|
  }

  /** The pass pops from the front, pushes unready jobs to the back, and pops only with budget left. */
  ghost predicate TraceInv(queue0: seq<Job>, maxJobs: nat, queue: seq<Job>, popped: seq<Job>,
                           taken: seq<Job>, deferred: nat, view: AssetView, typst: Typst)
  {
    && taken == ReadyJobs(popped, view)
    && deferred == |UnreadyJobs(popped, view)|
    && queue0 + UnreadyJobs(popped, view) == popped + queue
    && (popped == [] || Spent(popped[..|popped| - 1], view, typst) < maxJobs)
  }

  /** Everything the pass loop keeps: the pass invariant, the trace, and the budget. */
  ghost predicate LoopInv(queue0: seq<Job>, maxJobs: nat, queue: seq<Job>, popped: seq<Job>, taken: seq<Job>,
                          deliveries: seq<Delivery>, deferred: nat, cache: map<Handle, Engine>, builds: seq<Handle>,
                          allReady: bool, view: AssetView, typst: Typst)
  {
    && PassInv(queue0, queue, taken, deliveries, deferred, cache, builds, allReady, view, typst)
    && TraceInv(queue0, maxJobs, queue, popped, taken, deferred, view, typst)
    && |deliveries| + deferred <= maxJobs
  }

  /** One loop step that takes a ready front job keeps the loop invariant. */
  lemma TakeStep(queue0: seq<Job>, maxJobs: nat, queue: seq<Job>, popped: seq<Job>, taken: seq<Job>,
                 deliveries: seq<Delivery>, deferred: nat, cache: map<Handle, Engine>, builds: seq<Handle>,
                 allReady: bool, view: AssetView, typst: Typst,
                 job: Job, cache': map<Handle, Engine>, builds': seq<Handle>, delivery: Option<Delivery>)
    requires LoopInv(queue0, maxJobs, queue, popped, taken, deliveries, deferred, cache, builds, allReady, view, typst)
    requires |deliveries| + deferred < maxJobs
    requires |queue| > 0 && job == queue[0] && Ready(view, job)
    requires cache'.Keys == cache.Keys + {job.useTemplate} && CacheSound(cache', builds', view)
    requires delivery == Execute(EngineOf(view, job), job, typst)
    ensures LoopInv(queue0, maxJobs, queue[1..], popped + [job], taken + [job],
                    if delivery.Some? then deliveries + [delivery.value] else deliveries, deferred,
                    cache', builds', allReady, view, typst)
  {
    assert deliveries + [] == deliveries;
    TakeKeeps(queue0, queue, taken, deliveries, deferred, cache, builds, allReady, view, typst,
              job, cache', builds', delivery);
    TakeTrace(queue0, maxJobs, queue, popped, taken, deferred, view, typst, job);
  }

  /** One loop step that pushes an unready front job to the back keeps the loop invariant. */
  lemma DeferStep(queue0: seq<Job>, maxJobs: nat, queue: seq<Job>, popped: seq<Job>, taken: seq<Job>,
                  deliveries: seq<Delivery>, deferred: nat, cache: map<Handle, Engine>, builds: seq<Handle>,
                  allReady: bool, view: AssetView, typst: Typst, job: Job)
    requires LoopInv(queue0, maxJobs, queue, popped, taken, deliveries, deferred, cache, builds, allReady, view, typst)
    requires |deliveries| + deferred < maxJobs
    requires |queue| > 0 && job == queue[0] && !Ready(view, job)
    ensures LoopInv(queue0, maxJobs, queue[1..] + [job], popped + [job], taken, deliveries, deferred + 1,
                    cache, builds, allReady, view, typst)
  {
    DeferKeeps(queue0, queue, taken, deliveries, deferred, cache, builds, allReady, view, typst, job);
    DeferTrace(queue0, maxJobs, queue, popped, taken, deferred, view, typst, job);
  }

  /** Popping a ready front job, with budget left, keeps the trace. */
  lemma TakeTrace(queue0: seq<Job>, maxJobs: nat, queue: seq<Job>, popped: seq<Job>, taken: seq<Job>,
                  deferred: nat, view: AssetView, typst: Typst, job: Job)
    requires TraceInv(queue0, maxJobs, queue, popped, taken, deferred, view, typst)
    requires |queue| > 0 && job == queue[0] && Ready(view, job)
    requires Spent(popped, view, typst) < maxJobs
    ensures TraceInv(queue0, maxJobs, queue[1..], popped + [job], taken + [job], deferred, view, typst)
  {
    var p := popped + [job];
    assert p[..|p| - 1] == popped && p[|p| - 1] == job;
    assert queue == [job] + queue[1..];
    assert popped + queue == p + queue[1..];
  }

  /** Popping an unready front job, with budget left, and pushing it back keeps the trace. */
  lemma DeferTrace(queue0: seq<Job>, maxJobs: nat, queue: seq<Job>, popped: seq<Job>, taken: seq<Job>,
                   deferred: nat, view: AssetView, typst: Typst, job: Job)
    requires TraceInv(queue0, maxJobs, queue, popped, taken, deferred, view, typst)
    requires |queue| > 0 && job == queue[0] && !Ready(view, job)
    requires Spent(popped, view, typst) < maxJobs
    ensures TraceInv(queue0, maxJobs, queue[1..] + [job], popped + [job], taken, deferred + 1, view, typst)
  {
    var p := popped + [job];
    assert p[..|p| - 1] == popped && p[|p| - 1] == job;
    assert queue == [job] + queue[1..];
    assert queue0 + (UnreadyJobs(popped, view) + [job]) == (queue0 + UnreadyJobs(popped, view)) + [job];
    assert (popped + queue) + [job] == p + (queue[1..] + [job]);
  }

  lemma {:induction false} ReadyJobsAppend(a: seq<Job>, b: seq<Job>, view: AssetView)
    ensures ReadyJobs(a + b, view) == ReadyJobs(a, view) + ReadyJobs(b, view)
  {
    if |b| == 0 {
      assert a + b == a;
    } else {
      ReadyJobsAppend(a, b[..|b| - 1], view);
      assert (a + b)[..|a + b| - 1] == a + b[..|b| - 1];
    }
  }

  lemma {:induction false} UnreadyJobsAppend(a: seq<Job>, b: seq<Job>, view: AssetView)
    ensures UnreadyJobs(a + b, view) == UnreadyJobs(a, view) + UnreadyJobs(b, view)
  {
    if |b| == 0 {
      assert a + b == a;
    } else {
      UnreadyJobsAppend(a, b[..|b| - 1], view);
      assert (a + b)[..|a + b| - 1] == a + b[..|b| - 1];
    }
  }

  /**
   * The front job is handled first: with budget left, a ready front job is
   * the first job taken, and an unready one is the first job pushed back.
   */
  lemma FrontJobFirst(queue0: seq<Job>, maxJobs: nat, view: AssetView, typst: Typst,
                      queue: seq<Job>, deliveries: seq<Delivery>, builds: seq<Handle>,
                      taken: seq<Job>, deferred: nat, popped: seq<Job>)
    requires PassResult(queue0, maxJobs, view, typst, queue, deliveries, builds, taken, deferred, popped)
    requires |queue0| > 0 && maxJobs > 0
    ensures Ready(view, queue0[0]) ==> |taken| > 0 && taken[0] == queue0[0]
    ensures !Ready(view, queue0[0]) ==> deferred > 0 && UnreadyJobs(popped, view)[0] == queue0[0]
  {
    assert (queue0 + UnreadyJobs(popped, view))[0] == queue0[0];
    assert popped == [popped[0]] + popped[1..];
    ReadyJobsAppend([popped[0]], popped[1..], view);
    UnreadyJobsAppend([popped[0]], popped[1..], view);
    assert [popped[0]][..0] == [];
  }
}
