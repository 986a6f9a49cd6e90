# bevy_typst_textures, modelled in Dafny

bevy_typst_textures turns typst documents into Bevy textures. This model covers three parts of it.

- **Loading a template.** `TypstZipLoader::load` picks a reader by the asset path's extension. A `.zip` bundle goes through `StructuredInMemoryTemplate::from_zip`. That function walks the archive's entries and:
  - takes the first entry's full name as a path prefix;
  - skips directories and `__MACOSX` files;
  - sorts every other file, by its stripped path, into the main document, other typst sources, fonts, the `package.toml` manifest, or opaque assets.

  A standalone `.typ` file becomes a template holding only its text.
- **The texture server.** `TypstTextureServer` keeps a map from paths to template handles, a FIFO queue of jobs and an optional per-frame budget.
  - The `add_job*` methods register the template and append one job.
  - `system_do_jobs` runs once per frame. It takes jobs off the queue until the budget is used up or the queue is empty.
    - A job whose template is not loaded yet goes to the back of the queue.
    - A ready job is compiled with its template's engine. The engine is built at most once per pass.
    - A job that fails to compile is dropped without using budget.
    - A job that compiles has one page rendered to an RGBA image, which goes to the job's output handle.
- **Input merging.** A job's typst input can come from a serde value and a `Dict`. They are combined under one of three `InputUnifyMode`s. If the serde value cannot be turned into a `Dict`, the `Dict` is used alone.

The modules follow the source files:

| module | file |
|---|---|
| `Paths` | the `std::path` operations the code relies on |
| `External` | stand-ins for values owned by foreign crates |
| `AssetErrors` | `FilePreloaderError` and `TypstAssetError` with its `Display` |
| `FileResolver` | `from_zip`: what each entry contributes (`Classify`), the meaning of a whole run (`ZipRun`), and the loop `FromZip` proved to compute it |
| `ZipLemmas` | what `from_zip` promises, stated over the archive |
| `InputMerge` | the three merge modes |
| `TextureServer` | the server class, its submissions and the per-frame pass |
| `AssetLoading` | `TypstZipLoader::load` |

Foreign behaviour comes in as parameters or function-typed values:

| parameter | stands for |
|---|---|
| `Decoders` | UTF-8 decoding, `Font::new`, the TOML decoder |
| `AssetView` | `AssetServer::is_loaded` and the templates in `Assets<TypstTemplate>` |
| `Typst` | typst compilation and `typst_render::render` |
| `transcode` | serde value → `serde_json::Value` → `Dict` |
| `openZip` | `ZipArchive::new` |
| `loaded`, `added`, `output` | the handles `AssetServer::load`, `add` and `add_async` return |

An archive is the list of what `by_index` yields for each index: an entry, or the zip error. Each entry has a name given as path components, an is-file flag, and the result of reading it.

## Where the loader is fragile

The crate's own documentation (src/lib.rs:31-40) asks for a `.zip` archive containing a `main.typ` file, an optional `package.toml`, fonts and other files. It also warns that the unzipping is fragile, with "lots of `unwrap`s" (src/lib.rs:52). The model follows the code, and states two consequences.

- **`main.typ` location.** The code accepts a file named `main.typ` in any directory of the bundle, and likewise `package.toml`. When there are several, the last entry wins. `ZipLemmas.SuccessMain` and `ZipLemmas.SuccessLastManifest` state this.
- **Panics.** The first entry's full name becomes the prefix, and the `strip_prefix(..).unwrap()` in `from_zip` (src/file_resolver.rs:80) panics when a later kept file does not lie under it. The model represents this as the `Panics` outcome of `Run`.
  - A bundle zipped without its enclosing directory panics when its first entry is a file that reads successfully, the next kept file lies outside that file's name, and no `by_index` call between the two fails. A failing `by_index` returns `Zip` before the unwrap is reached (src/file_resolver.rs:71). `ZipLemmas.FlatBundlePanics` states this when the kept file is the second entry.
  - Not every flat bundle panics. A bundle whose only kept file is its first entry strips that file's name to the empty path. It then fails with `NoMainDotTyp`, with `Io` when reading that entry fails, or with `Zip` when a later `by_index` fails (`ZipLemmas.ZipErrorReported`).
  - `FileResolver.FromZip` requires that the run does not panic.
  - `ZipLemmas.NoPanicWhenUnderPrefix` gives a sufficient condition for that.
  - The other unwrap, `file_name()` for `.typ` and `.toml` paths, cannot fail: a path with an extension has a file name (`Paths.Extension`).

## Model

| member | source | states |
|---|---|---|
| Paths.StripPrefix | src/file_resolver.rs:80 | `strip_prefix` succeeds exactly when the name starts with the prefix component-wise, and prefix + result is the name |
| Paths.Extension | src/file_resolver.rs:81 | an extension exists only for a path with a file name, and that name is `stem.ext` with a non-empty stem and no `.` in `ext` |
| Paths.ExtensionOfJoined | src/file_resolver.rs:81-83 | a file named `stem.ext` in any directory has extension `ext` and file name `stem.ext` |
| AssetErrors.Display | src/asset_loading.rs:30-44 | every error's text starts with `TypstAssetError::<Variant>:` |
| AssetErrors.DisplayTellsVariantsApart | src/asset_loading.rs:30-44 | errors of different variants never display the same text |
| FileResolver.ClassifyFile | src/file_resolver.rs:81-124 | a kept file is never skipped, and can stop the load only with `Io` or `MalformedPackageToml` |
| ZipLemmas.KeptStep | src/file_resolver.rs:72-80 | an entry that does not stop the load is skipped exactly when it is not a file or its name starts with `__MACOSX`; a kept one is classified by its name stripped of the first entry's name |
| ZipLemmas.HaltErrors | src/file_resolver.rs:71-121 | an entry can stop the load only with `Zip`, `Io` or `MalformedPackageToml` |
| ZipLemmas.FileStep | src/file_resolver.rs:80-124 | a kept entry whose name lies under the first entry's name is read and classified by that stripped path alone |
| FileResolver.FromZip | src/file_resolver.rs:62-138 | the loop that overwrites main and manifest and pushes fonts, sources and assets returns exactly what `ZipRun` prescribes, whenever the run does not panic |
| ZipLemmas.NoPanicWhenUnderPrefix | src/file_resolver.rs:80 | if every kept file lies under the first entry's name, loading does not panic |
| ZipLemmas.FlatBundlePanics | src/file_resolver.rs:72-80 | if the first entry is a readable file and the second a kept file outside it, loading panics |
| ZipLemmas.ZipRunErrors | src/file_resolver.rs:71-128 | a failed load reports `Zip`, `Io`, `MalformedPackageToml` or `NoMainDotTyp`, never `UnsupportedFormat` or `NoPackageDotToml` |
| ZipLemmas.ZipErrorReported | src/file_resolver.rs:71 | a failing `by_index`, reached first, makes the load fail with that `Zip` error |
| ZipLemmas.ReadErrorReported | src/file_resolver.rs:84-121 | a failing read of a kept file, reached first, gives `Io`; an undecodable `package.toml` gives `MalformedPackageToml`, whether or not a `main.typ` exists |
| ZipLemmas.NoMainDotTypIff | src/file_resolver.rs:127-128 | the load fails with `NoMainDotTyp` exactly when no entry stops it and no kept file is named `main.typ` |
| ZipLemmas.SuccessMain | src/file_resolver.rs:82-87 | a loaded template holds the text of the last `main.typ` entry, and its `path_given` is `/` |
| ZipLemmas.SuccessDefaultManifest | src/file_resolver.rs:129 | without a `package.toml`, a loaded template has the default manifest: no name, no authors, no asset or package requests |
| ZipLemmas.SuccessLastManifest | src/file_resolver.rs:106-118 | a loaded template holds the decoded text of the last `package.toml` entry |
| ZipLemmas.SuccessCollections | src/file_resolver.rs:88-123 | a loaded template holds the decoded fonts, the other `.typ` sources by stripped path and the assets by stripped path, each in archive order; undecodable fonts are dropped |
| ZipLemmas.FontsMatchArchive | src/file_resolver.rs:97-105 | up to the first stop, the fonts collected are the decodable `.otf` entries in archive order |
| ZipLemmas.SourcesMatchArchive | src/file_resolver.rs:88-95 | up to the first stop, the sources collected are the `.typ` entries not named `main.typ`, in archive order |
| ZipLemmas.AssetsMatchArchive | src/file_resolver.rs:119-123 | up to the first stop, the assets collected are the remaining files (other `.toml` files included), in archive order |
| ZipLemmas.FirstFileIsEmptyAsset | src/file_resolver.rs:72-80 | a kept file in first position strips to the empty path and becomes an asset, never the main file |
| ZipLemmas.InertEntryChangesNothing | src/file_resolver.rs:75-79 | removing a directory, a `__MACOSX` file or an undecodable font (not in first position) does not change the load |
| InputMerge.Unified | src/lib.rs:356-378 | serde precedence: the union of keys, serde values on shared keys; dict precedence: the same with dict values; separate keys: exactly the two keys, and the dict key holds the dict (also when the keys coincide) |
| InputMerge.InsertAll | src/lib.rs:358-360 | inserting every pair of `from` gives the union of keys, with `from`'s values on shared keys |
| InputMerge.Unify | src/lib.rs:356-378 | the merge arms compute `Unified` |
| InputMerge.PrecedenceModesAgreeIff | src/lib.rs:357-368 | the two precedence modes agree exactly when both inputs hold equal values on every shared key |
| InputMerge.SerdeOverEmptyIsSerde | src/lib.rs:391-398 | serde precedence over an empty dict yields the serde dict itself |
| TextureServer.DefaultOptionsRenderFirstPage | src/lib.rs:149-158 | a job submitted with `TypstJobOptions::default()` renders the first page at scale 1, for both worlds, and its serde input takes precedence over its dict |
| TextureServer.PageIndex | src/lib.rs:219-223 | the page rendered is the first page for no request, and otherwise the requested page clamped to the last one |
| TextureServer.Budget | src/lib.rs:187-189 | a pass's budget is the limit when set, otherwise the queue length at the start truncated to `u32` |
| TextureServer.Execute | src/lib.rs:201-241 | a ready job yields an image exactly when it compiles; the image goes to the job's handle, from the chosen page, with the rendered size, depth 1, 2D, `Rgba8UnormSrgb` and the job's asset usage |
| TextureServer.Register | src/lib.rs:303-316 | a path is inserted only when absent and otherwise reuses its handle; a new template always overwrites its `path_given` key; an existing handle leaves the map alone; no other key changes |
| TextureServer.SamePathSameTemplate | src/lib.rs:304-308 | submitting the same path twice uses the same template handle and leaves the map as after the first |
| TextureServer.Pass | src/lib.rs:190-249 | the pass pops jobs off the front in order, each while budget is left: the ready ones are taken and the others pushed to the back, so the popped jobs followed by the queue left are the starting queue followed by the pushed-back jobs. It loses and duplicates no job; takes only ready jobs; delivers, in order, those that compile; spends budget only on deliveries and deferrals; stops only at the budget or an empty queue; builds each template's engine once; with all templates ready, takes a prefix of the queue. On its outputs alone: the queue left is a sub-multiset of the queue it started with, and a suffix of it when all templates are ready; there are at most `budget` deliveries, each from a queued job |
| TextureServer.TypstTextureServer.DoJobs | src/lib.rs:183-250 | a frame's pass runs under `Budget` on the current queue, with every promise of `Pass` (the order jobs are popped, taken and pushed back included), and leaves the templates map and the budget setting alone |
| TextureServer.FrontJobFirst | src/lib.rs:192-246 | with budget left, a ready front job is the first job taken, and an unready one is the first job pushed back |
| TextureServer.CachedEngine | src/lib.rs:198-200 | the engine comes from the pass-local map, and is built and recorded only when its handle is not yet there |
| TextureServer.TakeKeeps | src/lib.rs:195-210 | taking a ready job off the front keeps the pass invariant |
| TextureServer.DeferKeeps | src/lib.rs:245-246 | moving a job that is not ready to the back, counting one deferral, keeps the pass invariant |
| TextureServer.FullPass | src/lib.rs:192-249 | with all templates ready and every job compiling, a pass delivers the first `min(budget, queue length)` jobs in order |
| TextureServer.FailedCompilesCostNothing | src/lib.rs:203-210 | with all templates ready and no job compiling, any pass with a positive budget empties the queue and delivers nothing |
| TextureServer.TypstTextureServer.constructor | src/lib.rs:271-279 | a new server has no templates, no jobs and no limit |
| TextureServer.TypstTextureServer.AddJobWithDictInput | src/lib.rs:295-333 | the templates map becomes `Register`'s, exactly one job is appended with the resolved handle, the input, the options and the output handle, and the earlier jobs are unchanged |
| TextureServer.TypstTextureServer.AddJob | src/lib.rs:285-291 | as `AddJobWithDictInput` with an empty input |
| TextureServer.TypstTextureServer.AddJobWithDictAndSerdeInput | src/lib.rs:337-380 | as `AddJobWithDictInput`; when the serde value cannot be turned into a dictionary the job gets the dict alone, whatever the mode, and otherwise the merge of the two under the job's `inputUnifyMode` |
| TextureServer.TypstTextureServer.AddJobWithSerdeInput | src/lib.rs:385-400 | the job's input is the transcoded serde dict (empty if transcoding fails), and its options have serde precedence forced |
| TextureServer.TypstTextureServer.LimitJobs | src/lib.rs:402-405 | sets the limit, changes nothing else |
| TextureServer.TypstTextureServer.UnlimitedJobs | src/lib.rs:407-410 | clears the limit, changes nothing else |
| AssetLoading.Standalone | src/asset_loading.rs:97-100 | a standalone template holds the text as main file, and every other field is its default |
| AssetLoading.Load | src/asset_loading.rs:58-104 | loading can panic only for a `.zip` path |
| AssetLoading.ZipPathLoadsBundle | src/asset_loading.rs:64-77 | for a `.zip` path, a read failure gives `Io`, an archive that does not open gives `Zip`, and otherwise the result is what `from_zip` makes of the archive |
| AssetLoading.TypPathLoadsStandalone | src/asset_loading.rs:78-100 | a `.typ` path never panics, and loads exactly when the reader delivers UTF-8 text; the template then holds that text as main file with every other field at its default; otherwise the error is `Io` (`InvalidData` for bytes that are not UTF-8) |
| AssetLoading.UnsupportedFormatIff | src/asset_loading.rs:64-103 | `UnsupportedFormat` is reported exactly for paths whose extension is neither `zip` nor `typ` |
| AssetLoading.StandaloneMatchesBundle | src/asset_loading.rs:64-100 | a standalone `main.typ` loads as a bundle holding it under one directory would, except that the bundle's `path_given` is `/` |

## Left out

- Bevy wiring is host-framework plumbing and is not modelled: `Plugin::build`, `system_insert_to_world` and `AssetPluginForTypstTextures`.
- The async channel, the `AsyncComputeTaskPool` task and the `add_async` receiver exist for concurrency. A delivery is an element of the sequence the pass returns.
- The internals of `to_engine` are not modelled. Its feature-gated font search and package resolution are left out, and `ToEngine` keeps only the main text, resolvers and fonts. The pass records each engine build in `builds`.
- Foreign behaviour enters through the parameters described above: typst compilation and rendering, `Font::new`, TOML and serde decoding, `ZipArchive`, and `AssetServer`. In particular, handles are issued by the asset server and enter as parameters.
- `pixels_per_pt` is an `f32`. The model keeps it as a bit pattern and never computes with it.
- The `fallback` image is never used, so the constructor leaves it out. Log and warning output, including typst's compile warnings, are not modelled.
- Typst's `Dict` keeps insertion order; the model uses a map, so key order after a merge is not modelled.
- The `serde_json` detour is one oracle. Serialising to JSON and then decoding to a `Dict` is a single `transcode` that returns `None` when either step fails.
- Converting a zip entry's raw name into path components, and `VirtualPath` normalisation of resolver keys, are not modelled. Names and keys are component sequences.
- `TypstJob`'s `_handle` field only keeps the output image alive. The channel sender is represented by the output handle.
- The `From` conversions into `PathBufOrTemplate` are its constructors.
- `limit_jobs` and `unlimited_jobs` take and return the server by value. They are modelled as methods that update it in place.
- AssetErrors.Display: only the `TypstAssetError::<Variant>:` prefix is stated. The rest of the text of `Io` and `Zip` errors comes from std and zip and is passed in.
- Typst compilation is assumed to return a document with at least one page (`PagedDocument` in `External`). For a zero-page document, the indexing of `page.pages` at src/lib.rs:219-223 would panic; that panic is not modelled.
- src/template.rs is not part of this model: it is not declared as a module of the crate. The examples/ programs are demos.
