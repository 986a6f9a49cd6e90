/**
 * src/file_resolver.rs: reading a zipped typst project into a
 * `StructuredInMemoryTemplate`.
 *
 * The archive is a list of slots, one per `ZipArchive::by_index` call; a
 * slot is either the entry or the zip error that call reports. Text is read
 * with `read_to_string`, which fails on bytes that are not UTF-8; UTF-8
 * decoding, `Font::new` and the TOML decoder of `package.toml` are passed in
 * as `Decoders`.
 *
 * `ZipRun` is the declarative meaning of `from_zip`: every slot is
 * classified on its own (`Classify`), the first slot that stops the loop
 * decides the error, and otherwise the template is collected from the
 * classified slots. `FromZip` is the loop itself, proved to agree with it.
 */
module FileResolver {
  import opened Wrappers
  import opened Paths
  import opened External
  import opened AssetErrors

  datatype FileTypeHint = Image | Font | Typst

  /** `BevyTypstDotToml`, the optional `package.toml` manifest. */
  datatype BevyTypstDotToml = BevyTypstDotToml(
    name: Option<string>,
    authors: seq<string>,
    assetRequests: map<Path, Option<FileTypeHint>>,
    packageRequests: seq<string>)

  /** The derived `Default`: every field `#[serde(default)]` and empty. */
  const DefaultToml := BevyTypstDotToml(None, [], map[], [])

  /** `StructuredInMemoryTemplate`; resolver entries are keyed by their virtual path. */
  datatype StructuredInMemoryTemplate = StructuredInMemoryTemplate(
    loadedToml: BevyTypstDotToml,
    loadedFonts: seq<TypstFont>,
    loadedMain: string,
    pathGiven: Path,
    fileResolver: seq<(Path, seq<byte>)>,
    sourceResolver: seq<(Path, string)>)

  /** The derived `Default`. */
  const DefaultTemplate := StructuredInMemoryTemplate(DefaultToml, [], "", [], [], [])

  /** The engine `to_engine` builds: main file, static resolvers and fonts. */
  datatype Engine = Engine(
    main: string,
    files: seq<(Path, seq<byte>)>,
    sources: seq<(Path, string)>,
    fonts: seq<TypstFont>)

  /** `StructuredInMemoryTemplate::to_engine`; feature-gated font and package options are left out. */
  function ToEngine(t: StructuredInMemoryTemplate): (BevyTypstDotToml, Engine) {
    (t.loadedToml, Engine(t.loadedMain, t.fileResolver, t.sourceResolver, t.loadedFonts))
  }

  /** A zip entry: its name as path components, whether it is a file, and what reading it yields. */
  datatype ZipEntry = ZipEntry(name: Path, isFile: bool, data: Result<seq<byte>, IoError>)

  type Archive = seq<Result<ZipEntry, ZipError>>

  /** The foreign decoders `from_zip` calls. */
  datatype Decoders = Decoders(
    utf8: seq<byte> -> Option<string>,
    font: seq<byte> -> Option<TypstFont>,
    toml: string -> Option<BevyTypstDotToml>)

  /** `Read::read_to_string`: an I/O failure, or `InvalidData` for bytes that are not UTF-8. */
  function ReadToString(data: Result<seq<byte>, IoError>, utf8: seq<byte> -> Option<string>): Result<string, IoError> {
    match data
    case Failure(io) => Failure(io)
    case Success(bytes) =>
      match utf8(bytes)
      case None => Failure(InvalidData)
      case Some(text) => Success(text)
  }

  const MacOsMetadata: Path := ["__MACOSX"]

  /** A slot `from_zip` looks at beyond taking the prefix: a file not under `__MACOSX`. */
  predicate IsKept(slot: Result<ZipEntry, ZipError>) {
    slot.Success? && slot.value.isFile && !StartsWith(slot.value.name, MacOsMetadata)
  }

  /** The prefix stripped from every name: the full name of the first entry, whatever it is. */
  function PrefixOf(zip: Archive): Path {
    if |zip| > 0 && zip[0].Success? then zip[0].value.name else []
  }

  /** What one slot contributes to the load. */
  datatype Step =
    | Halt(error: TypstAssetError)         // the loop returns this error
    | Unstrippable                         // `strip_prefix(..).unwrap()` panics
    | Skip                                 // a directory or `__MACOSX` entry
    | MainFile(text: string)
    | SourceFile(path: Path, text: string)
    | FontFile(font: Option<TypstFont>)    // `None`: `Font::new` rejected the bytes
    | TomlFile(toml: BevyTypstDotToml)
    | AssetFile(path: Path, bytes: seq<byte>)

  predicate Stops(s: Step) {
    s.Halt? || s.Unstrippable?
  }

  /** The path of a kept slot once the prefix is stripped. */
  function Stripped(slot: Result<ZipEntry, ZipError>, prefix: Path): Option<Path> {
    if IsKept(slot) then StripPrefix(slot.value.name, prefix) else None
  }

  predicate IsTyp(p: Path) { Extension(p) == Some("typ") }
  predicate IsOtf(p: Path) { Extension(p) == Some("otf") }
  predicate IsPackageToml(p: Path) { Extension(p) == Some("toml") && FileName(p) == Some("package.toml") }
  predicate IsMainTyp(p: Path) { IsTyp(p) && FileName(p) == Some("main.typ") }

  /** How `from_zip` treats one slot, given the prefix. */
  function Classify(slot: Result<ZipEntry, ZipError>, prefix: Path, dec: Decoders): Step {
    match slot
    case Failure(z) => Halt(Zip(z))
    case Success(entry) =>
      if !IsKept(slot) then Skip
      else
        match StripPrefix(entry.name, prefix)
        case None => Unstrippable
        case Some(path) => ClassifyFile(path, entry.data, dec)
  }

  /** How `from_zip` treats a kept file, by its stripped path. */
  function ClassifyFile(path: Path, data: Result<seq<byte>, IoError>, dec: Decoders): (st: Step)
    ensures !st.Skip? && !st.Unstrippable?
    ensures st.Halt? ==> st.error.Io? || st.error == Preloader(MalformedPackageToml)
  {
    if IsTyp(path) then
      match ReadToString(data, dec.utf8)
      case Failure(io) => Halt(Io(io))
      case Success(text) => if IsMainTyp(path) then MainFile(text) else SourceFile(path, text)
    else if IsOtf(path) then
      match data
      case Failure(io) => Halt(Io(io))
      case Success(bytes) => FontFile(dec.font(bytes))
    else if IsPackageToml(path) then
      match ReadToString(data, dec.utf8)
      case Failure(io) => Halt(Io(io))
      case Success(text) =>
        match dec.toml(text)
        case None => Halt(Preloader(MalformedPackageToml))
        case Some(toml) => TomlFile(toml)
    else
      match data
      case Failure(io) => Halt(Io(io))
      case Success(bytes) => AssetFile(path, bytes)
  }

  /** The first `n` slots, each classified against the archive's prefix. */
  function StepsUpTo(zip: Archive, n: nat, dec: Decoders): (s: seq<Step>)
    requires n <= |zip|
    ensures |s| == n
  {
    if n == 0 then [] else StepsUpTo(zip, n - 1, dec) + [Classify(zip[n - 1], PrefixOf(zip), dec)]
  }

  function Steps(zip: Archive, dec: Decoders): (s: seq<Step>)
    ensures |s| == |zip|
  {
    StepsUpTo(zip, |zip|, dec)
  }

  lemma {:induction false} StepAt(zip: Archive, dec: Decoders, i: nat)
    requires i < |zip|
    ensures Steps(zip, dec)[i] == Classify(zip[i], PrefixOf(zip), dec)
  {
    StepUpToAt(zip, |zip|, dec, i);
  }

  lemma {:induction false} StepUpToAt(zip: Archive, n: nat, dec: Decoders, i: nat)
    requires i < n <= |zip|
    ensures StepsUpTo(zip, n, dec)[i] == Classify(zip[i], PrefixOf(zip), dec)
  {
    if i < n - 1 {
      StepUpToAt(zip, n - 1, dec, i);
    }
  }

  /** Index of the first step that stops the loop, or `|s|`. */
  function FirstStop(s: seq<Step>): (k: nat)
    ensures k <= |s|
    ensures forall j :: 0 <= j < k ==> !Stops(s[j])
    ensures k < |s| ==> Stops(s[k])
  {
    if |s| == 0 then 0
    else if Stops(s[0]) then 0
    else 1 + FirstStop(s[1..])
  }

  /** The text of the last `main.typ`: every later one overwrites the earlier. */
  function LastMain(s: seq<Step>): Option<string> {
    if |s| == 0 then None
    else if s[|s| - 1].MainFile? then Some(s[|s| - 1].text)
    else LastMain(s[..|s| - 1])
  }

  function LastToml(s: seq<Step>): Option<BevyTypstDotToml> {
    if |s| == 0 then None
    else if s[|s| - 1].TomlFile? then Some(s[|s| - 1].toml)
    else LastToml(s[..|s| - 1])
  }

  /** The fonts that decoded, in archive order. */
  function Fonts(s: seq<Step>): seq<TypstFont> {
    if |s| == 0 then []
    else
      var last := s[|s| - 1];
      Fonts(s[..|s| - 1]) + if last.FontFile? && last.font.Some? then [last.font.value] else []
  }

  function Sources(s: seq<Step>): seq<(Path, string)> {
    if |s| == 0 then []
    else
      var last := s[|s| - 1];
      Sources(s[..|s| - 1]) + if last.SourceFile? then [(last.path, last.text)] else []
  }

  function Assets(s: seq<Step>): seq<(Path, seq<byte>)> {
    if |s| == 0 then []
    else
      var last := s[|s| - 1];
      Assets(s[..|s| - 1]) + if last.AssetFile? then [(last.path, last.bytes)] else []
  }

  /** How a call ends: it returns, or a `strip_prefix(..).unwrap()` panics. */
  datatype Run = Returns(result: Result<StructuredInMemoryTemplate, TypstAssetError>) | Panics

  function Outcome(s: seq<Step>): Run {
    var k := FirstStop(s);
    if k < |s| then
      if s[k].Unstrippable? then Panics else Returns(Failure(s[k].error))
    else
      match LastMain(s)
      case None => Returns(Failure(Preloader(NoMainDotTyp)))
      case Some(main) =>
        Returns(Success(StructuredInMemoryTemplate(
          LastToml(s).GetOr(DefaultToml), Fonts(s), main, Root, Assets(s), Sources(s))))
  }

  /** The meaning of `from_zip` on an archive. */
  function ZipRun(zip: Archive, dec: Decoders): Run {
    Outcome(Steps(zip, dec))
  }

  /** The first step that stops the loop decides how the run ends. */
  lemma StopDecides(s: seq<Step>, i: nat)
    requires i < |s| && Stops(s[i])
    requires forall j :: 0 <= j < i ==> !Stops(s[j])
    ensures Outcome(s) == if s[i].Unstrippable? then Panics else Returns(Failure(s[i].error))
  {
    assert FirstStop(s) == i;
  }

  /** How the collected values change when one more step is taken into account. */
  lemma CollectStep(s: seq<Step>, i: nat)
    requires i < |s|
    ensures LastMain(s[..i + 1]) == if s[i].MainFile? then Some(s[i].text) else LastMain(s[..i])
    ensures LastToml(s[..i + 1]) == if s[i].TomlFile? then Some(s[i].toml) else LastToml(s[..i])
    ensures Fonts(s[..i + 1]) == Fonts(s[..i]) + if s[i].FontFile? && s[i].font.Some? then [s[i].font.value] else []
    ensures Sources(s[..i + 1]) == Sources(s[..i]) + if s[i].SourceFile? then [(s[i].path, s[i].text)] else []
    ensures Assets(s[..i + 1]) == Assets(s[..i]) + if s[i].AssetFile? then [(s[i].path, s[i].bytes)] else []
  {
    assert s[..i + 1][..i] == s[..i];
  }

  lemma SlotFailureHalts(zip: Archive, dec: Decoders, ix: nat)
    requires ix < |zip| && zip[ix].Failure?
    ensures Steps(zip, dec)[ix] == Halt(Zip(zip[ix].error))
  {
    StepAt(zip, dec, ix);
  }

  /** The body of the `from_zip` loop for entry `ix`, before its effect is applied. */
  method ReadEntry(zip: Archive, ix: nat, prefix: Path, dec: Decoders) returns (step: Step)
    requires ix < |zip| && prefix == PrefixOf(zip)
    ensures step == Steps(zip, dec)[ix]
  {
    step := Classify(zip[ix], prefix, dec);
    StepAt(zip, dec, ix);
  }

  /**
   * `StructuredInMemoryTemplate::from_zip`: one pass over the archive that
   * overwrites the main text and the manifest and pushes fonts, sources and
   * assets as their entries come.
   */
  method FromZip(zip: Archive, dec: Decoders) returns (r: Result<StructuredInMemoryTemplate, TypstAssetError>)
    requires !ZipRun(zip, dec).Panics?
    ensures ZipRun(zip, dec) == Returns(r)
  {
    var typstDotToml: Option<BevyTypstDotToml> := None;
    var mainDotTyp: Option<string> := None;
    var loadedFonts: seq<TypstFont> := [];
    var sourceResolver: seq<(Path, string)> := [];
    var fileResolver: seq<(Path, seq<byte>)> := [];
    var prefix: Option<Path> := None;
    ghost var steps := Steps(zip, dec);
    for ix := 0 to |zip|
      invariant forall j :: 0 <= j < ix ==> !Stops(steps[j])
      invariant prefix == if ix == 0 then None else Some(PrefixOf(zip))
      invariant typstDotToml == LastToml(steps[..ix])
      invariant mainDotTyp == LastMain(steps[..ix])
      invariant loadedFonts == Fonts(steps[..ix])
      invariant sourceResolver == Sources(steps[..ix])
      invariant fileResolver == Assets(steps[..ix])
    {
      CollectStep(steps, ix);
      if zip[ix].Failure? {
        SlotFailureHalts(zip, dec, ix);
        StopDecides(steps, ix);
        return Failure(Zip(zip[ix].error));
      }
      if prefix.None? {
        prefix := Some(zip[ix].value.name);
      }
      var step := ReadEntry(zip, ix, prefix.value, dec);
      match step
      case Halt(error) =>
        StopDecides(steps, ix);
        return Failure(error);
      case Unstrippable =>
        StopDecides(steps, ix);
        assert false;
      case Skip =>
      case MainFile(text) =>
        mainDotTyp := Some(text);
      case SourceFile(path, text) =>
        sourceResolver := sourceResolver + [(path, text)];
      case FontFile(font) =>
        if font.Some? {
          loadedFonts := loadedFonts + [font.value];
        }
      case TomlFile(toml) =>
        typstDotToml := Some(toml);
      case AssetFile(path, bytes) =>
        fileResolver := fileResolver + [(path, bytes)];
    }
    assert steps[..|zip|] == steps;
    if mainDotTyp.None? {
      return Failure(Preloader(NoMainDotTyp));
    }
    r := Success(StructuredInMemoryTemplate(
      typstDotToml.GetOr(DefaultToml), loadedFonts, mainDotTyp.value, Root, fileResolver, sourceResolver));
  }
}
