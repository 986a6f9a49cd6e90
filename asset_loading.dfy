/**
 * src/asset_loading.rs: `TypstZipLoader::load`, which turns the bytes behind
 * an asset path into a template according to the path's extension.
 *
 * The asset reader is the result of reading it to the end; opening the zip
 * archive (`ZipArchive::new`) is passed in, as are the decoders `from_zip`
 * uses.
 */
module AssetLoading {
  import opened Wrappers
  import opened Paths
  import opened External
  import opened AssetErrors
  import opened FileResolver
  import ZipLemmas

  /** A standalone `.typ` file: its text as main file, every other field `Default`. */
  function Standalone(text: string): (t: StructuredInMemoryTemplate)
    ensures t.loadedMain == text
    ensures t.loadedFonts == [] && t.sourceResolver == [] && t.fileResolver == []
    ensures t.loadedToml == DefaultToml && t.pathGiven == []
  {
    DefaultTemplate.(loadedMain := text)
  }

  /** `TypstZipLoader::load`: `.zip` first, then `.typ`, anything else is unsupported. */
  function Load(path: Path, reader: Result<seq<byte>, IoError>,
                openZip: seq<byte> -> Result<Archive, ZipError>, dec: Decoders): (r: Run)
    ensures r.Panics? ==> Extension(path) == Some("zip")
  {
    if Extension(path) == Some("zip") then
      match reader
      case Failure(io) => Returns(Failure(Io(io)))
      case Success(bytes) =>
        match openZip(bytes)
        case Failure(z) => Returns(Failure(Zip(z)))
        case Success(zip) => ZipRun(zip, dec)
    else if Extension(path) == Some("typ") then
      match ReadToString(reader, dec.utf8)
      case Failure(io) => Returns(Failure(Io(io)))
      case Success(text) => Returns(Success(Standalone(text)))
    else
      Returns(Failure(UnsupportedFormat))
  }

  /**
   * A `.zip` path is read to the end and opened as an archive: a failed read
   * is `Io`, an archive that does not open is `Zip`, and otherwise the result
   * is what `from_zip` makes of the archive.
   */
  lemma ZipPathLoadsBundle(path: Path, reader: Result<seq<byte>, IoError>,
                           openZip: seq<byte> -> Result<Archive, ZipError>, dec: Decoders)
    requires Extension(path) == Some("zip")
    ensures reader.Failure? ==> Load(path, reader, openZip, dec) == Returns(Failure(Io(reader.error)))
    ensures reader.Success? && openZip(reader.value).Failure? ==>
              Load(path, reader, openZip, dec) == Returns(Failure(Zip(openZip(reader.value).error)))
    ensures reader.Success? && openZip(reader.value).Success? ==>
              Load(path, reader, openZip, dec) == ZipRun(openZip(reader.value).value, dec)
  {
  }

  /**
   * A `.typ` path never panics, and loads exactly when the reader delivers
   * UTF-8 text: then the template holds that text as main file and every
   * other field is its default; otherwise the error is `Io`, `InvalidData`
   * for bytes that are not UTF-8.
   */
  lemma TypPathLoadsStandalone(path: Path, reader: Result<seq<byte>, IoError>,
                               openZip: seq<byte> -> Result<Archive, ZipError>, dec: Decoders)
    requires Extension(path) == Some("typ")
    ensures var r := Load(path, reader, openZip, dec);
      && r.Returns?
      && (r.result.Success? <==> reader.Success? && dec.utf8(reader.value).Some?)
      && (r.result.Success? ==>
            var t := r.result.value;
            && t.loadedMain == dec.utf8(reader.value).value
            && t.loadedFonts == [] && t.sourceResolver == [] && t.fileResolver == []
            && t.loadedToml == DefaultToml && t.pathGiven == [])
      && (reader.Failure? ==> r.result == Failure(Io(reader.error)))
      && (reader.Success? && dec.utf8(reader.value).None? ==> r.result == Failure(Io(InvalidData)))
  {
  }

  /** `UnsupportedFormat` is reported exactly for paths whose extension is neither `zip` nor `typ`. */
  lemma UnsupportedFormatIff(path: Path, reader: Result<seq<byte>, IoError>,
                             openZip: seq<byte> -> Result<Archive, ZipError>, dec: Decoders)
    ensures Load(path, reader, openZip, dec) == Returns(Failure(UnsupportedFormat)) <==>
            Extension(path) != Some("zip") && Extension(path) != Some("typ")
  {
    if Extension(path) == Some("zip") && reader.Success? && openZip(reader.value).Success? {
      var zip := openZip(reader.value).value;
      if ZipRun(zip, dec).Returns? && ZipRun(zip, dec).result.Failure? {
        ZipLemmas.ZipRunErrors(zip, dec);
      }
    }
  }

  /**
   * A standalone `main.typ` loads as the bundle holding it alone under one
   * directory would, except that the bundle is rooted at `/`.
   */
  lemma StandaloneMatchesBundle(dir: Component, reader: Result<seq<byte>, IoError>,
                                openZip: seq<byte> -> Result<Archive, ZipError>, dec: Decoders)
    requires IsNormal(dir) && dir != "__MACOSX"
    ensures var zip := [Success(ZipEntry([dir], false, Success([]))),
                        Success(ZipEntry([dir, "main.typ"], true, reader))];
            var standalone := Load(["main.typ"], reader, openZip, dec);
            && standalone.Returns? && ZipRun(zip, dec).Returns?
            && (standalone.result.Failure? ==> ZipRun(zip, dec) == standalone)
            && (standalone.result.Success? ==>
                  ZipRun(zip, dec) == Returns(Success(standalone.result.value.(pathGiven := Root))))
  {
    var zip := [Success(ZipEntry([dir], false, Success([]))),
                Success(ZipEntry([dir, "main.typ"], true, reader))];
    MainTypIsTyp();
    assert [dir, "main.typ"][..1] == [dir];
    assert [dir] + ["main.typ"] == [dir, "main.typ"];
    assert !StartsWith([dir, "main.typ"], MacOsMetadata);
    assert ZipLemmas.PathOf(zip, 1) == Some(["main.typ"]);
    ZipLemmas.FileStep(zip, dec, 1);
    StepAt(zip, dec, 0);
    var s := Steps(zip, dec);
    assert s == [s[0], s[1]] && s[0] == Skip;
    match ReadToString(reader, dec.utf8)
    case Failure(io) =>
      assert s[1] == Halt(Io(io));
      StopDecides(s, 1);
    case Success(text) =>
      assert s[1] == MainFile(text);
      MainAfterSkip(text);
  }

  /** A directory followed by a `main.typ` is a bundle with that main file and nothing else. */
  lemma MainAfterSkip(text: string)
    ensures Outcome([Skip, MainFile(text)]) == Returns(Success(Standalone(text).(pathGiven := Root)))
  {
    var s := [Skip, MainFile(text)];
    assert s[..1] == [Skip] && [Skip][..0] == [];
    assert FirstStop(s) == 2;
    assert LastMain(s) == Some(text);
    assert LastToml(s) == LastToml([Skip]) == LastToml([]) == None;
    assert Fonts(s) == Fonts([Skip]) == Fonts([]) == [];
    assert Sources(s) == Sources([Skip]) == Sources([]) == [];
    assert Assets(s) == Assets([Skip]) == Assets([]) == [];
  }

  /** `main.typ` has extension `typ` and is matched as the main file. */
  lemma MainTypIsTyp()
    ensures Extension(["main.typ"]) == Some("typ") && IsMainTyp(["main.typ"])
  {
    ExtensionOfJoined([], "main", "typ");
    assert "main" + "." + "typ" == "main.typ";
    assert [] + ["main.typ"] == ["main.typ"];
  }
}
