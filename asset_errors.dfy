/**
 * The error taxonomy of template loading: `FilePreloaderError`
 * (src/file_resolver.rs) and `TypstAssetError` with its `Display`
 * (src/asset_loading.rs).
 */
module AssetErrors {
  import opened External

  datatype FilePreloaderError = NoPackageDotToml | MalformedPackageToml | NoMainDotTyp

  datatype TypstAssetError =
    | Io(io: IoError)
    | Zip(zip: ZipError)
    | Preloader(preloader: FilePreloaderError)
    | UnsupportedFormat

  /** The derived `Display` of a unit variant prints the variant's name. */
  function PreloaderText(e: FilePreloaderError): string {
    match e
    case NoPackageDotToml => "NoPackageDotToml"
    case MalformedPackageToml => "MalformedPackageToml"
    case NoMainDotTyp => "NoMainDotTyp"
  }

  function VariantName(e: TypstAssetError): string {
    match e
    case Io(_) => "Io"
    case Zip(_) => "Zip"
    case Preloader(_) => "Preloader"
    case UnsupportedFormat => "UnsupportedFormat"
  }

  const DisplayPrefix := "TypstAssetError::"

  /** What `Display` prints after "TypstAssetError::<Variant>:". */
  function Detail(e: TypstAssetError, ioText: IoError -> string, zipText: ZipError -> string): string {
    match e
    case Io(io) => " " + ioText(io)
    case Zip(z) => " " + zipText(z)
    case Preloader(p) => " " + PreloaderText(p)
    case UnsupportedFormat => " Neither a .zip archive or a standalone .typ file"
  }

  /**
   * `impl Display for TypstAssetError`. How an I/O or zip error prints
   * itself belongs to std and zip and is passed in.
   */
  function Display(e: TypstAssetError, ioText: IoError -> string, zipText: ZipError -> string): (r: string)
    ensures DisplayPrefix + VariantName(e) + ":" <= r
  {
    DisplayPrefix + VariantName(e) + ":" + Detail(e, ioText, zipText)
  }

  /** The text of an error names its variant: errors of different kinds never print alike. */
  lemma DisplayTellsVariantsApart(e1: TypstAssetError, e2: TypstAssetError,
                                  ioText: IoError -> string, zipText: ZipError -> string)
    requires VariantName(e1) != VariantName(e2)
    ensures Display(e1, ioText, zipText) != Display(e2, ioText, zipText)
  {
    var d1, d2 := Display(e1, ioText, zipText), Display(e2, ioText, zipText);
    var n := |DisplayPrefix|;
    assert d1[n] == VariantName(e1)[0];
    assert d2[n] == VariantName(e2)[0];
  }
}
