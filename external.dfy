/**
 * Stand-ins for the values that come from the crates the model does not
 * cover (std::io, zip, typst, bevy). Only their identity matters here.
 */
module External {

  newtype byte = x: int | 0 <= x < 0x100

  /** Rust's `u32`. */
  type u32 = x: nat | x < 0x1_0000_0000

  /** `std::io::Error`; `InvalidData` is what `read_to_string` reports for text that is not UTF-8. */
  datatype IoError = OsError(code: int) | InvalidData

  /** `zip::result::ZipError`. */
  datatype ZipError = ZipError(code: nat)

  /** `typst::text::Font`: a parsed font face. */
  datatype TypstFont = TypstFont(face: seq<byte>)

  /** `typst::foundations::Value`, reduced to the cases inputs are built from. */
  datatype Value =
    | NoneValue
    | BoolValue(b: bool)
    | IntValue(i: int)
    | StrValue(s: string)
    | ArrayValue(items: seq<Value>)
    | DictValue(entries: map<string, Value>)

  /** `typst::foundations::Dict`. */
  type Dict = map<string, Value>

  /** `Handle<TypstTemplate>`, as issued by bevy's `AssetServer`. */
  datatype Handle = Handle(id: nat)

  /** `Handle<Image>`, the caller's output handle. */
  datatype ImageHandle = ImageHandle(id: nat)

  /** A laid-out page of a typst document. */
  datatype Page = Page(frame: nat)

  datatype Document = Document(pages: seq<Page>)

  /** `typst::layout::PagedDocument`: typst always lays out at least one page. */
  type PagedDocument = d: Document | |d.pages| > 0 witness Document([Page(0)])

  /** `tiny_skia::Pixmap`, the output of `typst_render::render`. */
  datatype Pixmap = Pixmap(width: u32, height: u32, data: seq<byte>)

  /** An `f32` kept as its bit pattern; the model never computes with it. */
  datatype PixelsPerPt = PixelsPerPt(bits: bv32)

  /** `RenderAssetUsages`, a two-flag bit set. */
  datatype AssetUsage = AssetUsage(mainWorld: bool, renderWorld: bool)
}
