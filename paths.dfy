/**
 * The part of `std::path` the crate relies on: component-wise prefix tests,
 * `strip_prefix`, `file_name` and `extension`.
 *
 * A path is the sequence of its components as `Path::components` yields them:
 * "/" stands for the root directory, "." for a leading current directory,
 * ".." for a parent directory, and every other string is a normal component.
 * Splitting a name at separators happens before this model; `IsNormal` does
 * not constrain the characters of a component.
 */
module Paths {
  import opened Wrappers

  type Component = string
  type Path = seq<Component>

  /** `PathBuf::from("/")`. */
  const Root: Path := ["/"]

  predicate IsNormal(c: Component) {
    c != "/" && c != "." && c != ".."
  }

  /** `Path::starts_with`: `base` is a prefix of `p`, component by component. */
  predicate StartsWith(p: Path, base: Path) {
    |base| <= |p| && p[..|base|] == base
  }

  /** `Path::strip_prefix`, with `None` for its error. */
  function StripPrefix(p: Path, base: Path): (r: Option<Path>)
    ensures r.Some? <==> StartsWith(p, base)
    ensures r.Some? ==> base + r.value == p
  {
    if StartsWith(p, base) then Some(p[|base|..]) else None
  }

  /** `Path::file_name`: the last component when it is a normal one. */
  function FileName(p: Path): Option<string> {
    if |p| > 0 && IsNormal(p[|p| - 1]) then Some(p[|p| - 1]) else None
  }

  /** Index of the last '.' in `s`, if any. */
  function LastDot(s: string): (r: Option<nat>)
    ensures r.Some? ==> r.value < |s| && s[r.value] == '.'
    ensures r.Some? ==> forall j :: r.value < j < |s| ==> s[j] != '.'
    ensures r.None? ==> forall j :: 0 <= j < |s| ==> s[j] != '.'
  {
    if |s| == 0 then None
    else if s[|s| - 1] == '.' then Some(|s| - 1)
    else LastDot(s[..|s| - 1])
  }

  /**
   * `Path::extension`: what follows the last '.' of the file name, unless
   * that '.' is the name's first character (".bashrc" has no extension).
   */
  function Extension(p: Path): (r: Option<string>)
    ensures r.Some? ==> FileName(p).Some?
    ensures r.Some? ==>
      var name := FileName(p).value;
      |r.value| + 1 < |name| &&
      name == name[..|name| - |r.value| - 1] + "." + r.value &&
      '.' !in r.value
  {
    match FileName(p)
    case None => None
    case Some(name) =>
      match LastDot(name)
      case None => None
      case Some(i) =>
        if i == 0 then None
        else
          assert name == name[..i] + "." + name[i + 1..];
          Some(name[i + 1..])
  }

  /** Joining a normal file name `stem.ext` onto any directory gives back `ext`. */
  lemma {:induction false} ExtensionOfJoined(dir: Path, stem: string, ext: string)
    requires stem != [] && IsNormal(stem + "." + ext) && '.' !in ext
    ensures Extension(dir + [stem + "." + ext]) == Some(ext)
    ensures FileName(dir + [stem + "." + ext]) == Some(stem + "." + ext)
  {
    var name := stem + "." + ext;
    var p := dir + [name];
    assert p[|p| - 1] == name;
    assert name[|stem|] == '.';
    forall j | |stem| < j < |name| ensures name[j] != '.' {
      assert name[j] == ext[j - |stem| - 1];
    }
    var d := LastDot(name);
    assert d == Some(|stem|);
    assert name[|stem| + 1..] == ext;
  }
}
