/**
 * What `from_zip` promises, stated over the archive and proved about its
 * declarative meaning `ZipRun` (which `FromZip` is proved to compute).
 */
module ZipLemmas {
  import opened Wrappers
  import opened Paths
  import opened External
  import opened AssetErrors
  import opened FileResolver

  /** The stripped path of slot `i`, when it is a kept file. */
  function PathOf(zip: Archive, i: nat): Option<Path>
    requires i < |zip|
  {
    Stripped(zip[i], PrefixOf(zip))
  }

  /** A `main.typ`, in any directory. */
  predicate IsMainEntry(zip: Archive, i: nat)
    requires i < |zip|
  {
    PathOf(zip, i).Some? && IsMainTyp(PathOf(zip, i).value)
  }

  predicate IsSourceEntry(zip: Archive, i: nat)
    requires i < |zip|
  {
    PathOf(zip, i).Some? && IsTyp(PathOf(zip, i).value) && !IsMainTyp(PathOf(zip, i).value)
  }

  predicate IsFontEntry(zip: Archive, i: nat)
    requires i < |zip|
  {
    PathOf(zip, i).Some? && IsOtf(PathOf(zip, i).value)
  }

  /** A `package.toml`, in any directory. */
  predicate IsTomlEntry(zip: Archive, i: nat)
    requires i < |zip|
  {
    PathOf(zip, i).Some? && IsPackageToml(PathOf(zip, i).value)
  }

  /** Any other kept file, a `.toml` with another name included. */
  predicate IsAssetEntry(zip: Archive, i: nat)
    requires i < |zip|
  {
    var p := PathOf(zip, i);
    p.Some? && !IsTyp(p.value) && !IsOtf(p.value) && !IsPackageToml(p.value)
  }

  /** What `read_to_string` yields on slot `i`. */
  function Text(zip: Archive, i: nat, dec: Decoders): Result<string, IoError>
    requires i < |zip| && zip[i].Success?
  {
    ReadToString(zip[i].value.data, dec.utf8)
  }

  /** No slot ends the loop early. */
  predicate RunsThrough(zip: Archive, dec: Decoders) {
    forall i | 0 <= i < |zip| :: !Stops(Steps(zip, dec)[i])
  }

  /** A kept slot under the prefix is classified by its stripped path alone. */
  lemma FileStep(zip: Archive, dec: Decoders, i: nat)
    requires i < |zip| && PathOf(zip, i).Some?
    ensures zip[i].Success?
    ensures Steps(zip, dec)[i] == ClassifyFile(PathOf(zip, i).value, zip[i].value.data, dec)
  {
    StepAt(zip, dec, i);
  }

  /** A slot that does not stop the loop is an entry, skipped exactly when it is not kept. */
  lemma KeptStep(zip: Archive, dec: Decoders, i: nat)
    requires i < |zip| && !Stops(Steps(zip, dec)[i])
    ensures zip[i].Success?
    ensures Steps(zip, dec)[i].Skip? <==> !IsKept(zip[i])
    ensures IsKept(zip[i]) ==>
              PathOf(zip, i).Some? && Steps(zip, dec)[i] == ClassifyFile(PathOf(zip, i).value, zip[i].value.data, dec)
  {
    StepAt(zip, dec, i);
  }

  /** The errors a slot can stop the loop with. */
  lemma HaltErrors(zip: Archive, dec: Decoders, i: nat)
    requires i < |zip| && Steps(zip, dec)[i].Halt?
    ensures var e := Steps(zip, dec)[i].error;
      e.Zip? || e.Io? || e == Preloader(MalformedPackageToml)
  {
    StepAt(zip, dec, i);
  }

  lemma MainStep(zip: Archive, dec: Decoders, i: nat)
    requires i < |zip| && !Stops(Steps(zip, dec)[i])
    ensures var st := Steps(zip, dec)[i];
      && (st.MainFile? <==> IsMainEntry(zip, i))
      && (st.MainFile? ==> Text(zip, i, dec) == Success(st.text))
  {
    KeptStep(zip, dec, i);
  }

  lemma SourceStep(zip: Archive, dec: Decoders, i: nat)
    requires i < |zip| && !Stops(Steps(zip, dec)[i])
    ensures var st := Steps(zip, dec)[i];
      && (st.SourceFile? <==> IsSourceEntry(zip, i))
      && (st.SourceFile? ==> st.path == PathOf(zip, i).value && Text(zip, i, dec) == Success(st.text))
  {
    KeptStep(zip, dec, i);
  }

  lemma FontStep(zip: Archive, dec: Decoders, i: nat)
    requires i < |zip| && !Stops(Steps(zip, dec)[i])
    ensures var st := Steps(zip, dec)[i];
      && (st.FontFile? <==> IsFontEntry(zip, i))
      && (st.FontFile? ==> zip[i].value.data.Success? && st.font == dec.font(zip[i].value.data.value))
  {
    KeptStep(zip, dec, i);
  }

  lemma TomlStep(zip: Archive, dec: Decoders, i: nat)
    requires i < |zip| && !Stops(Steps(zip, dec)[i])
    ensures var st := Steps(zip, dec)[i];
      && (st.TomlFile? <==> IsTomlEntry(zip, i))
      && (st.TomlFile? ==> Text(zip, i, dec).Success? && dec.toml(Text(zip, i, dec).value) == Some(st.toml))
  {
    KeptStep(zip, dec, i);
  }

  lemma AssetStep(zip: Archive, dec: Decoders, i: nat)
    requires i < |zip| && !Stops(Steps(zip, dec)[i])
    ensures var st := Steps(zip, dec)[i];
      && (st.AssetFile? <==> IsAssetEntry(zip, i))
      && (st.AssetFile? ==> st.path == PathOf(zip, i).value && zip[i].value.data == Success(st.bytes))
  {
    KeptStep(zip, dec, i);
  }

  lemma SuccessRunsThrough(zip: Archive, dec: Decoders)
    requires ZipRun(zip, dec).Returns? && ZipRun(zip, dec).result.Success?
    ensures RunsThrough(zip, dec)
    ensures FirstStop(Steps(zip, dec)) == |zip|
  {
  }

  // ---- the collectors, as properties of a sequence of steps ----

  /** `LastMain` finds nothing exactly when no step is a `MainFile`. */
  lemma {:induction false} LastMainNone(s: seq<Step>)
    ensures LastMain(s).None? <==> forall i :: 0 <= i < |s| ==> !s[i].MainFile?
  {
    if |s| > 0 {
      var init := s[..|s| - 1];
      LastMainNone(init);
      assert forall i :: 0 <= i < |init| ==> s[i] == init[i];
    }
  }

  /** What `LastMain` finds is the last `MainFile` step; `i` is its index. */
  lemma {:induction false} LastMainIndex(s: seq<Step>) returns (i: nat)
    requires LastMain(s).Some?
    ensures i < |s| && s[i] == MainFile(LastMain(s).value)
    ensures forall j :: i < j < |s| ==> !s[j].MainFile?
  {
    var n := |s| - 1;
    if s[n].MainFile? {
      i := n;
    } else {
      var init := s[..n];
      i := LastMainIndex(init);
      assert s[i] == init[i];
      assert forall j :: i < j < n ==> s[j] == init[j];
    }
  }

  /** `LastToml` finds nothing exactly when no step is a `TomlFile`. */
  lemma {:induction false} LastTomlNone(s: seq<Step>)
    ensures LastToml(s).None? <==> forall i :: 0 <= i < |s| ==> !s[i].TomlFile?
  {
    if |s| > 0 {
      var init := s[..|s| - 1];
      LastTomlNone(init);
      assert forall i :: 0 <= i < |init| ==> s[i] == init[i];
    }
  }

  /** What `LastToml` finds is the last `TomlFile` step; `i` is its index. */
  lemma {:induction false} LastTomlIndex(s: seq<Step>) returns (i: nat)
    requires LastToml(s).Some?
    ensures i < |s| && s[i] == TomlFile(LastToml(s).value)
    ensures forall j :: i < j < |s| ==> !s[j].TomlFile?
  {
    var n := |s| - 1;
    if s[n].TomlFile? {
      i := n;
    } else {
      var init := s[..n];
      i := LastTomlIndex(init);
      assert s[i] == init[i];
      assert forall j :: i < j < n ==> s[j] == init[j];
    }
  }

  // ---- reference definitions read directly off the archive ----

  /** The decoded fonts of slots `0..n`, in archive order. */
  function FontsOf(zip: Archive, dec: Decoders, n: nat): seq<TypstFont>
    requires n <= |zip|
  {
    if n == 0 then []
    else
      var i := n - 1;
      FontsOf(zip, dec, i) +
        if IsFontEntry(zip, i) && zip[i].value.data.Success? && dec.font(zip[i].value.data.value).Some?
        then [dec.font(zip[i].value.data.value).value] else []
  }

  /** The non-main `.typ` slots of `0..n`, keyed by stripped path, in archive order. */
  function SourcesOf(zip: Archive, dec: Decoders, n: nat): seq<(Path, string)>
    requires n <= |zip|
  {
    if n == 0 then []
    else
      var i := n - 1;
      SourcesOf(zip, dec, i) +
        if IsSourceEntry(zip, i) && Text(zip, i, dec).Success?
        then [(PathOf(zip, i).value, Text(zip, i, dec).value)] else []
  }

  /** The asset slots of `0..n` with their bytes, in archive order. */
  function AssetsOf(zip: Archive, n: nat): seq<(Path, seq<byte>)>
    requires n <= |zip|
  {
    if n == 0 then []
    else
      var i := n - 1;
      AssetsOf(zip, i) +
        if IsAssetEntry(zip, i) && zip[i].value.data.Success?
        then [(PathOf(zip, i).value, zip[i].value.data.value)] else []
  }

  /** Up to the first stop, the collected fonts agree with the reference definition. */
  lemma {:induction false} FontsMatchArchive(zip: Archive, dec: Decoders, n: nat)
    requires n <= |zip|
    requires forall j :: 0 <= j < n ==> !Stops(Steps(zip, dec)[j])
    ensures Fonts(Steps(zip, dec)[..n]) == FontsOf(zip, dec, n)
  {
    if n > 0 {
      FontsMatchArchive(zip, dec, n - 1);
      CollectStep(Steps(zip, dec), n - 1);
      FontStep(zip, dec, n - 1);
    }
  }

  lemma {:induction false} SourcesMatchArchive(zip: Archive, dec: Decoders, n: nat)
    requires n <= |zip|
    requires forall j :: 0 <= j < n ==> !Stops(Steps(zip, dec)[j])
    ensures Sources(Steps(zip, dec)[..n]) == SourcesOf(zip, dec, n)
  {
    if n > 0 {
      SourcesMatchArchive(zip, dec, n - 1);
      CollectStep(Steps(zip, dec), n - 1);
      SourceStep(zip, dec, n - 1);
    }
  }

  lemma {:induction false} AssetsMatchArchive(zip: Archive, dec: Decoders, n: nat)
    requires n <= |zip|
    requires forall j :: 0 <= j < n ==> !Stops(Steps(zip, dec)[j])
    ensures Assets(Steps(zip, dec)[..n]) == AssetsOf(zip, n)
  {
    if n > 0 {
      AssetsMatchArchive(zip, dec, n - 1);
      CollectStep(Steps(zip, dec), n - 1);
      AssetStep(zip, dec, n - 1);
    }
  }

  // ---- what `from_zip` returns ----

  /** Nothing but a stray kept file can make the `strip_prefix` unwrap panic. */
  lemma NoPanicWhenUnderPrefix(zip: Archive, dec: Decoders)
    requires forall i :: 0 <= i < |zip| && IsKept(zip[i]) ==> StartsWith(zip[i].value.name, PrefixOf(zip))
    ensures !ZipRun(zip, dec).Panics?
  {
    var s := Steps(zip, dec);
    var k := FirstStop(s);
    if k < |s| {
      StepAt(zip, dec, k);
    }
  }

  /** The errors a run can end with: never `UnsupportedFormat` nor `NoPackageDotToml`. */
  lemma ZipRunErrors(zip: Archive, dec: Decoders)
    requires ZipRun(zip, dec).Returns? && ZipRun(zip, dec).result.Failure?
    ensures var e := ZipRun(zip, dec).result.error;
      e.Zip? || e.Io? || e == Preloader(MalformedPackageToml) || e == Preloader(NoMainDotTyp)
  {
    var s := Steps(zip, dec);
    var k := FirstStop(s);
    if k < |s| {
      HaltErrors(zip, dec, k);
    }
  }

  /** A slot the archive cannot open, reached before any other stop, is reported as `Zip`. */
  lemma ZipErrorReported(zip: Archive, dec: Decoders, i: nat)
    requires i < |zip| && zip[i].Failure?
    requires forall j :: 0 <= j < i ==> !Stops(Steps(zip, dec)[j])
    ensures ZipRun(zip, dec) == Returns(Failure(Zip(zip[i].error)))
  {
    SlotFailureHalts(zip, dec, i);
    StopDecides(Steps(zip, dec), i);
  }

  /**
   * A kept file whose reading fails, reached before any other stop, is
   * reported as `Io`, and a `package.toml` that does not decode as
   * `MalformedPackageToml`, whether or not there is a `main.typ`.
   */
  lemma ReadErrorReported(zip: Archive, dec: Decoders, i: nat)
    requires i < |zip| && PathOf(zip, i).Some?
    requires forall j :: 0 <= j < i ==> !Stops(Steps(zip, dec)[j])
    ensures (IsFontEntry(zip, i) || IsAssetEntry(zip, i)) && zip[i].value.data.Failure? ==>
              ZipRun(zip, dec) == Returns(Failure(Io(zip[i].value.data.error)))
    ensures (IsMainEntry(zip, i) || IsSourceEntry(zip, i) || IsTomlEntry(zip, i)) && Text(zip, i, dec).Failure? ==>
              ZipRun(zip, dec) == Returns(Failure(Io(Text(zip, i, dec).error)))
    ensures IsTomlEntry(zip, i) && Text(zip, i, dec).Success? && dec.toml(Text(zip, i, dec).value).None? ==>
              ZipRun(zip, dec) == Returns(Failure(Preloader(MalformedPackageToml)))
  {
    var s := Steps(zip, dec);
    FileStep(zip, dec, i);
    if Stops(s[i]) {
      StopDecides(s, i);
    }
  }

  /** `NoMainDotTyp` exactly when every slot is read without error and none is a `main.typ`. */
  lemma NoMainDotTypIff(zip: Archive, dec: Decoders)
    ensures ZipRun(zip, dec) == Returns(Failure(Preloader(NoMainDotTyp))) <==>
            RunsThrough(zip, dec) && forall i :: 0 <= i < |zip| ==> !IsMainEntry(zip, i)
  {
    var s := Steps(zip, dec);
    var k := FirstStop(s);
    if k < |s| {
      if s[k].Halt? {
        HaltErrors(zip, dec, k);
      }
    } else {
      LastMainNone(s);
      forall i | 0 <= i < |zip|
        ensures s[i].MainFile? <==> IsMainEntry(zip, i)
      {
        MainStep(zip, dec, i);
      }
    }
  }

  /** A successful load holds the text of the last `main.typ` and is rooted at `/`. */
  lemma SuccessMain(zip: Archive, dec: Decoders, t: StructuredInMemoryTemplate)
    requires ZipRun(zip, dec) == Returns(Success(t))
    ensures t.pathGiven == Root
    ensures exists i :: 0 <= i < |zip| && IsMainEntry(zip, i) && Text(zip, i, dec) == Success(t.loadedMain) &&
                        forall j :: i < j < |zip| ==> !IsMainEntry(zip, j)
  {
    var s := Steps(zip, dec);
    var i := LastMainIndex(s);
    MainStep(zip, dec, i);
    forall j | i < j < |zip|
      ensures !IsMainEntry(zip, j)
    {
      MainStep(zip, dec, j);
    }
  }

  /** A successful load of an archive without `package.toml` carries the default manifest. */
  lemma SuccessDefaultManifest(zip: Archive, dec: Decoders, t: StructuredInMemoryTemplate)
    requires ZipRun(zip, dec) == Returns(Success(t))
    requires forall i :: 0 <= i < |zip| ==> !IsTomlEntry(zip, i)
    ensures t.loadedToml == DefaultToml
    ensures t.loadedToml.name.None? && t.loadedToml.authors == [] &&
            t.loadedToml.assetRequests == map[] && t.loadedToml.packageRequests == []
  {
    SuccessRunsThrough(zip, dec);
    NoTomlSteps(zip, dec);
  }

  lemma NoTomlSteps(zip: Archive, dec: Decoders)
    requires RunsThrough(zip, dec)
    requires forall i :: 0 <= i < |zip| ==> !IsTomlEntry(zip, i)
    ensures LastToml(Steps(zip, dec)).None?
  {
    var s := Steps(zip, dec);
    forall i | 0 <= i < |zip|
      ensures !s[i].TomlFile?
    {
      TomlStep(zip, dec, i);
    }
    LastTomlNone(s);
  }

  /** A successful load carries the decoded text of the last `package.toml`. */
  lemma SuccessLastManifest(zip: Archive, dec: Decoders, t: StructuredInMemoryTemplate, i: nat)
    requires ZipRun(zip, dec) == Returns(Success(t))
    requires i < |zip| && IsTomlEntry(zip, i)
    requires forall j :: i < j < |zip| ==> !IsTomlEntry(zip, j)
    ensures Text(zip, i, dec).Success? && dec.toml(Text(zip, i, dec).value) == Some(t.loadedToml)
  {
    var s := Steps(zip, dec);
    TomlStep(zip, dec, i);
    LastTomlNone(s);
    var k := LastTomlIndex(s);
    TomlStep(zip, dec, k);
  }

  /**
   * A successful load carries the decoded fonts, the other `.typ` sources and
   * the assets, each in archive order; undecodable fonts are dropped.
   */
  lemma SuccessCollections(zip: Archive, dec: Decoders, t: StructuredInMemoryTemplate)
    requires ZipRun(zip, dec) == Returns(Success(t))
    ensures t.loadedFonts == FontsOf(zip, dec, |zip|)
    ensures t.sourceResolver == SourcesOf(zip, dec, |zip|)
    ensures t.fileResolver == AssetsOf(zip, |zip|)
  {
    var s := Steps(zip, dec);
    assert s[..|zip|] == s;
    FontsMatchArchive(zip, dec, |zip|);
    SourcesMatchArchive(zip, dec, |zip|);
    AssetsMatchArchive(zip, dec, |zip|);
  }

  // ---- the prefix, and slots that contribute nothing ----

  /**
   * A kept file in first position is its own prefix: it strips to the empty
   * path, which has no extension, so it lands among the assets (a `main.typ`
   * there is never found).
   */
  lemma FirstFileIsEmptyAsset(zip: Archive)
    requires |zip| > 0 && IsKept(zip[0])
    ensures PathOf(zip, 0) == Some([])
    ensures IsAssetEntry(zip, 0) && !IsMainEntry(zip, 0)
  {
    var n := zip[0].value.name;
    assert n[..|n|] == n;
    assert n + [] == n;
  }

  /**
   * A bundle zipped without its enclosing directory: the first file's name
   * becomes the prefix, the next file does not start with it, and the
   * `strip_prefix(..).unwrap()` panics.
   */
  lemma FlatBundlePanics(zip: Archive, dec: Decoders)
    requires |zip| >= 2 && IsKept(zip[0]) && zip[0].value.data.Success?
    requires IsKept(zip[1]) && !StartsWith(zip[1].value.name, zip[0].value.name)
    ensures ZipRun(zip, dec) == Panics
  {
    FirstFileIsEmptyAsset(zip);
    FileStep(zip, dec, 0);
    StepAt(zip, dec, 1);
    StopDecides(Steps(zip, dec), 1);
  }

  /** A step that neither stops the loop nor adds anything. */
  predicate Inert(st: Step) {
    st.Skip? || (st.FontFile? && st.font.None?)
  }

  lemma {:induction false} LastMainAppend(a: seq<Step>, b: seq<Step>)
    ensures LastMain(a + b) == if LastMain(b).Some? then LastMain(b) else LastMain(a)
  {
    if |b| == 0 {
      assert a + b == a;
    } else {
      var init := b[..|b| - 1];
      LastMainAppend(a, init);
      assert (a + b)[..|a + b| - 1] == a + init;
    }
  }

  lemma {:induction false} LastTomlAppend(a: seq<Step>, b: seq<Step>)
    ensures LastToml(a + b) == if LastToml(b).Some? then LastToml(b) else LastToml(a)
  {
    if |b| == 0 {
      assert a + b == a;
    } else {
      var init := b[..|b| - 1];
      LastTomlAppend(a, init);
      assert (a + b)[..|a + b| - 1] == a + init;
    }
  }

  lemma {:induction false} FontsAppend(a: seq<Step>, b: seq<Step>)
    ensures Fonts(a + b) == Fonts(a) + Fonts(b)
  {
    if |b| == 0 {
      assert a + b == a;
    } else {
      var init := b[..|b| - 1];
      FontsAppend(a, init);
      assert (a + b)[..|a + b| - 1] == a + init;
    }
  }

  lemma {:induction false} SourcesAppend(a: seq<Step>, b: seq<Step>)
    ensures Sources(a + b) == Sources(a) + Sources(b)
  {
    if |b| == 0 {
      assert a + b == a;
    } else {
      var init := b[..|b| - 1];
      SourcesAppend(a, init);
      assert (a + b)[..|a + b| - 1] == a + init;
    }
  }

  lemma {:induction false} AssetsAppend(a: seq<Step>, b: seq<Step>)
    ensures Assets(a + b) == Assets(a) + Assets(b)
  {
    if |b| == 0 {
      assert a + b == a;
    } else {
      var init := b[..|b| - 1];
      AssetsAppend(a, init);
      assert (a + b)[..|a + b| - 1] == a + init;
    }
  }

  lemma FirstStopIs(s: seq<Step>, k: nat)
    requires k <= |s|
    requires forall j :: 0 <= j < k ==> !Stops(s[j])
    requires k < |s| ==> Stops(s[k])
    ensures FirstStop(s) == k
  {
  }

  lemma CollectorsIgnoreInert(a: seq<Step>, x: Step, b: seq<Step>)
    requires Inert(x)
    ensures LastMain(a + [x] + b) == LastMain(a + b)
    ensures LastToml(a + [x] + b) == LastToml(a + b)
    ensures Fonts(a + [x] + b) == Fonts(a + b)
    ensures Sources(a + [x] + b) == Sources(a + b)
    ensures Assets(a + [x] + b) == Assets(a + b)
  {
    LastMainAppend(a + [x], b);
    LastMainAppend(a, [x]);
    LastMainAppend(a, b);
    LastTomlAppend(a + [x], b);
    LastTomlAppend(a, [x]);
    LastTomlAppend(a, b);
    FontsAppend(a + [x], b);
    FontsAppend(a, [x]);
    FontsAppend(a, b);
    SourcesAppend(a + [x], b);
    SourcesAppend(a, [x]);
    SourcesAppend(a, b);
    AssetsAppend(a + [x], b);
    AssetsAppend(a, [x]);
    AssetsAppend(a, b);
    assert [x][..0] == [];
    assert Fonts(a) + [] == Fonts(a);
    assert Sources(a) + [] == Sources(a);
    assert Assets(a) + [] == Assets(a);
  }

  /** Removing an inert step does not change how the run ends. */
  lemma OutcomeIgnoresInert(a: seq<Step>, x: Step, b: seq<Step>)
    requires Inert(x)
    ensures Outcome(a + [x] + b) == Outcome(a + b)
  {
    var s := a + [x] + b;
    var t := a + b;
    var k := FirstStop(t);
    assert forall j :: 0 <= j < |a| ==> s[j] == a[j] && t[j] == a[j];
    if k < |a| {
      FirstStopIs(s, k);
    } else {
      forall j | 0 <= j < k + 1
        ensures !Stops(s[j])
      {
        if j < |a| {
          assert s[j] == t[j];
        } else if j > |a| {
          assert s[j] == t[j - 1];
        }
      }
      if k < |t| {
        assert s[k + 1] == t[k];
      }
      FirstStopIs(s, k + 1);
      if k == |t| {
        CollectorsIgnoreInert(a, x, b);
      }
    }
  }

  /** Dropping slot `i >= 1` drops its step and leaves the others as they were. */
  lemma StepsWithout(zip: Archive, dec: Decoders, i: nat)
    requires 1 <= i < |zip|
    ensures Steps(zip[..i] + zip[i + 1..], dec) == Steps(zip, dec)[..i] + Steps(zip, dec)[i + 1..]
  {
    var z := zip[..i] + zip[i + 1..];
    assert z[0] == zip[0];
    var s := Steps(zip, dec);
    forall j | 0 <= j < |z|
      ensures Steps(z, dec)[j] == (s[..i] + s[i + 1..])[j]
    {
      StepAt(z, dec, j);
      if j < i {
        assert z[j] == zip[j];
        StepAt(zip, dec, j);
      } else {
        assert z[j] == zip[j + 1];
        StepAt(zip, dec, j + 1);
      }
    }
  }

  /**
   * A directory, a file under `__MACOSX`, or a font that does not decode,
   * anywhere but in first position, can be removed without changing the load.
   */
  lemma InertEntryChangesNothing(zip: Archive, dec: Decoders, i: nat)
    requires 1 <= i < |zip| && zip[i].Success?
    requires !IsKept(zip[i]) ||
             (IsFontEntry(zip, i) && zip[i].value.data.Success? && dec.font(zip[i].value.data.value).None?)
    ensures ZipRun(zip[..i] + zip[i + 1..], dec) == ZipRun(zip, dec)
  {
    var s := Steps(zip, dec);
    StepsWithout(zip, dec, i);
    StepAt(zip, dec, i);
    assert s == s[..i] + [s[i]] + s[i + 1..];
    OutcomeIgnoresInert(s[..i], s[i], s[i + 1..]);
  }
}
