/** Input identification (`identify_files`): from the paths given on the
    command line, pick the one image archive (suffix `.tar`) and the one layer
    list (suffix `.json`). The list is scanned left to right; a second archive
    or a second layer list stops the scan at once, and after the scan a
    missing archive or layer list is reported. */
module Cli {
  import opened Results
  import opened Strings

  datatype FileKind = ImageFile | LayerListFile | OtherFile

  /** Case-sensitive suffix test; `.tar` is checked first, though no path
      ends with both suffixes, so each kind is exactly its suffix. */
  function Classify(path: string): (r: FileKind)
    ensures r == ImageFile <==> EndsWith(path, ".tar")
    ensures r == LayerListFile <==> EndsWith(path, ".json")
  {
    TarNotJson(path);
    if EndsWith(path, ".tar") then ImageFile
    else if EndsWith(path, ".json") then LayerListFile
    else OtherFile
  }

  /** `.tar` ends in `r`, `.json` in `n`: no path ends with both. */
  lemma TarNotJson(path: string)
    ensures !(EndsWith(path, ".tar") && EndsWith(path, ".json"))
  {
    if EndsWith(path, ".tar") {
      assert path[|path| - 1] == ".tar"[3] == 'r';
    }
  }

  datatype IdentifyError =
    | MultipleImages        // a second `.tar` path was met
    | MultipleLayerLists    // a second `.json` path was met
    | NothingProvided       // neither a `.tar` nor a `.json` path
    | NoImage               // a `.json` path but no `.tar` path
    | NoLayerList           // a `.tar` path but no `.json` path

  /** The scan's state: the archive and layer list met so far. */
  datatype Found = Found(image: Option<string>, layerList: Option<string>)

  /** One left-to-right pass. It fails only on a second archive or a second
      layer list, and a slot once filled is never overwritten. */
  function Scan(files: seq<string>, found: Found): (r: Result<Found, IdentifyError>)
    ensures r.Err? ==> r.error == MultipleImages || r.error == MultipleLayerLists
    ensures r.Ok? && found.image.Some? ==> r.value.image == found.image
    ensures r.Ok? && found.layerList.Some? ==> r.value.layerList == found.layerList
    ensures r.Ok? && r.value.image.Some? ==> found.image.Some? || r.value.image.value in files
    ensures r.Ok? && r.value.layerList.Some? ==> found.layerList.Some? || r.value.layerList.value in files
    decreases |files|
  {
    if files == [] then Ok(found)
    else
      var path := files[0];
      match Classify(path)
      case ImageFile =>
        if found.image.Some? then Err(MultipleImages)
        else Scan(files[1..], found.(image := Some(path)))
      case LayerListFile =>
        if found.layerList.Some? then Err(MultipleLayerLists)
        else Scan(files[1..], found.(layerList := Some(path)))
      case OtherFile =>
        Scan(files[1..], found)
  }

  /** The image archive and layer list paths, in that order. Identification
      succeeds iff exactly one path ends in `.tar` and exactly one in
      `.json`, and returns those two; each other outcome is decided by the
      two counts. */
  function IdentifyFiles(files: seq<string>): (r: Result<(string, string), IdentifyError>)
    ensures var images := Count(files, ImageFile);
      var lists := Count(files, LayerListFile);
      && (r.Ok? <==> images == 1 && lists == 1)
      && (r.Ok? ==> r.value.0 in files && Classify(r.value.0) == ImageFile
                    && r.value.1 in files && Classify(r.value.1) == LayerListFile)
      && (r == Err(NothingProvided) <==> images == 0 && lists == 0)
      && (r == Err(NoImage) <==> images == 0 && lists == 1)
      && (r == Err(NoLayerList) <==> images == 1 && lists == 0)
      && (r == Err(MultipleImages) || r == Err(MultipleLayerLists) <==> images >= 2 || lists >= 2)
      && (r == Err(MultipleImages) ==> images >= 2)
      && (r == Err(MultipleLayerLists) ==> lists >= 2)
  {
    ScanSummary(files, Found(None, None));
    match Scan(files, Found(None, None))
    case Err(e) => Err(e)
    case Ok(Found(Some(image), Some(layerList))) => Ok((image, layerList))
    case Ok(Found(None, None)) => Err(NothingProvided)
    case Ok(Found(None, Some(_))) => Err(NoImage)
    case Ok(Found(Some(_), None)) => Err(NoLayerList)
  }

  /** How many paths of `files` are of the given kind. */
  function Count(files: seq<string>, kind: FileKind): nat
    decreases |files|
  {
    if files == [] then 0
    else (if Classify(files[0]) == kind then 1 else 0) + Count(files[1..], kind)
  }

  function Held(slot: Option<string>): nat {
    if slot.Some? then 1 else 0
  }

  lemma {:induction false} CountAppend(a: seq<string>, b: seq<string>, kind: FileKind)
    ensures Count(a + b, kind) == Count(a, kind) + Count(b, kind)
    decreases |a|
  {
    if a == [] {
      assert a + b == b;
    } else {
      assert (a + b)[0] == a[0];
      assert (a + b)[1..] == a[1..] + b;
      CountAppend(a[1..], b, kind);
    }
  }

  /** What a scan from any state does, in terms of counts: it succeeds iff
      neither kind is met twice counting the state's own, a failure names a
      kind that was met twice, and a success holds every path of the right
      kind it met, keeping what the state already held. */
  lemma {:induction false} ScanSummary(files: seq<string>, found: Found)
    ensures var r := Scan(files, found);
      && (r.Ok? <==> Held(found.image) + Count(files, ImageFile) <= 1
                     && Held(found.layerList) + Count(files, LayerListFile) <= 1)
      && (r == Err(MultipleImages) ==> Held(found.image) + Count(files, ImageFile) >= 2)
      && (r == Err(MultipleLayerLists) ==> Held(found.layerList) + Count(files, LayerListFile) >= 2)
      && (r.Err? ==> r.error == MultipleImages || r.error == MultipleLayerLists)
      && (r.Ok? ==>
            && Held(r.value.image) == Held(found.image) + Count(files, ImageFile)
            && Held(r.value.layerList) == Held(found.layerList) + Count(files, LayerListFile)
            && (found.image.Some? ==> r.value.image == found.image)
            && (found.image.None? && r.value.image.Some? ==>
                  r.value.image.value in files && Classify(r.value.image.value) == ImageFile)
            && (found.layerList.Some? ==> r.value.layerList == found.layerList)
            && (found.layerList.None? && r.value.layerList.Some? ==>
                  r.value.layerList.value in files && Classify(r.value.layerList.value) == LayerListFile))
    decreases |files|
  {
    if files != [] {
      var path := files[0];
      match Classify(path)
      case ImageFile =>
        if found.image.None? {
          ScanSummary(files[1..], found.(image := Some(path)));
        }
      case LayerListFile =>
        if found.layerList.None? {
          ScanSummary(files[1..], found.(layerList := Some(path)));
        }
      case OtherFile =>
        ScanSummary(files[1..], found);
    }
  }

  /** Scanning a concatenation is scanning the first part and, unless that
      failed, continuing from its state. */
  lemma {:induction false} ScanAppend(a: seq<string>, b: seq<string>, found: Found)
    ensures Scan(a + b, found) == match Scan(a, found)
                                  case Err(e) => Err(e)
                                  case Ok(next) => Scan(b, next)
    decreases |a|
  {
    if a == [] {
      assert a + b == b;
    } else {
      assert (a + b)[0] == a[0];
      assert (a + b)[1..] == a[1..] + b;
      var path := a[0];
      match Classify(path)
      case ImageFile =>
        if found.image.None? {
          ScanAppend(a[1..], b, found.(image := Some(path)));
        }
      case LayerListFile =>
        if found.layerList.None? {
          ScanAppend(a[1..], b, found.(layerList := Some(path)));
        }
      case OtherFile =>
        ScanAppend(a[1..], b, found);
    }
  }

  /** Once the scan has met a second `.tar` (and at most one `.json`), the
      result is the multiple-archive error whatever follows. */
  lemma SecondImageDecides(files: seq<string>, k: nat)
    requires k <= |files|
    requires Count(files[..k], ImageFile) == 2 && Count(files[..k], LayerListFile) <= 1
    ensures IdentifyFiles(files) == Err(MultipleImages)
  {
    assert files == files[..k] + files[k..];
    ScanAppend(files[..k], files[k..], Found(None, None));
    ScanSummary(files[..k], Found(None, None));
  }

  /** Symmetrically for a second `.json` before any second `.tar`. */
  lemma SecondLayerListDecides(files: seq<string>, k: nat)
    requires k <= |files|
    requires Count(files[..k], LayerListFile) == 2 && Count(files[..k], ImageFile) <= 1
    ensures IdentifyFiles(files) == Err(MultipleLayerLists)
  {
    assert files == files[..k] + files[k..];
    ScanAppend(files[..k], files[k..], Found(None, None));
    ScanSummary(files[..k], Found(None, None));
  }

  /** A multiple-file error is final: appending paths does not change it. */
  lemma MultipleIsFinal(files: seq<string>, more: seq<string>)
    requires IdentifyFiles(files) == Err(MultipleImages) || IdentifyFiles(files) == Err(MultipleLayerLists)
    ensures IdentifyFiles(files + more) == IdentifyFiles(files)
  {
    ScanAppend(files, more, Found(None, None));
    ScanSummary(files, Found(None, None));
  }

  /** The suffix test is case-sensitive: upper-case suffixes are ignored. */
  lemma SuffixCaseSensitive()
    ensures Classify("a.TAR") == OtherFile
    ensures Classify("a.JSON") == OtherFile
    ensures Classify("a.tar") == ImageFile
    ensures Classify("a.json") == LayerListFile
  {
    assert "a.TAR"[2] != ".tar"[1];
    assert "a.JSON"[2] != ".json"[1];
    assert "a.TAR"[4] != ".json"[4];
    assert "a.JSON"[5] != ".tar"[3];
    assert "a.json"[5] != ".tar"[3];
  }

  /** Taking out the path at position `j` lowers its kind's count by one. */
  lemma CountRemove(b: seq<string>, j: nat, kind: FileKind)
    requires j < |b|
    ensures Count(b, kind) == Count(b[..j] + b[j + 1..], kind) + (if Classify(b[j]) == kind then 1 else 0)
  {
    assert b == b[..j] + ([b[j]] + b[j + 1..]);
    CountAppend(b[..j], [b[j]] + b[j + 1..], kind);
    CountAppend([b[j]], b[j + 1..], kind);
    CountAppend(b[..j], b[j + 1..], kind);
    assert [b[j]][1..] == [];
  }

  lemma MultisetRemove(b: seq<string>, j: nat)
    requires j < |b|
    ensures multiset(b[..j] + b[j + 1..]) == multiset(b) - multiset{b[j]}
  {
    assert b == b[..j] + [b[j]] + b[j + 1..];
  }

  /** Counts depend only on which paths occur how often, not on their order. */
  lemma {:induction false} CountPermutation(a: seq<string>, b: seq<string>, kind: FileKind)
    requires multiset(a) == multiset(b)
    ensures Count(a, kind) == Count(b, kind)
    decreases |a|
  {
    if a == [] {
      assert |multiset(b)| == 0;
    } else {
      var x := a[0];
      assert x in multiset(b);
      var j :| 0 <= j < |b| && b[j] == x;
      MultisetRemove(b, j);
      assert a == [x] + a[1..];
      assert multiset(a[1..]) == multiset(a) - multiset{x};
      CountPermutation(a[1..], b[..j] + b[j + 1..], kind);
      CountRemove(b, j, kind);
    }
  }

  /** A count of zero means no path of that kind occurs. */
  lemma {:induction false} CountZero(files: seq<string>, kind: FileKind)
    requires Count(files, kind) == 0
    ensures forall z :: z in files ==> Classify(z) != kind
    decreases |files|
  {
    if files != [] {
      CountZero(files[1..], kind);
      assert forall z :: z in files ==> z == files[0] || z in files[1..];
    }
  }

  /** With exactly one path of a kind, any two paths of that kind coincide. */
  lemma {:induction false} SoleOfKind(files: seq<string>, kind: FileKind, x: string, y: string)
    requires Count(files, kind) == 1
    requires x in files && Classify(x) == kind && y in files && Classify(y) == kind
    ensures x == y
    decreases |files|
  {
    assert forall z :: z in files ==> z == files[0] || z in files[1..];
    if Classify(files[0]) == kind {
      CountZero(files[1..], kind);
    } else {
      SoleOfKind(files[1..], kind, x, y);
    }
  }

  /** Order does not matter: any rearrangement of a successfully identified
      list identifies the same archive and layer list. */
  lemma IdentifyFilesOrderFree(files: seq<string>, shuffled: seq<string>)
    requires multiset(files) == multiset(shuffled)
    requires IdentifyFiles(files).Ok?
    ensures IdentifyFiles(shuffled) == IdentifyFiles(files)
  {
    CountPermutation(files, shuffled, ImageFile);
    CountPermutation(files, shuffled, LayerListFile);
    var (image, layerList) := IdentifyFiles(files).value;
    var (image', layerList') := IdentifyFiles(shuffled).value;
    assert image in multiset(shuffled) && layerList in multiset(shuffled);
    SoleOfKind(shuffled, ImageFile, image, image');
    SoleOfKind(shuffled, LayerListFile, layerList, layerList');
  }
}
