/** The trim operation (`trim_image`): read the manifest's layer set, scan the
    archive's blob set, keep the blobs the manifest does not list, and write
    the rewritten archive to the chosen output path. The outcome of each
    piece of I/O is a parameter: the parsed manifest or `None` when it could
    not be opened, read or parsed; the archive's entries or `None` when it
    could not be opened or read; and whether the output could be written. */
module Trim {
  import opened Results
  import opened Strings
  import opened Layers
  import opened JsonValues
  import opened Manifest
  import opened Archive

  /** The stages of the operation, in the order they run. */
  datatype Step = ReadManifest | ScanArchive | RewriteArchive

  datatype TrimError =
    | ManifestUnreadable                  // open, read or JSON parse failure
    | ManifestInvalid(cause: ManifestError)
    | ArchiveUnreadable                   // open, seek or entry read failure in the scan
    | WriteFailed                         // output creation or rewrite pass failure

  /** What a successful run leaves behind: the output path, the retain set the
      rewrite used, and the entries of the written archive. */
  datatype Written = Written(path: string, keep: LayerSet, entries: seq<Entry>)

  /** The stages attempted, and the outcome. */
  datatype Run = Run(steps: seq<Step>, outcome: Result<Written, TrimError>)

  const AllSteps: seq<Step> := [ReadManifest, ScanArchive, RewriteArchive]

  /** The output file: an explicit one verbatim; otherwise, for an input
      ending in `.tar`, the input with EVERY `.tar` replaced by
      `_trimmed.tar`, and `trimmed.tar` for any other input. A default always
      ends in `trimmed.tar`; one derived from a `.tar` input ends in
      `_trimmed.tar` and is longer than the input, so it never names the
      input itself. */
  function OutputPath(imagePath: string, output: Option<string>): (r: string)
    ensures output.Some? ==> r == output.value
    ensures output.None? ==> EndsWith(r, "trimmed.tar")
    ensures output.None? && EndsWith(imagePath, ".tar") ==>
              EndsWith(r, "_trimmed.tar") && |r| >= |imagePath| + 8 && r != imagePath
    ensures output.None? && !EndsWith(imagePath, ".tar") ==> r == "trimmed.tar"
  {
    match output
    case Some(path) => path
    case None =>
      if EndsWith(imagePath, ".tar") then
        TarSuffixReplaced(imagePath);
        EndsWithTail(ReplaceAll(imagePath, ".tar", "_trimmed.tar"), "_trimmed.tar");
        assert "_trimmed.tar"[1..] == "trimmed.tar";
        ReplaceAll(imagePath, ".tar", "_trimmed.tar")
      else
        assert EndsWith("trimmed.tar", "trimmed.tar") by {
          assert "trimmed.tar"[|"trimmed.tar"| - |"trimmed.tar"|..] == "trimmed.tar";
        }
        "trimmed.tar"
  }

  /** The whole operation. The stages run in order, the first failure ends
      the run: a manifest failure means no scan and no write, a scan failure
      means no write, and the run succeeds only when every stage does. The
      output file is created, and so emptied, before the rewrite reads the
      input; when the output path is the input path the rewrite therefore
      reads an empty archive and writes no entries. */
  function TrimImage(imagePath: string, manifest: Option<Json>, archive: Option<seq<Entry>>,
                     output: Option<string>, writable: bool): (run: Run)
    ensures 0 < |run.steps| <= |AllSteps| && run.steps == AllSteps[..|run.steps|]
    ensures !ManifestReadable(manifest) ==> run.steps == [ReadManifest] && run.outcome.Err?
    ensures ManifestReadable(manifest) && archive.None? ==>
              run.steps == [ReadManifest, ScanArchive] && run.outcome == Err(ArchiveUnreadable)
    ensures RewriteArchive in run.steps <==> ManifestReadable(manifest) && archive.Some?
    ensures run.outcome.Ok? <==> ManifestReadable(manifest) && archive.Some? && writable
    ensures manifest.None? ==> run.outcome == Err(ManifestUnreadable)
    ensures manifest.Some? && ReadJsonLayers(manifest.value).Err? ==>
              run.outcome == Err(ManifestInvalid(ReadJsonLayers(manifest.value).error))
    ensures ManifestReadable(manifest) && archive.Some? && !writable ==> run.outcome == Err(WriteFailed)
    ensures run.outcome.Ok? ==> run.outcome.value.path == OutputPath(imagePath, output)
  {
    if manifest.None? then Run([ReadManifest], Err(ManifestUnreadable))
    else
      match ReadJsonLayers(manifest.value)
      case Err(e) => Run([ReadManifest], Err(ManifestInvalid(e)))
      case Ok(existing) =>
        if archive.None? then Run([ReadManifest, ScanArchive], Err(ArchiveUnreadable))
        else
          var keep := Difference(ReadTarLayers(archive.value), existing);
          var path := OutputPath(imagePath, output);
          var read := if path == imagePath then [] else archive.value;
          if !writable then Run(AllSteps, Err(WriteFailed))
          else Run(AllSteps, Ok(Written(path, keep, WriteTrimmedTar(read, keep))))
  }

  predicate ManifestReadable(manifest: Option<Json>) {
    manifest.Some? && ReadJsonLayers(manifest.value).Ok?
  }

  /** On success the retain set holds exactly the non-empty blob digests of
      the archive that no string of the manifest's layer array normalises to. */
  lemma TrimImageKeepSet(imagePath: string, manifest: Option<Json>, archive: Option<seq<Entry>>,
                         output: Option<string>, writable: bool)
    requires ManifestReadable(manifest) && archive.Some? && writable
    ensures var w := TrimImage(imagePath, manifest, archive, output, writable).outcome.value;
      && manifest.Some? && archive.Some? && LayersField(manifest.value).Array?
      && (forall d :: d in w.keep <==> HoldsBlob(archive.value, d) && !Lists(LayersField(manifest.value).items, d))
  {
  }

  /** End to end, when the output is not the input: the written entries are
      the order-preserving rewrite of the archive with the retain set, so a
      blob entry is written iff its digest is non-empty and not listed by the
      manifest, every other entry is written, and the output has no more
      entries than the input.
      When the output is the input, nothing is written. */
  lemma TrimImageEndToEnd(imagePath: string, manifest: Option<Json>, archive: Option<seq<Entry>>,
                          output: Option<string>, writable: bool)
    requires ManifestReadable(manifest) && archive.Some? && writable
    ensures var w := TrimImage(imagePath, manifest, archive, output, writable).outcome.value;
      var listed := ReadJsonLayers(manifest.value).value;
      && (OutputPath(imagePath, output) != imagePath ==>
            forall e :: e in w.entries <==>
              e in archive.value
              && (IsBlobName(e.name) ==> BlobDigest(e.name) != "" && BlobDigest(e.name) !in listed))
      && (OutputPath(imagePath, output) != imagePath ==> w.entries == WriteTrimmedTar(archive.value, w.keep))
      && (OutputPath(imagePath, output) == imagePath ==> w.entries == [])
      && |w.entries| <= |archive.value|
  {
    var es := archive.value;
    var listed := ReadJsonLayers(manifest.value).value;
    var keep := Difference(ReadTarLayers(es), listed);
    WriteTrimmedTarMembers(es, keep);
    forall e | e in es
      ensures Retained(e, keep) <==> (IsBlobName(e.name) ==> BlobDigest(e.name) != "" && BlobDigest(e.name) !in listed)
    {
      RetainedIffDigestKept(e, keep);
      var i :| 0 <= i < |es| && es[i] == e;
      if IsBlobName(e.name) && BlobDigest(e.name) != "" {
        assert HoldsBlob(es, BlobDigest(e.name));
      }
    }
  }

  /** When the manifest lists every blob the archive holds, no blob entry is
      written: only the structural entries remain. */
  lemma TrimImageAllListed(imagePath: string, manifest: Option<Json>, archive: Option<seq<Entry>>,
                           output: Option<string>, writable: bool)
    requires ManifestReadable(manifest) && archive.Some? && writable
    requires ReadTarLayers(archive.value) <= ReadJsonLayers(manifest.value).value
    ensures forall e :: e in TrimImage(imagePath, manifest, archive, output, writable).outcome.value.entries
                        ==> !IsBlobName(e.name)
  {
    TrimImageEndToEnd(imagePath, manifest, archive, output, writable);
    var es := archive.value;
    forall e | e in es && IsBlobName(e.name) && BlobDigest(e.name) != ""
      ensures BlobDigest(e.name) in ReadJsonLayers(manifest.value).value
    {
      var i :| 0 <= i < |es| && es[i] == e;
      assert HoldsBlob(es, BlobDigest(e.name));
    }
  }

  /** Two occurrences of `.tar` cannot overlap, so a string that both starts
      and ends with it is either exactly `.tar` or at least twice as long. */
  lemma TarCannotOverlap(s: string)
    requires StartsWith(s, ".tar") && EndsWith(s, ".tar")
    ensures |s| == 4 || |s| >= 8
  {
    assert s[|s| - 4] == '.';
    assert forall k :: 0 <= k < 4 ==> s[k] == ".tar"[k];
  }

  /** Replacing every `.tar` in a path that ends with `.tar` rewrites that
      final occurrence too, and adds at least eight characters. */
  lemma {:induction false} TarSuffixReplaced(s: string)
    requires EndsWith(s, ".tar")
    ensures EndsWith(ReplaceAll(s, ".tar", "_trimmed.tar"), "_trimmed.tar")
    ensures |ReplaceAll(s, ".tar", "_trimmed.tar")| >= |s| + 8
    decreases |s|
  {
    var t, rep := ".tar", "_trimmed.tar";
    if StartsWith(s, t) {
      TarCannotOverlap(s);
      var rest := s[4..];
      ReplaceAllLeadingMatch(t, rest, rep);
      assert s == t + rest;
      if |s| == 4 {
        assert rest == [];
        assert ReplaceAll(s, t, rep) == rep by {
          assert rep + [] == rep;
        }
        assert EndsWith(rep, rep) by { assert rep[|rep| - |rep|..] == rep; }
      } else {
        assert EndsWith(rest, t) by {
          assert rest[|rest| - 4..] == s[|s| - 4..];
        }
        TarSuffixReplaced(rest);
        EndsWithAppend(rep, ReplaceAll(rest, t, rep), rep);
      }
    } else {
      var rest := s[1..];
      ReplaceAllStep(s, t, rep);
      assert EndsWith(rest, t) by {
        assert rest[|rest| - 4..] == s[|s| - 4..];
      }
      TarSuffixReplaced(rest);
      EndsWithAppend([s[0]], ReplaceAll(rest, t, rep), rep);
    }
  }

  /** No `.tar` starts inside a stem that holds none when what follows the
      stem begins with a dot: a match starting in the stem would have to run
      into the following text, where its dot cannot fall, because `.tar` has
      no dot after its first character. */
  lemma TarFreeStem(stem: string, t: string)
    requires !Occurs(stem, ".tar") && t != [] && t[0] == '.'
    ensures NoMatchStartsIn(stem, t, ".tar")
  {
    var s := stem + t;
    forall i | 0 <= i < |stem|
      ensures !StartsWith(s[i..], ".tar")
    {
      if i + 4 <= |stem| {
        assert !StartsWith(stem[i..], ".tar");
        assert s[i..][..4] == stem[i..][..4];
      } else if i + 4 <= |s| {
        var j := |stem| - i;
        assert s[i..][..4][j] == t[0];
        assert ".tar"[j] != '.';
      }
    }
  }

  lemma TarAlone()
    ensures ReplaceAll(".tar", ".tar", "_trimmed.tar") == "_trimmed.tar"
  {
    ReplaceAllLeadingMatch(".tar", "", "_trimmed.tar");
    assert ".tar" + "" == ".tar";
    assert "_trimmed.tar" + "" == "_trimmed.tar";
  }

  /** An input `<stem>.tar` whose stem holds no `.tar`, such as
      `<dir>/image.tar`, gets `<stem>_trimmed.tar` beside it. */
  lemma DefaultOutputBesideInput(stem: string)
    requires !Occurs(stem, ".tar")
    ensures OutputPath(stem + ".tar", None) == stem + "_trimmed.tar"
  {
    var tar, rep := ".tar", "_trimmed.tar";
    assert EndsWith(stem + tar, tar) by {
      assert (stem + tar)[|stem|..] == tar;
    }
    TarFreeStem(stem, tar);
    ReplaceAllCopiesUnmatched(stem, tar, tar, rep);
    TarAlone();
  }

  /** The replacement is not confined to the suffix: in
      `<dir>.tar<name>.tar` the directory is renamed as well, so the default
      output lands in `<dir>_trimmed.tar`, not beside the input. */
  lemma DefaultOutputRenamesDirectory(dir: string, name: string)
    requires !Occurs(dir, ".tar") && !Occurs(name, ".tar")
    ensures OutputPath(dir + ".tar" + name + ".tar", None) == dir + "_trimmed.tar" + name + "_trimmed.tar"
  {
    var tar, rep := ".tar", "_trimmed.tar";
    var t1 := name + tar;
    var t0 := tar + t1;
    var path := dir + tar + name + tar;
    assert path == dir + t0 by {
      Assoc(dir, tar, name);
      Assoc(dir + tar, name, tar);
      Assoc(dir, tar, name + tar);
      Assoc(tar, name, tar);
      Assoc(dir, tar + name, tar);
    }
    assert EndsWith(path, tar) by {
      assert path[|path| - 4..] == tar;
    }
    TarAlone();
    TarFreeStem(name, tar);
    ReplaceAllCopiesUnmatched(name, tar, tar, rep);
    ReplaceAllLeadingMatch(tar, t1, rep);
    TarFreeStem(dir, t0);
    ReplaceAllCopiesUnmatched(dir, t0, tar, rep);
    calc {
      ReplaceAll(path, tar, rep);
      dir + ReplaceAll(t0, tar, rep);
      dir + (rep + ReplaceAll(t1, tar, rep));
      dir + (rep + (name + rep));
      { Assoc(rep, name, rep); }
      dir + ((rep + name) + rep);
      { Assoc(dir, rep + name, rep); }
      (dir + (rep + name)) + rep;
      { Assoc(dir, rep, name); }
      dir + rep + name + rep;
    }
  }
}
