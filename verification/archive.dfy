/** The two passes over the image archive: the scan (`read_tar_layers`) that
    lists the blob digests the archive holds, and the rewrite
    (`write_trimmed_tar`) that copies the archive, leaving out the blob
    entries whose digest is not retained. The archive is the sequence of its
    entries in stored order; the tar byte layout is not part of this model. */
module Archive {
  import opened Strings
  import opened Layers

  newtype byte = x: int | 0 <= x < 256

  /** One archive record: its path, its header and its content. The header is
      carried as raw bytes and never looked into. */
  datatype Entry = Entry(name: string, header: seq<byte>, content: seq<byte>)

  /** The directory holding content-addressed blobs. */
  const BlobPrefix: string := "blobs/sha256/"

  predicate IsBlobName(name: string) {
    StartsWith(name, BlobPrefix)
  }

  /** Archive-side normalisation: every occurrence of the blob directory is
      removed from the path, then surrounding whitespace is trimmed. */
  function BlobDigest(name: string): string {
    Trim(ReplaceAll(name, BlobPrefix, ""))
  }

  /** Some entry of `es` is a blob entry whose non-empty digest is `d`. */
  predicate HoldsBlob(es: seq<Entry>, d: string) {
    exists i :: 0 <= i < |es| && IsBlobName(es[i].name) && BlobDigest(es[i].name) == d && d != ""
  }

  /** What one entry adds to the scan: its digest, when it is a blob entry
      with a non-empty digest. */
  function Scanned(e: Entry): LayerSet {
    if IsBlobName(e.name) && BlobDigest(e.name) != "" then {BlobDigest(e.name)} else {}
  }

  /** The scan pass: the set of non-empty digests of the blob entries. */
  function ReadTarLayers(es: seq<Entry>): (r: LayerSet)
    ensures forall d :: d in r <==> HoldsBlob(es, d)
    ensures "" !in r
    decreases |es|
  {
    if es == [] then {}
    else
      var rest := ReadTarLayers(es[1..]);
      assert forall d :: HoldsBlob(es[1..], d) ==> HoldsBlob(es, d) by {
        forall d | HoldsBlob(es[1..], d)
          ensures HoldsBlob(es, d)
        {
          var i :| 0 <= i < |es[1..]| && IsBlobName(es[1..][i].name) && BlobDigest(es[1..][i].name) == d && d != "";
          assert es[i + 1] == es[1..][i];
        }
      }
      assert forall d :: HoldsBlob(es, d) ==> HoldsBlob(es[1..], d) || (IsBlobName(es[0].name) && BlobDigest(es[0].name) == d) by {
        forall d | HoldsBlob(es, d)
          ensures HoldsBlob(es[1..], d) || (IsBlobName(es[0].name) && BlobDigest(es[0].name) == d)
        {
          var i :| 0 <= i < |es| && IsBlobName(es[i].name) && BlobDigest(es[i].name) == d && d != "";
          if i > 0 {
            assert es[1..][i - 1] == es[i];
          }
        }
      }
      Scanned(es[0]) + rest
  }

  /** The rewrite pass's decision for one entry, as the loop states it: an
      entry under the blob directory whose trimmed path is non-empty is
      written only when its digest is retained; every other entry is written. */
  predicate Retained(e: Entry, keep: LayerSet) {
    !(StartsWith(e.name, BlobPrefix) && Trim(e.name) != []) || BlobDigest(e.name) in keep
  }

  /** The non-empty-path guard of the rewrite loop never decides anything: a
      blob entry is written iff its digest is retained, any other always. */
  lemma RetainedIffDigestKept(e: Entry, keep: LayerSet)
    ensures IsBlobName(e.name) ==> (Retained(e, keep) <==> BlobDigest(e.name) in keep)
    ensures !IsBlobName(e.name) ==> Retained(e, keep)
  {
    if IsBlobName(e.name) {
      assert e.name[0] == BlobPrefix[0] == 'b';
      TrimEmptyIffAllWhitespace(e.name);
    }
  }

  /** The rewrite pass: the entries that pass, in their original order, each
      with its header and content as read. The output is never longer than
      the input. */
  function WriteTrimmedTar(es: seq<Entry>, keep: LayerSet): (r: seq<Entry>)
    ensures |r| <= |es|
    decreases |es|
  {
    if es == [] then []
    else (if Retained(es[0], keep) then [es[0]] else []) + WriteTrimmedTar(es[1..], keep)
  }

  /** Rewriting works entry by entry, so it distributes over concatenation. */
  lemma {:induction false} WriteTrimmedTarAppend(a: seq<Entry>, b: seq<Entry>, keep: LayerSet)
    ensures WriteTrimmedTar(a + b, keep) == WriteTrimmedTar(a, keep) + WriteTrimmedTar(b, keep)
    decreases |a|
  {
    if a == [] {
      assert a + b == b;
    } else {
      assert (a + b)[0] == a[0];
      assert (a + b)[1..] == a[1..] + b;
      WriteTrimmedTarAppend(a[1..], b, keep);
      var head := if Retained(a[0], keep) then [a[0]] else [];
      calc {
        WriteTrimmedTar(a + b, keep);
        head + WriteTrimmedTar(a[1..] + b, keep);
        head + (WriteTrimmedTar(a[1..], keep) + WriteTrimmedTar(b, keep));
        { Assoc(head, WriteTrimmedTar(a[1..], keep), WriteTrimmedTar(b, keep)); }
        (head + WriteTrimmedTar(a[1..], keep)) + WriteTrimmedTar(b, keep);
      }
    }
  }

  /** The entries of `es` that pass `pass`, in their original order. The
      rewrite is this filter with the retain test (`WriteTrimmedTarIsFilter`);
      the selection proof is done once here, for any test, so that it does
      not depend on what the retain test looks inside. */
  function Filter(es: seq<Entry>, pass: Entry -> bool): seq<Entry>
    decreases |es|
  {
    if es == [] then []
    else (if pass(es[0]) then [es[0]] else []) + Filter(es[1..], pass)
  }

  lemma {:induction false} FilterAppend(a: seq<Entry>, b: seq<Entry>, pass: Entry -> bool)
    ensures Filter(a + b, pass) == Filter(a, pass) + Filter(b, pass)
    decreases |a|
  {
    if a == [] {
      assert a + b == b;
    } else {
      assert (a + b)[0] == a[0];
      assert (a + b)[1..] == a[1..] + b;
      FilterAppend(a[1..], b, pass);
      var head := if pass(a[0]) then [a[0]] else [];
      Assoc(head, Filter(a[1..], pass), Filter(b, pass));
    }
  }

  /** The positions of the entries of `es` that pass, in increasing order. */
  function Positions(es: seq<Entry>, pass: Entry -> bool): (ps: seq<nat>)
    ensures forall k :: 0 <= k < |ps| ==> ps[k] < |es| && pass(es[ps[k]])
    ensures forall k, l :: 0 <= k < l < |ps| ==> ps[k] < ps[l]
    ensures forall i :: 0 <= i < |es| && pass(es[i]) ==> i in ps
    decreases |es|
  {
    if es == [] then []
    else
      var front := es[..|es| - 1];
      assert forall i :: 0 <= i < |front| ==> front[i] == es[i];
      Positions(front, pass) + (if pass(es[|es| - 1]) then [|es| - 1] else [])
  }

  /** Filtering selects: its k-th entry is the entry at the k-th passing
      position. */
  lemma {:induction false} FilterSelects(es: seq<Entry>, pass: Entry -> bool)
    ensures |Filter(es, pass)| == |Positions(es, pass)|
    ensures forall k :: 0 <= k < |Filter(es, pass)| ==> Filter(es, pass)[k] == es[Positions(es, pass)[k]]
    decreases |es|
  {
    if es != [] {
      var front := es[..|es| - 1];
      var last := es[|es| - 1];
      FilterSelects(front, pass);
      var w, wf := Filter(es, pass), Filter(front, pass);
      var ps, pf := Positions(es, pass), Positions(front, pass);
      assert w == wf + (if pass(last) then [last] else []) by {
        assert es == front + [last];
        FilterAppend(front, [last], pass);
        assert [last][1..] == [];
      }
      forall k | 0 <= k < |w|
        ensures w[k] == es[ps[k]]
      {
        if k < |wf| {
          assert w[k] == wf[k] && ps[k] == pf[k];
          assert front[pf[k]] == es[pf[k]];
        }
      }
    }
  }

  /** The rewrite is the filter whose test is the retain decision. */
  lemma {:induction false} WriteTrimmedTarIsFilter(es: seq<Entry>, keep: LayerSet)
    ensures WriteTrimmedTar(es, keep) == Filter(es, e => Retained(e, keep))
    decreases |es|
  {
    if es != [] {
      WriteTrimmedTarIsFilter(es[1..], keep);
    }
  }

  /** The positions of the entries the rewrite writes, in increasing order:
      every one is retained, and every retained position is among them. */
  function RetainedPositions(es: seq<Entry>, keep: LayerSet): (ps: seq<nat>)
    ensures forall k :: 0 <= k < |ps| ==> ps[k] < |es| && Retained(es[ps[k]], keep)
    ensures forall k, l :: 0 <= k < l < |ps| ==> ps[k] < ps[l]
    ensures forall i :: 0 <= i < |es| && Retained(es[i], keep) ==> i in ps
  {
    Positions(es, e => Retained(e, keep))
  }

  /** The rewrite is an order-preserving selection: its k-th entry is the
      input entry at the k-th retained position, so every written entry keeps
      its header and content, and exactly the retained entries are written. */
  lemma WriteTrimmedTarSelects(es: seq<Entry>, keep: LayerSet)
    ensures |WriteTrimmedTar(es, keep)| == |RetainedPositions(es, keep)|
    ensures forall k :: 0 <= k < |WriteTrimmedTar(es, keep)| ==>
              WriteTrimmedTar(es, keep)[k] == es[RetainedPositions(es, keep)[k]]
  {
    WriteTrimmedTarIsFilter(es, keep);
    FilterSelects(es, e => Retained(e, keep));
  }

  /** An entry appears in the output iff it appears in the input and passes. */
  lemma {:induction false} WriteTrimmedTarMembers(es: seq<Entry>, keep: LayerSet)
    ensures forall e :: e in WriteTrimmedTar(es, keep) <==> e in es && Retained(e, keep)
    decreases |es|
  {
    if es != [] {
      WriteTrimmedTarMembers(es[1..], keep);
      assert es == [es[0]] + es[1..];
    }
  }

  /** Every entry outside the blob directory is written. */
  lemma WriteTrimmedTarKeepsStructure(es: seq<Entry>, keep: LayerSet, i: nat)
    requires i < |es| && !IsBlobName(es[i].name)
    ensures es[i] in WriteTrimmedTar(es, keep)
  {
    RetainedIffDigestKept(es[i], keep);
    WriteTrimmedTarMembers(es, keep);
  }

  /** Rewriting with the same retain set a second time changes nothing. */
  lemma {:induction false} WriteTrimmedTarIdempotent(es: seq<Entry>, keep: LayerSet)
    ensures WriteTrimmedTar(WriteTrimmedTar(es, keep), keep) == WriteTrimmedTar(es, keep)
    decreases |es|
  {
    if es != [] {
      var head := if Retained(es[0], keep) then [es[0]] else [];
      WriteTrimmedTarAppend(head, WriteTrimmedTar(es[1..], keep), keep);
      assert WriteTrimmedTar(head, keep) == head by {
        if head != [] {
          assert head[1..] == [];
        }
      }
      WriteTrimmedTarIdempotent(es[1..], keep);
    }
  }

  /** Scanning the rewritten archive finds exactly the scanned digests that
      were retained. */
  lemma {:induction false} ScanAfterWrite(es: seq<Entry>, keep: LayerSet)
    ensures ReadTarLayers(WriteTrimmedTar(es, keep)) == ReadTarLayers(es) * keep
    decreases |es|
  {
    if es != [] {
      var e := es[0];
      var rest := WriteTrimmedTar(es[1..], keep);
      ScanAfterWrite(es[1..], keep);
      RetainedIffDigestKept(e, keep);
      assert ReadTarLayers(es) == Scanned(e) + ReadTarLayers(es[1..]);
      if Retained(e, keep) {
        var w := [e] + rest;
        assert WriteTrimmedTar(es, keep) == w;
        assert w[0] == e && w[1..] == rest;
        assert ReadTarLayers(w) == Scanned(e) + ReadTarLayers(rest);
        assert Scanned(e) <= keep;
      } else {
        assert WriteTrimmedTar(es, keep) == rest;
        assert Scanned(e) * keep == {};
      }
    }
  }

  /** With a retain set drawn from the scan, an entry naming the bare blob
      directory (empty digest) is never written. */
  lemma EmptyDigestBlobDropped(es: seq<Entry>, keep: LayerSet, e: Entry)
    requires keep <= ReadTarLayers(es)
    requires IsBlobName(e.name) && BlobDigest(e.name) == ""
    ensures e !in WriteTrimmedTar(es, keep)
  {
    RetainedIffDigestKept(e, keep);
    WriteTrimmedTarMembers(es, keep);
  }

  /** Retaining everything the scan found reproduces the archive, as long as
      no blob entry has an empty digest. */
  lemma {:induction false} RetainAllIsIdentity(es: seq<Entry>)
    requires forall i :: 0 <= i < |es| && IsBlobName(es[i].name) ==> BlobDigest(es[i].name) != ""
    ensures WriteTrimmedTar(es, ReadTarLayers(es)) == es
  {
    var keep := ReadTarLayers(es);
    forall i | 0 <= i < |es|
      ensures Retained(es[i], keep)
    {
      RetainedIffDigestKept(es[i], keep);
      if IsBlobName(es[i].name) {
        assert HoldsBlob(es, BlobDigest(es[i].name));
      }
    }
    AllRetainedIsIdentity(es, keep);
  }

  lemma {:induction false} AllRetainedIsIdentity(es: seq<Entry>, keep: LayerSet)
    requires forall i :: 0 <= i < |es| ==> Retained(es[i], keep)
    ensures WriteTrimmedTar(es, keep) == es
    decreases |es|
  {
    if es != [] {
      assert forall i :: 0 <= i < |es[1..]| ==> es[1..][i] == es[i + 1];
      AllRetainedIsIdentity(es[1..], keep);
    }
  }

  /** An archive without blob entries comes out unchanged, whatever is kept. */
  lemma NoBlobsUnchanged(es: seq<Entry>, keep: LayerSet)
    requires forall i :: 0 <= i < |es| ==> !IsBlobName(es[i].name)
    ensures WriteTrimmedTar(es, keep) == es
    ensures ReadTarLayers(es) == {}
  {
    forall i | 0 <= i < |es|
      ensures Retained(es[i], keep)
    {
      RetainedIffDigestKept(es[i], keep);
    }
    AllRetainedIsIdentity(es, keep);
  }

  /** A blob path `blobs/sha256/<d>`, where `d` holds no further copy of the
      directory, has the trimmed `d` as its digest. */
  lemma BlobDigestOfPath(d: string)
    requires !Occurs(d, BlobPrefix)
    ensures IsBlobName(BlobPrefix + d)
    ensures BlobDigest(BlobPrefix + d) == Trim(d)
  {
    assert (BlobPrefix + d)[..|BlobPrefix|] == BlobPrefix;
    ReplaceAllLeadingMatch(BlobPrefix, d, "");
    ReplaceAllAbsent(d, BlobPrefix, "");
    assert ReplaceAll(BlobPrefix + d, BlobPrefix, "") == d;
  }

  /** Scanning `blobs/sha256/aa`, `blobs/sha256/bb` and `manifest.json`
      yields {aa, bb}: the structural entry contributes nothing. */
  lemma ScanExample(h1: seq<byte>, h2: seq<byte>, h3: seq<byte>, c1: seq<byte>, c2: seq<byte>, c3: seq<byte>)
    ensures ReadTarLayers([Entry("blobs/sha256/aa", h1, c1), Entry("blobs/sha256/bb", h2, c2),
                           Entry("manifest.json", h3, c3)]) == {"aa", "bb"}
  {
    BlobDigestOfPath("aa");
    BlobDigestOfPath("bb");
    TrimFixedPoint("aa");
    TrimFixedPoint("bb");
    assert "blobs/sha256/aa" == BlobPrefix + "aa";
    assert "blobs/sha256/bb" == BlobPrefix + "bb";
    assert !IsBlobName("manifest.json") by {
      assert "manifest.json"[0] != BlobPrefix[0];
    }
  }
}
