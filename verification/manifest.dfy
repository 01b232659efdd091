/** The manifest reader (`read_json_layers`): the layer digests an image
    descriptor lists under `[0].RootFS.Layers`, with the algorithm prefix
    removed. Works on the parsed JSON value; opening, reading and parsing the
    file are not part of this model. */
module Manifest {
  import opened Results
  import opened Strings
  import opened JsonValues
  import opened Layers

  datatype ManifestError =
    | LayersNotArray    // `[0].RootFS.Layers` is absent or not an array
    | LayerNotString    // some element of that array is not a string

  /** The digest algorithm prefix every layer reference carries. */
  const AlgorithmPrefix: string := "sha256:"

  /** Manifest-side normalisation: every occurrence of the algorithm prefix is
      removed; whitespace is left alone. A reference without the prefix is
      its own digest, and no digest is longer than its reference. */
  function StripAlgorithm(reference: string): (r: string)
    ensures |r| <= |reference|
    ensures !Occurs(reference, AlgorithmPrefix) ==> r == reference
  {
    ReplaceAllAbsent(reference, AlgorithmPrefix, "");
    ReplaceAll(reference, AlgorithmPrefix, "")
  }

  /** The lookup `json[0]["RootFS"]["Layers"]`. Indexing yields an array only
      along the path array, first element, object with "RootFS", object with
      "Layers", array; any other shape yields something else. */
  function LayersField(j: Json): (r: Json)
    ensures r.Array? <==>
              && j.Array? && |j.items| > 0
              && j.items[0].Object? && "RootFS" in j.items[0].fields
              && j.items[0].fields["RootFS"].Object? && "Layers" in j.items[0].fields["RootFS"].fields
              && j.items[0].fields["RootFS"].fields["Layers"].Array?
    ensures r.Array? ==> r == j.items[0].fields["RootFS"].fields["Layers"]
  {
    Field(Field(At(j, 0), "RootFS"), "Layers")
  }

  /** `digest` is the digest of some string element of `items`. */
  predicate Lists(items: seq<Json>, digest: string) {
    exists i :: 0 <= i < |items| && items[i].Str? && StripAlgorithm(items[i].str) == digest
  }

  /** Collecting the normalised strings of the layer array; the first element
      that is not a string fails the whole collection. */
  function CollectLayers(items: seq<Json>): (r: Result<LayerSet, ManifestError>)
    ensures r.Ok? <==> forall i :: 0 <= i < |items| ==> items[i].Str?
    ensures r.Err? ==> r.error == LayerNotString
    ensures r.Ok? ==> forall d :: d in r.value <==> Lists(items, d)
    decreases |items|
  {
    if items == [] then Ok({})
    else if !items[0].Str? then Err(LayerNotString)
    else
      match CollectLayers(items[1..])
      case Err(e) => Err(e)
      case Ok(rest) =>
        assert forall i :: 1 <= i < |items| ==> items[i] == items[1..][i - 1];
        assert forall d :: Lists(items[1..], d) ==> Lists(items, d) by {
          forall d | Lists(items[1..], d)
            ensures Lists(items, d)
          {
            var i :| 0 <= i < |items[1..]| && items[1..][i].Str? && StripAlgorithm(items[1..][i].str) == d;
            assert items[i + 1] == items[1..][i];
          }
        }
        Ok({StripAlgorithm(items[0].str)} + rest)
  }

  /** The reader succeeds exactly when the lookup yields an array of strings,
      and then returns the normalised strings, duplicates collapsed; a
      missing or non-array field and a non-string element are told apart. */
  function ReadJsonLayers(j: Json): (r: Result<LayerSet, ManifestError>)
    ensures r.Ok? <==>
              LayersField(j).Array? && forall i :: 0 <= i < |LayersField(j).items| ==> LayersField(j).items[i].Str?
    ensures r == Err(LayersNotArray) <==> !LayersField(j).Array?
    ensures r == Err(LayerNotString) <==>
              LayersField(j).Array? && exists i :: 0 <= i < |LayersField(j).items| && !LayersField(j).items[i].Str?
    ensures r.Ok? ==> forall d :: d in r.value <==> Lists(LayersField(j).items, d)
  {
    match LayersField(j)
    case Array(items) => CollectLayers(items)
    case _ => Err(LayersNotArray)
  }

  /** A descriptor without the layer array is rejected whatever else it holds:
      a top level that is not an array, an empty top-level array, `[{}]`, and
      a first element whose "RootFS" has no "Layers". */
  lemma MissingLayersRejected(j: Json, rootFs: map<string, Json>)
    ensures !j.Array? ==> ReadJsonLayers(j) == Err(LayersNotArray)
    ensures ReadJsonLayers(Array([])) == Err(LayersNotArray)
    ensures ReadJsonLayers(Array([Object(map[])])) == Err(LayersNotArray)
    ensures "Layers" !in rootFs ==>
              ReadJsonLayers(Array([Object(map["RootFS" := Object(rootFs)])])) == Err(LayersNotArray)
  {
  }

  /** The descriptor an image tool exports for an image of two layers with
      digests `x` and `y`. */
  function TwoLayerDescriptor(x: string, y: string): Json {
    Array([Object(map[
      "RootFS" := Object(map[
        "Type" := Str("layers"),
        "Layers" := Array([Str(AlgorithmPrefix + x), Str(AlgorithmPrefix + y)])])])])
  }

  /** Reading that descriptor gives back exactly the two digests. */
  lemma TwoLayerDescriptorRead(x: string, y: string)
    requires !Occurs(x, AlgorithmPrefix) && !Occurs(y, AlgorithmPrefix)
    ensures ReadJsonLayers(TwoLayerDescriptor(x, y)) == Ok({x, y})
    ensures x != y ==> |ReadJsonLayers(TwoLayerDescriptor(x, y)).value| == 2
  {
    var items := [Str(AlgorithmPrefix + x), Str(AlgorithmPrefix + y)];
    assert LayersField(TwoLayerDescriptor(x, y)) == Array(items);
    StripAlgorithmOfReference(x);
    StripAlgorithmOfReference(y);
    var r := CollectLayers(items);
    assert r.Ok?;
    forall d
      ensures Lists(items, d) <==> d == x || d == y
    {
      if d == x { assert items[0].Str? && StripAlgorithm(items[0].str) == d; }
      if d == y { assert items[1].Str? && StripAlgorithm(items[1].str) == d; }
    }
    assert r.value == {x, y};
  }

  /** A string shorter than the prefix cannot hold it. */
  lemma ShortHoldsNoPrefix(d: string)
    requires |d| < |AlgorithmPrefix|
    ensures !Occurs(d, AlgorithmPrefix)
  {
  }

  lemma TwoLayerDescriptorExample()
    ensures ReadJsonLayers(TwoLayerDescriptor("abc123", "def456")) == Ok({"abc123", "def456"})
  {
    ShortHoldsNoPrefix("abc123");
    ShortHoldsNoPrefix("def456");
    TwoLayerDescriptorRead("abc123", "def456");
  }

  /** A reference of the form `sha256:<d>`, where `d` holds no further copy of
      the prefix, normalises to `d` exactly. */
  lemma StripAlgorithmOfReference(d: string)
    requires !Occurs(d, AlgorithmPrefix)
    ensures StripAlgorithm(AlgorithmPrefix + d) == d
  {
    ReplaceAllLeadingMatch(AlgorithmPrefix, d, "");
    ReplaceAllAbsent(d, AlgorithmPrefix, "");
  }

  /** No whitespace is trimmed on the manifest side: a padded reference keeps
      its padding. */
  lemma StripKeepsWhitespace()
    ensures StripAlgorithm(" sha256:aa ") == " aa "
  {
    var s := " sha256:aa ";
    assert !StartsWith(s, AlgorithmPrefix) by { assert s[0] != AlgorithmPrefix[0]; }
    assert s[1..] == AlgorithmPrefix + "aa ";
    ReplaceAllLeadingMatch(AlgorithmPrefix, "aa ", "");
  }
}
