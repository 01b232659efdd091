/** Layer sets: a layer digest is a normalised string, and a set of them has
    neither order nor duplicates. */
module Layers {

  type LayerSet = set<string>

  /** The layers of `a` that `b` does not hold (`a - b`). */
  function Difference(a: LayerSet, b: LayerSet): (r: LayerSet)
    ensures forall x :: x in r <==> x in a && x !in b
    ensures r <= a && r !! b
  {
    a - b
  }

  /** Keeping one of two layers: {layer1, layer2} - {layer2, layer3}. */
  lemma DifferenceExample()
    ensures Difference({"layer1", "layer2"}, {"layer2", "layer3"}) == {"layer1"}
    ensures |Difference({"layer1", "layer2"}, {"layer2", "layer3"})| == 1
  {
    assert "layer1"[5] != "layer2"[5] && "layer1"[5] != "layer3"[5];
    assert Difference({"layer1", "layer2"}, {"layer2", "layer3"}) == {"layer1"};
  }

  lemma DifferenceOfEmpty(b: LayerSet)
    ensures Difference({}, b) == {}
  {
  }

  lemma DifferenceWithEmpty(a: LayerSet)
    ensures Difference(a, {}) == a
  {
  }

  /** Disjoint sets take nothing from each other. */
  lemma DifferenceDisjoint(a: LayerSet, b: LayerSet)
    requires a !! b
    ensures Difference(a, b) == a
  {
  }

  /** Complete overlap leaves nothing. */
  lemma DifferenceSelf(a: LayerSet)
    ensures Difference(a, a) == {}
  {
  }

  /** What is removed is exactly what the two sets share, so the sizes add up. */
  lemma DifferenceSize(a: LayerSet, b: LayerSet)
    ensures |Difference(a, b)| + |a * b| == |a|
  {
    assert Difference(a, b) + a * b == a;
    assert Difference(a, b) !! a * b;
  }
}
