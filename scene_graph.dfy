/**
 * The loaded scene graph that the glow override walks, and the walk itself.
 * A node's kind and its children are fixed; its render layers and its
 * material's emissive colour and intensity are what the override changes.
 */
module SceneGraph {

  /** A colour, kept as the opaque value handed to `emissive.set`. */
  type Color = string

  /** The render layer that the selective bloom pass looks at. */
  const GlowLayer: int := 1
  const GlowColor: Color := "#2df169"
  const GlowIntensity: real := 2.0

  /** The part of a node the override may change. */
  datatype Appearance = Appearance(layers: set<int>, emissive: Color, emissiveIntensity: real)

  /** What the traversal callback leaves on one node, given its kind and its appearance before. */
  function Override(isMesh: bool, a: Appearance): (r: Appearance)
    ensures isMesh ==> GlowLayer in r.layers && a.layers <= r.layers && r.layers <= a.layers + {GlowLayer}
    ensures isMesh ==> r.emissive == GlowColor && r.emissiveIntensity == GlowIntensity
    ensures !isMesh ==> r == a
  {
    if isMesh then Appearance(a.layers + {GlowLayer}, GlowColor, GlowIntensity) else a
  }

  /** Running the callback again on a node it has already visited changes nothing. */
  lemma OverrideIdempotent(isMesh: bool, a: Appearance)
    ensures Override(isMesh, Override(isMesh, a)) == Override(isMesh, a)
  {
  }

  class Node {
    const isMesh: bool
    const children: seq<Node>
    /** This node and every node below it. */
    ghost const Repr: set<Node>

    var layers: set<int>
    var emissive: Color
    var emissiveIntensity: real

    /**
     * The nodes below form a tree: each child's subtree lies inside this one,
     * does not contain this node, and shares no node with a sibling's subtree.
     */
    ghost predicate Valid()
      decreases Repr
    {
      this in Repr &&
      (forall i :: 0 <= i < |children| ==>
        children[i] in Repr && children[i].Repr <= Repr && this !in children[i].Repr &&
        children[i].Valid()) &&
      (forall i, j :: 0 <= i < j < |children| ==> children[i].Repr !! children[j].Repr) &&
      Repr == {this} + Below(children)
    }

    function Look(): Appearance
      reads this
    {
      Appearance(layers, emissive, emissiveIntensity)
    }

    /** A node with the given kind, children and appearance, as the loader builds it. */
    constructor (isMesh: bool, children: seq<Node>, look: Appearance)
      requires forall i :: 0 <= i < |children| ==> children[i].Valid()
      requires forall i, j :: 0 <= i < j < |children| ==> children[i].Repr !! children[j].Repr
      ensures Valid() && Look() == look
      ensures this.isMesh == isMesh && this.children == children
      ensures Repr == {this} + Below(children)
    {
      this.isMesh := isMesh;
      this.children := children;
      this.Repr := {this} + Below(children);
      this.layers := look.layers;
      this.emissive := look.emissive;
      this.emissiveIntensity := look.emissiveIntensity;
    }

    /**
     * `traverse` with the glow callback: this node first, then each child's
     * subtree in order. Every mesh below gets the glow layer, colour and
     * intensity; every other node keeps what it had.
     */
    method ApplyGlow()
      requires Valid()
      modifies Repr
      ensures forall n :: n in Repr ==> n.Look() == Override(n.isMesh, old(n.Look()))
      decreases Repr
    {
      if isMesh {
        layers := layers + {GlowLayer};
        emissive := GlowColor;
        emissiveIntensity := GlowIntensity;
      }
      var i := 0;
      while i < |children|
        invariant 0 <= i <= |children|
        invariant Look() == Override(isMesh, old(Look()))
        invariant forall j, n :: 0 <= j < i && n in children[j].Repr ==>
          n.Look() == Override(n.isMesh, old(n.Look()))
        invariant forall j, n :: i <= j < |children| && n in children[j].Repr ==>
          n.Look() == old(n.Look())
      {
        var c := children[i];
        assert c.Valid() && c.Repr <= Repr && this !in c.Repr;
        assert forall j :: 0 <= j < |children| && j != i ==> children[j].Repr !! c.Repr;
        c.ApplyGlow();
        i := i + 1;
      }
    }
  }

  /** Every node in the subtrees of `cs`. */
  ghost function Below(cs: seq<Node>): set<Node>
  {
    set j, n | 0 <= j < |cs| && n in cs[j].Repr :: n
  }
}
