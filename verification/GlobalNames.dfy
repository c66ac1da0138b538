/** The names that the layers of a pipelined model get in the inference engine (utils/model.py, utils/megatron_utils.py). */
module GlobalNames {
  import opened Wrappers
  import opened LayerNames
  import LayerOffsets

  /** The dotted name of the local layer, with `layer` as the component in front of its number. */
  ghost predicate NumbersLayer(parts: seq<string>, k: nat, layer: string) {
    && (forall i :: 0 <= i < |parts| ==> Undotted(parts[i]))
    && k + 1 < |parts| && parts[k] == layer && forall i :: 0 <= i < k ==> parts[i] != layer
  }

  /** The offset of the rank and virtual stage at which the place is. */
  function OffsetAt(c: LayerOffsets.Config, p: LayerOffsets.Place): Result<int, LayerOffsets.OffsetError> {
    LayerOffsets.LayerOffset(p.rank, LayerOffsets.StageArgument(c, p.stage), c)
  }

  lemma OffsetNatural(c: LayerOffsets.Config, p: LayerOffsets.Place)
    requires LayerOffsets.Divides(c) && LayerOffsets.Supported(c) && LayerOffsets.IsPlace(p, c)
    ensures OffsetAt(c, p).Success? && 0 <= OffsetAt(c, p).value
    ensures OffsetAt(c, p).value + p.local < c.numLayers
    ensures LayerOffsets.PlaceOf(c, OffsetAt(c, p).value + p.local) == p
  {
    LayerOffsets.LayersBijection(c);
    var first := LayerOffsets.Place(p.stage, p.rank, 0);
    assert LayerOffsets.IsPlace(first, c) && OffsetAt(c, first) == OffsetAt(c, p);
  }

  /** In a supported layout two places never get one name: the layers of the model keep apart. */
  lemma {:induction false} PlacesKeepApart(
      c: LayerOffsets.Config, p: LayerOffsets.Place, q: LayerOffsets.Place, parts: seq<string>, k: nat, layer: string)
    requires LayerOffsets.Divides(c) && LayerOffsets.Supported(c)
    requires LayerOffsets.IsPlace(p, c) && LayerOffsets.IsPlace(q, c) && NumbersLayer(parts, k, layer)
    ensures OffsetAt(c, p).Success? && 0 <= OffsetAt(c, p).value && OffsetAt(c, q).Success? && 0 <= OffsetAt(c, q).value
    ensures
      var a := Normalized(Join(parts[k + 1 := Print(p.local)]), OffsetAt(c, p).value, layer);
      var b := Normalized(Join(parts[k + 1 := Print(q.local)]), OffsetAt(c, q).value, layer);
      a.Success? && b.Success? && (a == b <==> p == q)
  {
    hide Normalized, Join, Print, LayerOffsets.LayerOffset, LayerOffsets.PlaceOf, LayerOffsets.IsPlace;
    OffsetNatural(c, p);
    OffsetNatural(c, q);
    NamesMeet(parts, k, p.local, OffsetAt(c, p).value, q.local, OffsetAt(c, q).value, layer);
  }

  /** In the unsupported layout of `CollisionOfEight` the first layers of ranks 0 and 1 get one name. */
  lemma {:induction false} OneNameForTwo(parts: seq<string>, k: nat, layer: string)
    requires NumbersLayer(parts, k, layer)
    ensures
      var c := LayerOffsets.Config(8, 2, Some(2), None, Some(4));
      var p, q := LayerOffsets.Place(0, 0, 0), LayerOffsets.Place(0, 1, 0);
      && LayerOffsets.Divides(c) && LayerOffsets.IsPlace(p, c) && LayerOffsets.IsPlace(q, c)
      && OffsetAt(c, p) == OffsetAt(c, q) == Success(0)
      && Normalized(Join(parts[k + 1 := Print(0)]), 0, layer).Success?
  {
    hide Normalized, Join, Print, LayerOffsets.LayerOffset;
    LayerOffsets.CollisionOfEight();
    NamesMeet(parts, k, 0, 0, 0, 0, layer);
  }
}
