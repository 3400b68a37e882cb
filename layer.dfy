/**
 * Layers and the layer manager: every layer created gets the next id, and
 * the stack of shown layers is reordered by `UpDown` and `Hide`. Drawing is
 * not part of this model.
 */
module Layer {
  import opened Common

  /** `unsigned int` wraps around at 2^32. */
  const UIntMod: int := 0x1_0000_0000

  class Layer {
    const id: uint32
    var pos: Vector2D

    /** `Layer(id)` sets only the id; this model starts the position at the
        origin. */
    constructor (layerId: uint32)
      ensures id == layerId
    {
      id := layerId;
      pos := Vector2D(0, 0);
    }

    method Move(p: Vector2D)
      modifies this`pos
      ensures pos == p
    {
      pos := p;
    }

    method MoveRelative(diff: Vector2D)
      modifies this`pos
      ensures pos == old(pos).Plus(diff)
    {
      pos := pos.Plus(diff);
    }
  }

  /** The index of the first layer with the given id (`std::find_if`). */
  function IndexOfId(layers: seq<Layer>, id: int): (r: Option<nat>)
    ensures r.Some? ==> r.value < |layers| && layers[r.value].id == id
    ensures r.Some? ==> forall j :: 0 <= j < r.value ==> layers[j].id != id
    ensures r.None? ==> forall j :: 0 <= j < |layers| ==> layers[j].id != id
  {
    if layers == [] then None
    else if layers[0].id == id then Some(0)
    else match IndexOfId(layers[1..], id)
      case None => None
      case Some(k) => Some(k + 1)
  }

  /** The positions after setting the one at `k`, if there is one. */
  function MovedTo(ps: seq<Vector2D>, k: Option<nat>, p: Vector2D): seq<Vector2D>
  {
    if k.Some? && k.value < |ps| then ps[k.value := p] else ps
  }

  /** The positions after shifting the one at `k`, if there is one. */
  function MovedBy(ps: seq<Vector2D>, k: Option<nat>, diff: Vector2D): seq<Vector2D>
  {
    if k.Some? && k.value < |ps| then ps[k.value := ps[k.value].Plus(diff)] else ps
  }

  class LayerManager {
    var layers: seq<Layer>
    var layerStack: seq<Layer>
    var latestId: uint32

    /** Layer `i` got id `i + 1` (modulo 2^32); the stack holds managed
        layers, each at most once. */
    ghost predicate Valid()
      reads this
    {
      && latestId == |layers| % UIntMod
      && (forall i :: 0 <= i < |layers| ==> layers[i].id == (i + 1) % UIntMod)
      && (forall i, j :: 0 <= i < j < |layers| ==> layers[i] != layers[j])
      && NoDup(layerStack)
      && (forall l | l in layerStack :: l in layers)
    }

    ghost function Positions(): (ps: seq<Vector2D>)
      reads this, layers
      ensures |ps| == |layers|
    {
      seq(|layers|, i reads this, layers requires 0 <= i < |layers| => layers[i].pos)
    }

    constructor ()
      ensures Valid() && layers == [] && layerStack == [] && latestId == 0
    {
      layers := [];
      layerStack := [];
      latestId := 0;
    }

    /** `NewLayer`: the next id, a new layer that is not shown. */
    method NewLayer() returns (l: Layer)
      requires Valid()
      modifies this`layers, this`latestId
      ensures Valid() && fresh(l)
      ensures l.id == (old(latestId) + 1) % UIntMod
      ensures layers == old(layers) + [l] && layerStack == old(layerStack)
      ensures |layers| < UIntMod ==> l.id == |layers| && forall m | m in old(layers) :: m.id != l.id
    {
      latestId := (latestId + 1) % UIntMod;
      l := new Layer(latestId);
      layers := layers + [l];
    }

    /** `_FindLayer`: the first layer with the id, or null. */
    function FindLayer(id: int): (r: Layer?)
      reads this
      ensures r == null <==> forall l | l in layers :: l.id != id
      ensures r != null ==> r == layers[IndexOfId(layers, id).value] && r.id == id
    {
      match IndexOfId(layers, id)
      case None => null
      case Some(k) => layers[k]
    }

    /** `Move(id, pos)`: an unknown id changes no position. */
    method Move(id: int, p: Vector2D)
      requires Valid()
      modifies set l | l in layers
      ensures Valid()
      ensures Positions() == MovedTo(old(Positions()), IndexOfId(layers, id), p)
    {
      var layer := FindLayer(id);
      if layer != null {
        layer.Move(p);
      }
    }

    method MoveRelative(id: int, diff: Vector2D)
      requires Valid()
      modifies set l | l in layers
      ensures Valid()
      ensures Positions() == MovedBy(old(Positions()), IndexOfId(layers, id), diff)
    {
      var layer := FindLayer(id);
      if layer != null {
        layer.MoveRelative(diff);
      }
    }

    /** `Hide(id)`: takes the layer off the stack when it is there. */
    method Hide(id: int)
      requires Valid()
      modifies this`layerStack
      ensures Valid()
      ensures FindLayer(id) == null || FindLayer(id) !in old(layerStack) ==> layerStack == old(layerStack)
      ensures FindLayer(id) != null ==> layerStack == Without<Layer>(old(layerStack), FindLayer(id))
      ensures FindLayer(id) != null ==> FindLayer(id) !in layerStack
    {
      var layer := FindLayer(id);
      if layer != null {
        match IndexOf(layerStack, layer)
        case None =>
          WithoutAbsent<Layer>(layerStack, layer);
        case Some(j) =>
          RemoveAtIsWithout<Layer>(layerStack, j);
          NoDupRemoveAt<Layer>(layerStack, j);
          RemoveAtSubset<Layer>(layerStack, j);
          layerStack := RemoveAt(layerStack, j);
      }
    }

    /** `UpDown(id, height)`. A negative height hides (and so leaves the
        stack alone for an unknown id); otherwise the id must name a layer,
        the height is clamped to the stack size, a hidden layer is inserted
        there, and a shown one is moved there (to the top when the height
        reaches past it). */
    method UpDown(id: int, height: int)
      requires Valid() && (height < 0 || FindLayer(id) != null)
      modifies this`layerStack
      ensures Valid()
      ensures height < 0 && FindLayer(id) == null ==> layerStack == old(layerStack)
      ensures height < 0 && FindLayer(id) != null ==>
        layerStack == Without<Layer>(old(layerStack), FindLayer(id))
      ensures height < 0 && FindLayer(id) != null ==> FindLayer(id) !in layerStack
      ensures height >= 0 && FindLayer(id) !in old(layerStack) ==>
        layerStack == InsertAt(old(layerStack), Min(height, |old(layerStack)|), FindLayer(id))
      ensures height >= 0 && FindLayer(id) in old(layerStack) ==>
        && |layerStack| == |old(layerStack)|
        && layerStack[Min(height, |old(layerStack)| - 1)] == FindLayer(id)
        && Without<Layer>(layerStack, FindLayer(id)) == Without<Layer>(old(layerStack), FindLayer(id))
      ensures height >= 0 ==> FindLayer(id) in layerStack
    {
      if height < 0 {
        Hide(id);
        return;
      }
      var newHeight := height;
      if newHeight > |layerStack| {
        newHeight := |layerStack|;
      }
      var layer := FindLayer(id);
      match IndexOf(layerStack, layer)
      case None =>
        NoDupInsertAt<Layer>(layerStack, newHeight, layer);
        layerStack := InsertAt(layerStack, newHeight, layer);
      case Some(j) =>
        var newPos := newHeight;
        if newPos == |layerStack| {
          newPos := newPos - 1;
        }
        MoveWithin<Layer>(layerStack, j, newPos);
        layerStack := InsertAt(RemoveAt(layerStack, j), newPos, layer);
    }
  }

  function Min(a: int, b: int): int
  {
    if a < b then a else b
  }
}
