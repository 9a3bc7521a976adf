/** The generational handle allocator of src/codelldb/src/handles.rs. */
module Handles {
  import opened Options

  type Handle = int

  /** What a handle stands for: a key below a parent. */
  datatype Place = Place(parent: Option<Handle>, key: string)

  datatype Object<+V> = Object(place: Place, value: V)

  datatype Tree<+V> = Tree(
    objects: map<Handle, Object<V>>,
    current: map<Place, Handle>,
    previous: map<Place, Handle>,
    last: Handle)

  function Empty<V>(): Tree<V> { Tree(map[], map[], map[], 1000) }

  function Reset<V>(t: Tree<V>): Tree<V>
  {
    t.(objects := map[], current := map[], previous := t.current)
  }

  /** A place that had a handle in the previous generation gets it again, unless that handle is
      already taken in this one. */
  predicate Reuses<V>(t: Tree<V>, place: Place)
  {
    place in t.previous && t.previous[place] !in t.objects
  }

  predicate Warns<V>(t: Tree<V>, place: Place)
  {
    place in t.previous && t.previous[place] in t.objects
  }

  function HandleFor<V>(t: Tree<V>, place: Place): Handle
  {
    if Reuses(t, place) then t.previous[place] else t.last + 1
  }

  function Create<V>(t: Tree<V>, place: Place, value: V): Tree<V>
  {
    var h := HandleFor(t, place);
    Tree(t.objects[h := Object(place, value)], t.current[place := h], t.previous,
         if Reuses(t, place) then t.last else t.last + 1)
  }

  predicate Live<V>(t: Tree<V>, parent: Option<Handle>)
  {
    parent.Some? ==> parent.value in t.objects
  }

  predicate Below(place: Place, h: Handle)
  {
    place.parent.Some? ==> place.parent.value < h
  }

  /** What every operation keeps: no handle beyond the last one issued is in use, and the parent of
      every live object is live and has a smaller handle. */
  ghost predicate Inv<V>(t: Tree<V>)
  {
    && (forall h :: h in t.objects ==> h <= t.last && Live(t, t.objects[h].place.parent) && Below(t.objects[h].place, h))
    && (forall p :: p in t.current ==> t.current[p] <= t.last && Below(p, t.current[p]))
    && (forall p :: p in t.previous ==> t.previous[p] <= t.last && Below(p, t.previous[p]))
  }

  lemma CreateKeepsInv<V>(t: Tree<V>, place: Place, value: V)
    requires Inv(t) && Live(t, place.parent)
    ensures Inv(Create(t, place, value))
    ensures HandleFor(t, place) !in t.objects
  {
  }

  lemma ResetKeepsInv<V>(t: Tree<V>)
    requires Inv(t)
    ensures Inv(Reset(t))
  {
  }

  class HandleTree<V> {
    var objByHandle: map<Handle, Object<V>>
    var handleTree: map<Place, Handle>
    var prevHandleTree: map<Place, Handle>
    var nextHandleValue: Handle

    ghost function Abstract(): Tree<V>
      reads this
    {
      Tree(objByHandle, handleTree, prevHandleTree, nextHandleValue)
    }

    constructor ()
      ensures Abstract() == Empty() && Inv(Abstract())
    {
      objByHandle, handleTree, prevHandleTree, nextHandleValue := map[], map[], map[], 1000;
    }

    method ResetAll()
      requires Inv(Abstract())
      modifies this
      ensures Abstract() == Reset(old(Abstract())) && Inv(Abstract())
    {
      objByHandle := map[];
      prevHandleTree := map[];
      handleTree, prevHandleTree := prevHandleTree, handleTree;
    }

    method CreateNewHandle() returns (h: Handle)
      modifies this`nextHandleValue
      ensures h == nextHandleValue == old(nextHandleValue) + 1
    {
      nextHandleValue := nextHandleValue + 1;
      h := nextHandleValue;
    }

    method CreateHandle(parent: Option<Handle>, key: string, value: V) returns (h: Handle, warned: bool)
      requires Inv(Abstract()) && Live(Abstract(), parent)
      modifies this
      ensures h == HandleFor(old(Abstract()), Place(parent, key))
      ensures warned == Warns(old(Abstract()), Place(parent, key))
      ensures Abstract() == Create(old(Abstract()), Place(parent, key), value) && Inv(Abstract())
    {
      CreateKeepsInv(Abstract(), Place(parent, key), value);
      var place := Place(parent, key);
      warned := false;
      if place in prevHandleTree {
        h := prevHandleTree[place];
      } else {
        h := CreateNewHandle();
      }
      if h !in objByHandle {
        objByHandle := objByHandle[h := Object(place, value)];
      } else {
        warned := true;
        h := CreateNewHandle();
        objByHandle := objByHandle[h := Object(place, value)];
      }
      handleTree := handleTree[place := h];
    }

    method Get(handle: Handle) returns (r: Option<V>)
      ensures r == if handle in Abstract().objects then Some(Abstract().objects[handle].value) else None
    {
      r := if handle in objByHandle then Some(objByHandle[handle].value) else None;
    }

    method GetFullInfo(handle: Handle) returns (r: Option<Object<V>>)
      ensures r == if handle in Abstract().objects then Some(Abstract().objects[handle]) else None
    {
      r := if handle in objByHandle then Some(objByHandle[handle]) else None;
    }
  }
}
