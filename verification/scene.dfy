/** `RayTracingEngine.Scene`: the objects and lights of a scene, the shadow
    query and the list maintenance. The objects are kept generic: the scene
    only compares them and asks each whether it blocks a given ray. */
module Scenes {
  import opened Lists
  import opened AObject

  datatype Scene<O> = Scene(objects: seq<O>, lights: seq<Light>)

  /** Some object blocks the ray; `hasHit` is each object's `HasHit` for the
      ray in question. */
  predicate AnyHit<O>(objects: seq<O>, hasHit: O -> bool) {
    exists i :: 0 <= i < |objects| && hasHit(objects[i])
  }

  /** `IsInShadow`: the objects are asked in insertion order and the scan stops
      at the first that blocks the ray. `examined` is how many were asked. */
  method IsInShadow<O>(s: Scene<O>, hasHit: O -> bool) returns (b: bool, examined: nat)
    ensures b <==> AnyHit(s.objects, hasHit)
    ensures |s.objects| == 0 ==> !b
    ensures examined <= |s.objects|
    ensures forall j :: 0 <= j < examined - 1 ==> !hasHit(s.objects[j])
    ensures b ==> examined > 0 && hasHit(s.objects[examined - 1])
    ensures !b ==> examined == |s.objects|
  {
    examined := 0;
    while examined < |s.objects|
      invariant examined <= |s.objects|
      invariant forall j :: 0 <= j < examined ==> !hasHit(s.objects[j])
    {
      var obj := s.objects[examined];
      examined := examined + 1;
      if hasHit(obj) {
        return true, examined;
      }
    }
    return false, examined;
  }

  /** `AddObject`: appends to the objects and leaves the lights alone. */
  function AddObject<O>(s: Scene<O>, obj: O): (s': Scene<O>)
    ensures s'.lights == s.lights
    ensures |s'.objects| == |s.objects| + 1
    ensures s'.objects[..|s.objects|] == s.objects && s'.objects[|s.objects|] == obj
  {
    s.(objects := s.objects + [obj])
  }

  /** `RemoveObject`: removes the first occurrence, if any, and leaves the
      lights alone. */
  function RemoveObject<O(==)>(s: Scene<O>, obj: O): (s': Scene<O>)
    ensures s'.lights == s.lights
    ensures obj !in s.objects ==> s' == s
    ensures multiset(s'.objects) == multiset(s.objects) - multiset{obj}
  {
    RemoveFirstMultiset(s.objects, obj);
    s.(objects := RemoveFirst(s.objects, obj))
  }

  /** Adding an object that was not yet in the scene and removing it again
      gives back the scene. */
  lemma AddThenRemove<O>(s: Scene<O>, obj: O)
    requires obj !in s.objects
    ensures RemoveObject(AddObject(s, obj), obj) == s
  {
    RemoveAppended(s.objects, obj);
  }

  /** After an object is added the scene is in shadow exactly when it was
      before or the new object blocks the ray. */
  lemma AddObjectShadow<O>(s: Scene<O>, obj: O, hasHit: O -> bool)
    ensures AnyHit(AddObject(s, obj).objects, hasHit) <==> AnyHit(s.objects, hasHit) || hasHit(obj)
  {
    var objs := AddObject(s, obj).objects;
    if AnyHit(objs, hasHit) {
      var i :| 0 <= i < |objs| && hasHit(objs[i]);
      if i < |s.objects| {
        assert objs[i] == s.objects[i];
      }
    }
    if AnyHit(s.objects, hasHit) {
      var i :| 0 <= i < |s.objects| && hasHit(s.objects[i]);
      assert objs[i] == s.objects[i];
    }
    if hasHit(obj) {
      assert objs[|s.objects|] == obj;
    }
  }
}
