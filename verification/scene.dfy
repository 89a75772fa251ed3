/** The scene-object pool of `CoreScene`: a fixed block of 1024 slots, a
    counter of slots in use, handles that index the pool, and the render list.
    A scene is an immutable value; each operation returns the next scene.
    Every path on which `CoreScene` prints a diagnostic and exits becomes a
    `Failure` carrying a `SceneError`. */
module Scene {
  import opened Wrappers
  import RenderList

  /** Capacity of the pool (`NUM_SCENE_OBJECTS`). */
  const NumSceneObjects: int := 1024

  /** The model pointer a slot is given, as handed out by the rendering
      system (a null pointer is one more such value). Its contents belong to
      the rendering system; only its identity matters here. */
  datatype Model = Model(id: nat)

  /** One pool slot: `None` while no creation has written it, otherwise
      `Some` of the model pointer the creation stored. */
  datatype SceneObject = SceneObject(model: Option<Model>)

  /** `CoreScene`'s pool state: the counter `numSceneObjects`, the slots, and
      the render list as a sequence of handles. */
  datatype Scene = Scene(numSceneObjects: int, sceneObjects: seq<SceneObject>, renderList: seq<int>)

  /** `CoreScene`'s three fatal diagnostics. */
  datatype SceneError =
    | InvalidModelHandle(modelHandle: int)
    | OutOfSceneObjects(modelHandle: int)
    | InvalidSceneObjectHandle(handle: int)

  /** A fresh scene object: the new scene and the handle of the object. */
  datatype Created = Created(scene: Scene, handle: int)

  /** What `RemoveFromRenderList` returns: the new scene and whether the object was listed. */
  datatype Removed = Removed(scene: Scene, wasListed: bool)

  /** `h` names an object that has been created. */
  predicate ValidHandle(s: Scene, h: int) {
    0 <= h < s.numSceneObjects
  }

  /** The pool invariant: the pool has exactly `NumSceneObjects` slots, the
      counter never exceeds it, exactly the slots below the counter have been
      written by a creation (handles are dense), and the render list holds distinct valid handles. */
  predicate Valid(s: Scene) {
    && |s.sceneObjects| == NumSceneObjects
    && 0 <= s.numSceneObjects <= NumSceneObjects
    && (forall h :: 0 <= h < |s.sceneObjects| ==>
          (s.sceneObjects[h].model.Some? <==> h < s.numSceneObjects))
    && RenderList.NoDuplicates(s.renderList)
    && (forall i :: 0 <= i < |s.renderList| ==> ValidHandle(s, s.renderList[i]))
  }

  /** The constructor: the pool is sized to capacity once, nothing is in use,
      and nothing is rendered. */
  function NewScene(): (s: Scene)
    ensures Valid(s)
    ensures s.numSceneObjects == 0 && s.renderList == []
    ensures forall h :: !ValidHandle(s, h)
  {
    Scene(0, seq(NumSceneObjects, _ => SceneObject(None)), [])
  }

  /** Writes `model` into the first unused slot and hands out its index. */
  function CreateSceneObjectInternal(s: Scene, model: Model): (r: Created)
    requires Valid(s) && s.numSceneObjects < NumSceneObjects
    ensures Valid(r.scene)
    ensures r.handle == s.numSceneObjects
    ensures r.scene.numSceneObjects == s.numSceneObjects + 1
    ensures ValidHandle(r.scene, r.handle) && !ValidHandle(s, r.handle)
    ensures r.scene.sceneObjects[r.handle] == SceneObject(Some(model))
    ensures forall h :: 0 <= h < |s.sceneObjects| && h != r.handle ==>
              r.scene.sceneObjects[h] == s.sceneObjects[h]
    ensures r.scene.renderList == s.renderList
  {
    var h := s.numSceneObjects;
    Created(Scene(h + 1, s.sceneObjects[h := SceneObject(Some(model))], s.renderList), h)
  }

  /** Creation from a model handle. `getModel` is the rendering system's
      lookup from model handles to models. A negative model handle is
      rejected first, then a full pool; otherwise the object is created, as
      by `CreateSceneObjectInternal`, with the model `getModel` gives for
      `modelHandle`. A failure allocates nothing. */
  function CreateSceneObject(s: Scene, modelHandle: int, getModel: int -> Model): (r: Result<Created, SceneError>)
    requires Valid(s)
    ensures r.Success? <==> modelHandle >= 0 && s.numSceneObjects < NumSceneObjects
    ensures modelHandle < 0 ==> r == Failure(InvalidModelHandle(modelHandle))
    ensures modelHandle >= 0 && s.numSceneObjects == NumSceneObjects ==>
              r == Failure(OutOfSceneObjects(modelHandle))
    ensures r.Success? ==> r.value == CreateSceneObjectInternal(s, getModel(modelHandle))
    ensures r.Success? ==> r.value.handle == s.numSceneObjects && Valid(r.value.scene)
    ensures r.Success? ==>
              r.value.scene.sceneObjects[r.value.handle] == SceneObject(Some(getModel(modelHandle)))
  {
    if modelHandle < 0 then
      Failure(InvalidModelHandle(modelHandle))
    else if s.numSceneObjects == NumSceneObjects then
      Failure(OutOfSceneObjects(modelHandle))
    else
      Success(CreateSceneObjectInternal(s, getModel(modelHandle)))
  }

  /** Creation from a basic shape name. `getModel` is the rendering
      system's lookup from shape names to models. `CoreScene` checks neither
      the model nor the capacity here, so a free slot is the caller's
      obligation. Like every creation it writes only the new slot. */
  function CreateSceneObjectFromShape(s: Scene, basicShape: string, getModel: string -> Model): (r: Created)
    requires Valid(s) && s.numSceneObjects < NumSceneObjects
    ensures Valid(r.scene)
    ensures r == CreateSceneObjectInternal(s, getModel(basicShape))
    ensures r.handle == s.numSceneObjects
    ensures r.scene.numSceneObjects == s.numSceneObjects + 1
    ensures ValidHandle(r.scene, r.handle) && !ValidHandle(s, r.handle)
    ensures r.scene.sceneObjects[r.handle] == SceneObject(Some(getModel(basicShape)))
    ensures |r.scene.sceneObjects| == |s.sceneObjects|
    ensures forall h :: 0 <= h < |s.sceneObjects| && h != r.handle ==>
              r.scene.sceneObjects[h] == s.sceneObjects[h]
    ensures r.scene.renderList == s.renderList
  {
    CreateSceneObjectInternal(s, getModel(basicShape))
  }

  /** Bounds-checked lookup: succeeds exactly on the handles handed out so
      far, and then yields that slot. */
  function GetSceneObject(s: Scene, h: int): (r: Result<SceneObject, SceneError>)
    requires Valid(s)
    ensures r.Success? <==> ValidHandle(s, h)
    ensures r.Success? ==> r.value == s.sceneObjects[h] && r.value.model.Some?
    ensures r.Failure? ==> r.error == InvalidSceneObjectHandle(h)
  {
    if h < 0 then
      Failure(InvalidSceneObjectHandle(h))
    else if h >= s.numSceneObjects then
      Failure(InvalidSceneObjectHandle(h))
    else
      Success(s.sceneObjects[h])
  }

  /** Puts a created object on the render list unless it is already there.
      The handle goes through `GetSceneObject` first, so an invalid handle fails. */
  function AddToRenderList(s: Scene, h: int): (r: Result<Scene, SceneError>)
    requires Valid(s)
    ensures r.Success? <==> ValidHandle(s, h)
    ensures r.Failure? ==> r.error == InvalidSceneObjectHandle(h)
    ensures r.Success? ==> Valid(r.value)
    ensures r.Success? ==>
              r.value.numSceneObjects == s.numSceneObjects && r.value.sceneObjects == s.sceneObjects
    ensures r.Success? && h in s.renderList ==> r.value.renderList == s.renderList
    ensures r.Success? && h !in s.renderList ==> r.value.renderList == s.renderList + [h]
  {
    match GetSceneObject(s, h)
    case Failure(e) => Failure(e)
    case Success(_) => Success(s.(renderList := RenderList.Add(s.renderList, h)))
  }

  /** Takes a created object off the render list and reports whether it was
      listed. The handle goes through `GetSceneObject` first. */
  function RemoveFromRenderList(s: Scene, h: int): (r: Result<Removed, SceneError>)
    requires Valid(s)
    ensures r.Success? <==> ValidHandle(s, h)
    ensures r.Failure? ==> r.error == InvalidSceneObjectHandle(h)
    ensures r.Success? ==> Valid(r.value.scene)
    ensures r.Success? ==>
              r.value.scene.numSceneObjects == s.numSceneObjects
              && r.value.scene.sceneObjects == s.sceneObjects
    ensures r.Success? ==> (r.value.wasListed <==> h in s.renderList)
    ensures r.Success? && !r.value.wasListed ==> r.value.scene == s
    ensures r.Success? ==> h !in r.value.scene.renderList
    ensures r.Success? && r.value.wasListed ==>
              exists i :: 0 <= i < |s.renderList| && s.renderList[i] == h
                && r.value.scene.renderList == s.renderList[..i] + s.renderList[i + 1..]
  {
    match GetSceneObject(s, h)
    case Failure(e) => Failure(e)
    case Success(_) =>
      var removal := RenderList.Remove(s.renderList, h);
      RemovalKeepsHandlesValid(s, h);
      Success(Removed(s.(renderList := removal.rest), removal.found))
  }

  /** What is left on the render list after a removal are still valid handles. */
  lemma RemovalKeepsHandlesValid(s: Scene, h: int)
    requires Valid(s)
    ensures Valid(s.(renderList := RenderList.Remove(s.renderList, h).rest))
  {
  }
}
