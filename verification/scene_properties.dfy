/** Properties of the scene-object pool that relate several operations. */
module SceneProperties {
  import opened Wrappers
  import RenderList
  import opened Scene

  /** Creates one object per model, in order, collecting the handles handed out. */
  function CreateAll(s: Scene, models: seq<Model>): (Scene, seq<int>)
    requires Valid(s) && s.numSceneObjects + |models| <= NumSceneObjects
    decreases |models|
  {
    if |models| == 0 then (s, [])
    else
      var c := CreateSceneObjectInternal(s, models[0]);
      var (s', hs) := CreateAll(c.scene, models[1..]);
      (s', [c.handle] + hs)
  }

  /** Handles are issued densely: creating n objects hands out the counter's
      value and the n - 1 values after it, each slot holds its model pointer, earlier
      slots and the render list are untouched, and the pool stays valid. */
  lemma {:induction false} HandlesAreDense(s: Scene, models: seq<Model>)
    requires Valid(s) && s.numSceneObjects + |models| <= NumSceneObjects
    ensures Valid(CreateAll(s, models).0)
    ensures CreateAll(s, models).0.numSceneObjects == s.numSceneObjects + |models|
    ensures |CreateAll(s, models).1| == |models|
    ensures forall i :: 0 <= i < |models| ==> CreateAll(s, models).1[i] == s.numSceneObjects + i
    ensures forall i :: 0 <= i < |models| ==>
              CreateAll(s, models).0.sceneObjects[s.numSceneObjects + i] == SceneObject(Some(models[i]))
    ensures forall h :: 0 <= h < s.numSceneObjects ==>
              CreateAll(s, models).0.sceneObjects[h] == s.sceneObjects[h]
    ensures CreateAll(s, models).0.renderList == s.renderList
    decreases |models|
  {
    if |models| > 0 {
      var c := CreateSceneObjectInternal(s, models[0]);
      HandlesAreDense(c.scene, models[1..]);
      var (s', hs) := CreateAll(c.scene, models[1..]);
      assert CreateAll(s, models) == (s', [c.handle] + hs);
      forall i | 0 < i < |models|
        ensures s'.sceneObjects[s.numSceneObjects + i] == SceneObject(Some(models[i]))
      {
        assert models[1..][i - 1] == models[i];
      }
    }
  }

  /** After `NumSceneObjects` creations from a fresh scene the pool is full:
      every further creation from a model handle fails, a negative handle
      still being reported as such first. */
  lemma PoolExhaustion(models: seq<Model>, modelHandle: int, getModel: int -> Model)
    requires |models| == NumSceneObjects
    ensures Valid(CreateAll(NewScene(), models).0)
    ensures CreateAll(NewScene(), models).0.numSceneObjects == NumSceneObjects
    ensures CreateSceneObject(CreateAll(NewScene(), models).0, modelHandle, getModel)
            == Failure(if modelHandle < 0 then InvalidModelHandle(modelHandle)
                       else OutOfSceneObjects(modelHandle))
  {
    HandlesAreDense(NewScene(), models);
  }

  /** Creation touches only the new slot: every lookup answers as before,
      except the new handle, which now yields the new object. */
  lemma CreateThenGet(s: Scene, model: Model, h: int)
    requires Valid(s) && s.numSceneObjects < NumSceneObjects
    ensures GetSceneObject(CreateSceneObjectInternal(s, model).scene, h)
            == if h == s.numSceneObjects then Success(SceneObject(Some(model)))
               else GetSceneObject(s, h)
  {
  }

  /** Adding an object to the render list a second time changes nothing. */
  lemma AddToRenderListIdempotent(s: Scene, h: int)
    requires Valid(s) && ValidHandle(s, h)
    ensures AddToRenderList(AddToRenderList(s, h).value, h) == AddToRenderList(s, h)
  {
    RenderList.AddIdempotent(s.renderList, h);
  }

  /** Adding an unlisted object and then removing it reports that it was
      listed and gives back the original scene. */
  lemma AddThenRemoveRoundTrip(s: Scene, h: int)
    requires Valid(s) && ValidHandle(s, h) && h !in s.renderList
    ensures RemoveFromRenderList(AddToRenderList(s, h).value, h) == Success(Removed(s, true))
  {
    RenderList.AddThenRemove(s.renderList, h);
  }

  /** Removing a listed object and adding it again moves it to the back of
      the render list. */
  lemma RemoveThenAddMovesToBack(s: Scene, h: int)
    requires Valid(s) && h in s.renderList
    ensures var removed := RemoveFromRenderList(s, h).value.scene;
            AddToRenderList(removed, h).value.renderList
            == RenderList.Without(s.renderList, h) + [h]
  {
    RenderList.RemoveIsFilter(s.renderList, h);
  }
}
