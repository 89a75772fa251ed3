# DemoLITION scene-object pool

A Dafny model of the scene-object pool and render list of `CoreScene` in the
DemoLITION framework (`DemoLITION/Framework/Source/demolition_scene.cpp`).

A scene owns a pool of `NUM_SCENE_OBJECTS = 1024` scene objects, sized once
by the constructor, and a counter of the slots in use. Creating an object
writes the model into the slot at the counter and hands out the counter's old
value as the object's handle, so handles are issued densely as 0, 1, 2, ….
`GetSceneObject` accepts exactly the handles issued so far. The render list
is an ordered list of distinct objects: adding an object that is already
listed does nothing, and removing one erases it and reports whether it was
there.

The model is functional. A `Scene.Scene` value holds the counter, the slots
and the render list, and every operation returns the next scene. The source
stores pointers into a vector that is never resized, so two entries are the
same object exactly when their handles are equal, and the render list is a
sequence of handles. Each place where the source prints a diagnostic and
calls `exit(0)` becomes a `Failure` carrying a `SceneError`:

- `InvalidModelHandle`: a negative model handle.
- `OutOfSceneObjects`: a full pool.
- `InvalidSceneObjectHandle`: a handle outside the issued range.

The one exception is creation from a shape name. The source does no capacity
check there, so a free slot is a precondition: on a full pool the source
would index one past the end of the vector. `Scene.Valid` is the pool
invariant that every operation preserves:

- the pool has 1024 slots;
- the counter stays within them;
- exactly the slots below the counter have been written by a creation;
- the render list holds distinct valid handles.

Files:

- `wrappers.dfy`: `Option` and `Result`.
- `render_list.dfy`: the render list as a sequence of handles, with `std::find`, add and remove, and a filter used as a reference definition.
- `scene.dfy`: the pool, its invariant and the operations of `CoreScene`.
- `scene_properties.dfy`: lemmas that relate several operations.

## Model

| member | source | states |
|---|---|---|
| RenderList.Find | DemoLITION/Framework/Source/demolition_scene.cpp:96 | the position found is the first occurrence of the handle, or the end of the list exactly when the handle is absent |
| RenderList.Add | DemoLITION/Framework/Source/demolition_scene.cpp:93-101 | a listed handle leaves the list unchanged; an absent one is appended at the back and the existing order is kept; the elements afterwards are the old ones plus the handle; a duplicate-free list stays duplicate-free |
| RenderList.Remove | DemoLITION/Framework/Source/demolition_scene.cpp:104-117 | reports true exactly when the handle was listed; on true, erases the first occurrence and keeps the rest in order, one element shorter, with the multiset losing one copy; on false the list is unchanged; on a duplicate-free list the handle is gone afterwards |
| RenderList.RemoveIsFilter | DemoLITION/Framework/Source/demolition_scene.cpp:104-117 | on a duplicate-free list, removal equals an independent filter that drops every occurrence of the handle |
| RenderList.AddIdempotent | DemoLITION/Framework/Source/demolition_scene.cpp:93-101 | adding a handle twice has the effect of adding it once |
| RenderList.AddThenRemove | DemoLITION/Framework/Source/demolition_scene.cpp:93-117 | adding an absent handle and then removing it reports true and restores the original list |
| Scene.NewScene | DemoLITION/Framework/Source/demolition_scene.cpp:46-51 | the new scene has 1024 unwritten slots, no object in use, an empty render list, no valid handle, and satisfies the pool invariant |
| Scene.CreateSceneObjectInternal | DemoLITION/Framework/Source/demolition_scene.cpp:152-160 | returns the counter's previous value, increments it by one, and writes the model into that slot only; every other slot and the render list are unchanged; the new handle was invalid before and is valid after; the invariant is preserved |
| Scene.CreateSceneObject | DemoLITION/Framework/Source/demolition_scene.cpp:120-139 | succeeds exactly when the model handle is non-negative and the pool is not full; a negative handle fails with InvalidModelHandle (checked first); a full pool fails with OutOfSceneObjects; a failure allocates nothing; success is the internal creation with the model the rendering system's lookup gives for that model handle |
| Scene.CreateSceneObjectFromShape | DemoLITION/Framework/Source/demolition_scene.cpp:142-149 | with a free slot: equals the internal creation with the model looked up for the shape name; hands out the counter's previous value, which was invalid before and is valid after, increments the counter, writes that slot only, leaves every other slot and the render list unchanged, and keeps the invariant |
| Scene.GetSceneObject | DemoLITION/Framework/Source/demolition_scene.cpp:163-177 | succeeds exactly when 0 <= h < counter and then yields slot h, which a creation has written; any other handle fails with InvalidSceneObjectHandle(h) |
| Scene.AddToRenderList | DemoLITION/Framework/Source/demolition_scene.cpp:93-101 | fails exactly on invalid handles; on success the pool is unchanged, a listed object leaves the list as it was, an unlisted one is appended at the back, and the invariant holds |
| Scene.RemoveFromRenderList | DemoLITION/Framework/Source/demolition_scene.cpp:104-117 | fails exactly on invalid handles; on success reports true exactly when the object was listed; on false the scene is unchanged; on true that occurrence is erased and the order of the rest is kept; the object is unlisted afterwards and the invariant holds |
| SceneProperties.HandlesAreDense | DemoLITION/Framework/Source/demolition_scene.cpp:152-160 | creating n objects in turn hands out the handles c, c+1, …, c+n-1, where c is the starting counter; it also advances the counter by n, stores each model in its slot, and leaves earlier slots and the render list untouched |
| SceneProperties.PoolExhaustion | DemoLITION/Framework/Source/demolition_scene.cpp:120-132 | after 1024 creations from a fresh scene the counter is 1024; creating from a model handle then fails with OutOfSceneObjects, or with InvalidModelHandle when that handle is negative |
| SceneProperties.CreateThenGet | DemoLITION/Framework/Source/demolition_scene.cpp:152-177 | after a creation, looking up the new handle yields the new object, and every other handle looks up as before |
| SceneProperties.AddToRenderListIdempotent | DemoLITION/Framework/Source/demolition_scene.cpp:93-101 | adding a valid object to the render list twice gives the same scene as adding it once |
| SceneProperties.AddThenRemoveRoundTrip | DemoLITION/Framework/Source/demolition_scene.cpp:93-117 | for a valid, unlisted object, adding then removing reports true and gives back the original scene |
| SceneProperties.RemoveThenAddMovesToBack | DemoLITION/Framework/Source/demolition_scene.cpp:93-117 | removing a listed object and then adding it again leaves the other objects in order, with that object at the back |

## Left out

- `SceneObject::GetMatrix` (lines 24-38): a floating-point composition of 4×4 matrices. Slots carry only their model; position, rotation, scale and flat colour are not modelled.
- `LoadScene`, `InitializeDefault`, `CreateDefaultCamera` and the camera set up in the constructor (lines 49, 53-89): these load models, set cameras and set float transforms through the rendering system. `LoadScene` and `InitializeDefault` amount to a creation followed by an add, which the model covers.
- The rendering system's `GetModel` lookups are external collaborators. Each is passed to its creation function as a total function to opaque `Model` values, a null pointer being one such value. Whatever `GetModel` does on its own for an unknown handle or shape is not modelled.
- The process effect of `printf` and `exit(0)`: each such path is an error result. The shape overload's missing capacity check is a precondition.
- The initial value of the counter is set in `Int/scene.h`, which is not part of this model. `NewScene` starts it at zero.
- Integer width: the counter is bounded by 1024 and handles are compared, never computed, so 32-bit overflow cannot arise and is not modelled.
- The terrain classes (`Terrain2/terrain.h`, `Terrain5.1/terrain.h`) and the lighting shader technique (`tutorial20_youtube/lighting_technique.cpp`). They are declarations whose bodies are not available, or OpenGL uniform plumbing on floats.
