# bSpheres base-mesh workflow, modelled in Dafny

The bSpheres add-on for Blender lets an artist start an organic base mesh from a
single vertex. A skin modifier inflates the vertex skeleton, a mirror modifier
makes it symmetric and a subdivision modifier smooths it; at the end the stack
is baked into the mesh and the result is voxel-remeshed. Three pieces of logic
in `__init__.py` are modelled, against an abstract host state:

- **the creator** (`MESH_OT_PrimitiveBSphereAdd.execute`): builds a one-vertex
  mesh object, installs the stages `Mirror`, `Skin`, `Subdivision` with fixed
  parameters, enters edit mode with the vertex selected and marked as skin
  root, and turns x-ray on in the 3D viewport;
- **the side panel** (`VIEW3D_PT_BSpheresPanel.draw`): a pure function from the
  active object to the list of controls it renders;
- **the finalizer** (`OBJECT_OT_ApplyBSphereModifiers`, its `poll` and
  `execute`): turns x-ray off, bakes the stages named `Mirror`, `Skin` and
  `Subdivision` in that order, continuing past failed bakes with a warning
  each, sets the remesh voxel size and runs the voxel remesh, reporting its
  success or its error.

Files, one module each:

- `wrappers.dfy` (`Wrappers`): `Option`.
- `modifiers.dfy` (`Modifiers`): a stage is `Stage(name, settings)`, and the
  variant `Settings` carries the modifier type together with the parameters the
  add-on sets. A stack is a `seq<Stage>` whose names are distinct. `Get` is
  `modifiers.get`, `Remove` takes out the stage `Get` finds, and `Without`
  filters out every stage whose name is in a set.
- `scene.dfy` (`Scene`): mesh, vertex, geometry, report and mode types. Also
  the class `SceneObject` (type, `stack`, `mesh`), whose methods stand for the
  host primitives the operators call (`object_data_add`, `modifiers.new`,
  `modifier_apply`, `voxel_remesh`). Each primitive is given only by its
  abstract effect. A bake replaces the geometry by `Baked(geometry, stage)`.
  A remesh replaces it by `Remeshed(geometry, voxelSize)`.
- `panel.dfy` (`Panel`): `Draw`, and the reference rule `Shown` that says,
  control by control, when it must appear.
- `finalizer.dfy` (`Finalizer`): the bake loop as a fold (`BakeStep`,
  `BakeAll`). It also defines the same outcome stated directly: `Without` of
  the baked names, `AppliedStages` and `FailWarnings`. Lemmas prove that the
  fold and the direct statement agree, and state the per-stage consequences.
- `operators.dfy` (`Operators`): the class `Context` (active object, mode,
  space type, x-ray flag). It holds the two operators as methods and `poll` as
  `CanFinalize`. The bake loop is the method `BakeTargets`, with a `while`
  loop whose invariant ties the processed prefix of the names to `BakeAll`.

The host's outcomes are inputs. `bakeFailures` is the set of stage names whose
`modifier_apply` raises. `remeshFailure` is `None` when `voxel_remesh`
succeeds and `Some(message)` when it raises.

Four facts about the code that are easy to misread:

- The creator sets x-ray only when the current space is `VIEW_3D` and leaves
  the flag as it was in any other space.
- The panel shows the Finalize action whenever the active mesh object has a
  stage named `Skin` or one named `Mirror`; the Subdivision stage alone does
  not enable it.
- No operator here marks or clears loose vertices: the panel only renders
  buttons for Blender's own `object.skin_loose_mark_clear`.
- `poll` admits any active object in object mode, mesh or not. On an object
  that is not a mesh, `execute` bakes and then raises when it sets
  `remesh_voxel_size` on the object's data (`__init__.py:68-69`); this path
  is modelled as the outcome `Raised`.

## Model

| member | source | states |
|---|---|---|
| Modifiers.Get | __init__.py:58-60 | `modifiers.get(name)`: a found stage is in the stack and carries that name; nothing is found exactly when no stage has that name |
| Modifiers.Remove | __init__.py:62 | removing the named stage leaves the stack exactly as it was when no stage has that name, shortens it by one otherwise, and adds no stage |
| Modifiers.Without | __init__.py:56-64 | a stage is in the filtered stack exactly when it was in the stack and its name is not filtered out; the stack never grows |
| Modifiers.IndexOf | __init__.py:59 | the position of the first stage with that name: it carries the name and no stage before it does |
| Modifiers.RemoveFirstMatch | __init__.py:59-62 | the stage removed is the first one with that name, and the stages before and after it stay, in their order |
| Modifiers.WithoutConcat | __init__.py:56-64 | filtering distributes over concatenation and keeps or drops a single stage by its name, so the filtered stack keeps the original order |
| Modifiers.RemoveIsWithout | __init__.py:62 | with distinct names, taking out the stage that was applied is the same as filtering out that name |
| Modifiers.GetWithout | __init__.py:58-60 | baking other stages does not change what a lookup of a name that was not baked finds |
| Scene.SceneObject.FromMesh | __init__.py:99-102 | the new active object is a mesh object holding the given mesh and an empty modifier stack |
| Scene.SceneObject.NewModifier | __init__.py:106-120 | a stage with a fresh name and the given settings is appended at the end of the stack; nothing else changes and names stay distinct |
| Scene.SceneObject.ApplyModifier | __init__.py:61-64 | a successful bake removes exactly the named stage and bakes that stage into the geometry; a failed bake changes neither stack nor mesh |
| Scene.SceneObject.VoxelRemesh | __init__.py:71-75 | a successful remesh replaces the geometry by its remesh at the mesh's voxel size; a failed one leaves the mesh as it was; the stack is untouched |
| Operators.SelectAll | __init__.py:127 | every vertex becomes selected and nothing else about it changes |
| Operators.MarkRoot | __init__.py:128 | on a mesh without edges, as the creator's is: every selected vertex becomes a skin root and unselected vertices keep their root flag |
| Operators.Context.CreateBSphere | __init__.py:88-134 | a fresh mesh object with one vertex at (0,0,0), selected and root-marked, no edges or faces; stack exactly Mirror(X on, Y and Z off), Skin(no symmetry), Subdivision(levels 2, render levels 2), in that order; edit mode; x-ray on in a 3D viewport and unchanged elsewhere; finalize not pollable afterwards; returns FINISHED |
| Operators.InitialPanel | __init__.py:106-120 | on the object the creator leaves, the panel renders create, the three mirror toggles, the subdivision level, mark loose, clear loose, mark root and finalize, in that order |
| Panel.MirrorControls | __init__.py:168-174 | the X, Y and Z toggles bound to `use_axis` of the stage named Mirror, present exactly when that stage is |
| Panel.SubdivisionControls | __init__.py:177-181 | one control bound to `levels` of the stage named Subdivision, present exactly when that stage is |
| Panel.SkinControls | __init__.py:184-197 | Mark Loose, Clear Loose and Mark Root, present exactly when a stage named Skin is |
| Panel.DrawOrder | __init__.py:148-205 | the rendered controls follow the layout top to bottom, each at most once: create, Mirror X, Y, Z, the subdivision level, Mark Loose, Clear Loose, Mark Root, Finalize |
| Panel.Draw | __init__.py:144-205 | the create action is always rendered first. With no object, a non-mesh object, or neither Skin nor Mirror present (Subdivision alone included), nothing else is rendered. Otherwise each stage's controls appear exactly when that stage is present and Finalize comes last. Render levels are never exposed |
| Finalizer.RemeshReport | __init__.py:71-75 | remesh success reports at INFO level, remesh failure at ERROR level |
| Finalizer.FailWarnings | __init__.py:61-64 | the bake warnings are all at WARNING level, at most one per attempted name |
| Finalizer.AppliedStages | __init__.py:58-62 | every stage baked is a stage of the original stack, named by a target, whose bake does not fail |
| Finalizer.BakeAllStack | __init__.py:56-64 | the bake loop leaves the stack with exactly the stages whose name was attempted and did not fail filtered out; absent names are skipped and failed stages stay |
| Finalizer.BakeAllGeometry | __init__.py:58-62 | the bake loop bakes the applied stages into the geometry one after another, in the order of the names |
| Finalizer.BakeAllReports | __init__.py:58-64 | the bake loop appends, in order, one warning per name whose stage is present and whose bake fails, and nothing else |
| Finalizer.TargetsOutcome | __init__.py:56-64 | the bake loop over Mirror, Skin, Subdivision equals the direct statement of its stack, geometry and reports |
| Finalizer.WarningOncePerFailure | __init__.py:61-64 | the warning naming a stage is reported exactly once when that stage is present and its bake fails, and never otherwise |
| Finalizer.FinalStackByName | __init__.py:56-64 | after baking, a target stage remains exactly when it was present and its bake failed; a stage not named by a target is found exactly as before |
| Finalizer.AllBakesSucceed | __init__.py:56-64 | when no bake fails, no Mirror, Skin or Subdivision stage remains and no warning is reported |
| Operators.Context.BakeTargets | __init__.py:55-64 | the loop over Mirror, Skin, Subdivision yields the stack, geometry and warnings the reference functions give; the voxel size and object type are untouched |
| Operators.Context.ApplyBSphereModifiers | __init__.py:43-77 | callable when poll holds (any object in object mode). X-ray is off in a 3D viewport and unchanged elsewhere. The stack and the baked geometry are as the bake loop leaves them, for every object type. On a mesh object the voxel size is set to `voxel_size` (default 0.05), the geometry is remeshed exactly when the remesh succeeds and is the baked geometry otherwise, the reports are the bake warnings followed by one INFO or ERROR, and FINISHED is returned either way. On any other object nothing follows the bakes: voxel size unchanged, no remesh, only the bake warnings, and the exception escapes (`Raised`) |

## Left out

- `register`, `unregister` and the `classes` tuple (`__init__.py:217-234`): registration with the host, not workflow logic.
- `bl_info` (`__init__.py:6-14`): add-on metadata.
- Labels, icons, separators, `scale_y` and the shortcut hint text of the panel: presentation only. Each control is a tag, and a property control names its stage and property.
- What the host primitives compute: the `bmesh` construction, the mirror, skin and subdivision evaluation, `voxel_remesh`, `skin_root_mark` beyond marking the selected vertices, and `mesh.update()`. Each is represented by its abstract effect on the state, and failures are inputs.
- `object_data_add` and `AddObjectHelper`: the object's location, rotation, scale, alignment and naming, the deselection of every other object, and what the host does when the creator runs in edit mode. The model always creates a fresh mesh object and keeps no selection state for other objects.
- Operators.MarkRoot: Blender's `skin_root_mark` also clears the root flag of other vertices connected to a newly marked one; the model marks the selected vertices only, which is the whole effect on the creator's mesh, as it has no edges.
- Operators.Context.ApplyBSphereModifiers: when the exception escapes on an object that is not a mesh, the host's own traceback report is not part of `reports`.
- Scene.SceneObject.NewModifier: `modifiers.new` renames a new modifier whose name is taken; the model instead requires a name not yet on the stack, which the creator's fresh object always satisfies.
- Failures of `mode_set`, `select_all` and `skin_root_mark` in the creator take the host's path and are not modelled.
- Exceptions other than `RuntimeError` from `modifier_apply` or `voxel_remesh`, and a `context.space_data` that is `None`, escape the operator and are not modelled. The one escaping exception that is modelled is the failed `remesh_voxel_size` assignment on an object that is not a mesh (`Raised`).
- `voxel_size` is a real number bounded to [0.001, 1.0] (the subset type `VoxelSize`) and is copied through unchanged. Float rounding and the display `precision=3` are not modelled. The artist's edit of the property is the operator's parameter.
- The skin buttons are not gated on edit mode, and loose-mark idempotence is not modelled: `draw` does no mode check and the add-on implements neither.
- The parameters of a modifier after Blender has created it and before the add-on sets them: `NewModifier` takes the final settings directly.
