/**
 * The two operators of the add-on as methods on the interaction context:
 * `CreateBSphere` is `MESH_OT_PrimitiveBSphereAdd.execute`,
 * `ApplyBSphereModifiers` is `OBJECT_OT_ApplyBSphereModifiers.execute`, whose
 * `poll` is `CanFinalize`. What the host's primitives do is taken from the
 * contracts of `Scene.SceneObject`; which bakes fail and whether the remesh
 * fails are inputs.
 */
module Operators {
  import opened Wrappers
  import opened Modifiers
  import opened Scene
  import opened Panel
  import opened Finalizer

  /**
   * How an `execute` ends: it returns {'FINISHED'}, or an exception escapes it
   * (the host then reports the traceback and the operator does not finish).
   */
  datatype OpStatus = Finished | Raised

  /** The stack the creator installs, by these names and in this order. */
  const InitialStack: seq<Stage> := [
    Stage(MirrorName, MirrorSettings(Axes(true, false, false))),
    Stage(SkinName, SkinSettings(Axes(false, false, false))),
    Stage(SubdivisionName, SubsurfSettings(2, 2))
  ]

  /** The one vertex of a new bSphere before it is selected and marked as root. */
  const FirstVertex: Vertex := Vertex(Origin, false, false, false)

  /** `bpy.ops.mesh.select_all(action='SELECT')` on the vertices of a mesh. */
  function SelectAll(vs: seq<Vertex>): (r: seq<Vertex>)
    ensures |r| == |vs|
    ensures forall i :: 0 <= i < |vs| ==> r[i] == vs[i].(select := true)
  {
    if vs == [] then [] else [vs[0].(select := true)] + SelectAll(vs[1..])
  }

  /** `bpy.ops.object.skin_root_mark()`: the selected vertices become skin roots. */
  function MarkRoot(vs: seq<Vertex>): (r: seq<Vertex>)
    ensures |r| == |vs|
    ensures forall i :: 0 <= i < |vs| ==> r[i] == vs[i].(skinRoot := vs[i].skinRoot || vs[i].select)
  {
    if vs == [] then []
    else [vs[0].(skinRoot := vs[0].skinRoot || vs[0].select)] + MarkRoot(vs[1..])
  }

  /** On the object the creator leaves behind, the panel shows every control it has. */
  lemma InitialPanel()
    ensures Draw(Some(ObjectView(MeshObject, InitialStack))) == [
      AddBSphere,
      StageProp(MirrorName, UseAxis(0)), StageProp(MirrorName, UseAxis(1)), StageProp(MirrorName, UseAxis(2)),
      StageProp(SubdivisionName, Levels),
      SkinLooseMarkClear(Mark), SkinLooseMarkClear(Clear), SkinRootMark,
      ApplyBSphere]
  {
    var s := InitialStack;
    assert Get(s, MirrorName) == Some(s[0]);
    assert s[1..][0] == s[1] && Get(s[1..], SkinName) == Some(s[1]);
    assert s[1..][1..][0] == s[2] && Get(s[1..][1..], SubdivisionName) == Some(s[2]);
    assert MirrorControls(s) == [StageProp(MirrorName, UseAxis(0)), StageProp(MirrorName, UseAxis(1)), StageProp(MirrorName, UseAxis(2))];
    assert SubdivisionControls(s) == [StageProp(SubdivisionName, Levels)];
    assert SkinControls(s) == [SkinLooseMarkClear(Mark), SkinLooseMarkClear(Clear), SkinRootMark];
  }

  /** The interaction context: active object, mode, current space and its x-ray flag. */
  class Context {
    var obj: SceneObject?   // context.object, context.active_object
    var mode: Mode
    var space: SpaceType    // context.space_data.type
    var showXray: bool      // context.space_data.shading.show_xray

    ghost predicate Valid()
      reads this, obj
    {
      obj != null ==> obj.Valid()
    }

    /** `OBJECT_OT_ApplyBSphereModifiers.poll` */
    predicate CanFinalize()
      reads this
    {
      obj != null && mode == ObjectMode
    }

    /** What the panel reads on a redraw. */
    function Snapshot(): Option<ObjectView>
      reads this, obj
    {
      if obj == null then None else Some(ObjectView(obj.kind, obj.stack))
    }

    /**
     * Adds a new mesh object with one vertex at the origin and no edges or
     * faces, installs the Mirror, Skin and Subdivision stages, enters edit
     * mode with the vertex selected and marked as skin root, and turns x-ray
     * on when the current space is the 3D viewport. The previous active object,
     * if any, is left as it was.
     */
    method CreateBSphere() returns (status: OpStatus)
      modifies this
      ensures Valid() && fresh(obj)
      ensures obj.kind == MeshObject
      ensures obj.mesh == Mesh(Points([Vertex(Origin, true, true, false)], 0, 0), None)
      ensures obj.stack == InitialStack
      ensures mode == EditMode && space == old(space)
      ensures showXray == (if space == View3D then true else old(showXray))
      ensures !CanFinalize()
      ensures Snapshot() == Some(ObjectView(MeshObject, InitialStack))
      ensures status == Finished
    {
      var verts := [FirstVertex];
      var o := new SceneObject.FromMesh(Mesh(Points(verts, 0, 0), None));
      obj := o;
      o.NewModifier(MirrorName, MirrorSettings(Axes(true, false, false)));
      o.NewModifier(SkinName, SkinSettings(Axes(false, false, false)));
      o.NewModifier(SubdivisionName, SubsurfSettings(2, 2));
      mode := EditMode;
      verts := SelectAll(verts);
      assert verts == [Vertex(Origin, true, false, false)];
      verts := MarkRoot(verts);
      assert verts == [Vertex(Origin, true, true, false)];
      o.mesh := o.mesh.(geometry := Points(verts, 0, 0));
      if space == View3D {
        showXray := true;
      }
      status := Finished;
    }

    /**
     * Turns x-ray off in the 3D viewport, bakes the stages named Mirror, Skin
     * and Subdivision in that order (skipping absent ones, keeping and warning
     * about the ones whose bake fails, leaving every other stage alone). On a
     * mesh object it then sets the mesh's remesh voxel size and runs the voxel
     * remesh; a failed remesh is reported and leaves the baked mesh as it is,
     * and FINISHED is returned either way. On an object of another type, which
     * `poll` admits too, setting `remesh_voxel_size` on its data raises:
     * nothing after the bakes happens and the exception escapes.
     */
    method ApplyBSphereModifiers(bakeFailures: set<string>, remeshFailure: Option<string>,
                                 voxelSize: VoxelSize := DefaultVoxelSize)
      returns (status: OpStatus, reports: seq<Report>)
      requires Valid() && CanFinalize()
      modifies this, obj
      ensures Valid() && obj == old(obj) && obj.kind == old(obj.kind)
      ensures mode == old(mode) && space == old(space)
      ensures showXray == (if space == View3D then false else old(showXray))
      ensures obj.stack == Without(old(obj.stack), BakedNames(Targets, bakeFailures))
      ensures var baked := ApplyStages(old(obj.mesh.geometry), AppliedStages(old(obj.stack), Targets, bakeFailures));
              obj.mesh.geometry == if obj.kind == MeshObject && remeshFailure.None? then Remeshed(baked, voxelSize as real) else baked
      ensures obj.kind == MeshObject ==> obj.mesh.remeshVoxelSize == Some(voxelSize as real)
      ensures obj.kind == MeshObject ==>
              reports == FailWarnings(old(obj.stack), Targets, bakeFailures) + [RemeshReport(remeshFailure)]
      ensures obj.kind == MeshObject ==> status == Finished
      ensures obj.kind != MeshObject ==> obj.mesh.remeshVoxelSize == old(obj.mesh.remeshVoxelSize)
      ensures obj.kind != MeshObject ==> reports == FailWarnings(old(obj.stack), Targets, bakeFailures)
      ensures obj.kind != MeshObject ==> status == Raised
    {
      if space == View3D {
        showXray := false;
      }
      var o := obj;
      reports := BakeTargets(bakeFailures);
      if o.kind != MeshObject {
        status := Raised;
        return;
      }
      o.mesh := o.mesh.(remeshVoxelSize := Some(voxelSize as real));
      var remeshed := o.VoxelRemesh(remeshFailure);
      reports := reports + [RemeshReport(remeshFailure)];
      status := Finished;
    }

    /**
     * The bake loop of `ApplyBSphereModifiers`: for each of the names Mirror,
     * Skin and Subdivision, in that order, a present stage is baked, and one
     * whose bake raises stays on the stack with a warning naming it.
     */
    method BakeTargets(bakeFailures: set<string>) returns (reports: seq<Report>)
      requires Valid() && obj != null
      modifies obj
      ensures Valid() && obj.kind == old(obj.kind)
      ensures obj.mesh.remeshVoxelSize == old(obj.mesh.remeshVoxelSize)
      ensures obj.stack == Without(old(obj.stack), BakedNames(Targets, bakeFailures))
      ensures obj.mesh.geometry == ApplyStages(old(obj.mesh.geometry), AppliedStages(old(obj.stack), Targets, bakeFailures))
      ensures reports == FailWarnings(old(obj.stack), Targets, bakeFailures)
    {
      var o := obj;
      var targets := Targets;
      ghost var start := BakeState(o.stack, o.mesh.geometry, []);
      reports := [];
      var i := 0;
      while i < |targets|
        invariant 0 <= i <= |targets|
        invariant o.Valid() && o.kind == old(o.kind)
        invariant o.mesh.remeshVoxelSize == old(o.mesh.remeshVoxelSize)
        invariant BakeAll(start, targets[..i], bakeFailures) == BakeState(o.stack, o.mesh.geometry, reports)
      {
        var name := targets[i];
        ghost var before := BakeState(o.stack, o.mesh.geometry, reports);
        assert targets[..i + 1][..i] == targets[..i];
        assert BakeAll(start, targets[..i + 1], bakeFailures) == BakeStep(before, name, bakeFailures);
        var found := Get(o.stack, name);
        if found.Some? {
          var ok := o.ApplyModifier(found.value.name, found.value.name in bakeFailures);
          if !ok {
            reports := reports + [CouldNotApply(found.value.name)];
          }
        }
        assert BakeState(o.stack, o.mesh.geometry, reports) == BakeStep(before, name, bakeFailures);
        i := i + 1;
      }
      assert targets[..i] == Targets;
      TargetsOutcome(start, bakeFailures);
    }
  }
}
