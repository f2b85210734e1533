/**
 * The host state the add-on works on: a scene object holding one mesh and a
 * modifier stack, and the few host primitives the operators call on it. What a
 * primitive computes is Blender's business; here it leaves only its abstract
 * effect on the state, and whether it fails is an input.
 */
module Scene {
  import opened Wrappers
  import opened Modifiers

  datatype Vec3 = Vec3(x: real, y: real, z: real)

  const Origin: Vec3 := Vec3(0.0, 0.0, 0.0)

  /** A mesh vertex with its selection flag and the two skin-vertex flags. */
  datatype Vertex = Vertex(co: Vec3, select: bool, skinRoot: bool, skinLoose: bool)

  /**
   * The geometry of a mesh. `Points` is geometry the artist edits directly; the
   * other two record that the host replaced the geometry by the result of baking
   * a stage into it, or of a voxel remesh at a voxel size.
   */
  datatype Geometry =
    | Points(verts: seq<Vertex>, edgeCount: nat, faceCount: nat)
    | Baked(base: Geometry, stage: Stage)
    | Remeshed(base: Geometry, voxelSize: real)

  /**
   * A mesh datablock. `remeshVoxelSize` is `mesh.remesh_voxel_size`; `None`
   * stands for a mesh whose value the add-on never set (the host's default).
   */
  datatype Mesh = Mesh(geometry: Geometry, remeshVoxelSize: Option<real>)

  datatype ObjectType = MeshObject | OtherObject(typeName: string)

  /** `context.mode` */
  datatype Mode = ObjectMode | EditMode | OtherMode(name: string)

  /** `context.space_data.type` */
  datatype SpaceType = View3D | OtherSpace(name: string)

  /** An operator report: `self.report({level}, message)`. */
  datatype Level = Info | Warning | Error
  datatype Report = Report(level: Level, message: string)

  /**
   * A scene object: its type, its modifier stack (`obj.modifiers`) and its
   * data (`obj.data`). For an object that is not a mesh, `mesh.geometry`
   * stands for whatever data it has, and that data has no remesh voxel size.
   */
  class SceneObject {
    var kind: ObjectType
    var stack: seq<Stage>
    var mesh: Mesh

    ghost predicate Valid()
      reads this
    {
      UniqueNames(stack)
    }

    /** `object_data_add(context, mesh)`: a new mesh object with an empty stack. */
    constructor FromMesh(m: Mesh)
      ensures Valid()
      ensures kind == MeshObject && stack == [] && mesh == m
    {
      kind := MeshObject;
      stack := [];
      mesh := m;
    }

    /** `obj.modifiers.new(name, type)` followed by setting its parameters. */
    method NewModifier(name: string, settings: Settings)
      requires Valid() && !Has(stack, name)
      modifies this
      ensures Valid()
      ensures stack == old(stack) + [Stage(name, settings)]
      ensures kind == old(kind) && mesh == old(mesh)
    {
      stack := stack + [Stage(name, settings)];
    }

    /**
     * `bpy.ops.object.modifier_apply(modifier=name)`. The host either bakes the
     * stage into the mesh and takes it off the stack, or raises and changes
     * nothing; `fails` says which.
     */
    method ApplyModifier(name: string, fails: bool) returns (ok: bool)
      requires Valid() && Has(stack, name)
      modifies this
      ensures Valid() && kind == old(kind)
      ensures ok == !fails
      ensures ok ==> stack == Remove(old(stack), name)
      ensures ok ==> mesh == old(mesh).(geometry := Baked(old(mesh).geometry, Get(old(stack), name).value))
      ensures !ok ==> stack == old(stack) && mesh == old(mesh)
    {
      ok := !fails;
      if ok {
        var stage := Get(stack, name).value;
        RemoveIsWithout(stack, name);
        WithoutKeepsUnique(stack, {name});
        stack := Remove(stack, name);
        mesh := mesh.(geometry := Baked(mesh.geometry, stage));
      }
    }

    /**
     * `bpy.ops.object.voxel_remesh()` at the mesh's remesh voxel size. The host
     * either replaces the geometry by the remeshed solid or raises with the
     * message in `failure` and leaves the mesh as it was.
     */
    method VoxelRemesh(failure: Option<string>) returns (ok: bool)
      requires Valid() && mesh.remeshVoxelSize.Some?
      modifies this
      ensures Valid() && kind == old(kind) && stack == old(stack)
      ensures ok == failure.None?
      ensures mesh == if ok then old(mesh).(geometry := Remeshed(old(mesh).geometry, old(mesh).remeshVoxelSize.value))
                      else old(mesh)
    {
      ok := failure.None?;
      if ok {
        mesh := mesh.(geometry := Remeshed(mesh.geometry, mesh.remeshVoxelSize.value));
      }
    }
  }
}
