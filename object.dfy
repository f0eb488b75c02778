/** Object: a mesh placed in the scene, with how it is culled and shaded
    and the brightness its lines are drawn with. */
module Objects {
  import opened Geometry
  import opened Meshes

  /** Which faces face culling removes: those turned towards the camera
      (Front), those turned away (Back), or none. */
  datatype Culling = Front | Back | None

  /** None draws every line at the object's brightness; Hidden draws the
      lines of faces turned away at the hidden brightness. */
  datatype Shading = None | Hidden | Distance

  class Object {
    var mesh: Mesh?
    var rotation: Vector3
    var translation: Vector3
    var scaling: Vector3
    var culling: Culling
    var shading: Shading
    var brightness: real
    var hiddenBrightness: real

    /** Object(mesh): no culling, no shading, full brightness, hidden lines
        at half brightness, no rotation or translation, unit scale. */
    constructor (mesh: Mesh?)
      ensures this.mesh == mesh
      ensures culling == Culling.None && shading == Shading.None
      ensures brightness == 1.0 && hiddenBrightness == 0.5
      ensures rotation == Vector3(0.0, 0.0, 0.0) && translation == Vector3(0.0, 0.0, 0.0)
      ensures scaling == Vector3(1.0, 1.0, 1.0)
    {
      this.mesh := mesh;
      culling := Culling.None;
      shading := Shading.None;
      brightness := 1.0;
      hiddenBrightness := 0.5;
      new;
      SetRotation(0.0, 0.0, 0.0);
      SetTranslation(0.0, 0.0, 0.0);
      SetUniformScaling(1.0);
    }

    /** Object(): the same defaults without a mesh. */
    constructor Empty()
      ensures mesh == null
      ensures culling == Culling.None && shading == Shading.None
      ensures brightness == 1.0 && hiddenBrightness == 0.5
      ensures rotation == Vector3(0.0, 0.0, 0.0) && translation == Vector3(0.0, 0.0, 0.0)
      ensures scaling == Vector3(1.0, 1.0, 1.0)
    {
      mesh := null;
      culling := Culling.None;
      shading := Shading.None;
      brightness := 1.0;
      hiddenBrightness := 0.5;
      new;
      SetRotation(0.0, 0.0, 0.0);
      SetTranslation(0.0, 0.0, 0.0);
      SetUniformScaling(1.0);
    }

    method SetRotation(x: real, y: real, z: real)
      modifies this`rotation
      ensures rotation == Vector3(x, y, z)
    {
      rotation := Vector3(x, y, z);
    }

    method SetTranslation(x: real, y: real, z: real)
      modifies this`translation
      ensures translation == Vector3(x, y, z)
    {
      translation := Vector3(x, y, z);
    }

    method SetScaling(x: real, y: real, z: real)
      modifies this`scaling
      ensures scaling == Vector3(x, y, z)
    {
      scaling := Vector3(x, y, z);
    }

    /** setScaling(scale): the same factor on all three axes. */
    method SetUniformScaling(scale: real)
      modifies this`scaling
      ensures scaling == Vector3(scale, scale, scale)
    {
      scaling := Vector3(scale, scale, scale);
    }
  }
}
