/**
 * The loaded model's records (hl1_studiomodel.h) and the motion-flag decoders.
 * Pointers between records are modelled as indices into the model's arrays.
 */
module Studio {
  import opened MathFunctions
  import opened Wrappers
  import Stats

  // Motion flags (hl1_studiomodel_defines.h).
  const STUDIO_X: bv32 := 0x0001
  const STUDIO_Y: bv32 := 0x0002
  const STUDIO_Z: bv32 := 0x0004
  const STUDIO_XR: bv32 := 0x0008
  const STUDIO_YR: bv32 := 0x0010
  const STUDIO_ZR: bv32 := 0x0020
  const STUDIO_LX: bv32 := 0x0040
  const STUDIO_LY: bv32 := 0x0080
  const STUDIO_LZ: bv32 := 0x0100
  const STUDIO_AX: bv32 := 0x0200
  const STUDIO_AY: bv32 := 0x0400
  const STUDIO_AZ: bv32 := 0x0800
  const STUDIO_AXR: bv32 := 0x1000
  const STUDIO_AYR: bv32 := 0x2000
  const STUDIO_AZR: bv32 := 0x4000
  const STUDIO_TYPES: bv32 := 0x7FFF
  const STUDIO_RLOOP: bv32 := 0x8000

  /** The event code of a "play sound" animation event. */
  const SCRIPT_EVENT_SOUND: int := 1004

  /** The nine translation bits tested first by the type decoder. */
  const POSITION_FLAGS: bv32 :=
    STUDIO_X | STUDIO_Y | STUDIO_Z | STUDIO_LX | STUDIO_LY | STUDIO_LZ | STUDIO_AX | STUDIO_AY | STUDIO_AZ
  /** The six rotation bits. */
  const ROTATION_FLAGS: bv32 := STUDIO_XR | STUDIO_YR | STUDIO_ZR | STUDIO_AXR | STUDIO_AYR | STUDIO_AZR
  /** The plain, L, A, R and AR bit of each axis. */
  const X_AXIS_FLAGS: bv32 := STUDIO_X | STUDIO_LX | STUDIO_AX | STUDIO_XR | STUDIO_AXR
  const Y_AXIS_FLAGS: bv32 := STUDIO_Y | STUDIO_LY | STUDIO_AY | STUDIO_YR | STUDIO_AYR
  const Z_AXIS_FLAGS: bv32 := STUDIO_Z | STUDIO_LZ | STUDIO_AZ | STUDIO_ZR | STUDIO_AZR

  datatype MotionType = Position | Rotation
  datatype MotionAxis = AxisX | AxisY | AxisZ

  /** The exception thrown for flags the decoders do not recognise; it carries the masked flags. */
  datatype FlagsError = UnknownMotionFlags(maskedFlags: bv32)

  /**
   * `motion_flags_to_motion_type`: the flags (a C++ `int`, taken as its 32 bits) are
   * masked with STUDIO_TYPES; any translation bit gives Position, otherwise any rotation
   * bit gives Rotation, otherwise the decoder throws.
   */
  function MotionFlagsToMotionType(motionFlags: bv32): (r: Result<MotionType, FlagsError>)
    ensures r == Ok(Position) <==> motionFlags & POSITION_FLAGS != 0
    ensures r == Ok(Rotation) <==> motionFlags & POSITION_FLAGS == 0 && motionFlags & ROTATION_FLAGS != 0
    ensures r.Err? <==> motionFlags & STUDIO_TYPES == 0
    ensures r.Err? ==> r.error == UnknownMotionFlags(0)
  {
    var flags := motionFlags & STUDIO_TYPES;
    if flags & STUDIO_X != 0 || flags & STUDIO_Y != 0 || flags & STUDIO_Z != 0 ||
       flags & STUDIO_LX != 0 || flags & STUDIO_LY != 0 || flags & STUDIO_LZ != 0 ||
       flags & STUDIO_AX != 0 || flags & STUDIO_AY != 0 || flags & STUDIO_AZ != 0
    then
      Ok(Position)
    else if flags & STUDIO_XR != 0 || flags & STUDIO_YR != 0 || flags & STUDIO_ZR != 0 ||
            flags & STUDIO_AXR != 0 || flags & STUDIO_AYR != 0 || flags & STUDIO_AZR != 0
    then
      Ok(Rotation)
    else
      Err(UnknownMotionFlags(flags))
  }

  /**
   * `motion_type_to_motion_axis`: after masking, X wins over Y and Y over Z; each axis
   * is recognised by any of its five bits; no bit at all throws.
   */
  function MotionFlagsToMotionAxis(motionFlags: bv32): (r: Result<MotionAxis, FlagsError>)
    ensures r == Ok(AxisX) <==> motionFlags & X_AXIS_FLAGS != 0
    ensures r == Ok(AxisY) <==> motionFlags & X_AXIS_FLAGS == 0 && motionFlags & Y_AXIS_FLAGS != 0
    ensures r == Ok(AxisZ) <==>
      motionFlags & (X_AXIS_FLAGS | Y_AXIS_FLAGS) == 0 && motionFlags & Z_AXIS_FLAGS != 0
    ensures r.Err? <==> motionFlags & STUDIO_TYPES == 0
    ensures r.Err? ==> r.error == UnknownMotionFlags(0)
  {
    var flags := motionFlags & STUDIO_TYPES;
    if flags & STUDIO_X != 0 || flags & STUDIO_LX != 0 || flags & STUDIO_AX != 0 ||
       flags & STUDIO_XR != 0 || flags & STUDIO_AXR != 0
    then
      Ok(AxisX)
    else if flags & STUDIO_Y != 0 || flags & STUDIO_LY != 0 || flags & STUDIO_AY != 0 ||
            flags & STUDIO_YR != 0 || flags & STUDIO_AYR != 0
    then
      Ok(AxisY)
    else if flags & STUDIO_Z != 0 || flags & STUDIO_LZ != 0 || flags & STUDIO_AZ != 0 ||
            flags & STUDIO_ZR != 0 || flags & STUDIO_AZR != 0
    then
      Ok(AxisZ)
    else
      Err(UnknownMotionFlags(flags))
  }

  /** The two bit groups cover exactly the 15 bits of STUDIO_TYPES, as do the three axis groups. */
  lemma FlagGroupsCoverTypes()
    ensures POSITION_FLAGS | ROTATION_FLAGS == STUDIO_TYPES
    ensures POSITION_FLAGS & ROTATION_FLAGS == 0
    ensures X_AXIS_FLAGS | Y_AXIS_FLAGS | Z_AXIS_FLAGS == STUDIO_TYPES
  {
  }

  /** The wrap bit STUDIO_RLOOP never changes the decoded type or axis. */
  lemma LoopBitIgnored(motionFlags: bv32)
    ensures MotionFlagsToMotionType(motionFlags | STUDIO_RLOOP) == MotionFlagsToMotionType(motionFlags & !STUDIO_RLOOP)
    ensures MotionFlagsToMotionAxis(motionFlags | STUDIO_RLOOP) == MotionFlagsToMotionAxis(motionFlags & !STUDIO_RLOOP)
  {
  }

  datatype Mesh = Mesh(index: int, model: int, texture: int)

  datatype Model = Model(index: int, name: string, bodypart: int, meshes: seq<int>)

  datatype Bodypart = Bodypart(index: int, name: string, models: seq<int>)

  /** A bone; `parentIndex` is -1 for a root, which is exactly when `parent` is null. */
  datatype Bone = Bone(
    index: int,
    parentIndex: int,
    name: string,
    localQuat: GlmQuat,
    localPosition: Vec3,
    offsetMatrix: GlmMat4,
    children: seq<int>,
    boneControllers: seq<int>)
  {
    predicate HasParent() { parentIndex != -1 }
  }

  datatype AnimationEvent = AnimationEvent(frame: int, event: int, options: string)

  /** A sequence; only the number of its blend tracks matters here. */
  datatype Sequence = Sequence(
    index: int,
    name: string,
    fps: real,
    numFrames: int,
    bbmin: Vec3,
    bbmax: Vec3,
    numBlends: nat,
    events: seq<AnimationEvent>)

  datatype Attachment = Attachment(index: int, bone: int, position: Vec3)

  datatype Hitbox = Hitbox(index: int, bone: int, group: int, bbmin: Vec3, bbmax: Vec3)

  datatype BoneController = BoneController(
    index: int,
    boneIndex: int,
    motionAxis: MotionAxis,
    motionType: MotionType,
    start: real,
    end: real,
    isMouth: bool,
    wraps: bool)

  datatype BlendMode = BlendDefault | BlendAdditive

  datatype TextureType = DefaultTexture | ChromeTexture

  datatype Texture = Texture(index: int, textureType: TextureType, blendMode: BlendMode, skinTextures: seq<int>)

  /**
   * The bone array as the importer leaves it: bone i has index i, a parent index that
   * is -1 or a bone, children and controllers that exist.
   */
  ghost predicate WellFormedBones(bones: seq<Bone>, numControllers: nat)
  {
    forall i :: 0 <= i < |bones| ==>
      && bones[i].index == i
      && -1 <= bones[i].parentIndex < |bones|
      && (forall k :: 0 <= k < |bones[i].children| ==> 0 <= bones[i].children[k] < |bones|)
      && (forall k :: 0 <= k < |bones[i].boneControllers| ==> 0 <= bones[i].boneControllers[k] < numControllers)
  }

  /** The format's ordering: every parent comes before its children. */
  ghost predicate ParentsPrecedeChildren(bones: seq<Bone>)
  {
    forall i :: 0 <= i < |bones| ==> bones[i].parentIndex < i
  }

  /** `StudioModel`: everything the importer extracted from one file. */
  class StudioModel {
    var bodyparts: seq<Bodypart>
    var models: seq<Model>
    var meshes: seq<Mesh>
    var bones: seq<Bone>
    var boneControllers: seq<BoneController>
    var attachments: seq<Attachment>
    var hitboxes: seq<Hitbox>
    var sequences: seq<Sequence>
    var textures: seq<Texture>
    const stats: Stats.ModelStats

    ghost predicate IsEmpty()
      reads this
    {
      bodyparts == [] && models == [] && meshes == [] && bones == [] && boneControllers == [] &&
      attachments == [] && hitboxes == [] && sequences == [] && textures == []
    }

    constructor ()
      ensures IsEmpty() && fresh(stats) && stats.IsZero()
    {
      bodyparts, models, meshes, bones, boneControllers := [], [], [], [], [];
      attachments, hitboxes, sequences, textures := [], [], [], [];
      stats := new Stats.ModelStats();
    }

    /** `clear`: empties all nine arrays and resets the counters. */
    method Clear()
      modifies this, stats
      ensures IsEmpty() && stats.IsZero()
    {
      bodyparts := [];
      models := [];
      meshes := [];
      bones := [];
      attachments := [];
      hitboxes := [];
      boneControllers := [];
      sequences := [];
      textures := [];
      stats.Reset();
    }
  }
}
