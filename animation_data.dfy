/**
 * The mutable animation state of hl1_studiomodel_animation_data.h: one channel per
 * bone controller and the session's sequence, cursor, rate and blend values.
 */
module AnimationData {
  import opened MathFunctions
  import opened CppTypes
  import opened Studio

  /**
   * The value a controller maps its raw input to, before the radian conversion: a
   * wrapping controller turns 256 steps into 360 degrees from `start`; any other
   * controller clamps `value / 255` to [0, 1] and interpolates from `start` to `end`.
   */
  function MappedValue(controller: BoneController, value: real): (r: real)
    ensures controller.wraps ==> r == value * (360.0 / 256.0) + controller.start
    ensures !controller.wraps && value <= 0.0 ==> r == controller.start
    ensures !controller.wraps && value >= 255.0 ==> r == controller.end
    ensures !controller.wraps ==> Between(r, controller.start, controller.end)
  {
    if controller.wraps then
      value * (360.0 / 256.0) + controller.start
    else
      var t := Clamp(value / 255.0, 0.0, 1.0);
      assert value >= 255.0 ==> t == 1.0;
      assert value <= 0.0 ==> t == 0.0;
      LerpBetween(controller.start, controller.end, t);
      (1.0 - t) * controller.start + t * controller.end
  }

  /** r lies between a and b, whichever is larger. */
  predicate Between(r: real, a: real, b: real)
  {
    (a <= r <= b) || (b <= r <= a)
  }

  lemma LerpBetween(a: real, b: real, t: real)
    requires 0.0 <= t <= 1.0
    ensures Between((1.0 - t) * a + t * b, a, b)
  {
    var r := (1.0 - t) * a + t * b;
    if a <= b {
      var m := t * (b - a);
      assert r == a + m;
      ScaleWithinUnit(t, b - a, m);
    } else {
      var m := t * (a - b);
      assert r == a - m;
      ScaleWithinUnit(t, a - b, m);
    }
  }

  lemma ScaleWithinUnit(t: real, d: real, m: real)
    requires 0.0 <= t <= 1.0 && 0.0 <= d && m == t * d
    ensures 0.0 <= m <= d
  {
    assert d - m == (1.0 - t) * d;
  }

  /** `BoneControllerChannel`: held by value in the animation data's vector. */
  datatype BoneControllerChannel = BoneControllerChannel(controllerValue: real, adjValue: real)
  {
    /** `reset`: rest raw value 128 and no adjustment. */
    function Reset(): BoneControllerChannel
    {
      BoneControllerChannel(128.0, 0.0)
    }

    /**
     * `set_value`: stores the raw value unchanged (even outside 0..255) and derives the
     * adjustment, in radians for a rotation controller and in scene units for a position
     * controller.
     */
    function SetValue(controller: BoneController, value: real): (c: BoneControllerChannel)
      ensures c.controllerValue == value
      ensures controller.motionType == Rotation ==> c.adjValue == MappedValue(controller, value) * PI_F / 180.0
      ensures controller.motionType == Position ==> c.adjValue == MappedValue(controller, value)
    {
      var mapped := MappedValue(controller, value);
      this.(controllerValue := value,
            adjValue := if controller.motionType == Rotation then mapped * PI_F / 180.0 else mapped)
    }
  }

  /** The channel state `reset` leaves. */
  const REST_CHANNEL: BoneControllerChannel := BoneControllerChannel(128.0, 0.0)

  /** A value-initialised channel, as `resize` creates it. */
  const ZERO_CHANNEL: BoneControllerChannel := BoneControllerChannel(0.0, 0.0)

  /** The rest value of an 8-bit blend controller. */
  const BLEND_REST: u8 := 128

  /** For a clamped controller from 0 to 1, raw 0 gives 0, raw 255 gives 1 and raw 128 gives 128/255. */
  lemma UnitRangeExamples(c: BoneController)
    requires !c.wraps && c.motionType == Position && c.start == 0.0 && c.end == 1.0
    ensures BoneControllerChannel(0.0, 0.0).SetValue(c, 0.0).adjValue == 0.0
    ensures BoneControllerChannel(0.0, 0.0).SetValue(c, 255.0).adjValue == 1.0
    ensures BoneControllerChannel(0.0, 0.0).SetValue(c, 128.0).adjValue == 128.0 / 255.0
  {
  }

  /** `StudioModelAnimationData`. */
  class StudioModelAnimationData {
    var sequence: int
    var frame: real
    var playbackRate: real
    var boneControllers: seq<BoneControllerChannel>
    var blendControllers: seq<u8>

    constructor ()
      ensures sequence == 0 && frame == 0.0 && playbackRate == 1.0
      ensures boneControllers == [] && blendControllers == []
    {
      sequence, frame, playbackRate := 0, 0.0, 1.0;
      boneControllers, blendControllers := [], [];
    }

    /** `clear`: the playback rate survives. */
    method Clear()
      modifies this
      ensures sequence == 0 && frame == 0.0 && boneControllers == [] && blendControllers == []
      ensures playbackRate == old(playbackRate)
    {
      sequence := 0;
      frame := 0.0;
      blendControllers := [];
      boneControllers := [];
    }

    /**
     * `initialize(sequence, frame, n, m)`: clears, then leaves n channels at rest and
     * m blend values at 128.
     */
    method Initialize(sequence: int, frame: real, numBoneControllers: nat, numBlendControllers: nat)
      modifies this
      ensures this.sequence == sequence && this.frame == frame && playbackRate == old(playbackRate)
      ensures |boneControllers| == numBoneControllers
      ensures forall i :: 0 <= i < numBoneControllers ==> boneControllers[i] == REST_CHANNEL
      ensures |blendControllers| == numBlendControllers
      ensures forall i :: 0 <= i < numBlendControllers ==> blendControllers[i] == BLEND_REST
    {
      Clear();
      this.sequence := sequence;
      this.frame := frame;

      if numBoneControllers != 0 {
        boneControllers := Resize(boneControllers, numBoneControllers, ZERO_CHANNEL);
      }
      for i := 0 to numBoneControllers
        invariant this.sequence == sequence && this.frame == frame && playbackRate == old(playbackRate)
        invariant blendControllers == []
        invariant |boneControllers| == numBoneControllers
        invariant forall k :: 0 <= k < i ==> boneControllers[k] == REST_CHANNEL
      {
        boneControllers := boneControllers[i := boneControllers[i].Reset()];
      }

      if numBlendControllers != 0 {
        blendControllers := Resize(blendControllers, numBlendControllers, 0);
      }
      for i := 0 to numBlendControllers
        invariant this.sequence == sequence && this.frame == frame && playbackRate == old(playbackRate)
        invariant |boneControllers| == numBoneControllers
        invariant forall k :: 0 <= k < numBoneControllers ==> boneControllers[k] == REST_CHANNEL
        invariant |blendControllers| == numBlendControllers
        invariant forall k :: 0 <= k < i ==> blendControllers[k] == BLEND_REST
      {
        blendControllers := blendControllers[i := BLEND_REST];
      }
    }
  }
}
