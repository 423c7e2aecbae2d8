/**
 * The pose structure of hl1_studiomodel_animation.cpp, with the glm numerics kept
 * symbolic: a local pose records which key frames, blend tracks, blend weights and
 * controller adjustments went into it, and a bone transform is the formal product of
 * local poses from the root down.
 */
module BonePoses {
  import opened MathFunctions
  import opened CppTypes
  import opened Studio
  import opened AnimationData

  /** One bone controller applied to a pose: its channel, its kind and axis, and `adj_value`. */
  datatype Adjustment = Adjustment(channel: int, motionType: MotionType, motionAxis: MotionAxis, amount: real)

  /** A bone's local pose. */
  datatype Pose =
    | Keyframe(bone: int, track: nat, frame: int, s: real, adjustments: seq<Adjustment>)
    | BindPose(bone: int, adjustments: seq<Adjustment>)
    | Blend(from: Pose, to: Pose, weight: real)

  /** A bone transform: the product of local poses, outermost (root) first; `[]` is the identity. */
  type Transform = seq<Pose>

  /** The matrix product `a * b`. */
  function Compose(a: Transform, b: Transform): Transform
  {
    a + b
  }

  /** The blend weight of an 8-bit blend controller: `clamp(v / 255, 0, 1)`. */
  function BlendWeight(v: u8): (t: real)
    ensures 0.0 <= t <= 1.0
    ensures t == v as real / 255.0
  {
    Clamp(v as real / 255.0, 0.0, 1.0)
  }

  /**
   * The adjustments `apply_bone_controller_transform` makes for a bone, in the order of
   * the bone's controller list; each reads the channel of the controller's own index.
   */
  function Adjustments(bone: Bone, controllers: seq<BoneController>, channels: seq<BoneControllerChannel>): (r: seq<Adjustment>)
    requires ControllersReachable(bone, controllers, channels)
    ensures |r| == |bone.boneControllers|
    ensures forall k :: 0 <= k < |r| ==>
      var c := controllers[bone.boneControllers[k]];
      r[k] == Adjustment(c.index, c.motionType, c.motionAxis, channels[c.index].adjValue)
  {
    seq(|bone.boneControllers|, k requires 0 <= k < |bone.boneControllers| =>
      var c := controllers[bone.boneControllers[k]];
      Adjustment(c.index, c.motionType, c.motionAxis, channels[c.index].adjValue))
  }

  /** Every controller a bone lists exists and has a channel. */
  predicate ControllersReachable(bone: Bone, controllers: seq<BoneController>, channels: seq<BoneControllerChannel>)
  {
    forall k :: 0 <= k < |bone.boneControllers| ==>
      0 <= bone.boneControllers[k] < |controllers| &&
      0 <= controllers[bone.boneControllers[k]].index < |channels|
  }

  /** The blend controllers a sequence with `numBlends` tracks reads. */
  predicate BlendsReadable(numBlends: nat, numBlendControllers: nat)
  {
    (numBlends > 1 ==> numBlendControllers >= 1) && (numBlends == 4 ==> numBlendControllers >= 2)
  }

  /**
   * `setup_animated_bone_transform`: track 0 alone; with more than one track, tracks 0
   * and 1 blended by controller 0; with exactly four, tracks 2 and 3 also blended by
   * controller 0 and the two pairs blended by controller 1.
   */
  function AnimatedPose(boneIndex: int, numBlends: nat, frame: int, s: real, adjustments: seq<Adjustment>, blends: seq<u8>): Pose
    requires BlendsReadable(numBlends, |blends|)
  {
    var track := (t: nat) => Keyframe(boneIndex, t, frame, s, adjustments);
    if numBlends > 1 then
      var pair := Blend(track(0), track(1), BlendWeight(blends[0]));
      if numBlends == 4 then
        Blend(pair, Blend(track(2), track(3), BlendWeight(blends[0])), BlendWeight(blends[1]))
      else
        pair
    else
      track(0)
  }

  /** The blend tracks a pose reads. */
  function Tracks(p: Pose): set<nat>
  {
    match p
    case Keyframe(_, track, _, _, _) => {track}
    case BindPose(_, _) => {}
    case Blend(a, b, _) => Tracks(a) + Tracks(b)
  }

  /** Every key frame read, and every blend, uses these arguments. */
  predicate Uniform(p: Pose, boneIndex: int, frame: int, s: real, adjustments: seq<Adjustment>)
  {
    match p
    case Keyframe(b, _, f, s', adj) => b == boneIndex && f == frame && s' == s && adj == adjustments
    case BindPose(_, _) => false
    case Blend(a, b, w) => 0.0 <= w <= 1.0 && Uniform(a, boneIndex, frame, s, adjustments) && Uniform(b, boneIndex, frame, s, adjustments)
  }

  /**
   * The blend shape: one track reads track 0 only, four tracks read 0..3, any other count
   * reads 0 and 1; every weight lies in [0, 1], and the controllers adjust every track
   * before it is blended.
   */
  lemma AnimatedPoseShape(boneIndex: int, numBlends: nat, frame: int, s: real, adjustments: seq<Adjustment>, blends: seq<u8>)
    requires BlendsReadable(numBlends, |blends|)
    ensures var p := AnimatedPose(boneIndex, numBlends, frame, s, adjustments, blends);
      && Tracks(p) == (if numBlends <= 1 then {0} else if numBlends == 4 then {0, 1, 2, 3} else {0, 1})
      && Uniform(p, boneIndex, frame, s, adjustments)
  {
    var p := AnimatedPose(boneIndex, numBlends, frame, s, adjustments, blends);
    var track := (t: nat) => Keyframe(boneIndex, t, frame, s, adjustments);
    if numBlends == 4 {
      var pair := Blend(track(0), track(1), BlendWeight(blends[0]));
      var pair2 := Blend(track(2), track(3), BlendWeight(blends[0]));
      assert p == Blend(pair, pair2, BlendWeight(blends[1]));
      assert Tracks(pair) == {0, 1};
      assert Tracks(pair2) == {2, 3};
    } else if numBlends > 1 {
      assert Tracks(p) == {0} + {1};
    }
  }

  /** A sequence with at least one track never reads a track it does not have; with three tracks only tracks 0 and 1 are read. */
  lemma AnimatedPoseReadsExistingTracks(boneIndex: int, numBlends: nat, frame: int, s: real, adjustments: seq<Adjustment>, blends: seq<u8>)
    requires numBlends >= 1 && BlendsReadable(numBlends, |blends|)
    ensures forall t :: t in Tracks(AnimatedPose(boneIndex, numBlends, frame, s, adjustments, blends)) ==> t < numBlends
  {
    AnimatedPoseShape(boneIndex, numBlends, frame, s, adjustments, blends);
  }

  /** A bone's index and, when it has one, its parent's index address slots of `n`. */
  predicate SlotsAddressable(bones: seq<Bone>, n: nat)
  {
    forall i :: 0 <= i < |bones| ==>
      0 <= bones[i].index < n && (bones[i].HasParent() ==> 0 <= bones[i].parentIndex < n)
  }

  /**
   * The bone loop of `update`: for each bone in array order, its slot receives its local
   * pose and then, for a bone with a parent, the parent's slot times that pose.
   */
  function ForwardPass(bones: seq<Bone>, locals: seq<Pose>, slots: seq<Transform>, k: nat): (r: seq<Transform>)
    requires k <= |bones| == |locals| && SlotsAddressable(bones, |slots|)
    ensures |r| == |slots|
    decreases k
  {
    if k == 0 then slots
    else
      var prev := ForwardPass(bones, locals, slots, k - 1);
      var bone := bones[k - 1];
      var posed := prev[bone.index := [locals[k - 1]]];
      if bone.HasParent() then posed[bone.index := Compose(posed[bone.parentIndex], posed[bone.index])]
      else posed
  }

  /** The intended result: each bone's transform is its parent's transform times its local pose. */
  ghost predicate IsHierarchy(bones: seq<Bone>, locals: seq<Pose>, slots: seq<Transform>)
    requires |bones| == |locals| == |slots|
  {
    forall i :: 0 <= i < |bones| ==>
      slots[i] == if bones[i].HasParent() && 0 <= bones[i].parentIndex < |slots|
                  then Compose(slots[bones[i].parentIndex], [locals[i]])
                  else [locals[i]]
  }

  /** After k bones, the first k slots obey the hierarchy and the rest are untouched. */
  lemma {:induction false} ForwardPassPrefix(bones: seq<Bone>, locals: seq<Pose>, slots: seq<Transform>, n: nat, k: nat)
    requires WellFormedBones(bones, n) && ParentsPrecedeChildren(bones)
    requires k <= |bones| == |locals| == |slots|
    ensures SlotsAddressable(bones, |slots|)
    ensures var r := ForwardPass(bones, locals, slots, k);
      && (forall j :: 0 <= j < k ==>
            r[j] == if bones[j].HasParent() then Compose(r[bones[j].parentIndex], [locals[j]]) else [locals[j]])
      && (forall j :: k <= j < |slots| ==> r[j] == slots[j])
    decreases k
  {
    assert SlotsAddressable(bones, |slots|) by {
      forall i | 0 <= i < |bones|
        ensures 0 <= bones[i].index < |slots| && (bones[i].HasParent() ==> 0 <= bones[i].parentIndex < |slots|)
      {
        assert bones[i].index == i && -1 <= bones[i].parentIndex < i;
      }
    }
    if k > 0 {
      ForwardPassPrefix(bones, locals, slots, n, k - 1);
      var prev := ForwardPass(bones, locals, slots, k - 1);
      var r := ForwardPass(bones, locals, slots, k);
      var bone := bones[k - 1];
      assert bone.index == k - 1;
      assert forall j :: 0 <= j < |slots| && j != k - 1 ==> r[j] == prev[j];
      forall j | 0 <= j < k - 1 && bones[j].HasParent()
        ensures r[bones[j].parentIndex] == prev[bones[j].parentIndex]
      {
        assert bones[j].parentIndex < j;
      }
    }
  }

  /** When every parent precedes its children, the single forward pass builds the hierarchy. */
  lemma ForwardPassBuildsHierarchy(bones: seq<Bone>, locals: seq<Pose>, slots: seq<Transform>, n: nat)
    requires WellFormedBones(bones, n) && ParentsPrecedeChildren(bones)
    requires |bones| == |locals| == |slots|
    ensures SlotsAddressable(bones, |slots|)
    ensures IsHierarchy(bones, locals, ForwardPass(bones, locals, slots, |bones|))
  {
    ForwardPassPrefix(bones, locals, slots, n, |bones|);
  }

  /** A bone with a given index and parent and nothing else. */
  function PlainBone(index: int, parentIndex: int): Bone
  {
    Bone(index, parentIndex, "", GlmQuat(0.0, 0.0, 0.0, 1.0), ZERO3, GlmMat4([]), [], [])
  }

  /**
   * Without the ordering the pass is wrong: a child stored before its parent composes
   * with the parent's slot before that slot is posed.
   */
  lemma ForwardPassNeedsParentsFirst(child: Pose, root: Pose)
    ensures var bones := [PlainBone(0, 1), PlainBone(1, -1)];
      && WellFormedBones(bones, 0) && !ParentsPrecedeChildren(bones)
      && SlotsAddressable(bones, 2)
      && !IsHierarchy(bones, [child, root], ForwardPass(bones, [child, root], [[], []], 2))
  {
    var bones := [PlainBone(0, 1), PlainBone(1, -1)];
    var r := ForwardPass(bones, [child, root], [[], []], 2);
    var slots: seq<Transform> := [[], []];
    assert ForwardPass(bones, [child, root], slots, 0) == slots;
    assert Compose([], [child]) == [child];
    assert ForwardPass(bones, [child, root], slots, 1) == [[child], []];
    assert r == [[child], [root]];
    assert |r[0]| != |Compose(r[1], [child])|;
  }
}
