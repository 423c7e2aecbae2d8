/**
 * The renderer state of hl1_studiomodel_render.cpp that is not GL: which meshes are
 * drawn and in which pass, the uploaded matrix counts, and the camera.
 */
module Render {
  import opened MathFunctions
  import opened CppTypes
  import opened Studio
  import opened BonePoses
  import opened RenderData

  /** `MAXSTUDIOBONES`: the size of the bone matrix uniform block. */
  const MAXSTUDIOBONES: nat := 128

  /** `RenderViewSettings`. */
  datatype RenderViewSettings = RenderViewSettings(
    fovRadians: real,
    znear: real,
    zfar: real,
    zdistance: real,
    rotateSensitivity: real,
    panSensitivity: real,
    zoomStepSensitivity: real)

  /** The default view settings, with the single-precision values of 0.1f, 0.05f and 0.01f. */
  const DEFAULT_VIEW_SETTINGS: RenderViewSettings := RenderViewSettings(
    75.0 * PI_F / 180.0,
    0.100000001490116119384765625,
    1000.0,
    50.0,
    0.0500000007450580596923828125,
    0.00999999977648258209228515625,
    15.0)

  function Min(a: nat, b: nat): (r: nat)
    ensures r <= a && r <= b && (r == a || r == b)
  {
    if a < b then a else b
  }

  // ---------------------------------------------------------------------------------
  // Mesh selection.

  /** Every reference between bodyparts, models, meshes and textures is in range, and mesh i has index i. */
  ghost predicate ModelAddressable(bodyparts: seq<Bodypart>, models: seq<Model>, meshes: seq<Mesh>, textures: seq<Texture>)
  {
    && (forall i, j :: 0 <= i < |bodyparts| && 0 <= j < |bodyparts[i].models| ==> 0 <= bodyparts[i].models[j] < |models|)
    && (forall i, k :: 0 <= i < |models| && 0 <= k < |models[i].meshes| ==> 0 <= models[i].meshes[k] < |meshes|)
    && (forall i :: 0 <= i < |meshes| ==> meshes[i].index == i && 0 <= meshes[i].texture < |textures|)
    && (forall t, k :: 0 <= t < |textures| && 0 <= k < |textures[t].skinTextures| ==>
          0 <= textures[t].skinTextures[k] < |textures|)
  }

  /** The meshes bodypart i contributes: those of its model number `selection[i]`, or none if no model has that number. */
  function BodypartMeshes(bodyparts: seq<Bodypart>, models: seq<Model>, selection: seq<int>, i: int): seq<int>
    requires 0 <= i < |bodyparts| && i < |selection|
    requires forall j :: 0 <= j < |bodyparts[i].models| ==> 0 <= bodyparts[i].models[j] < |models|
  {
    var chosen := selection[i];
    if 0 <= chosen < |bodyparts[i].models| then models[bodyparts[i].models[chosen]].meshes else []
  }

  /** The meshes of the first n bodyparts' chosen models, bodypart by bodypart, in mesh order. */
  function SelectedMeshes(bodyparts: seq<Bodypart>, models: seq<Model>, selection: seq<int>, n: nat): seq<int>
    requires n <= |bodyparts| && n <= |selection|
    requires forall i, j :: 0 <= i < |bodyparts| && 0 <= j < |bodyparts[i].models| ==> 0 <= bodyparts[i].models[j] < |models|
  {
    if n == 0 then [] else SelectedMeshes(bodyparts, models, selection, n - 1) + BodypartMeshes(bodyparts, models, selection, n - 1)
  }

  /** Mesh m belongs to the model chosen for bodypart i. */
  predicate Selects(bodyparts: seq<Bodypart>, models: seq<Model>, selection: seq<int>, i: int, m: int)
    requires 0 <= i < |bodyparts| && i < |selection|
    requires forall j :: 0 <= j < |bodyparts[i].models| ==> 0 <= bodyparts[i].models[j] < |models|
  {
    0 <= selection[i] < |bodyparts[i].models| && m in models[bodyparts[i].models[selection[i]]].meshes
  }

  /** A mesh is drawn exactly when it belongs to the chosen model of some bodypart. */
  lemma {:induction false} SelectedMeshesMembers(bodyparts: seq<Bodypart>, models: seq<Model>, selection: seq<int>, n: nat, m: int)
    requires n <= |bodyparts| && n <= |selection|
    requires forall i, j :: 0 <= i < |bodyparts| && 0 <= j < |bodyparts[i].models| ==> 0 <= bodyparts[i].models[j] < |models|
    ensures m in SelectedMeshes(bodyparts, models, selection, n)
        <==> exists i :: 0 <= i < n && Selects(bodyparts, models, selection, i, m)
  {
    if n > 0 {
      SelectedMeshesMembers(bodyparts, models, selection, n - 1, m);
      if Selects(bodyparts, models, selection, n - 1, m) {
        assert m in BodypartMeshes(bodyparts, models, selection, n - 1);
      }
    }
  }

  /**
   * `update_meshes_to_render`, the nested loops: for each bodypart, the model whose
   * position equals the chosen number contributes its mesh indices in order.
   */
  method CollectMeshesToRender(bodyparts: seq<Bodypart>, models: seq<Model>, meshes: seq<Mesh>, textures: seq<Texture>,
                               selection: seq<int>) returns (meshesToRender: seq<int>)
    requires ModelAddressable(bodyparts, models, meshes, textures) && |selection| == |bodyparts|
    ensures meshesToRender == SelectedMeshes(bodyparts, models, selection, |bodyparts|)
  {
    meshesToRender := [];
    for i := 0 to |bodyparts|
      invariant meshesToRender == SelectedMeshes(bodyparts, models, selection, i)
    {
      var bodypart := bodyparts[i];
      for j := 0 to |bodypart.models|
        invariant meshesToRender == SelectedMeshes(bodyparts, models, selection, i)
          + if 0 <= selection[i] < j then models[bodypart.models[selection[i]]].meshes else []
      {
        var model := models[bodypart.models[j]];
        if selection[i] == j {
          for k := 0 to |model.meshes|
            invariant meshesToRender == SelectedMeshes(bodyparts, models, selection, i) + model.meshes[..k]
          {
            assert model.meshes[..k + 1] == model.meshes[..k] + [model.meshes[k]];
            meshesToRender := meshesToRender + [meshes[model.meshes[k]].index];
          }
          assert model.meshes[..|model.meshes|] == model.meshes;
        }
      }
    }
  }

  // ---------------------------------------------------------------------------------
  // Opaque and additive passes.

  /** With a skin chosen, every texture that has skin substitutes has one for that skin. */
  ghost predicate SkinAddressable(textures: seq<Texture>, skin: int)
  {
    forall t :: 0 <= t < |textures| && skin > 0 && |textures[t].skinTextures| > 0 ==> skin - 1 < |textures[t].skinTextures|
  }

  /** The texture a mesh is drawn with: its skin substitute when a skin is chosen and the texture has substitutes. */
  function EffectiveTexture(textures: seq<Texture>, texture: int, skin: int): (r: int)
    requires 0 <= texture < |textures| && SkinAddressable(textures, skin)
    requires forall k :: 0 <= k < |textures[texture].skinTextures| ==> 0 <= textures[texture].skinTextures[k] < |textures|
    ensures 0 <= r < |textures|
  {
    if skin > 0 && |textures[texture].skinTextures| > 0 then textures[texture].skinTextures[skin - 1] else texture
  }

  ghost predicate PassesReady(meshes: seq<Mesh>, textures: seq<Texture>, skin: int, list: seq<int>)
  {
    && (forall i :: 0 <= i < |meshes| ==> meshes[i].index == i && 0 <= meshes[i].texture < |textures|)
    && (forall t, k :: 0 <= t < |textures| && 0 <= k < |textures[t].skinTextures| ==>
          0 <= textures[t].skinTextures[k] < |textures|)
    && SkinAddressable(textures, skin)
    && (forall k :: 0 <= k < |list| ==> 0 <= list[k] < |meshes|)
  }

  /** Mesh m is drawn in the additive pass. */
  predicate IsAdditive(meshes: seq<Mesh>, textures: seq<Texture>, skin: int, m: int)
    requires PassesReady(meshes, textures, skin, []) && 0 <= m < |meshes|
  {
    textures[EffectiveTexture(textures, meshes[m].texture, skin)].blendMode == BlendAdditive
  }

  /** The additive meshes of a list, in list order. */
  function AdditivePass(meshes: seq<Mesh>, textures: seq<Texture>, skin: int, list: seq<int>): seq<int>
    requires PassesReady(meshes, textures, skin, list)
  {
    if list == [] then []
    else
      var m := list[|list| - 1];
      AdditivePass(meshes, textures, skin, list[..|list| - 1]) + if IsAdditive(meshes, textures, skin, m) then [m] else []
  }

  /** The remaining meshes of a list, in list order. */
  function OpaquePass(meshes: seq<Mesh>, textures: seq<Texture>, skin: int, list: seq<int>): seq<int>
    requires PassesReady(meshes, textures, skin, list)
  {
    if list == [] then []
    else
      var m := list[|list| - 1];
      OpaquePass(meshes, textures, skin, list[..|list| - 1]) + if IsAdditive(meshes, textures, skin, m) then [] else [m]
  }

  /** l is an interleaving of a and o: each entry of l is taken, in order, from exactly one of them. */
  ghost predicate Interleaves(l: seq<int>, a: seq<int>, o: seq<int>)
    decreases |l|
  {
    if l == [] then a == [] && o == []
    else
      || (|a| > 0 && a[|a| - 1] == l[|l| - 1] && Interleaves(l[..|l| - 1], a[..|a| - 1], o))
      || (|o| > 0 && o[|o| - 1] == l[|l| - 1] && Interleaves(l[..|l| - 1], a, o[..|o| - 1]))
  }

  /** Dropping the last mesh of a list keeps it ready. */
  lemma PassesReadyInit(meshes: seq<Mesh>, textures: seq<Texture>, skin: int, list: seq<int>)
    requires PassesReady(meshes, textures, skin, list) && list != []
    ensures PassesReady(meshes, textures, skin, list[..|list| - 1])
  {
  }

  /**
   * The list is an interleaving of the two passes: every mesh goes to exactly one pass,
   * and both keep the list order.
   */
  lemma {:induction false} PassesInterleave(meshes: seq<Mesh>, textures: seq<Texture>, skin: int, list: seq<int>)
    requires PassesReady(meshes, textures, skin, list)
    ensures Interleaves(list, AdditivePass(meshes, textures, skin, list), OpaquePass(meshes, textures, skin, list))
  {
    if list != [] {
      var init := list[..|list| - 1];
      PassesReadyInit(meshes, textures, skin, list);
      PassesInterleave(meshes, textures, skin, init);
      var a := AdditivePass(meshes, textures, skin, list);
      var o := OpaquePass(meshes, textures, skin, list);
      if IsAdditive(meshes, textures, skin, list[|list| - 1]) {
        assert a[..|a| - 1] == AdditivePass(meshes, textures, skin, init);
        assert o == OpaquePass(meshes, textures, skin, init);
      } else {
        assert o[..|o| - 1] == OpaquePass(meshes, textures, skin, init);
        assert a == AdditivePass(meshes, textures, skin, init);
      }
    }
  }

  /** Together the passes hold each listed mesh as often as the list does. */
  lemma {:induction false} PassesKeepEveryMesh(meshes: seq<Mesh>, textures: seq<Texture>, skin: int, list: seq<int>)
    requires PassesReady(meshes, textures, skin, list)
    ensures multiset(list) == multiset(AdditivePass(meshes, textures, skin, list)) + multiset(OpaquePass(meshes, textures, skin, list))
  {
    if list != [] {
      var init := list[..|list| - 1];
      PassesReadyInit(meshes, textures, skin, list);
      PassesKeepEveryMesh(meshes, textures, skin, init);
      assert list == init + [list[|list| - 1]];
    }
  }

  /** The additive pass holds only additive meshes, the opaque pass none. */
  lemma {:induction false} PassesSortByBlendMode(meshes: seq<Mesh>, textures: seq<Texture>, skin: int, list: seq<int>)
    requires PassesReady(meshes, textures, skin, list)
    ensures forall m :: m in AdditivePass(meshes, textures, skin, list) ==> 0 <= m < |meshes| && IsAdditive(meshes, textures, skin, m)
    ensures forall m :: m in OpaquePass(meshes, textures, skin, list) ==> 0 <= m < |meshes| && !IsAdditive(meshes, textures, skin, m)
  {
    if list != [] {
      PassesReadyInit(meshes, textures, skin, list);
      PassesSortByBlendMode(meshes, textures, skin, list[..|list| - 1]);
    }
  }

  /**
   * `update_opaque_and_additive_textures`, the loop: each listed mesh goes to the
   * additive list when its effective texture blends additively, else to the opaque list.
   */
  method SplitByBlendMode(meshes: seq<Mesh>, textures: seq<Texture>, skin: int, meshesToRender: seq<int>)
    returns (additiveMeshes: seq<int>, opaqueMeshes: seq<int>)
    requires PassesReady(meshes, textures, skin, meshesToRender)
    ensures additiveMeshes == AdditivePass(meshes, textures, skin, meshesToRender)
    ensures opaqueMeshes == OpaquePass(meshes, textures, skin, meshesToRender)
  {
    additiveMeshes, opaqueMeshes := [], [];
    for k := 0 to |meshesToRender|
      invariant additiveMeshes == AdditivePass(meshes, textures, skin, meshesToRender[..k])
      invariant opaqueMeshes == OpaquePass(meshes, textures, skin, meshesToRender[..k])
    {
      var mesh := meshes[meshesToRender[k]];
      var texture := mesh.texture;
      if skin > 0 && |textures[texture].skinTextures| != 0 {
        texture := textures[texture].skinTextures[skin - 1];
      }
      assert meshesToRender[..k + 1][..k] == meshesToRender[..k];
      if textures[texture].blendMode == BlendAdditive {
        additiveMeshes := additiveMeshes + [mesh.index];
      } else {
        opaqueMeshes := opaqueMeshes + [mesh.index];
      }
    }
    assert meshesToRender[..|meshesToRender|] == meshesToRender;
  }

  // ---------------------------------------------------------------------------------
  // Matrices and camera.

  /** `update_offset_matrices`, the fill: the first min(n, 128) bones' offset matrices. */
  method OffsetBoneMatrices(bones: seq<Bone>) returns (matrices: seq<GlmMat4>)
    ensures |matrices| == Min(|bones|, MAXSTUDIOBONES)
    ensures forall i :: 0 <= i < |matrices| ==> matrices[i] == bones[i].offsetMatrix
  {
    var numBones := Min(|bones|, MAXSTUDIOBONES);
    // The value-initialised matrices are all overwritten below.
    matrices := Resize([], numBones, GlmMat4([]));
    for i := 0 to |matrices|
      invariant |matrices| == numBones
      invariant forall k :: 0 <= k < i ==> matrices[k] == bones[k].offsetMatrix
    {
      matrices := matrices[i := bones[i].offsetMatrix];
    }
  }

  /** The yaw after `update_angles` adds its step: brought back once by 2*pi when it leaves [-pi, pi]. */
  function WrapYaw(yaw: real): (r: real)
    ensures -PI_F <= yaw <= PI_F ==> r == yaw
    ensures r == yaw || r == yaw - TWO_PI || r == yaw + TWO_PI
  {
    if yaw > PI_F then yaw - TWO_PI else if yaw < -PI_F then yaw + TWO_PI else yaw
  }

  /** A yaw within [-pi, pi] stays there after any step of at most one turn. */
  lemma YawStaysInRange(yaw: real, step: real)
    requires -PI_F <= yaw <= PI_F && -TWO_PI <= step <= TWO_PI
    ensures -PI_F <= WrapYaw(yaw + step) <= PI_F
  {
    assert TWO_PI == 2.0 * PI_F;
  }

  /** `StudioModelRender`, without its GL objects. */
  class StudioModelRender {
    const model: StudioModel
    const renderData: StudioModelRenderData
    var meshesToRender: seq<int>
    var additiveMeshes: seq<int>
    var opaqueMeshes: seq<int>
    var uploadedBoneMatrices: seq<Transform>
    var uploadedOffsetMatrices: seq<GlmMat4>
    var viewSettings: RenderViewSettings
    var angles: Vec3
    var pan: Vec2

    /** The references the mesh loops follow are in range and the chosen skin exists. */
    ghost predicate Ready()
      reads this, model, renderData
    {
      && ModelAddressable(model.bodyparts, model.models, model.meshes, model.textures)
      && |renderData.model| == |model.bodyparts|
      && SkinAddressable(model.textures, renderData.skin)
    }

    /** The two passes are the split of the drawn meshes under the current skin. */
    ghost predicate PassesAgree()
      reads this, model, renderData
      requires Ready()
    {
      && PassesReady(model.meshes, model.textures, renderData.skin, meshesToRender)
      && additiveMeshes == AdditivePass(model.meshes, model.textures, renderData.skin, meshesToRender)
      && opaqueMeshes == OpaquePass(model.meshes, model.textures, renderData.skin, meshesToRender)
    }

    constructor (model: StudioModel)
      ensures this.model == model && fresh(renderData)
      ensures renderData.model == [] && renderData.skin == 0
      ensures meshesToRender == [] && additiveMeshes == [] && opaqueMeshes == []
      ensures uploadedBoneMatrices == [] && uploadedOffsetMatrices == []
      ensures viewSettings == DEFAULT_VIEW_SETTINGS && angles == ZERO3 && pan == ZERO2
    {
      this.model := model;
      renderData := new StudioModelRenderData();
      meshesToRender, additiveMeshes, opaqueMeshes := [], [], [];
      uploadedBoneMatrices, uploadedOffsetMatrices := [], [];
      viewSettings, angles, pan := DEFAULT_VIEW_SETTINGS, ZERO3, ZERO2;
    }

    /** `update_opaque_and_additive_textures`. */
    method UpdateOpaqueAndAdditiveTextures()
      requires Ready()
      requires forall k :: 0 <= k < |meshesToRender| ==> 0 <= meshesToRender[k] < |model.meshes|
      modifies this
      ensures Ready() && PassesAgree() && meshesToRender == old(meshesToRender)
      ensures uploadedBoneMatrices == old(uploadedBoneMatrices) && uploadedOffsetMatrices == old(uploadedOffsetMatrices)
      ensures viewSettings == old(viewSettings) && angles == old(angles) && pan == old(pan)
    {
      additiveMeshes, opaqueMeshes := SplitByBlendMode(model.meshes, model.textures, renderData.skin, meshesToRender);
    }

    /** `update_meshes_to_render`: rebuilds the list, then both passes. */
    method UpdateMeshesToRender()
      requires Ready()
      modifies this
      ensures Ready() && PassesAgree()
      ensures meshesToRender == SelectedMeshes(model.bodyparts, model.models, renderData.model, |model.bodyparts|)
      ensures uploadedBoneMatrices == old(uploadedBoneMatrices) && uploadedOffsetMatrices == old(uploadedOffsetMatrices)
      ensures viewSettings == old(viewSettings) && angles == old(angles) && pan == old(pan)
    {
      meshesToRender := CollectMeshesToRender(model.bodyparts, model.models, model.meshes, model.textures, renderData.model);
      SelectedMeshesInRange(model.bodyparts, model.models, model.meshes, model.textures, renderData.model, |model.bodyparts|);
      UpdateOpaqueAndAdditiveTextures();
    }

    /** `set_model(bodypart, model)`: writes only that bodypart's slot, then rebuilds the lists. */
    method SetModel(bodypart: int, value: int)
      requires Ready() && 0 <= bodypart < |renderData.model|
      modifies this, renderData
      ensures renderData.model == old(renderData.model)[bodypart := value] && renderData.skin == old(renderData.skin)
      ensures Ready() && PassesAgree()
      ensures meshesToRender == SelectedMeshes(model.bodyparts, model.models, renderData.model, |model.bodyparts|)
      ensures uploadedBoneMatrices == old(uploadedBoneMatrices) && uploadedOffsetMatrices == old(uploadedOffsetMatrices)
      ensures viewSettings == old(viewSettings) && angles == old(angles) && pan == old(pan)
    {
      renderData.model := renderData.model[bodypart := value];
      UpdateMeshesToRender();
    }

    /** `set_skin(value)`: the drawn meshes stay; only the split is recomputed. */
    method SetSkin(value: int)
      requires Ready() && SkinAddressable(model.textures, value) && PassesAgree()
      modifies this, renderData
      ensures renderData.skin == value && renderData.model == old(renderData.model)
      ensures Ready() && PassesAgree() && meshesToRender == old(meshesToRender)
      ensures uploadedBoneMatrices == old(uploadedBoneMatrices) && uploadedOffsetMatrices == old(uploadedOffsetMatrices)
      ensures viewSettings == old(viewSettings) && angles == old(angles) && pan == old(pan)
    {
      renderData.skin := value;
      UpdateOpaqueAndAdditiveTextures();
    }

    /** `set_bones_transform`: at most 128 matrices reach the uniform block, the first ones. */
    method SetBonesTransform(bonesTransform: seq<Transform>)
      modifies this
      ensures uploadedBoneMatrices == bonesTransform[..Min(|bonesTransform|, MAXSTUDIOBONES)]
      ensures |uploadedBoneMatrices| <= MAXSTUDIOBONES
      ensures meshesToRender == old(meshesToRender) && additiveMeshes == old(additiveMeshes) && opaqueMeshes == old(opaqueMeshes)
      ensures uploadedOffsetMatrices == old(uploadedOffsetMatrices)
      ensures viewSettings == old(viewSettings) && angles == old(angles) && pan == old(pan)
    {
      var numBones := Min(|bonesTransform|, MAXSTUDIOBONES);
      uploadedBoneMatrices := bonesTransform[..numBones];
    }

    /** `update_offset_matrices`. */
    method UpdateOffsetMatrices()
      modifies this
      ensures |uploadedOffsetMatrices| == Min(|model.bones|, MAXSTUDIOBONES)
      ensures forall i :: 0 <= i < |uploadedOffsetMatrices| ==> uploadedOffsetMatrices[i] == model.bones[i].offsetMatrix
      ensures meshesToRender == old(meshesToRender) && additiveMeshes == old(additiveMeshes) && opaqueMeshes == old(opaqueMeshes)
      ensures uploadedBoneMatrices == old(uploadedBoneMatrices)
      ensures viewSettings == old(viewSettings) && angles == old(angles) && pan == old(pan)
    {
      uploadedOffsetMatrices := OffsetBoneMatrices(model.bones);
    }

    /**
     * `on_model_changed`: one slot per bodypart, skin 0, model 0 chosen for bodypart 0
     * (the source indexes slot 0, so the model has a bodypart), lists rebuilt, offset
     * matrices uploaded.
     */
    method OnModelChanged()
      requires ModelAddressable(model.bodyparts, model.models, model.meshes, model.textures)
      requires |model.bodyparts| >= 1
      modifies this, renderData
      ensures Ready() && PassesAgree()
      ensures renderData.skin == 0 && |renderData.model| == |model.bodyparts|
      ensures forall i :: 0 <= i < |renderData.model| ==> renderData.model[i] == 0
      ensures meshesToRender == SelectedMeshes(model.bodyparts, model.models, renderData.model, |model.bodyparts|)
      ensures |uploadedOffsetMatrices| == Min(|model.bones|, MAXSTUDIOBONES)
      ensures forall i :: 0 <= i < |uploadedOffsetMatrices| ==> uploadedOffsetMatrices[i] == model.bones[i].offsetMatrix
      ensures uploadedBoneMatrices == old(uploadedBoneMatrices)
      ensures viewSettings == old(viewSettings) && angles == old(angles) && pan == old(pan)
    {
      renderData.Initialize(0, |model.bodyparts|);
      SetModel(0, 0);
      UpdateOffsetMatrices();
    }

    /** `set_zdistance`: the distance is clamped to [znear, zfar]. */
    method SetZdistance(distance: real)
      modifies this
      ensures viewSettings == old(viewSettings).(zdistance := Clamp(distance, old(viewSettings).znear, old(viewSettings).zfar))
      ensures viewSettings.znear <= viewSettings.zfar ==> viewSettings.znear <= viewSettings.zdistance <= viewSettings.zfar
      ensures meshesToRender == old(meshesToRender) && additiveMeshes == old(additiveMeshes) && opaqueMeshes == old(opaqueMeshes)
      ensures uploadedBoneMatrices == old(uploadedBoneMatrices) && uploadedOffsetMatrices == old(uploadedOffsetMatrices)
      ensures angles == old(angles) && pan == old(pan)
    {
      viewSettings := viewSettings.(zdistance := Clamp(distance, viewSettings.znear, viewSettings.zfar));
    }

    /** `update_camera_distance(distance)`. */
    method UpdateCameraDistance(distance: real)
      modifies this
      ensures viewSettings == old(viewSettings).(zdistance :=
        Clamp(old(viewSettings).zdistance + distance, old(viewSettings).znear, old(viewSettings).zfar))
      ensures viewSettings.znear <= viewSettings.zfar ==> viewSettings.znear <= viewSettings.zdistance <= viewSettings.zfar
      ensures angles == old(angles) && pan == old(pan) && meshesToRender == old(meshesToRender)
      ensures additiveMeshes == old(additiveMeshes) && opaqueMeshes == old(opaqueMeshes)
      ensures uploadedBoneMatrices == old(uploadedBoneMatrices) && uploadedOffsetMatrices == old(uploadedOffsetMatrices)
      ensures old(Ready() && PassesAgree()) ==> Ready() && PassesAgree()
    {
      SetZdistance(viewSettings.zdistance + distance);
    }

    /** `update_camera_distance_zoom_step(forward)`: one zoom step toward or away from the model. */
    method UpdateCameraDistanceZoomStep(forward: bool)
      modifies this
      ensures var step := if forward then -old(viewSettings).zoomStepSensitivity else old(viewSettings).zoomStepSensitivity;
        viewSettings == old(viewSettings).(zdistance :=
          Clamp(old(viewSettings).zdistance + step, old(viewSettings).znear, old(viewSettings).zfar))
      ensures viewSettings.znear <= viewSettings.zfar ==> viewSettings.znear <= viewSettings.zdistance <= viewSettings.zfar
      ensures angles == old(angles) && pan == old(pan) && meshesToRender == old(meshesToRender)
      ensures additiveMeshes == old(additiveMeshes) && opaqueMeshes == old(opaqueMeshes)
      ensures uploadedBoneMatrices == old(uploadedBoneMatrices) && uploadedOffsetMatrices == old(uploadedOffsetMatrices)
      ensures old(Ready() && PassesAgree()) ==> Ready() && PassesAgree()
    {
      SetZdistance(viewSettings.zdistance + (if forward then -viewSettings.zoomStepSensitivity else viewSettings.zoomStepSensitivity));
    }

    /**
     * `update_angles(delta)`: the pitch is clamped to [-pi/2, pi/2]; the yaw takes its
     * step and is wrapped once.
     */
    method UpdateAngles(delta: Vec2)
      modifies this
      ensures angles.x == Clamp(old(angles).x + delta.y * viewSettings.rotateSensitivity, -HALF_PI, HALF_PI)
      ensures -HALF_PI <= angles.x <= HALF_PI
      ensures angles.y == WrapYaw(old(angles).y + delta.x * viewSettings.rotateSensitivity)
      ensures angles.z == old(angles).z
      ensures viewSettings == old(viewSettings) && pan == old(pan)
      ensures meshesToRender == old(meshesToRender) && additiveMeshes == old(additiveMeshes) && opaqueMeshes == old(opaqueMeshes)
      ensures uploadedBoneMatrices == old(uploadedBoneMatrices) && uploadedOffsetMatrices == old(uploadedOffsetMatrices)
      ensures old(Ready() && PassesAgree()) ==> Ready() && PassesAgree()
    {
      angles := angles.(x := Clamp(angles.x + delta.y * viewSettings.rotateSensitivity, -HALF_PI, HALF_PI));
      var yaw := angles.y + delta.x * viewSettings.rotateSensitivity;
      if yaw > PI_F {
        yaw := yaw - TWO_PI;
      } else if yaw < -PI_F {
        yaw := yaw + TWO_PI;
      }
      angles := angles.(y := yaw);
    }

    /** `reset_camera`: the distance is re-clamped and the angles and pan are zeroed. */
    method ResetCamera()
      modifies this
      ensures viewSettings == old(viewSettings).(zdistance :=
        Clamp(old(viewSettings).zdistance, old(viewSettings).znear, old(viewSettings).zfar))
      ensures angles == ZERO3 && pan == ZERO2
      ensures meshesToRender == old(meshesToRender) && additiveMeshes == old(additiveMeshes) && opaqueMeshes == old(opaqueMeshes)
      ensures uploadedBoneMatrices == old(uploadedBoneMatrices) && uploadedOffsetMatrices == old(uploadedOffsetMatrices)
      ensures old(Ready() && PassesAgree()) ==> Ready() && PassesAgree()
    {
      SetZdistance(viewSettings.zdistance);
      angles := ZERO3;
      pan := ZERO2;
    }

    /** `reset`: the render data is cleared and the camera reset. */
    method Reset()
      modifies this, renderData
      ensures renderData.model == [] && renderData.skin == 0
      ensures viewSettings == old(viewSettings).(zdistance :=
        Clamp(old(viewSettings).zdistance, old(viewSettings).znear, old(viewSettings).zfar))
      ensures angles == ZERO3 && pan == ZERO2
      ensures meshesToRender == old(meshesToRender) && additiveMeshes == old(additiveMeshes) && opaqueMeshes == old(opaqueMeshes)
      ensures uploadedBoneMatrices == old(uploadedBoneMatrices) && uploadedOffsetMatrices == old(uploadedOffsetMatrices)
    {
      renderData.Clear();
      ResetCamera();
    }
  }

  /** Every mesh the selection yields is a mesh of the model. */
  lemma {:induction false} SelectedMeshesInRange(bodyparts: seq<Bodypart>, models: seq<Model>, meshes: seq<Mesh>,
                                                textures: seq<Texture>, selection: seq<int>, n: nat)
    requires ModelAddressable(bodyparts, models, meshes, textures) && n <= |bodyparts| && n <= |selection|
    ensures forall k :: 0 <= k < |SelectedMeshes(bodyparts, models, selection, n)| ==>
      0 <= SelectedMeshes(bodyparts, models, selection, n)[k] < |meshes|
  {
    if n > 0 {
      SelectedMeshesInRange(bodyparts, models, meshes, textures, selection, n - 1);
    }
  }
}
