/**
 * `UISetup::setup` (hl1_ui_setup.cpp): the snapshot of a loaded model that the view
 * builds its widgets from.
 */
module UI {
  import opened CppTypes
  import opened Studio
  import opened AnimationData

  datatype UIModel = UIModel(index: int, name: string)
  datatype UIBodypart = UIBodypart(index: int, name: string, models: seq<UIModel>)
  datatype UISequence = UISequence(index: int, name: string)
  datatype UIBoneController = UIBoneController(index: int, min: real, max: real, isMouth: bool, restValue: real)
  datatype UIBlendController = UIBlendController(index: int, min: real, max: real, restValue: real)

  /** `UIData`: handed to `setup` by reference and overwritten there. */
  datatype UIData = UIData(
    bodyparts: seq<UIBodypart>,
    sequences: seq<UISequence>,
    boneControllers: seq<UIBoneController>,
    blendControllers: seq<UIBlendController>,
    numSkinFamilies: u32)

  /** The slider range and rest value every controller widget gets. */
  const SLIDER_MIN: real := 0.0
  const SLIDER_MAX: real := 255.0
  const SLIDER_REST: real := 128.0

  /** The value-initialised entries `resize` appends. */
  const NO_MODEL: UIModel := UIModel(0, "")
  const NO_BODYPART: UIBodypart := UIBodypart(0, "", [])
  const NO_SEQUENCE: UISequence := UISequence(0, "")
  const NO_BONE_CONTROLLER: UIBoneController := UIBoneController(0, 0.0, 0.0, false, 0.0)
  const NO_BLEND_CONTROLLER: UIBlendController := UIBlendController(0, 0.0, 0.0, 0.0)

  /** Bodypart i's model list, mirrored with each model's index and name. */
  method MirrorModels(bodypart: Bodypart, models: seq<Model>) returns (uiModels: seq<UIModel>)
    requires forall j :: 0 <= j < |bodypart.models| ==> 0 <= bodypart.models[j] < |models|
    ensures |uiModels| == |bodypart.models|
    ensures forall j :: 0 <= j < |uiModels| ==>
      uiModels[j] == UIModel(models[bodypart.models[j]].index, models[bodypart.models[j]].name)
  {
    uiModels := Resize([], |bodypart.models|, NO_MODEL);
    for j := 0 to |bodypart.models|
      invariant |uiModels| == |bodypart.models|
      invariant forall k :: 0 <= k < j ==>
        uiModels[k] == UIModel(models[bodypart.models[k]].index, models[bodypart.models[k]].name)
    {
      var model := models[bodypart.models[j]];
      uiModels := uiModels[j := UIModel(model.index, model.name)];
    }
  }

  /**
   * `setup(studio_model, studio_animation_data, ui_data)`: every vector is resized to
   * its source's length and each entry overwritten, so nothing of the old `ui_data`
   * survives. Controllers get the range 0..255 with rest 128, and there is one blend
   * entry per blend value of the animation data.
   */
  method Setup(studioModel: StudioModel, animationData: StudioModelAnimationData, uiData: UIData) returns (result: UIData)
    requires forall i, j :: 0 <= i < |studioModel.bodyparts| && 0 <= j < |studioModel.bodyparts[i].models| ==>
      0 <= studioModel.bodyparts[i].models[j] < |studioModel.models|
    ensures |result.bodyparts| == |studioModel.bodyparts|
    ensures forall i :: 0 <= i < |result.bodyparts| ==>
      && result.bodyparts[i].index == studioModel.bodyparts[i].index
      && result.bodyparts[i].name == studioModel.bodyparts[i].name
      && |result.bodyparts[i].models| == |studioModel.bodyparts[i].models|
    ensures forall i, j :: 0 <= i < |result.bodyparts| && 0 <= j < |result.bodyparts[i].models| ==>
      var model := studioModel.models[studioModel.bodyparts[i].models[j]];
      result.bodyparts[i].models[j] == UIModel(model.index, model.name)
    ensures result.numSkinFamilies == studioModel.stats.numSkinFamilies
    ensures |result.sequences| == |studioModel.sequences|
    ensures forall i :: 0 <= i < |result.sequences| ==>
      result.sequences[i] == UISequence(studioModel.sequences[i].index, studioModel.sequences[i].name)
    ensures |result.boneControllers| == |studioModel.boneControllers|
    ensures forall i :: 0 <= i < |result.boneControllers| ==>
      result.boneControllers[i] == UIBoneController(studioModel.boneControllers[i].index, SLIDER_MIN, SLIDER_MAX,
                                                    studioModel.boneControllers[i].isMouth, SLIDER_REST)
    ensures |result.blendControllers| == |animationData.blendControllers|
    ensures forall i :: 0 <= i < |result.blendControllers| ==>
      result.blendControllers[i] == UIBlendController(i, SLIDER_MIN, SLIDER_MAX, SLIDER_REST)
  {
    var bodyparts := studioModel.bodyparts;
    var uiBodyparts := Resize(uiData.bodyparts, |bodyparts|, NO_BODYPART);
    for i := 0 to |bodyparts|
      invariant |uiBodyparts| == |bodyparts|
      invariant forall k :: 0 <= k < i ==>
        && uiBodyparts[k].index == bodyparts[k].index && uiBodyparts[k].name == bodyparts[k].name
        && |uiBodyparts[k].models| == |bodyparts[k].models|
        && forall j :: 0 <= j < |uiBodyparts[k].models| ==>
             uiBodyparts[k].models[j] == UIModel(studioModel.models[bodyparts[k].models[j]].index,
                                                 studioModel.models[bodyparts[k].models[j]].name)
    {
      var uiModels := MirrorModels(bodyparts[i], studioModel.models);
      uiBodyparts := uiBodyparts[i := UIBodypart(bodyparts[i].index, bodyparts[i].name, uiModels)];
    }

    var numSkinFamilies := studioModel.stats.numSkinFamilies;

    var sequences := studioModel.sequences;
    var uiSequences := Resize(uiData.sequences, |sequences|, NO_SEQUENCE);
    for i := 0 to |sequences|
      invariant |uiSequences| == |sequences|
      invariant forall k :: 0 <= k < i ==> uiSequences[k] == UISequence(sequences[k].index, sequences[k].name)
    {
      uiSequences := uiSequences[i := UISequence(sequences[i].index, sequences[i].name)];
    }

    var controllers := studioModel.boneControllers;
    var uiControllers := Resize(uiData.boneControllers, |controllers|, NO_BONE_CONTROLLER);
    for i := 0 to |controllers|
      invariant |uiControllers| == |controllers|
      invariant forall k :: 0 <= k < i ==>
        uiControllers[k] == UIBoneController(controllers[k].index, SLIDER_MIN, SLIDER_MAX, controllers[k].isMouth, SLIDER_REST)
    {
      uiControllers := uiControllers[i := UIBoneController(controllers[i].index, SLIDER_MIN, SLIDER_MAX,
                                                           controllers[i].isMouth, SLIDER_REST)];
    }

    var uiBlends := Resize(uiData.blendControllers, |animationData.blendControllers|, NO_BLEND_CONTROLLER);
    for i := 0 to |uiBlends|
      invariant |uiBlends| == |animationData.blendControllers|
      invariant forall k :: 0 <= k < i ==> uiBlends[k] == UIBlendController(k, SLIDER_MIN, SLIDER_MAX, SLIDER_REST)
    {
      uiBlends := uiBlends[i := UIBlendController(i, SLIDER_MIN, SLIDER_MAX, SLIDER_REST)];
    }

    result := UIData(uiBodyparts, uiSequences, uiControllers, uiBlends, numSkinFamilies);
  }

  /**
   * The widgets' ranges agree with the animation model: the slider ends give a clamped
   * controller's start and end, the rest value is the channel's reset value, and it is
   * the blend rest value.
   */
  lemma SlidersMatchControllers(c: BoneController)
    requires !c.wraps
    ensures MappedValue(c, SLIDER_MIN) == c.start && MappedValue(c, SLIDER_MAX) == c.end
    ensures SLIDER_REST == REST_CHANNEL.controllerValue == BLEND_REST as real
  {
  }
}
