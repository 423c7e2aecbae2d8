/** `ModelStats` (hl1_model_stats.h): ten unsigned 32-bit counters about the loaded model. */
module Stats {
  import opened CppTypes

  class ModelStats {
    var numBodyparts: u32
    var numModels: u32
    var numSequences: u32
    var numSkinFamilies: u32
    var numTextures: u32
    var numBones: u32
    var numBoneControllers: u32
    var numAttachments: u32
    var numHitboxes: u32
    var numBlendControllers: u32

    /** Every counter is zero. */
    ghost predicate IsZero()
      reads this
    {
      numBodyparts == 0 && numModels == 0 && numSequences == 0 && numSkinFamilies == 0 &&
      numTextures == 0 && numBones == 0 && numBoneControllers == 0 && numAttachments == 0 &&
      numHitboxes == 0 && numBlendControllers == 0
    }

    constructor ()
      ensures IsZero()
    {
      numBodyparts, numModels, numSequences, numSkinFamilies, numTextures := 0, 0, 0, 0, 0;
      numBones, numBoneControllers, numAttachments, numHitboxes, numBlendControllers := 0, 0, 0, 0, 0;
    }

    /** `reset`: whatever the counters held, they are all zero afterwards. */
    method Reset()
      modifies this
      ensures IsZero()
    {
      numBodyparts := 0;
      numModels := 0;
      numSequences := 0;
      numSkinFamilies := 0;
      numTextures := 0;
      numBones := 0;
      numBoneControllers := 0;
      numAttachments := 0;
      numHitboxes := 0;
      numBlendControllers := 0;
    }
  }
}
