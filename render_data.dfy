/** `StudioModelRenderData` (hl1_studiomodel_render_data.h): the chosen skin and sub-models. */
module RenderData {
  import opened CppTypes

  class StudioModelRenderData {
    /** The chosen sub-model of each bodypart. */
    var model: seq<int>
    var skin: int

    constructor ()
      ensures model == [] && skin == 0
    {
      model, skin := [], 0;
    }

    /** `clear`. */
    method Clear()
      modifies this
      ensures model == [] && skin == 0
    {
      skin := 0;
      model := [];
    }

    /**
     * `initialize(skin, num_bodyparts)`: clears first, so earlier slots are discarded,
     * then stores the skin and leaves one value-initialised slot per bodypart.
     */
    method Initialize(skin: int, numBodyparts: nat)
      modifies this
      ensures this.skin == skin
      ensures |model| == numBodyparts && forall i :: 0 <= i < numBodyparts ==> model[i] == 0
    {
      Clear();
      this.skin := skin;
      if numBodyparts != 0 {
        model := Resize(model, numBodyparts, 0);
      }
    }
  }
}
