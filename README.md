# hl_mdlviewer core, modelled in Dafny

This project models the core of hl_mdlviewer. It is a viewer for Half-Life 1 studio models (`.mdl`), loaded through Assimp and drawn with OpenGL. The model covers the parts that decide what is shown:

- **Frame clock.** `FrameInterpolation::advance_frame` moves the sequence cursor by a clamped time step and wraps it at the loop end (module `FrameClock`).
- **Animation data.** Bone-controller channels turn a raw slider value into an angle or offset; `StudioModelAnimationData` holds the session's sequence, frame, rate and blends (module `AnimationData`).
- **Animation events.** `AnimationEventHandler` fires each event of a frame once and plays the sound named in its options, without leading `*` (module `EventHandling`).
- **Bone poses.** `StudioModelAnimation` builds the local pose of every bone: key-frame interpolation, up to four blends, controller adjustments, or the bind pose. It chains the poses down the hierarchy, notifies sequence listeners and advances the clock (modules `BonePoses`, `Animation`).
- **Setup.** `StudioModelSetup` collects the bones of a sub-skeleton and builds the line-strip index list of the skeleton and the point list of the attachments. Index lists are appended to the shared `BufferBuilder` and rebased past the primitive-restart marker (modules `Setup`, `Buffers`, `Stride`).
- **Bounding boxes.** `BBoxBuilder` builds the 8 corners and the line-strip and triangle-fan indices of a box (module `BoxBuilder`).
- **Rendering.** `StudioModelRender` selects the meshes of the chosen model of every bodypart and splits them into additive and opaque passes through the current skin. It also uploads at most `MAXSTUDIOBONES` matrices and drives the orbit camera (modules `Render`, `RenderData`).
- **UI data.** `UISetup::setup` mirrors the model's bodyparts, sequences and controllers into slider descriptions (module `UI`).
- **Shader sources.** `ShaderParser` splices `#include` files in place, includes each file once, drops blank lines and fails on a missing file (module `ShaderParser`).
- **Supporting code.** This covers `math_functions.h` (clamp, Assimp-to-GLM conversions), the `hl1_studiomodel.h` records and motion-flag decoding, and `ModelStats`.

Floats are exact reals. 32-bit unsigned and signed wrap-around is written out where the source relies on it. Matrices and quaternions built from poses are kept symbolic. A bone transform is the product of the local poses from the root down, so the hierarchy is checked structurally rather than numerically.

## Model

| member | source | states |
|---|---|---|
| MathFunctions.Clamp | hl_mdlviewer/src/lib/math_functions.h:29-33 | below min gives min, above max gives max, otherwise the value; the result lies in [min, max] whenever min <= max |
| MathFunctions.ClampIdempotent | hl_mdlviewer/src/lib/math_functions.h:29-33 | clamping twice equals clamping once |
| MathFunctions.TruncToInt | hl_mdlviewer/src/lib/hl1/hl1_frame_interpolation.cpp:21-51 | the C `(int)` cast truncates toward zero: floor for non-negative values, ceiling for negative ones |
| MathFunctions.QuatConversionLossless | hl_mdlviewer/src/lib/math_functions.h:66-69 | `to_glm_quat` reorders (x, y, z, w) into GLM's (w, x, y, z) storage without loss: both round trips are the identity |
| MathFunctions.ToGlmMat4 | hl_mdlviewer/src/lib/math_functions.h:75-83 | the row-major Assimp matrix becomes the column-major GLM matrix with every entry (row, col) unchanged |
| MathFunctions.FromGlmMat4 | hl_mdlviewer/src/lib/math_functions.h:75-83 | inverse reading of the conversion: every entry is kept |
| MathFunctions.Mat4RoundTrip | hl_mdlviewer/src/lib/math_functions.h:75-83 | converting to GLM and back gives the original matrix |
| Studio.MotionFlagsToMotionType | hl_mdlviewer/src/lib/hl1/hl1_studiomodel.h:127-150 | any position flag gives Position; otherwise any rotation flag gives Rotation; flags without a motion bit are an error, exactly |
| Studio.MotionFlagsToMotionAxis | hl_mdlviewer/src/lib/hl1/hl1_studiomodel.h:157-183 | X flags win, then Y, then Z; no motion bit is an error, exactly |
| Studio.FlagGroupsCoverTypes | hl_mdlviewer/src/lib/hl1/hl1_studiomodel.h:127-183 | position and rotation flags partition `STUDIO_TYPES`, and so do the three axis groups |
| Studio.LoopBitIgnored | hl_mdlviewer/src/lib/hl1/hl1_studiomodel.h:127-183 | masking with `STUDIO_TYPES` makes both decoders ignore `STUDIO_RLOOP` |
| Studio.StudioModel.Clear | hl_mdlviewer/src/lib/hl1/hl1_studiomodel.h:230-243 | every collection is emptied and every counter is zero |
| Stats.ModelStats.constructor | hl_mdlviewer/src/lib/hl1/hl1_model_stats.h:14-26 | all ten counters start at zero |
| Stats.ModelStats.Reset | hl_mdlviewer/src/lib/hl1/hl1_model_stats.h:28-40 | all ten counters are zero whatever they held, the constructed state, so a second reset changes nothing |
| Stride.MeshBufferStride.constructor | hl_mdlviewer/src/lib/mesh_buffer_stride.h:13-19 | start indices -1, counts 0 |
| Stride.MeshBufferStride.Reset | hl_mdlviewer/src/lib/mesh_buffer_stride.h:21-27 | start indices -1 and counts 0 whatever they held, the constructed state, so a second reset changes nothing |
| Buffers.Rebased | hl_mdlviewer/src/lib/buffer_builder.cpp:29-35 | same length; restart markers are copied; every other index is shifted by the vertex start, modulo 2^32 |
| Buffers.RebasedKeepsMarkersExactly | hl_mdlviewer/src/lib/buffer_builder.cpp:29-35 | when shifted indices stay below the marker, an output entry is a marker exactly when the input entry is |
| Buffers.RebasedTwice | hl_mdlviewer/src/lib/buffer_builder.cpp:29-35 | rebasing by b and then by a equals rebasing by a + b while no index reaches the marker |
| Buffers.OverflowCanForgeMarker | hl_mdlviewer/src/lib/buffer_builder.cpp:34 | an ordinary index can wrap onto the restart marker: 0xFFFFFFFE shifted by 1 |
| Buffers.BufferBuilder.Append | hl_mdlviewer/src/lib/buffer_builder.cpp:15-36 | the stride records the old sizes and the new counts as `int`; vertices are appended; indices are appended rebased by the old vertex count |
| Buffers.BufferBuilder.PushRebased | hl_mdlviewer/src/lib/buffer_builder.cpp:29-35 | the index list grows by exactly the rebased indices |
| Buffers.BufferBuilder.AppendIndices | hl_mdlviewer/src/lib/buffer_builder.cpp:38-56 | the stride reuses the prototype's vertices; indices are appended rebased by the prototype's vertex start; vertices are unchanged |
| Buffers.BufferBuilder.Reserve | hl_mdlviewer/src/lib/buffer_builder.cpp:58-62 | capacity only: contents unchanged |
| BoxBuilder.BBoxBuilder.BuildVertices | hl_mdlviewer/src/lib/bbox_builder.cpp:15-33 | 8 vertices, all bound to the bone, at the corners in the source's order (bottom face, then top face) |
| BoxBuilder.CornersStackInY | hl_mdlviewer/src/lib/bbox_builder.cpp:25-32 | corners 0-3 lie on the bottom face and 4-7 are the same corners lifted to the top |
| BoxBuilder.CornersDistinct | hl_mdlviewer/src/lib/bbox_builder.cpp:25-32 | a non-degenerate box has 8 distinct corners |
| BoxBuilder.BBoxBuilder.BuildLineStripIndices | hl_mdlviewer/src/lib/bbox_builder.cpp:35-59 | the index list is the 19-entry strip with restarts at 10, 13 and 16 |
| BoxBuilder.LineStripShape | hl_mdlviewer/src/lib/bbox_builder.cpp:35-59 | 19 entries, restarts exactly at 10, 13, 16, every other entry a corner index |
| BoxBuilder.LineStripSegmentsAreEdges | hl_mdlviewer/src/lib/bbox_builder.cpp:35-59 | every segment the strip draws is a box edge |
| BoxBuilder.EdgesAreLineStripSegments | hl_mdlviewer/src/lib/bbox_builder.cpp:35-59 | every box edge is drawn |
| BoxBuilder.LineStripDrawsBoxEdges | hl_mdlviewer/src/lib/bbox_builder.cpp:35-59 | the strip draws exactly the 12 edges of the box |
| BoxBuilder.BoxEdgesAreAdjacent | hl_mdlviewer/src/lib/bbox_builder.cpp:25-32 | each of the 12 edges joins corners that differ in one coordinate |
| BoxBuilder.BBoxBuilder.BuildTriangleFanIndices | hl_mdlviewer/src/lib/bbox_builder.cpp:61-83 | the index list is the 17-entry pair of fans with a restart at 8 |
| BoxBuilder.TriangleFansShape | hl_mdlviewer/src/lib/bbox_builder.cpp:61-83 | 17 entries, the only restart at 8, every other entry a corner index |
| BoxBuilder.FirstFanOnFaces | hl_mdlviewer/src/lib/bbox_builder.cpp:65-73 | the fan around corner 0 draws six triangles, each on one face of the box |
| BoxBuilder.SecondFanOnFaces | hl_mdlviewer/src/lib/bbox_builder.cpp:75-82 | the fan around corner 6 draws six triangles, each on one face of the box |
| BoxBuilder.BBoxBuilder.BuildLineStrip | hl_mdlviewer/src/lib/bbox_builder.h:29-37 | corners plus the line strip; normals and texture coordinates of surviving vertices are kept |
| BoxBuilder.BBoxBuilder.BuildTriangleFan | hl_mdlviewer/src/lib/bbox_builder.h:52-59 | corners plus the triangle fans; normals and texture coordinates of surviving vertices are kept |
| FrameClock.AdvanceFrame | hl_mdlviewer/src/lib/hl1/hl1_frame_interpolation.cpp:21-51 | at most one frame gives frame 0, unfinished; otherwise finished iff the stepped cursor reaches num_frames - 1, and a finished cursor is wrapped into [0, num_frames - 1) as the cursor modulo the loop length |
| FrameClock.RealMod | hl_mdlviewer/src/lib/hl1/hl1_frame_interpolation.cpp:42-45 | the remainder lies in [0, m) and differs from x by a whole number of m |
| FrameClock.LargeStepsClamped | hl_mdlviewer/src/lib/hl1/hl1_frame_interpolation.cpp:37-38 | any step above 0.1 s acts as a step of 0.1 s |
| FrameClock.AdvanceKeepsCursorInRange | hl_mdlviewer/src/lib/hl1/hl1_frame_interpolation.cpp:21-51 | forward playback keeps the cursor in [0, num_frames - 1), the range whose key frames `frame` and `frame + 1` exist |
| FrameClock.PlayWholeSteps | hl_mdlviewer/src/lib/hl1/hl1_frame_interpolation.cpp:21-51 | n one-frame ticks from frame k end at (k + n) mod (num_frames - 1), reporting finished once per completed loop |
| FrameClock.ThirtyTicksFinishOnce | hl_mdlviewer/src/lib/hl1/hl1_frame_interpolation.cpp:21-51 | a 30-frame, 30 fps sequence ticked 30 times by 1/30 s reports finished once and ends at frame 1 |
| AnimationData.MappedValue | hl_mdlviewer/src/lib/hl1/hl1_studiomodel_animation_data.h:31-45 | a wrapping controller maps 256 steps to 360 degrees from start; any other controller clamps value/255 and stays between start and end, hitting them at 0 and 255 |
| AnimationData.BoneControllerChannel.SetValue | hl_mdlviewer/src/lib/hl1/hl1_studiomodel_animation_data.h:31-54 | keeps the raw value; the adjustment is the mapped value in radians for rotation controllers and in scene units for position controllers |
| AnimationData.UnitRangeExamples | hl_mdlviewer/src/lib/hl1/hl1_studiomodel_animation_data.h:31-54 | for a 0-to-1 position controller, raw 0, 255 and 128 give 0, 1 and 128/255 |
| AnimationData.StudioModelAnimationData.constructor | hl_mdlviewer/src/lib/hl1/hl1_studiomodel_animation_data.h:61-68 | sequence 0, frame 0, rate 1, no channels |
| AnimationData.StudioModelAnimationData.Clear | hl_mdlviewer/src/lib/hl1/hl1_studiomodel_animation_data.h:70-76 | sequence and frame are zero and the channels are gone; the playback rate survives |
| AnimationData.StudioModelAnimationData.Initialize | hl_mdlviewer/src/lib/hl1/hl1_studiomodel_animation_data.h:78-97 | the given sequence and frame, n bone channels at rest (128, 0) and m blends at 128; the rate survives |
| EventHandling.CString | hl_mdlviewer/src/lib/hl1/hl1_animation_event_handler.cpp:34 | `c_str()` is read up to the first NUL: a NUL-free prefix followed by a NUL or the end |
| EventHandling.StripStars | hl_mdlviewer/src/lib/hl1/hl1_animation_event_handler.cpp:37-38 | the longest suffix after leading `*`; it does not start with `*` |
| EventHandling.AllStarsStripToEmpty | hl_mdlviewer/src/lib/hl1/hl1_animation_event_handler.cpp:37-38 | a name made only of `*` plays the empty name |
| EventHandling.SkipStars | hl_mdlviewer/src/lib/hl1/hl1_animation_event_handler.cpp:37-38 | the pointer loop returns exactly the stripped name |
| EventHandling.AnimationEventHandler.constructor | hl_mdlviewer/src/lib/hl1/hl1_animation_event_handler.cpp:12-16 | last event frame -1; nothing played or handled |
| EventHandling.AnimationEventHandler.OnChangeSequence | hl_mdlviewer/src/lib/hl1/hl1_animation_event_handler.cpp:18-21 | last event frame back to -1; nothing played |
| EventHandling.AnimationEventHandler.OnSequenceFinished | hl_mdlviewer/src/lib/hl1/hl1_animation_event_handler.cpp:23-26 | last event frame back to -1; nothing played |
| EventHandling.AnimationEventHandler.HandleEvent | hl_mdlviewer/src/lib/hl1/hl1_animation_event_handler.cpp:28-45 | a sound event with non-empty options plays the star-stripped name when a sound system exists; other events play nothing |
| EventHandling.AnimationEventHandler.ProcessEvents | hl_mdlviewer/src/lib/hl1/hl1_animation_event_handler.cpp:47-64 | for a new frame, every event of that frame is handled in list order and its sounds are played; the last event frame becomes the frame if any matched |
| EventHandling.AnimationEventHandler.HandleFrame | hl_mdlviewer/src/lib/hl1/hl1_animation_event_handler.cpp:53-62 | the loop handles exactly the events whose frame matches, in order |
| EventHandling.MatchingEventsMembers | hl_mdlviewer/src/lib/hl1/hl1_animation_event_handler.cpp:53-62 | an event is handled iff it is in the sequence and its frame is the current frame |
| EventHandling.NextLastEventFrame | hl_mdlviewer/src/lib/hl1/hl1_animation_event_handler.cpp:47-64 | the last event frame moves to the frame iff some event fired (or it already was the frame), never backwards |
| EventHandling.StaleFrameHandlesNothing | hl_mdlviewer/src/lib/hl1/hl1_animation_event_handler.cpp:49 | a frame at or before the last event frame fires nothing and changes nothing |
| EventHandling.EventsFireOncePerFrame | hl_mdlviewer/src/lib/hl1/hl1_animation_event_handler.cpp:47-64 | processing the same frame again fires nothing |
| EventHandling.ResetHandlesAllMatching | hl_mdlviewer/src/lib/hl1/hl1_animation_event_handler.cpp:18-26 | after a sequence change or finish, every event of a non-negative frame fires |
| BonePoses.BlendWeight | hl_mdlviewer/src/lib/hl1/hl1_studiomodel_animation.cpp:117 | blend byte / 255, in [0, 1] |
| BonePoses.Adjustments | hl_mdlviewer/src/lib/hl1/hl1_studiomodel_animation.cpp:85-102 | one adjustment per controller of the bone, in order, on the controller's axis and motion type with its channel's value |
| BonePoses.AnimatedPoseShape | hl_mdlviewer/src/lib/hl1/hl1_studiomodel_animation.cpp:104-154 | at most one blend reads track 0 only; four blends read tracks 0-3; any other count reads tracks 0 and 1; every key frame uses the same bone, frame, fraction and controller adjustments |
| BonePoses.AnimatedPoseReadsExistingTracks | hl_mdlviewer/src/lib/hl1/hl1_studiomodel_animation.cpp:104-154 | the pose reads no blend track beyond the sequence's blend count |
| BonePoses.ForwardPassPrefix | hl_mdlviewer/src/lib/hl1/hl1_studiomodel_animation.cpp:212-217 | after the first k bones, each is its parent's transform followed by its local pose, and the rest are untouched |
| BonePoses.ForwardPassBuildsHierarchy | hl_mdlviewer/src/lib/hl1/hl1_studiomodel_animation.cpp:192-195 | with parents before children, every bone's transform is the root-to-bone product of local poses |
| BonePoses.ForwardPassNeedsParentsFirst | hl_mdlviewer/src/lib/hl1/hl1_studiomodel_animation.cpp:212-217 | a child listed before its parent reads the parent's stale slot |
| Animation.ChangeNotices | hl_mdlviewer/src/lib/hl1/hl1_studiomodel_animation.cpp:242-247 | one change notice per listener, in registration order |
| Animation.FinishNotices | hl_mdlviewer/src/lib/hl1/hl1_studiomodel_animation.cpp:166-170 | one finish notice per listener, in registration order |
| Animation.StartFrame | hl_mdlviewer/src/lib/hl1/hl1_studiomodel_animation.cpp:203-206 | the unsigned comparison forces frame 0 for 0 or 1 frames only; a negative count keeps the cursor |
| Animation.StudioModelAnimation.constructor | hl_mdlviewer/src/lib/hl1/hl1_studiomodel_animation.cpp:18-29 | the event handler is the one listener; default animation data |
| Animation.StudioModelAnimation.AddListener | hl_mdlviewer/src/lib/hl1/hl1_studiomodel_animation.cpp:39-42 | the listener is appended |
| Animation.StudioModelAnimation.Reset | hl_mdlviewer/src/lib/hl1/hl1_studiomodel_animation.cpp:44-47 | the animation data is cleared; the rate survives |
| Animation.StudioModelAnimation.OnModelChanged | hl_mdlviewer/src/lib/hl1/hl1_studiomodel_animation.cpp:49-56 | sequence 0 at frame 0, one channel per model controller at rest, one blend per blend controller at 128, one transform slot per bone |
| Animation.StudioModelAnimation.NotifyChangeSequence | hl_mdlviewer/src/lib/hl1/hl1_studiomodel_animation.cpp:242-247 | every listener is told in order; the event handler forgets its last frame |
| Animation.StudioModelAnimation.NotifySequenceFinished | hl_mdlviewer/src/lib/hl1/hl1_studiomodel_animation.cpp:166-170 | every listener is told in order; the event handler forgets its last frame |
| Animation.StudioModelAnimation.SetSequence | hl_mdlviewer/src/lib/hl1/hl1_studiomodel_animation.cpp:235-249 | new sequence at frame 0, listeners told the old and new sequence, nothing else changes |
| Animation.StudioModelAnimation.SetPlaybackRate | hl_mdlviewer/src/lib/hl1/hl1_studiomodel_animation.cpp:251-254 | only the rate changes |
| Animation.StudioModelAnimation.SetFrame | hl_mdlviewer/src/lib/hl1/hl1_studiomodel_animation.cpp:256-259 | only the frame changes |
| Animation.StudioModelAnimation.SetBlending | hl_mdlviewer/src/lib/hl1/hl1_studiomodel_animation.cpp:261-264 | only that blend value changes |
| Animation.StudioModelAnimation.SetBoneController | hl_mdlviewer/src/lib/hl1/hl1_studiomodel_animation.cpp:266-271 | only that channel changes, to `set_value` of its controller |
| Animation.StudioModelAnimation.PoseBones | hl_mdlviewer/src/lib/hl1/hl1_studiomodel_animation.cpp:212-217 | the transforms are the forward pass of the local poses over the bones in order |
| Animation.StudioModelAnimation.AdvanceSequenceFrame | hl_mdlviewer/src/lib/hl1/hl1_studiomodel_animation.cpp:156-171 | the frame becomes the clock's result; listeners are told exactly when it reports finished |
| Animation.StudioModelAnimation.UpdateAnimated | hl_mdlviewer/src/lib/hl1/hl1_studiomodel_animation.cpp:199-222 | the transforms are the forward pass over the animated poses at the integer frame and fraction of the (forced) cursor; from that cursor the clock steps, listeners hear of a finished loop exactly when the clock reports one, and the events of the integer frame are handled and their sounds played |
| Animation.StudioModelAnimation.PoseAtCursor | hl_mdlviewer/src/lib/hl1/hl1_studiomodel_animation.cpp:201-217 | a sequence of at most one frame forces the cursor to 0; every bone is posed at the integer frame and fraction of the cursor and chained to its parent; listeners and blend and controller values are unchanged |
| Animation.StudioModelAnimation.AdvanceAndProcessEvents | hl_mdlviewer/src/lib/hl1/hl1_studiomodel_animation.cpp:219-222 | the frame is the clock's result, listeners hear of a finished loop exactly when the clock reports one, and, only when the sequence has events, those of the integer frame are handled and their sounds played from the previous event frame (-1 after a finished loop); the transforms, the sequence, the rate and the controller values are unchanged |
| Animation.StudioModelAnimation.UpdateBindPose | hl_mdlviewer/src/lib/hl1/hl1_studiomodel_animation.cpp:224-232 | bind poses with controller adjustments, chained down the hierarchy |
| Animation.StudioModelAnimation.Update | hl_mdlviewer/src/lib/hl1/hl1_studiomodel_animation.cpp:197-233 | the transforms are the forward pass over the local poses; with sequences those are the animated poses, and the clock step, finish notices, events and sounds follow as in the animated path; without sequences they are the bind poses and the cursor, notices, handler state and sounds are unchanged; with parents first every transform is the root-to-bone product |
| Setup.AddBoneAndChildrenBonesToSet | hl_mdlviewer/src/lib/hl1/hl1_studiomodel_setup.cpp:178-184 | the set grows by exactly the bone's subtree |
| Setup.SubtreeIsDescendants | hl_mdlviewer/src/lib/hl1/hl1_studiomodel_setup.cpp:116-127 | in a skeleton, the subtree of b is exactly the bones whose ancestor chain reaches b |
| Setup.BoneVertices | hl_mdlviewer/src/lib/hl1/hl1_studiomodel_setup.cpp:522-528 | one zeroed vertex per bone carrying that bone's index |
| Setup.BuildBoneSegments | hl_mdlviewer/src/lib/hl1/hl1_studiomodel_setup.cpp:538-561 | appends the bone strip: a bone continuing from the previous one is pushed alone, any other bone as restart, parent, bone |
| Setup.BoneStripLength | hl_mdlviewer/src/lib/hl1/hl1_studiomodel_setup.cpp:545-560 | the strip has one entry per bone plus two per break |
| Setup.TrailingEntries | hl_mdlviewer/src/lib/hl1/hl1_studiomodel_setup.cpp:545-560 | each bone's own index appears in the strip, in bone order |
| Setup.FirstEntryIsBoneZero | hl_mdlviewer/src/lib/hl1/hl1_studiomodel_setup.cpp:542-551 | the strip starts with bone 0, never with a restart |
| Setup.BoneStripDrawsParentLinks | hl_mdlviewer/src/lib/hl1/hl1_studiomodel_setup.cpp:538-561 | in an addressable skeleton the strip draws exactly the parent-child segments |
| Setup.SetupBufferBones | hl_mdlviewer/src/lib/hl1/hl1_studiomodel_setup.cpp:520-536 | the stride records where they start, one vertex per bone and the strip's length; the earlier vertices are kept, one vertex per bone carries its index, and the indices gain the bone strip rebased by the vertex start |
| Setup.AttachmentBuffers | hl_mdlviewer/src/lib/hl1/hl1_studiomodel_setup.cpp:565-575 | one vertex per attachment at its position on its bone; the indices are exactly 0, 1, ..., n - 1 |
| Setup.SetupBufferAttachments | hl_mdlviewer/src/lib/hl1/hl1_studiomodel_setup.cpp:563-580 | the stride records where they start and how many; the earlier vertices are kept, the attachment vertices are appended, and the indices gain 0, 1, ..., n - 1 rebased by the vertex start |
| RenderData.StudioModelRenderData.constructor | hl_mdlviewer/src/lib/hl1/hl1_studiomodel_render_data.h:16-20 | no model choices, skin 0 |
| RenderData.StudioModelRenderData.Clear | hl_mdlviewer/src/lib/hl1/hl1_studiomodel_render_data.h:22-26 | no model choices, skin 0 |
| RenderData.StudioModelRenderData.Initialize | hl_mdlviewer/src/lib/hl1/hl1_studiomodel_render_data.h:28-36 | the given skin and model 0 for every bodypart |
| Render.SelectedMeshesMembers | hl_mdlviewer/src/lib/hl1/hl1_studiomodel_render.cpp:617-633 | a mesh is drawn iff it belongs to the chosen model of some bodypart |
| Render.SelectedMeshesInRange | hl_mdlviewer/src/lib/hl1/hl1_studiomodel_render.cpp:617-633 | every selected mesh index addresses a mesh |
| Render.CollectMeshesToRender | hl_mdlviewer/src/lib/hl1/hl1_studiomodel_render.cpp:617-633 | the nested loops collect the selected meshes, bodypart by bodypart, in order |
| Render.EffectiveTexture | hl_mdlviewer/src/lib/hl1/hl1_studiomodel_render.cpp:650-652 | a positive skin swaps in the texture's skin replacement when it has any; the result is a texture |
| Render.PassesInterleave | hl_mdlviewer/src/lib/hl1/hl1_studiomodel_render.cpp:643-658 | the additive and opaque passes are an order-preserving split of the mesh list |
| Render.PassesKeepEveryMesh | hl_mdlviewer/src/lib/hl1/hl1_studiomodel_render.cpp:643-658 | together the passes hold every mesh of the list, as many times as it appears |
| Render.PassesSortByBlendMode | hl_mdlviewer/src/lib/hl1/hl1_studiomodel_render.cpp:643-658 | the additive pass holds only additive meshes and the opaque pass only the rest |
| Render.SplitByBlendMode | hl_mdlviewer/src/lib/hl1/hl1_studiomodel_render.cpp:643-658 | the loop produces exactly the two passes |
| Render.OffsetBoneMatrices | hl_mdlviewer/src/lib/hl1/hl1_studiomodel_render.cpp:663-667 | min(bones, 128) matrices, each the bone's offset matrix |
| Render.WrapYaw | hl_mdlviewer/src/lib/hl1/hl1_studiomodel_render.cpp:275-287 | a yaw in [-pi, pi] is unchanged; otherwise one turn is added or removed |
| Render.YawStaysInRange | hl_mdlviewer/src/lib/hl1/hl1_studiomodel_render.cpp:275-287 | a step of at most one turn keeps the yaw in [-pi, pi] |
| Render.StudioModelRender.constructor | hl_mdlviewer/src/lib/render_view_settings.h:14-30 | empty lists and the default view settings |
| Render.StudioModelRender.UpdateOpaqueAndAdditiveTextures | hl_mdlviewer/src/lib/hl1/hl1_studiomodel_render.cpp:638-659 | the passes are recomputed from the mesh list and the current skin |
| Render.StudioModelRender.UpdateMeshesToRender | hl_mdlviewer/src/lib/hl1/hl1_studiomodel_render.cpp:611-636 | the mesh list becomes the current selection and the passes follow it |
| Render.StudioModelRender.SetModel | hl_mdlviewer/src/lib/hl1/hl1_studiomodel_render.cpp:677-682 | one bodypart's choice changes; the mesh list and passes follow |
| Render.StudioModelRender.SetSkin | hl_mdlviewer/src/lib/hl1/hl1_studiomodel_render.cpp:684-689 | the skin changes; the passes follow, the mesh list does not |
| Render.StudioModelRender.SetBonesTransform | hl_mdlviewer/src/lib/hl1/hl1_studiomodel_render.cpp:241-251 | the first min(n, 128) transforms are uploaded |
| Render.StudioModelRender.UpdateOffsetMatrices | hl_mdlviewer/src/lib/hl1/hl1_studiomodel_render.cpp:661-675 | the first min(bones, 128) offset matrices are uploaded |
| Render.StudioModelRender.OnModelChanged | hl_mdlviewer/src/lib/hl1/hl1_studiomodel_render.cpp:73-81 | skin 0, model 0 for every bodypart, the matching mesh list and passes, offset matrices uploaded; bone matrices and camera untouched |
| Render.StudioModelRender.SetZdistance | hl_mdlviewer/src/lib/hl1/hl1_studiomodel_render.h:88-90 | the camera distance is clamped to [znear, zfar] |
| Render.StudioModelRender.UpdateCameraDistance | hl_mdlviewer/src/lib/hl1/hl1_studiomodel_render.cpp:316-319 | the distance is added to the camera distance, then clamped to [znear, zfar]; meshes, passes, uploaded matrices, angles and pan unchanged, so the passes still agree with the skin |
| Render.StudioModelRender.UpdateCameraDistanceZoomStep | hl_mdlviewer/src/lib/hl1/hl1_studiomodel_render.cpp:321-326 | one step closer or farther, clamped to [znear, zfar]; meshes, passes, uploaded matrices, angles and pan unchanged, so the passes still agree |
| Render.StudioModelRender.UpdateAngles | hl_mdlviewer/src/lib/hl1/hl1_studiomodel_render.cpp:275-287 | pitch clamped to [-pi/2, pi/2], yaw wrapped, roll unchanged; camera distance, pan, meshes, passes and uploaded matrices unchanged, so the passes still agree |
| Render.StudioModelRender.ResetCamera | hl_mdlviewer/src/lib/hl1/hl1_studiomodel_render.cpp:328-333 | the distance is re-clamped to [znear, zfar]; angles and pan are zero; meshes, passes and uploaded matrices unchanged, so the passes still agree |
| Render.StudioModelRender.Reset | hl_mdlviewer/src/lib/hl1/hl1_studiomodel_render.cpp:83-88 | render data cleared and the camera reset; the mesh list, both passes and the uploaded matrices are kept |
| UI.MirrorModels | hl_mdlviewer/src/lib/hl1/hl1_ui_setup.cpp:29-37 | one entry per model of the bodypart, with its index and name |
| UI.Setup | hl_mdlviewer/src/lib/hl1/hl1_ui_setup.cpp:16-77 | bodyparts, models, sequences and skin count mirrored; bone controllers as 0..255 sliders resting at 128 with the mouth flag; blends as 0..255 sliders resting at 128 |
| UI.SlidersMatchControllers | hl_mdlviewer/src/lib/hl1/hl1_ui_setup.cpp:52-76 | the slider ends map to the controller's start and end, and the slider rest equals the channel and blend rest |
| ShaderParser.Find | hl_mdlviewer/src/lib/shader_parser.cpp:59 | the first occurrence at or after the start, or none |
| ShaderParser.FirstNonSpace | hl_mdlviewer/src/lib/shader_parser.cpp:64 | the first non-space position at or after the start, or none |
| ShaderParser.StripQuotes | hl_mdlviewer/src/lib/shader_parser.cpp:101-116 | appends the token's characters up to the closing quote, skipping quotes |
| ShaderParser.Join | hl_mdlviewer/src/lib/shader_parser.cpp:71-73 | the name is appended to the directory, never replacing it; a `/` is inserted exactly when both are non-empty and neither supplies one at the seam |
| ShaderParser.JoinKeepsDirectory | hl_mdlviewer/src/lib/shader_parser.cpp:71-73 | `/common.glsl` appended to `shaders` is `shaders/common.glsl`, as are `common.glsl` appended to `shaders` and to `shaders/`; an empty name leaves `shaders` |
| ShaderParser.IncludeTarget | hl_mdlviewer/src/lib/shader_parser.cpp:64-74 | the included path is the parent directory with the unquoted token after `#include` appended to it, or nothing when only spaces follow |
| ShaderParser.AppendLine | hl_mdlviewer/src/lib/shader_parser.cpp:85-88 | a plain line is appended with a newline, and the output stays the flattened lines emitted so far |
| ShaderParser.UnquotedTokenCopiedWhole | hl_mdlviewer/src/lib/shader_parser.cpp:101-116 | a token without quotes is copied whole |
| ShaderParser.QuotedNameStripped | hl_mdlviewer/src/lib/shader_parser.cpp:101-116 | `"name"` followed by anything gives `name` |
| ShaderParser.ParseFile | hl_mdlviewer/src/lib/shader_parser.cpp:31-99 | reference definition: a missing file fails, an included file adds nothing, otherwise lines are spliced in order |
| ShaderParser.MissingFileFailsFirst | hl_mdlviewer/src/lib/shader_parser.cpp:37-38 | a missing file fails even when already included |
| ShaderParser.IncludedFileContributesNothing | hl_mdlviewer/src/lib/shader_parser.cpp:40-41 | a file already included adds no line |
| ShaderParser.ParseFileSound | hl_mdlviewer/src/lib/shader_parser.cpp:31-99 | on success each file is included once, and every output line comes from an included file |
| ShaderParser.NoIncludesCopiesPlainLines | hl_mdlviewer/src/lib/shader_parser.cpp:51-89 | a file without includes gives its non-blank lines, in order |
| ShaderParser.ParseRecursively | hl_mdlviewer/src/lib/shader_parser.cpp:31-99 | the method agrees with the reference definition: on success the output gains the flattened lines and the include set is the one computed; on failure the error is reported |
| ShaderParser.Parse | hl_mdlviewer/src/lib/shader_parser.cpp:21-29 | starts from an empty include set and agrees with the reference definition |

## Left out

- Floating-point rounding: floats are exact reals. Constants such as 0.1f and pi are the exact values of the single-precision numbers the source uses.
- Slerp, Euler-angle conversion, `mat4_cast` and matrix products are not computed. A pose is a symbolic term naming its key frame, blend tracks, weights and controller adjustments. A transform is the list of local poses from the root.
- OpenGL, Assimp loading, textures, uniform buffers, the nanogui view and the presenter: these are I/O or foreign calls. `set_sequence_bounds`, `set_scene_transform` and the render flags only feed GL and are not part of this model.
- `update_pan`: it uses `tan` of the field of view, which has no exact real model.
- Sound playback is an external call. Played names are recorded in a ghost log.
- `StudioModelBuffer::clear` in the renderer's reset only releases GL buffers. It is not modelled.
- Hitbox buffers and the rest of model loading are not part of this model. `hl1_studiomodel_setup.cpp` is modelled only for the subtree collection, the bone and attachment buffers, and the bone links it builds.
- File-system search: `find_file` with its search paths, path normalisation and Windows separators are not modelled. The file system is a map from path to lines, and the included path is the parent directory with the name appended as the Filesystem TS `append` does, a `/` separating them only where neither side supplies one.
- The `ShaderParser` class is modelled as module methods taking the file system as a parameter.
- ShaderParser.ParseRecursively: on failure the partial output is stated only as an extension of the input. The C++ exception unwinds with whatever was appended. Exception slicing in the rethrow is not modelled.
- Render.StudioModelRender.SetSkin: requires the skin to address every texture's skin list. An out-of-range skin indexes past the vector, which is undefined behaviour in the source.
- Render.StudioModelRender.OnModelChanged: requires at least one bodypart. The source writes `render_data_.model[0]` unconditionally.
- GLM default-constructed matrices are modelled as empty transforms.
- `std::list` listeners are a sequence; only the event handler is registered by the source.
- The `on_change_sequence` and `on_sequence_finished` sequence-pointer arguments are unused by the handler and are not modelled.
- `Attachment::bone` is a pointer in the source. Here it is the bone's index, the value the source reads through it.
- Setup.BuildBoneSegments: the C++ pushes an `int` into a `vector<unsigned>`. The model converts through `ToU32`. Its proof of the parent-link drawing assumes fewer than 2^32 - 1 bones, so no index reaches the restart marker.
