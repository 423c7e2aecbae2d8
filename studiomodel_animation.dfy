/**
 * `StudioModelAnimation` (hl1_studiomodel_animation.cpp): the animation session that owns
 * the animation data, drives the frame clock, poses every bone once per update and
 * notifies its sequence listeners. Listener calls are recorded in a ghost log.
 */
module Animation {
  import opened MathFunctions
  import opened CppTypes
  import opened Studio
  import opened AnimationData
  import opened EventHandling
  import opened FrameClock
  import opened BonePoses

  /** A registered `SequenceListener`; the viewer registers only the event handler. */
  datatype Listener = EventHandlerListener | ExternalListener(id: int)

  /** One listener call, with the sequences passed to it by index. */
  datatype Notification =
    | ChangedSequence(listener: Listener, oldSequence: int, newSequence: int)
    | FinishedSequence(listener: Listener, sequence: int)

  /** `on_change_sequence` to every listener, in registration order. */
  function ChangeNotices(listeners: seq<Listener>, oldSequence: int, newSequence: int): (r: seq<Notification>)
    ensures |r| == |listeners|
    ensures forall i :: 0 <= i < |r| ==> r[i] == ChangedSequence(listeners[i], oldSequence, newSequence)
  {
    if listeners == [] then []
    else ChangeNotices(listeners[..|listeners| - 1], oldSequence, newSequence)
         + [ChangedSequence(listeners[|listeners| - 1], oldSequence, newSequence)]
  }

  /** `on_sequence_finished` to every listener, in registration order. */
  function FinishNotices(listeners: seq<Listener>, sequence: int): (r: seq<Notification>)
    ensures |r| == |listeners|
    ensures forall i :: 0 <= i < |r| ==> r[i] == FinishedSequence(listeners[i], sequence)
  {
    if listeners == [] then []
    else FinishNotices(listeners[..|listeners| - 1], sequence) + [FinishedSequence(listeners[|listeners| - 1], sequence)]
  }

  /**
   * The cursor `update` poses from: `num_frames` is converted to `unsigned` before the
   * `<= 1` test, so only 0 and 1 force frame 0 (a negative count becomes a huge one).
   */
  function StartFrame(numFrames: int, frame: real): (r: real)
    ensures 0 <= numFrames <= 1 ==> r == 0.0
    ensures (-0x8000_0000 <= numFrames < 0 || 1 < numFrames < 0x8000_0000) ==> r == frame
  {
    assert -0x8000_0000 <= numFrames < 0 ==> ToU32(numFrames) as int == numFrames + TWO_TO_32;
    if 0 <= ToU32(numFrames) as int <= 1 then 0.0 else frame
  }

  /** Every bone's controllers exist and have channels. */
  predicate AllControllersReachable(bones: seq<Bone>, controllers: seq<BoneController>, channels: seq<BoneControllerChannel>)
  {
    forall i :: 0 <= i < |bones| ==> ControllersReachable(bones[i], controllers, channels)
  }

  /** The local poses `setup_animated_bone_transform` gives each bone. */
  function AnimatedLocals(bones: seq<Bone>, controllers: seq<BoneController>, channels: seq<BoneControllerChannel>,
                          numBlends: nat, frame: int, s: real, blends: seq<u8>): (r: seq<Pose>)
    requires AllControllersReachable(bones, controllers, channels) && BlendsReadable(numBlends, |blends|)
    ensures |r| == |bones|
  {
    seq(|bones|, i requires 0 <= i < |bones| =>
      AnimatedPose(bones[i].index, numBlends, frame, s, Adjustments(bones[i], controllers, channels), blends))
  }

  /** The local poses `setup_bind_pose_bone_transform` gives each bone. */
  function BindLocals(bones: seq<Bone>, controllers: seq<BoneController>, channels: seq<BoneControllerChannel>): (r: seq<Pose>)
    requires AllControllersReachable(bones, controllers, channels)
    ensures |r| == |bones|
  {
    seq(|bones|, i requires 0 <= i < |bones| => BindPose(bones[i].index, Adjustments(bones[i], controllers, channels)))
  }

  /** The index and parent of every bone of a well-formed array address its slots. */
  lemma WellFormedAddressable(bones: seq<Bone>, n: nat)
    requires WellFormedBones(bones, n)
    ensures SlotsAddressable(bones, |bones|)
  {
  }

  class StudioModelAnimation {
    const model: StudioModel
    const data: StudioModelAnimationData
    const handler: AnimationEventHandler
    var listeners: seq<Listener>
    var bonesTransform: seq<Transform>
    /** Every listener call made, oldest first. */
    ghost var notifications: seq<Notification>

    /** The constructor registers the event handler first, and listeners are never removed. */
    ghost predicate Valid()
      reads this
    {
      |listeners| >= 1 && listeners[0] == EventHandlerListener
    }

    /** What `update` relies on: a well-formed model, a slot per bone, a channel per controller, a valid sequence. */
    ghost predicate Ready()
      reads this, model, data
    {
      && WellFormedBones(model.bones, |model.boneControllers|)
      && |bonesTransform| == |model.bones|
      && (forall c :: 0 <= c < |model.boneControllers| ==> 0 <= model.boneControllers[c].index < |data.boneControllers|)
      && (|model.sequences| > 0 ==>
            0 <= data.sequence < |model.sequences|
            && BlendsReadable(model.sequences[data.sequence].numBlends, |data.blendControllers|))
    }

    constructor (model: StudioModel, handler: AnimationEventHandler)
      ensures Valid() && listeners == [EventHandlerListener]
      ensures this.model == model && this.handler == handler && fresh(data)
      ensures data.sequence == 0 && data.frame == 0.0 && data.playbackRate == 1.0
      ensures data.boneControllers == [] && data.blendControllers == []
      ensures bonesTransform == [] && notifications == []
    {
      this.model := model;
      this.handler := handler;
      data := new StudioModelAnimationData();
      listeners := [];
      bonesTransform := [];
      notifications := [];
      new;
      AddListener(EventHandlerListener);
    }

    /** `add_listener`: appends; the listener is notified after all earlier ones. */
    method AddListener(listener: Listener)
      modifies this
      ensures listeners == old(listeners) + [listener]
      ensures bonesTransform == old(bonesTransform) && notifications == old(notifications)
    {
      listeners := listeners + [listener];
    }

    /** `reset`: clears the animation data. */
    method Reset()
      modifies data
      ensures data.sequence == 0 && data.frame == 0.0 && data.boneControllers == [] && data.blendControllers == []
      ensures data.playbackRate == old(data.playbackRate)
    {
      data.Clear();
    }

    /** `on_model_changed`: sequence 0 at frame 0, fresh channels, and a slot per bone. */
    method OnModelChanged()
      modifies this, data
      ensures data.sequence == 0 && data.frame == 0.0 && data.playbackRate == old(data.playbackRate)
      ensures |data.boneControllers| == |model.boneControllers|
      ensures forall i :: 0 <= i < |data.boneControllers| ==> data.boneControllers[i] == REST_CHANNEL
      ensures |data.blendControllers| == model.stats.numBlendControllers as int
      ensures forall i :: 0 <= i < |data.blendControllers| ==> data.blendControllers[i] == BLEND_REST
      ensures bonesTransform == Resize(old(bonesTransform), |model.bones|, [])
      ensures listeners == old(listeners) && notifications == old(notifications)
    {
      data.Initialize(0, 0.0, |model.boneControllers|, model.stats.numBlendControllers as nat);
      bonesTransform := Resize(bonesTransform, |model.bones|, []);
    }

    /** Calls `on_change_sequence(old, new)` on every listener, in order. */
    method NotifyChangeSequence(oldSequence: int, newSequence: int)
      requires Valid()
      modifies this, handler
      ensures Valid() && listeners == old(listeners) && bonesTransform == old(bonesTransform)
      ensures notifications == old(notifications) + ChangeNotices(listeners, oldSequence, newSequence)
      ensures handler.lastEventFrame == -1
      ensures handler.playedSounds == old(handler.playedSounds) && handler.handledEvents == old(handler.handledEvents)
    {
      for i := 0 to |listeners|
        invariant Valid() && listeners == old(listeners) && bonesTransform == old(bonesTransform)
        invariant notifications == old(notifications) + ChangeNotices(listeners[..i], oldSequence, newSequence)
        invariant handler.lastEventFrame == if i == 0 then old(handler.lastEventFrame) else -1
        invariant handler.playedSounds == old(handler.playedSounds) && handler.handledEvents == old(handler.handledEvents)
      {
        assert listeners[..i + 1][..i] == listeners[..i];
        notifications := notifications + [ChangedSequence(listeners[i], oldSequence, newSequence)];
        if listeners[i] == EventHandlerListener {
          handler.OnChangeSequence();
        }
      }
      assert listeners[..|listeners|] == listeners;
    }

    /** Calls `on_sequence_finished` on every listener, in order. */
    method NotifySequenceFinished(sequence: int)
      requires Valid()
      modifies this, handler
      ensures Valid() && listeners == old(listeners) && bonesTransform == old(bonesTransform)
      ensures notifications == old(notifications) + FinishNotices(listeners, sequence)
      ensures handler.lastEventFrame == -1
      ensures handler.playedSounds == old(handler.playedSounds) && handler.handledEvents == old(handler.handledEvents)
    {
      for i := 0 to |listeners|
        invariant Valid() && listeners == old(listeners) && bonesTransform == old(bonesTransform)
        invariant notifications == old(notifications) + FinishNotices(listeners[..i], sequence)
        invariant handler.lastEventFrame == if i == 0 then old(handler.lastEventFrame) else -1
        invariant handler.playedSounds == old(handler.playedSounds) && handler.handledEvents == old(handler.handledEvents)
      {
        assert listeners[..i + 1][..i] == listeners[..i];
        notifications := notifications + [FinishedSequence(listeners[i], sequence)];
        if listeners[i] == EventHandlerListener {
          handler.OnSequenceFinished();
        }
      }
      assert listeners[..|listeners|] == listeners;
    }

    /** `set_sequence`: new sequence at frame 0, then every listener hears of the change. */
    method SetSequence(value: int)
      requires Valid()
      requires 0 <= value < |model.sequences| && 0 <= data.sequence < |model.sequences|
      modifies this, data, handler
      ensures data.sequence == value && data.frame == 0.0 && data.playbackRate == old(data.playbackRate)
      ensures data.boneControllers == old(data.boneControllers) && data.blendControllers == old(data.blendControllers)
      ensures Valid() && listeners == old(listeners) && bonesTransform == old(bonesTransform)
      ensures notifications == old(notifications) + ChangeNotices(listeners, old(data.sequence), value)
      ensures handler.lastEventFrame == -1
      ensures handler.playedSounds == old(handler.playedSounds) && handler.handledEvents == old(handler.handledEvents)
    {
      var oldSequence := data.sequence;
      data.sequence := value;
      data.frame := 0.0;
      NotifyChangeSequence(oldSequence, value);
    }

    /** `set_playback_rate`. */
    method SetPlaybackRate(value: real)
      modifies data
      ensures data.playbackRate == value
      ensures data.sequence == old(data.sequence) && data.frame == old(data.frame)
      ensures data.boneControllers == old(data.boneControllers) && data.blendControllers == old(data.blendControllers)
    {
      data.playbackRate := value;
    }

    /** `set_frame`: any value, even outside the sequence. */
    method SetFrame(value: real)
      modifies data
      ensures data.frame == value
      ensures data.sequence == old(data.sequence) && data.playbackRate == old(data.playbackRate)
      ensures data.boneControllers == old(data.boneControllers) && data.blendControllers == old(data.blendControllers)
    {
      data.frame := value;
    }

    /** `set_blending(index, value)`. */
    method SetBlending(index: int, value: u8)
      requires 0 <= index < |data.blendControllers|
      modifies data
      ensures data.blendControllers == old(data.blendControllers)[index := value]
      ensures data.sequence == old(data.sequence) && data.frame == old(data.frame)
      ensures data.playbackRate == old(data.playbackRate) && data.boneControllers == old(data.boneControllers)
    {
      data.blendControllers := data.blendControllers[index := value];
    }

    /** `set_bone_controller(index, value)`: the channel of the same index takes the controller's mapping of value. */
    method SetBoneController(index: int, value: real)
      requires 0 <= index < |data.boneControllers| && index < |model.boneControllers|
      modifies data
      ensures data.boneControllers
           == old(data.boneControllers)[index := old(data.boneControllers)[index].SetValue(model.boneControllers[index], value)]
      ensures data.sequence == old(data.sequence) && data.frame == old(data.frame)
      ensures data.playbackRate == old(data.playbackRate) && data.blendControllers == old(data.blendControllers)
    {
      data.boneControllers := data.boneControllers[index := data.boneControllers[index].SetValue(model.boneControllers[index], value)];
    }

    /** The bone loop: each bone's slot gets its local pose, then its parent's slot times it. */
    method PoseBones(locals: seq<Pose>)
      requires |locals| == |model.bones| && SlotsAddressable(model.bones, |bonesTransform|)
      modifies this
      ensures bonesTransform == ForwardPass(model.bones, locals, old(bonesTransform), |model.bones|)
      ensures listeners == old(listeners) && notifications == old(notifications)
    {
      var bones := model.bones;
      for i := 0 to |bones|
        invariant listeners == old(listeners) && notifications == old(notifications)
        invariant bonesTransform == ForwardPass(bones, locals, old(bonesTransform), i)
      {
        var bone := bones[i];
        bonesTransform := bonesTransform[bone.index := [locals[i]]];
        if bone.HasParent() {
          bonesTransform := bonesTransform[bone.index := Compose(bonesTransform[bone.parentIndex], bonesTransform[bone.index])];
        }
      }
    }

    /** `advance_frame`: moves the cursor and, when the sequence finished, tells every listener. */
    method AdvanceSequenceFrame(sequence: Sequence, frameTime: real)
      requires Valid()
      modifies this, data, handler
      ensures var a := AdvanceFrame(sequence.numFrames, sequence.fps, old(data.frame), old(data.playbackRate), frameTime);
        && data.frame == a.frame
        && notifications == old(notifications) + (if a.finished then FinishNotices(listeners, data.sequence) else [])
        && handler.lastEventFrame == (if a.finished then -1 else old(handler.lastEventFrame))
      ensures data.sequence == old(data.sequence) && data.playbackRate == old(data.playbackRate)
      ensures data.boneControllers == old(data.boneControllers) && data.blendControllers == old(data.blendControllers)
      ensures Valid() && listeners == old(listeners) && bonesTransform == old(bonesTransform)
      ensures handler.playedSounds == old(handler.playedSounds) && handler.handledEvents == old(handler.handledEvents)
    {
      var a := AdvanceFrame(sequence.numFrames, sequence.fps, data.frame, data.playbackRate, frameTime);
      data.frame := a.frame;
      if a.finished {
        NotifySequenceFinished(data.sequence);
      }
    }

    /**
     * The clock step and the event pass of `update`, from cursor `frame` and the listener
     * log and handler state given: the cursor is the clock's result, listeners hear of a
     * finished loop exactly when the clock reports one, and, when the sequence has events,
     * those of `iFrame` are handled and their sounds played from the handler's event
     * frame (-1 after a finished loop).
     */
    ghost predicate ClockAndEvents(sequence: Sequence, frame: real, frameTime: real, iFrame: int,
                                   notifications0: seq<Notification>, lastEventFrame0: int,
                                   handled0: seq<AnimationEvent>, played0: seq<string>)
      reads this, data, handler
    {
      var a := AdvanceFrame(sequence.numFrames, sequence.fps, frame, data.playbackRate, frameTime);
      var last := if a.finished then -1 else lastEventFrame0;
      && data.frame == a.frame
      && notifications == notifications0 + (if a.finished then FinishNotices(listeners, data.sequence) else [])
      && handler.lastEventFrame == (if sequence.events != [] then NextLastEventFrame(last, sequence.events, iFrame) else last)
      && handler.handledEvents == handled0 + (if sequence.events != [] then EventsHandled(last, sequence.events, iFrame) else [])
      && handler.playedSounds == played0
           + (if sequence.events != [] then SoundsOfAll(EventsHandled(last, sequence.events, iFrame), handler.hasSoundSystem) else [])
    }

    /**
     * What `update` does when the model has sequences, from cursor `frame0` and the
     * listener log and handler state given: the local poses are the animated poses at the
     * integer frame and fraction of the (possibly forced) cursor, and from that cursor the
     * clock steps and the events of the integer frame are processed.
     */
    ghost predicate AnimatedOutcome(frameTime: real, locals: seq<Pose>, frame0: real,
                                    notifications0: seq<Notification>, lastEventFrame0: int,
                                    handled0: seq<AnimationEvent>, played0: seq<string>)
      reads this, model, data, handler
    {
      && 0 <= data.sequence < |model.sequences|
      && AllControllersReachable(model.bones, model.boneControllers, data.boneControllers)
      && var sequence := model.sequences[data.sequence];
        var frame := StartFrame(sequence.numFrames, frame0);
        var iFrame := TruncToInt(frame);
        && BlendsReadable(sequence.numBlends, |data.blendControllers|)
        && locals == AnimatedLocals(model.bones, model.boneControllers, data.boneControllers, sequence.numBlends,
                                    iFrame, frame - iFrame as real, data.blendControllers)
        && ClockAndEvents(sequence, frame, frameTime, iFrame, notifications0, lastEventFrame0, handled0, played0)
    }

    /**
     * `update(frame_time)` with sequences: poses every bone at the integer frame and
     * fraction of the (possibly forced) cursor, advances the clock, and then hands the
     * events of the integer frame to the event handler, which a finished sequence has
     * already reset.
     */
    method UpdateAnimated(frameTime: real) returns (ghost locals: seq<Pose>)
      requires Valid() && Ready() && |model.sequences| > 0
      modifies this, data, handler
      ensures Valid() && listeners == old(listeners)
      ensures data.sequence == old(data.sequence) && data.playbackRate == old(data.playbackRate)
      ensures data.boneControllers == old(data.boneControllers) && data.blendControllers == old(data.blendControllers)
      ensures AllControllersReachable(model.bones, model.boneControllers, data.boneControllers)
      ensures SlotsAddressable(model.bones, |old(bonesTransform)|)
      ensures |locals| == |model.bones| && bonesTransform == ForwardPass(model.bones, locals, old(bonesTransform), |model.bones|)
      ensures AnimatedOutcome(frameTime, locals, old(data.frame), old(notifications),
                                      old(handler.lastEventFrame), old(handler.handledEvents), old(handler.playedSounds))
    {
      var sequence := model.sequences[data.sequence];
      var iFrame;
      iFrame, locals := PoseAtCursor(sequence);
      ghost var frame := data.frame;
      ghost var bones, controllers, channels, blends := model.bones, model.boneControllers, data.boneControllers, data.blendControllers;
      assert locals == AnimatedLocals(bones, controllers, channels, sequence.numBlends, iFrame, frame - iFrame as real, blends);
      AdvanceAndProcessEvents(sequence, frameTime, iFrame);
      assert ClockAndEvents(sequence, frame, frameTime, iFrame, old(notifications),
                            old(handler.lastEventFrame), old(handler.handledEvents), old(handler.playedSounds));
      assert bones == model.bones && controllers == model.boneControllers;
      assert channels == data.boneControllers && blends == data.blendControllers;
      assert AnimatedOutcome(frameTime, locals, old(data.frame), old(notifications),
                             old(handler.lastEventFrame), old(handler.handledEvents), old(handler.playedSounds));
    }

    /**
     * The head of `update` with sequences: the cursor is forced to the start of a single
     * frame sequence, and every bone is posed at its integer frame and fraction.
     */
    method PoseAtCursor(sequence: Sequence) returns (iFrame: int, ghost locals: seq<Pose>)
      requires Valid() && Ready() && |model.sequences| > 0 && sequence == model.sequences[data.sequence]
      modifies this, data
      ensures Valid() && listeners == old(listeners) && notifications == old(notifications)
      ensures data.sequence == old(data.sequence) && data.playbackRate == old(data.playbackRate)
      ensures data.boneControllers == old(data.boneControllers) && data.blendControllers == old(data.blendControllers)
      ensures AllControllersReachable(model.bones, model.boneControllers, data.boneControllers)
      ensures BlendsReadable(sequence.numBlends, |data.blendControllers|)
      ensures SlotsAddressable(model.bones, |old(bonesTransform)|)
      ensures data.frame == StartFrame(sequence.numFrames, old(data.frame)) && iFrame == TruncToInt(data.frame)
      ensures locals == AnimatedLocals(model.bones, model.boneControllers, data.boneControllers, sequence.numBlends,
                                       iFrame, data.frame - iFrame as real, data.blendControllers)
      ensures |locals| == |model.bones| && bonesTransform == ForwardPass(model.bones, locals, old(bonesTransform), |model.bones|)
    {
      WellFormedAddressable(model.bones, |model.boneControllers|);
      data.frame := StartFrame(sequence.numFrames, data.frame);
      iFrame := TruncToInt(data.frame);
      var s := data.frame - iFrame as real;
      var poses := AnimatedLocals(model.bones, model.boneControllers, data.boneControllers, sequence.numBlends,
                                  iFrame, s, data.blendControllers);
      locals := poses;
      PoseBones(poses);
    }

    /** The tail of `update`: the clock advances, then the events of the integer frame are processed. */
    method AdvanceAndProcessEvents(sequence: Sequence, frameTime: real, iFrame: int)
      requires Valid()
      modifies this, data, handler
      ensures ClockAndEvents(sequence, old(data.frame), frameTime, iFrame, old(notifications),
                             old(handler.lastEventFrame), old(handler.handledEvents), old(handler.playedSounds))
      ensures data.sequence == old(data.sequence) && data.playbackRate == old(data.playbackRate)
      ensures data.boneControllers == old(data.boneControllers) && data.blendControllers == old(data.blendControllers)
      ensures Valid() && listeners == old(listeners) && bonesTransform == old(bonesTransform)
    {
      AdvanceSequenceFrame(sequence, frameTime);
      if |sequence.events| > 0 {
        handler.ProcessEvents(sequence, iFrame);
      }
    }

    /** `update(frame_time)` without sequences: the bind pose, and nothing else changes. */
    method UpdateBindPose() returns (ghost locals: seq<Pose>)
      requires Ready()
      modifies this
      ensures listeners == old(listeners) && notifications == old(notifications)
      ensures AllControllersReachable(model.bones, model.boneControllers, data.boneControllers)
      ensures SlotsAddressable(model.bones, |old(bonesTransform)|)
      ensures locals == BindLocals(model.bones, model.boneControllers, data.boneControllers)
      ensures bonesTransform == ForwardPass(model.bones, locals, old(bonesTransform), |model.bones|)
    {
      WellFormedAddressable(model.bones, |model.boneControllers|);
      var poses := BindLocals(model.bones, model.boneControllers, data.boneControllers);
      locals := poses;
      PoseBones(poses);
    }

    /**
     * `update(frame_time)`: the animated path when the model has sequences, the bind pose
     * otherwise; either way, when parents precede children every slot ends as its
     * parent's slot times its local pose.
     */
    method Update(frameTime: real) returns (ghost locals: seq<Pose>)
      requires Valid() && Ready()
      modifies this, data, handler
      ensures Valid() && listeners == old(listeners)
      ensures |locals| == |model.bones| && bonesTransform == ForwardPass(model.bones, locals, old(bonesTransform), |model.bones|)
      ensures data.sequence == old(data.sequence) && data.playbackRate == old(data.playbackRate)
      ensures data.boneControllers == old(data.boneControllers) && data.blendControllers == old(data.blendControllers)
      ensures AllControllersReachable(model.bones, model.boneControllers, data.boneControllers)
      ensures SlotsAddressable(model.bones, |old(bonesTransform)|)
      ensures |model.sequences| > 0 ==> AnimatedOutcome(frameTime, locals, old(data.frame), old(notifications),
                                      old(handler.lastEventFrame), old(handler.handledEvents), old(handler.playedSounds))
      ensures |model.sequences| == 0 ==>
        && locals == BindLocals(model.bones, model.boneControllers, data.boneControllers)
        && data.frame == old(data.frame) && notifications == old(notifications)
        && handler.lastEventFrame == old(handler.lastEventFrame) && handler.handledEvents == old(handler.handledEvents)
        && handler.playedSounds == old(handler.playedSounds)
      ensures ParentsPrecedeChildren(model.bones) ==>
        (|bonesTransform| == |model.bones| &&
         exists locals :: |locals| == |model.bones| && IsHierarchy(model.bones, locals, bonesTransform))
    {
      if |model.sequences| > 0 {
        locals := UpdateAnimated(frameTime);
        if ParentsPrecedeChildren(model.bones) {
          ForwardPassBuildsHierarchy(model.bones, locals, old(bonesTransform), |model.boneControllers|);
        }
      } else {
        locals := UpdateBindPose();
        if ParentsPrecedeChildren(model.bones) {
          ForwardPassBuildsHierarchy(model.bones, locals, old(bonesTransform), |model.boneControllers|);
        }
      }
    }
  }
}
