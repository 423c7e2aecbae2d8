/**
 * The animation event dispatcher of hl1_animation_event_handler.cpp: a one-field state
 * machine whose `last_event_frame_` (sentinel -1) makes each frame's events fire once.
 * Sound playback is recorded in a ghost log of the tokens passed to `play_sound`.
 */
module EventHandling {
  import opened Studio

  /** The text `std::string::c_str()` exposes to a `char*` walk: everything before the first NUL. */
  function CString(s: string): (r: string)
    ensures |r| <= |s| && r == s[..|r|]
    ensures '\0' !in r
    ensures |r| < |s| ==> s[|r|] == '\0'
  {
    if s == [] || s[0] == '\0' then [] else [s[0]] + CString(s[1..])
  }

  /** The token with its maximal leading run of '*' removed. */
  function StripStars(s: string): (r: string)
    ensures |r| <= |s| && r == s[|s| - |r|..]
    ensures forall i :: 0 <= i < |s| - |r| ==> s[i] == '*'
    ensures r != [] ==> r[0] != '*'
  {
    if s != [] && s[0] == '*' then StripStars(s[1..]) else s
  }

  /** A token made only of '*' leaves nothing, and the empty token is what gets played. */
  lemma AllStarsStripToEmpty(s: string)
    requires forall i :: 0 <= i < |s| ==> s[i] == '*'
    ensures StripStars(s) == []
  {
  }

  /** The pointer walk of `handle_event`: advance past '*' until the terminator. */
  method SkipStars(token: string) returns (rest: string)
    requires '\0' !in token
    ensures rest == StripStars(token)
  {
    var pc := 0;
    while pc < |token| && token[pc] == '*'
      invariant 0 <= pc <= |token|
      invariant StripStars(token[pc..]) == StripStars(token)
    {
      assert token[pc..][1..] == token[pc + 1..];
      pc := pc + 1;
    }
    rest := token[pc..];
  }

  /** The tokens `handle_event(event)` passes to `play_sound`: one, or none. */
  function SoundsOf(event: AnimationEvent, hasSoundSystem: bool): seq<string>
  {
    var token := CString(event.options);
    if event.event == SCRIPT_EVENT_SOUND && hasSoundSystem && token != [] then [StripStars(token)] else []
  }

  /** The events of a list whose frame is `frame`, in list order. */
  function MatchingEvents(events: seq<AnimationEvent>, frame: int): (r: seq<AnimationEvent>)
    ensures |r| <= |events|
  {
    if events == [] then []
    else
      var rest := MatchingEvents(events[1..], frame);
      if events[0].frame == frame then [events[0]] + rest else rest
  }

  /** The matching events are exactly the list's events of that frame. */
  lemma {:induction false} MatchingEventsMembers(events: seq<AnimationEvent>, frame: int)
    ensures forall e :: e in MatchingEvents(events, frame) <==> e in events && e.frame == frame
  {
    if events != [] {
      MatchingEventsMembers(events[1..], frame);
      assert forall e :: e in events <==> e == events[0] || e in events[1..];
    }
  }

  /** The sounds of a list of handled events, in order. */
  function SoundsOfAll(events: seq<AnimationEvent>, hasSoundSystem: bool): (r: seq<string>)
    ensures |r| <= |events|
  {
    if events == [] then [] else SoundsOf(events[0], hasSoundSystem) + SoundsOfAll(events[1..], hasSoundSystem)
  }

  /** The events `process_events(sequence, frame)` hands to `handle_event`. */
  function EventsHandled(lastEventFrame: int, events: seq<AnimationEvent>, frame: int): seq<AnimationEvent>
  {
    if lastEventFrame < frame then MatchingEvents(events, frame) else []
  }

  /** `last_event_frame_` after `process_events(sequence, frame)`. */
  function NextLastEventFrame(lastEventFrame: int, events: seq<AnimationEvent>, frame: int): (r: int)
    ensures r == frame <==> lastEventFrame == frame || EventsHandled(lastEventFrame, events, frame) != []
    ensures r != frame ==> r == lastEventFrame
    ensures r >= lastEventFrame
  {
    if lastEventFrame < frame && MatchingEvents(events, frame) != [] then frame else lastEventFrame
  }

  /** A frame at or before the last one that fired handles nothing. */
  lemma {:induction false} StaleFrameHandlesNothing(lastEventFrame: int, events: seq<AnimationEvent>, frame: int)
    requires frame <= lastEventFrame
    ensures EventsHandled(lastEventFrame, events, frame) == []
    ensures NextLastEventFrame(lastEventFrame, events, frame) == lastEventFrame
  {
  }

  /** A second `process_events` with the same frame handles nothing, whatever the first did. */
  lemma {:induction false} EventsFireOncePerFrame(lastEventFrame: int, events: seq<AnimationEvent>, frame: int)
    ensures EventsHandled(NextLastEventFrame(lastEventFrame, events, frame), events, frame) == []
  {
    var next := NextLastEventFrame(lastEventFrame, events, frame);
    if next < frame {
      assert MatchingEvents(events, frame) == [];
    }
  }

  /** Every event whose frame is f is handled by the first call at f after a reset. */
  lemma {:induction false} ResetHandlesAllMatching(events: seq<AnimationEvent>, frame: int, e: AnimationEvent)
    requires frame >= 0 && e in events && e.frame == frame
    ensures e in EventsHandled(-1, events, frame)
    ensures NextLastEventFrame(-1, events, frame) == frame
  {
    MatchingEventsMembers(events, frame);
  }

  /** `AnimationEventHandler`; the sound system is present or not for the handler's lifetime. */
  class AnimationEventHandler {
    var lastEventFrame: int
    const hasSoundSystem: bool
    /** Every token passed to `play_sound`, oldest first. */
    ghost var playedSounds: seq<string>
    /** Every event passed to `handle_event`, oldest first. */
    ghost var handledEvents: seq<AnimationEvent>

    constructor (hasSoundSystem: bool)
      ensures lastEventFrame == -1 && this.hasSoundSystem == hasSoundSystem
      ensures playedSounds == [] && handledEvents == []
    {
      lastEventFrame := -1;
      this.hasSoundSystem := hasSoundSystem;
      playedSounds := [];
      handledEvents := [];
    }

    /** `on_change_sequence`: the sequences passed in are not used. */
    method OnChangeSequence()
      modifies this
      ensures lastEventFrame == -1
      ensures playedSounds == old(playedSounds) && handledEvents == old(handledEvents)
    {
      lastEventFrame := -1;
    }

    /** `on_sequence_finished`. */
    method OnSequenceFinished()
      modifies this
      ensures lastEventFrame == -1
      ensures playedSounds == old(playedSounds) && handledEvents == old(handledEvents)
    {
      lastEventFrame := -1;
    }

    /** `handle_event`: plays the de-starred token of a non-empty sound event. */
    method HandleEvent(event: AnimationEvent)
      modifies this
      ensures lastEventFrame == old(lastEventFrame)
      ensures handledEvents == old(handledEvents) + [event]
      ensures playedSounds == old(playedSounds) + SoundsOf(event, hasSoundSystem)
    {
      handledEvents := handledEvents + [event];
      if event.event == SCRIPT_EVENT_SOUND {
        if hasSoundSystem {
          var token := CString(event.options);
          if token != [] {
            var pc := SkipStars(token);
            playedSounds := playedSounds + [pc];
          }
        }
      }
    }

    /** `process_events`: handles, in list order, each event of `frame`, once per frame. */
    method ProcessEvents(sequence: Sequence, frame: int)
      modifies this
      ensures lastEventFrame == NextLastEventFrame(old(lastEventFrame), sequence.events, frame)
      ensures handledEvents == old(handledEvents) + EventsHandled(old(lastEventFrame), sequence.events, frame)
      ensures playedSounds == old(playedSounds)
                           + SoundsOfAll(EventsHandled(old(lastEventFrame), sequence.events, frame), hasSoundSystem)
    {
      if lastEventFrame < frame {
        HandleFrame(sequence.events, frame);
      }
    }

    /** The loop of `process_events`, entered once the frame is known to be new. */
    method HandleFrame(events: seq<AnimationEvent>, frame: int)
      requires lastEventFrame < frame
      modifies this
      ensures lastEventFrame == if MatchingEvents(events, frame) == [] then old(lastEventFrame) else frame
      ensures handledEvents == old(handledEvents) + MatchingEvents(events, frame)
      ensures playedSounds == old(playedSounds) + SoundsOfAll(MatchingEvents(events, frame), hasSoundSystem)
    {
      ghost var matched: seq<AnimationEvent> := [];
      ghost var handled0, played0 := handledEvents, playedSounds;
      for i := 0 to |events|
        invariant matched == MatchingEvents(events[..i], frame)
        invariant lastEventFrame == if matched == [] then old(lastEventFrame) else frame
        invariant handledEvents == handled0 + matched
        invariant playedSounds == played0 + SoundsOfAll(matched, hasSoundSystem)
      {
        ProcessStep(events, i, frame, hasSoundSystem);
        if events[i].frame == frame {
          lastEventFrame := frame;
          HandleEvent(events[i]);
          AppendAssoc(handled0, matched, [events[i]]);
          AppendAssoc(played0, SoundsOfAll(matched, hasSoundSystem), SoundsOf(events[i], hasSoundSystem));
          matched := matched + [events[i]];
        } else {
          AppendNothing(matched);
          AppendNothing(SoundsOfAll(matched, hasSoundSystem));
        }
      }
      assert events[..|events|] == events;
    }
  }

  lemma AppendAssoc<T>(a: seq<T>, b: seq<T>, c: seq<T>)
    ensures a + b + c == a + (b + c)
  {
  }

  lemma AppendNothing<T>(a: seq<T>)
    ensures a + [] == a
  {
  }

  /** How one more event of the list changes what `process_events` has handled so far. */
  lemma ProcessStep(events: seq<AnimationEvent>, i: nat, frame: int, hasSoundSystem: bool)
    requires i < |events|
    ensures var matched := events[i].frame == frame;
      && MatchingEvents(events[..i + 1], frame)
         == MatchingEvents(events[..i], frame) + (if matched then [events[i]] else [])
      && SoundsOfAll(MatchingEvents(events[..i + 1], frame), hasSoundSystem)
         == SoundsOfAll(MatchingEvents(events[..i], frame), hasSoundSystem)
            + (if matched then SoundsOf(events[i], hasSoundSystem) else [])
  {
    var e := events[i];
    assert events[..i + 1] == events[..i] + [e];
    MatchingSnoc(events[..i], e, frame);
    assert MatchingEvents([e], frame) == if e.frame == frame then [e] else [] by {
      assert [e][1..] == [];
    }
    SoundsOfAllAppend(MatchingEvents(events[..i], frame), MatchingEvents([e], frame), hasSoundSystem);
    if e.frame == frame {
      assert SoundsOfAll([e], hasSoundSystem) == SoundsOf(e, hasSoundSystem) by {
        assert [e][1..] == [];
      }
    }
  }

  lemma {:induction false} MatchingSnoc(events: seq<AnimationEvent>, e: AnimationEvent, frame: int)
    ensures MatchingEvents(events + [e], frame) == MatchingEvents(events, frame) + MatchingEvents([e], frame)
    decreases |events|
  {
    if events == [] {
      assert events + [e] == [e];
    } else {
      assert (events + [e])[1..] == events[1..] + [e];
      MatchingSnoc(events[1..], e, frame);
    }
  }

  lemma {:induction false} SoundsOfAllAppend(a: seq<AnimationEvent>, b: seq<AnimationEvent>, hasSoundSystem: bool)
    ensures SoundsOfAll(a + b, hasSoundSystem) == SoundsOfAll(a, hasSoundSystem) + SoundsOfAll(b, hasSoundSystem)
    decreases |a|
  {
    if a == [] {
      assert a + b == b;
    } else {
      assert (a + b)[1..] == a[1..] + b;
      SoundsOfAllAppend(a[1..], b, hasSoundSystem);
    }
  }
}
