/** The Rocket script as an object whose handlers update its fields in place.
    Each method is proved against the matching function of Transitions: the new
    fields are that function's next state, and the engine calls the method makes
    are appended, in order, to the ghost log `effects`. */
module RocketBehaviour {
  import opened Controls
  import opened Transitions
  import Scenes

  class Rocket {
    var isTouchDevice: bool
    var isTranscending: bool
    var collisionsDisabled: bool
    /** The Invoke calls waiting to fire, oldest first. */
    var pending: seq<Load>
    /** Every engine call made so far. */
    ghost var effects: seq<Effect>

    ghost function State(): RocketState
      reads this
    {
      RocketState(isTouchDevice, isTranscending, collisionsDisabled, pending)
    }

    ghost predicate Valid()
      reads this
    {
      Consistent(State())
    }

    /** The field initialisers, then Start reading SystemInfo.deviceType. */
    constructor (device: DeviceType)
      ensures Valid() && State() == Initial(device) && effects == []
    {
      isTouchDevice := device == Handheld;
      isTranscending := false;
      collisionsDisabled := false;
      pending := [];
      effects := [];
    }

    method Update(input: FrameInput, env: Engine)
      requires Valid()
      modifies this
      ensures Valid()
      ensures State() == Frame(old(State()), input, env).next
      ensures effects == old(effects) + Frame(old(State()), input, env).out
    {
      ghost var s, before := State(), effects;
      ghost var flight := if s.isTranscending then [] else FlightEffects(s.isTouchDevice, input, env.screenWidth);
      if !isTranscending {
        if isTouchDevice {
          RespondToTouchThrustInput(input.touches, env.screenWidth);
          RespondToTouchRotateInput(input.touches, env.screenWidth);
          SeqAssoc(before, TouchThrustEffects(input.touches, env.screenWidth), [ZeroAngularVelocity] + TouchTurnEffects(input.touches, env.screenWidth));
        } else {
          RespondToThrustInput(input.spaceHeld);
          RespondToRotateInput(input.aHeld, input.dHeld);
          SeqAssoc(before, ThrustEffects(KeyThrust(input.spaceHeld)), [ZeroAngularVelocity] + TurnEffects(KeyboardTurn(input.aHeld, input.dHeld)));
        }
      } else {
        assert effects == before + [];
      }
      assert State() == s;
      assert effects == before + flight;
      if env.isDebugBuild {
        RespondToDebugKeys(input, env);
        FrameInDebugBuild(s, input, env);
        SeqAssoc(before, flight, DebugKeys(s, input, env).out);
      } else {
        FrameInReleaseBuild(s, input, env);
      }
    }

    method RespondToDebugKeys(input: FrameInput, env: Engine)
      requires Valid()
      modifies this
      ensures Valid()
      ensures State() == DebugKeys(old(State()), input, env).next
      ensures effects == old(effects) + DebugKeys(old(State()), input, env).out
    {
      if input.lPressed {
        LoadNextLevel(env.activeScene, env.sceneCount);
      }
      if input.cPressed {
        collisionsDisabled := !collisionsDisabled;
      }
    }

    method OnCollisionEnter(tag: string)
      requires Valid()
      modifies this
      ensures Valid()
      ensures State() == Collide(old(State()), tag).next
      ensures effects == old(effects) + Collide(old(State()), tag).out
    {
      if !isTranscending && !collisionsDisabled {
        if tag == "Friendly" {
          // nothing happens
        } else if tag == "Finish" {
          StartSuccesSequence();
        } else {
          StartDeathSequence();
        }
      }
    }

    method StartSuccesSequence()
      modifies this
      ensures State() == SuccessSequence(old(State())).next
      ensures effects == old(effects) + SuccessSequence(old(State())).out
    {
      isTranscending := true;
      effects := effects + [StopAudio, PlayOneShot(NextLevel), PlayParticles(SuccessBurst)];
      pending := pending + [Load.LoadNextLevel];
      effects := effects + [Schedule(Load.LoadNextLevel)];
    }

    method StartDeathSequence()
      modifies this
      ensures State() == DeathSequence(old(State())).next
      ensures effects == old(effects) + DeathSequence(old(State())).out
    {
      isTranscending := true;
      effects := effects + [ShakeCamera, StopAudio, PlayOneShot(Explosion), PlayParticles(CrushBurst)];
      pending := pending + [Load.LoadFirstLevel];
      effects := effects + [Schedule(Load.LoadFirstLevel)];
    }

    /** The oldest Invoke call comes due after loadLevelDelay seconds. */
    method InvokeDue(activeScene: int, sceneCount: int)
      requires Valid()
      modifies this
      ensures Valid()
      ensures State() == InvokeFires(old(State()), activeScene, sceneCount).next
      ensures effects == old(effects) + InvokeFires(old(State()), activeScene, sceneCount).out
    {
      if pending != [] {
        var load := pending[0];
        pending := pending[1..];
        if load == Load.LoadNextLevel {
          LoadNextLevel(activeScene, sceneCount);
        } else {
          LoadFirstLevel();
        }
      }
    }

    method LoadNextLevel(activeScene: int, sceneCount: int)
      modifies this
      ensures State() == old(State())
      ensures effects == old(effects) + LoadNextLevelEffects(activeScene, sceneCount)
    {
      var currentSceneIndex := activeScene;
      var nextSceneIndex := currentSceneIndex + 1;
      if currentSceneIndex == sceneCount - 1 {
        nextSceneIndex := 0;
      }
      effects := effects + [LoadScene(nextSceneIndex)];
    }

    method LoadFirstLevel()
      modifies this
      ensures State() == old(State())
      ensures effects == old(effects) + [LoadScene(0)]
    {
      effects := effects + [LoadScene(0)];
    }

    method RespondToThrustInput(spaceHeld: bool)
      modifies this
      ensures State() == old(State())
      ensures effects == old(effects) + ThrustEffects(KeyThrust(spaceHeld))
    {
      if spaceHeld {
        ApplyThrusting();
      } else {
        StopApplyingThrust();
      }
    }

    method RespondToTouchThrustInput(touches: seq<Touch>, width: nat)
      modifies this
      ensures State() == old(State())
      ensures effects == old(effects) + TouchThrustEffects(touches, width)
    {
      for i := 0 to |touches|
        invariant State() == old(State())
        invariant effects == old(effects) + TouchThrustEffects(touches[..i], width)
      {
        var touch := touches[i];
        ghost var done := effects;
        if InThrustZone(touch.x, width) {
          if touch.phase != Ended {
            ApplyThrusting();
          } else {
            StopApplyingThrust();
          }
        }
        assert effects == done + ThrustEffects(TouchThrust(touch, width));
        assert touches[..i + 1][..i] == touches[..i] && touches[..i + 1][i] == touch;
        SeqAssoc(old(effects), TouchThrustEffects(touches[..i], width), ThrustEffects(TouchThrust(touch, width)));
      }
      assert touches[..|touches|] == touches;
    }

    method StopApplyingThrust()
      modifies this
      ensures State() == old(State())
      ensures effects == old(effects) + StopThrustEffects()
    {
      effects := effects + [StopAudio, StopParticles(RocketJet)];
    }

    method ApplyThrusting()
      modifies this
      ensures State() == old(State())
      ensures effects == old(effects) + ApplyThrustingEffects()
    {
      effects := effects + [AddThrustForce, PlayUnlessPlaying(MainEngine), PlayParticles(RocketJet)];
    }

    method RespondToRotateInput(aHeld: bool, dHeld: bool)
      modifies this
      ensures State() == old(State())
      ensures effects == old(effects) + ([ZeroAngularVelocity] + TurnEffects(KeyboardTurn(aHeld, dHeld)))
    {
      effects := effects + [ZeroAngularVelocity];
      if aHeld && !dHeld {
        effects := effects + [Rotate(Positive)];
      } else if dHeld && !aHeld {
        effects := effects + [Rotate(Negative)];
      }
    }

    method RespondToTouchRotateInput(touches: seq<Touch>, width: nat)
      modifies this
      ensures State() == old(State())
      ensures effects == old(effects) + ([ZeroAngularVelocity] + TouchTurnEffects(touches, width))
    {
      effects := effects + [ZeroAngularVelocity];
      ghost var start := effects;
      for i := 0 to |touches|
        invariant State() == old(State())
        invariant effects == start + TouchTurnEffects(touches[..i], width)
      {
        var touch := touches[i];
        ghost var done := effects;
        if InNegativeTurnZone(touch.x, width) {
          effects := effects + [Rotate(Negative)];
        } else if InPositiveTurnZone(touch.x, width) {
          effects := effects + [Rotate(Positive)];
        }
        assert effects == done + TurnEffects(TouchTurn(touch.x, width));
        assert touches[..i + 1][..i] == touches[..i] && touches[..i + 1][i] == touch;
        SeqAssoc(start, TouchTurnEffects(touches[..i], width), TurnEffects(TouchTurn(touch.x, width)));
      }
      assert touches[..|touches|] == touches;
    }
  }

  /** A short game on a desktop: the rocket touches the Finish pad, a second
      collision during the success sequence is ignored, and the delayed load
      takes the last scene of three back to scene 0. */
  method FinishRun()
  {
    var rocket := new Rocket(Desktop);
    rocket.OnCollisionEnter("Friendly");
    assert !rocket.isTranscending;
    rocket.OnCollisionEnter("Finish");
    rocket.OnCollisionEnter("Obstacle");
    assert rocket.pending == [Load.LoadNextLevel];
    rocket.InvokeDue(2, 3);
    assert rocket.effects[|rocket.effects| - 1] == LoadScene(0);
    assert rocket.pending == [] && rocket.isTranscending;
  }
}
