/** What the gate of Rocket promises, stated over the pure machine of Transitions:
    the collision outcomes, the gating of Update, the debug keys, and over whole
    runs that at most one transition sequence ever starts. */
module TransitionProperties {
  import opened Controls
  import opened Transitions
  import Scenes

  // ------------------------------------------------------------- collisions

  /** While a sequence runs or collisions are disabled, a collision changes
      nothing and issues nothing. */
  lemma CollisionGate(s: RocketState, tag: string)
    requires s.isTranscending || s.collisionsDisabled
    ensures Collide(s, tag) == Step(s, [])
  {
  }

  /** A collision is a no-op exactly when it is gated or the tag is "Friendly". */
  lemma CollisionNoOpIff(s: RocketState, tag: string)
    ensures Collide(s, tag) == Step(s, []) <==>
              (s.isTranscending || s.collisionsDisabled || tag == "Friendly")
  {
  }

  /** "Finish" starts the success sequence; any other unfriendly tag the death
      sequence. Each ends by handing its load to Invoke. */
  lemma CollisionOutcomes(s: RocketState, tag: string)
    requires !s.isTranscending && !s.collisionsDisabled && tag != "Friendly"
    ensures var r := Collide(s, tag);
      var load := if tag == "Finish" then LoadNextLevel else LoadFirstLevel;
      r.next == s.(isTranscending := true, pending := s.pending + [load])
      && r.out != [] && r.out[|r.out| - 1] == Schedule(load)
      && (PlayParticles(SuccessBurst) in r.out <==> tag == "Finish")
      && (ShakeCamera in r.out <==> tag != "Finish")
  {
  }

  /** The Invoke handed over by a collision loads the next scene after "Finish"
      and scene 0 after any other unfriendly tag, however many frames and
      collisions come in between. */
  lemma {:induction false} SequenceLoadsTarget(
    s: RocketState, tag: string, evs: seq<Event>, activeScene: int, sceneCount: int)
    requires Consistent(s) && !s.isTranscending && !s.collisionsDisabled && tag != "Friendly"
    requires forall i :: 0 <= i < |evs| ==> !evs[i].InvokeDue?
    ensures var later := Run(Collide(s, tag).next, evs).next;
      InvokeFires(later, activeScene, sceneCount).out
        == [LoadScene(if tag == "Finish" then Scenes.NextSceneIndex(activeScene, sceneCount) else 0)]
  {
    var started := Collide(s, tag).next;
    assert started.pending == [if tag == "Finish" then LoadNextLevel else LoadFirstLevel];
    PendingKept(started, evs);
  }

  /** Once a sequence runs, frames and collisions leave the Invoke queue alone
      and schedule nothing more. */
  lemma {:induction false} PendingKept(s: RocketState, evs: seq<Event>)
    requires s.isTranscending
    requires forall i :: 0 <= i < |evs| ==> !evs[i].InvokeDue?
    ensures Run(s, evs).next.isTranscending
    ensures Run(s, evs).next.pending == s.pending
    ensures Schedules(Run(s, evs).out) == 0
    decreases |evs|
  {
    if evs != [] {
      var first := Apply(s, evs[0]);
      GatedEventSchedulesNothing(s, evs[0]);
      PendingKept(first.next, evs[1..]);
      SchedulesConcat(first.out, Run(first.next, evs[1..]).out);
    }
  }

  // ------------------------------------------------------------------ frames

  lemma {:induction false} TouchThrustSchedulesNothing(touches: seq<Touch>, width: nat)
    ensures Schedules(TouchThrustEffects(touches, width)) == 0
  {
    if touches != [] {
      var init := touches[..|touches| - 1];
      TouchThrustSchedulesNothing(init, width);
      SchedulesConcat(TouchThrustEffects(init, width),
                      ThrustEffects(TouchThrust(touches[|touches| - 1], width)));
    }
  }

  lemma {:induction false} TouchTurnSchedulesNothing(touches: seq<Touch>, width: nat)
    ensures Schedules(TouchTurnEffects(touches, width)) == 0
  {
    if touches != [] {
      var init := touches[..|touches| - 1];
      TouchTurnSchedulesNothing(init, width);
      SchedulesConcat(TouchTurnEffects(init, width),
                      TurnEffects(TouchTurn(touches[|touches| - 1].x, width)));
    }
  }

  /** No flight input ever hands anything to Invoke. */
  lemma FlightSchedulesNothing(isTouchDevice: bool, input: FrameInput, width: nat)
    ensures Schedules(FlightEffects(isTouchDevice, input, width)) == 0
  {
    SchedulesConcat([ZeroAngularVelocity], TouchTurnEffects(input.touches, width));
    SchedulesConcat([ZeroAngularVelocity], TurnEffects(KeyboardTurn(input.aHeld, input.dHeld)));
    if isTouchDevice {
      TouchThrustSchedulesNothing(input.touches, width);
      TouchTurnSchedulesNothing(input.touches, width);
      SchedulesConcat(TouchThrustEffects(input.touches, width),
                      [ZeroAngularVelocity] + TouchTurnEffects(input.touches, width));
    } else {
      SchedulesConcat(ThrustEffects(KeyThrust(input.spaceHeld)),
                      [ZeroAngularVelocity] + TurnEffects(KeyboardTurn(input.aHeld, input.dHeld)));
    }
  }

  /** Neither a frame nor a gated collision schedules anything, and neither
      touches the Invoke queue or clears isTranscending. */
  lemma GatedEventSchedulesNothing(s: RocketState, ev: Event)
    requires s.isTranscending && !ev.InvokeDue?
    ensures Apply(s, ev).next.isTranscending
    ensures Apply(s, ev).next.pending == s.pending
    ensures Schedules(Apply(s, ev).out) == 0
  {
  }

  /** While a sequence runs, Update does no thrust or rotate handling: only the
      debug keys of a debug build issue anything, and that is at most a scene load. */
  lemma UpdateGating(s: RocketState, input: FrameInput, env: Engine)
    requires s.isTranscending
    ensures var r := Frame(s, input, env);
      r.out == (if env.isDebugBuild then DebugKeys(s, input, env).out else [])
      && (forall e :: e in r.out ==> e.LoadScene?)
      && r.next.isTranscending && r.next.pending == s.pending
  {
  }

  /** When no sequence runs, every frame zeroes the angular velocity, whatever the input. */
  lemma UpdateZeroesSpin(s: RocketState, input: FrameInput, env: Engine)
    requires !s.isTranscending
    ensures ZeroAngularVelocity in Frame(s, input, env).out
  {
  }

  /** On a keyboard device with no sequence running, a frame turns the rocket
      positive exactly when A is held alone and negative exactly when D is. */
  lemma KeyboardFrameTurns(s: RocketState, input: FrameInput, env: Engine)
    requires !s.isTranscending && !s.isTouchDevice
    ensures Rotate(Positive) in Frame(s, input, env).out <==> input.aHeld && !input.dHeld
    ensures Rotate(Negative) in Frame(s, input, env).out <==> input.dHeld && !input.aHeld
  {
  }

  /** On a keyboard device with no sequence running, the jet plays after a frame
      exactly when Space is held. */
  lemma KeyboardFrameJet(s: RocketState, input: FrameInput, env: Engine, on: bool)
    requires !s.isTranscending && !s.isTouchDevice
    ensures JetOn(Frame(s, input, env).out, on) == input.spaceHeld
  {
    var thrust := ThrustEffects(KeyThrust(input.spaceHeld));
    var turn := [ZeroAngularVelocity] + TurnEffects(KeyboardTurn(input.aHeld, input.dHeld));
    var flight := FlightEffects(false, input, env.screenWidth);
    var debugOut := if env.isDebugBuild then DebugKeys(s, input, env).out else [];
    if env.isDebugBuild {
      FrameInDebugBuild(s, input, env);
    } else {
      FrameInReleaseBuild(s, input, env);
      assert flight + [] == flight;
    }
    assert Frame(s, input, env).out == flight + debugOut;
    assert flight == thrust + turn;
    ThrustEffectsJet(KeyThrust(input.spaceHeld), on);
    JetOnConcat(thrust, turn, on);
    JetOnConcat(flight, debugOut, on);
    JetUntouched(turn, input.spaceHeld);
    JetUntouched(debugOut, input.spaceHeld);
  }

  /** Effects that name no rocketJet command leave the jet as it was. */
  lemma {:induction false} JetUntouched(effs: seq<Effect>, on: bool)
    requires forall e :: e in effs ==> e != PlayParticles(RocketJet) && e != StopParticles(RocketJet)
    ensures JetOn(effs, on) == on
  {
    if effs != [] {
      assert effs[0] in effs;
      assert forall e :: e in effs[1..] ==> e in effs;
      JetUntouched(effs[1..], on);
    }
  }

  // ------------------------------------------------------------- touch loops

  /** The touch that decides the jet: the last one in the thrust zone. */
  ghost predicate DecidingTouch(touches: seq<Touch>, width: nat, i: int)
  {
    0 <= i < |touches| && InThrustZone(touches[i].x, width)
    && forall j :: i < j < |touches| ==> !InThrustZone(touches[j].x, width)
  }

  /** No touch lies in the thrust zone. */
  ghost predicate NoThrustTouch(touches: seq<Touch>, width: nat)
  {
    forall i :: 0 <= i < |touches| ==> !InThrustZone(touches[i].x, width)
  }

  /** In the thrust loop later touches override earlier ones: the jet ends as
      the last touch in the thrust zone left it (playing unless that touch has
      Ended), and as it was when no touch is in the zone. */
  lemma {:induction false} TouchThrustLastWins(touches: seq<Touch>, width: nat, on: bool)
    ensures NoThrustTouch(touches, width) ==> JetOn(TouchThrustEffects(touches, width), on) == on
    ensures forall i :: DecidingTouch(touches, width, i)
              ==> JetOn(TouchThrustEffects(touches, width), on) == (touches[i].phase != Ended)
  {
    if touches != [] {
      var n := |touches| - 1;
      var init, last := touches[..n], touches[n];
      var mid := JetOn(TouchThrustEffects(init, width), on);
      var tail := ThrustEffects(TouchThrust(last, width));
      TouchThrustLastWins(init, width, on);
      JetOnConcat(TouchThrustEffects(init, width), tail, on);
      ThrustEffectsJet(TouchThrust(last, width), mid);
      assert JetOn(TouchThrustEffects(touches, width), on) == JetOn(tail, mid);
      if InThrustZone(last.x, width) {
        forall i | DecidingTouch(touches, width, i) ensures i == n {
        }
      } else {
        forall i | DecidingTouch(touches, width, i)
          ensures DecidingTouch(init, width, i)
        {
        }
        if NoThrustTouch(touches, width) {
          assert NoThrustTouch(init, width) by {
            forall i | 0 <= i < |init| ensures !InThrustZone(init[i].x, width) {
              assert init[i] == touches[i];
            }
          }
        }
      }
    }
  }

  /** In the rotate loop turns accumulate: the turns of two batches of touches
      are those of the first followed by those of the second. */
  lemma {:induction false} TouchTurnsAccumulate(a: seq<Touch>, b: seq<Touch>, width: nat)
    ensures TouchTurnEffects(a + b, width) == TouchTurnEffects(a, width) + TouchTurnEffects(b, width)
  {
    if b == [] {
      assert a + b == a;
    } else {
      var n := |b| - 1;
      assert (a + b)[..|a + b| - 1] == a + b[..n];
      assert (a + b)[|a + b| - 1] == b[n];
      TouchTurnsAccumulate(a, b[..n], width);
    }
  }

  /** How many touches lie in one of the two rotate regions. */
  function RotateZoneTouches(touches: seq<Touch>, width: nat): nat
  {
    if touches == [] then 0
    else
      var last := touches[|touches| - 1];
      RotateZoneTouches(touches[..|touches| - 1], width)
        + (if InNegativeTurnZone(last.x, width) || InPositiveTurnZone(last.x, width) then 1 else 0)
  }

  /** The rotate loop issues only rotations, one for each touch in a rotate region. */
  lemma {:induction false} TouchTurnsCounted(touches: seq<Touch>, width: nat)
    ensures forall e :: e in TouchTurnEffects(touches, width) ==> e.Rotate? && e.dir != NoTurn
    ensures |TouchTurnEffects(touches, width)| == RotateZoneTouches(touches, width)
  {
    if touches != [] {
      var n := |touches| - 1;
      TouchTurnsCounted(touches[..n], width);
      TouchTurnZones(touches[n].x, width);
    }
  }

  /** The rotate loop turns the rocket in direction `dir` exactly when some touch
      lies in that direction's region. */
  lemma {:induction false} TouchTurnsByZone(touches: seq<Touch>, width: nat, dir: Turn)
    requires dir != NoTurn
    ensures Rotate(dir) in TouchTurnEffects(touches, width) <==>
              exists i :: 0 <= i < |touches| && InTurnZone(touches[i].x, width, dir)
  {
    if touches != [] {
      var n := |touches| - 1;
      var init, last := touches[..n], touches[n];
      TouchTurnsByZone(init, width, dir);
      assert Rotate(dir) in TurnEffects(TouchTurn(last.x, width)) <==> InTurnZone(last.x, width, dir) by {
        TouchTurnZones(last.x, width);
      }
      assert TouchTurnEffects(touches, width)
               == TouchTurnEffects(init, width) + TurnEffects(TouchTurn(last.x, width));
      if exists i :: 0 <= i < |touches| && InTurnZone(touches[i].x, width, dir) {
        var i :| 0 <= i < |touches| && InTurnZone(touches[i].x, width, dir);
        if i < n {
          assert init[i] == touches[i];
        }
      }
      if exists i :: 0 <= i < n && InTurnZone(init[i].x, width, dir) {
        var i :| 0 <= i < n && InTurnZone(init[i].x, width, dir);
        assert init[i] == touches[i];
      }
    }
  }

  /** The thrust loop never rotates the rocket. */
  lemma {:induction false} TouchThrustTurnsNothing(touches: seq<Touch>, width: nat)
    ensures forall e :: e in TouchThrustEffects(touches, width) ==> !e.Rotate?
  {
    if touches != [] {
      TouchThrustTurnsNothing(touches[..|touches| - 1], width);
    }
  }

  /** On a touch device with no sequence running, only the thrust loop of a
      frame acts on the jet. */
  lemma TouchFrameJetIsThrustJet(s: RocketState, input: FrameInput, env: Engine, on: bool)
    requires !s.isTranscending && s.isTouchDevice
    ensures JetOn(Frame(s, input, env).out, on) == JetOn(TouchThrustEffects(input.touches, env.screenWidth), on)
  {
    var thrust := TouchThrustEffects(input.touches, env.screenWidth);
    var turn := [ZeroAngularVelocity] + TouchTurnEffects(input.touches, env.screenWidth);
    var flight := FlightEffects(true, input, env.screenWidth);
    var debugOut := if env.isDebugBuild then DebugKeys(s, input, env).out else [];
    if env.isDebugBuild {
      FrameInDebugBuild(s, input, env);
    } else {
      FrameInReleaseBuild(s, input, env);
      assert flight + [] == flight;
    }
    assert Frame(s, input, env).out == flight + debugOut;
    assert flight == thrust + turn;
    var mid := JetOn(thrust, on);
    TouchTurnsCounted(input.touches, env.screenWidth);
    JetOnConcat(thrust, turn, on);
    JetOnConcat(flight, debugOut, on);
    JetUntouched(turn, mid);
    JetUntouched(debugOut, mid);
  }

  /** On a touch device with no sequence running, the jet after a frame is as
      the last touch in the thrust region left it, or as it was when no touch
      is in that region. */
  lemma TouchFrameJet(s: RocketState, input: FrameInput, env: Engine, on: bool)
    requires !s.isTranscending && s.isTouchDevice
    ensures NoThrustTouch(input.touches, env.screenWidth) ==> JetOn(Frame(s, input, env).out, on) == on
    ensures forall i :: DecidingTouch(input.touches, env.screenWidth, i)
              ==> JetOn(Frame(s, input, env).out, on) == (input.touches[i].phase != Ended)
  {
    TouchFrameJetIsThrustJet(s, input, env, on);
    TouchThrustLastWins(input.touches, env.screenWidth, on);
  }

  /** On a touch device with no sequence running, a frame turns the rocket
      negative exactly when some touch is in the negative region and positive
      exactly when some touch is in the positive region. */
  lemma TouchFrameTurns(s: RocketState, input: FrameInput, env: Engine)
    requires !s.isTranscending && s.isTouchDevice
    ensures Rotate(Negative) in Frame(s, input, env).out <==>
              exists i :: 0 <= i < |input.touches| && InNegativeTurnZone(input.touches[i].x, env.screenWidth)
    ensures Rotate(Positive) in Frame(s, input, env).out <==>
              exists i :: 0 <= i < |input.touches| && InPositiveTurnZone(input.touches[i].x, env.screenWidth)
  {
    var thrust := TouchThrustEffects(input.touches, env.screenWidth);
    var turn := [ZeroAngularVelocity] + TouchTurnEffects(input.touches, env.screenWidth);
    var flight := FlightEffects(true, input, env.screenWidth);
    var debugOut := if env.isDebugBuild then DebugKeys(s, input, env).out else [];
    if env.isDebugBuild {
      FrameInDebugBuild(s, input, env);
    } else {
      FrameInReleaseBuild(s, input, env);
      assert flight + [] == flight;
    }
    assert Frame(s, input, env).out == thrust + turn + debugOut;
    TouchThrustTurnsNothing(input.touches, env.screenWidth);
    TouchTurnsByZone(input.touches, env.screenWidth, Negative);
    TouchTurnsByZone(input.touches, env.screenWidth, Positive);
  }

  // -------------------------------------------------------------- debug keys

  /** The debug keys run in a debug build whatever the state: C flips the gate,
      L loads the next level at once without passing the isTranscending gate. */
  lemma DebugKeysAlwaysRun(s: RocketState, input: FrameInput, env: Engine)
    ensures Frame(s, input, env).next.collisionsDisabled
              == (s.collisionsDisabled != (env.isDebugBuild && input.cPressed))
    ensures env.isDebugBuild && input.lPressed ==>
              LoadScene(Scenes.NextSceneIndex(env.activeScene, env.sceneCount)) in Frame(s, input, env).out
    ensures (exists e :: e in Frame(s, input, env).out && e.LoadScene?) <==> env.isDebugBuild && input.lPressed
  {
    var flight := if s.isTranscending then [] else FlightEffects(s.isTouchDevice, input, env.screenWidth);
    FlightLoadsNothing(s.isTouchDevice, input, env.screenWidth);
    if env.isDebugBuild {
      FrameInDebugBuild(s, input, env);
      if input.lPressed {
        var load := LoadScene(Scenes.NextSceneIndex(env.activeScene, env.sceneCount));
        assert load in DebugKeys(s, input, env).out;
        assert load in Frame(s, input, env).out;
      }
    } else {
      FrameInReleaseBuild(s, input, env);
    }
  }

  /** Thrust and rotate handling never load a scene, on either kind of device. */
  lemma FlightLoadsNothing(isTouchDevice: bool, input: FrameInput, width: nat)
    ensures forall e :: e in FlightEffects(isTouchDevice, input, width) ==> !e.LoadScene?
  {
    TouchEffectsLoadNothing(input.touches, width);
  }

  /** Outside a debug build no frame ever loads a scene. */
  lemma ReleaseBuildLoadsNothing(s: RocketState, input: FrameInput, env: Engine)
    requires !env.isDebugBuild
    ensures forall e :: e in Frame(s, input, env).out ==> !e.LoadScene?
    ensures Frame(s, input, env).next == s
  {
    var out := Frame(s, input, env).out;
    if !s.isTranscending {
      var flight := FlightEffects(s.isTouchDevice, input, env.screenWidth);
      assert out == flight + [];
      if s.isTouchDevice {
        TouchEffectsLoadNothing(input.touches, env.screenWidth);
      }
    }
  }

  lemma {:induction false} TouchEffectsLoadNothing(touches: seq<Touch>, width: nat)
    ensures forall e :: e in TouchThrustEffects(touches, width) ==> !e.LoadScene?
    ensures forall e :: e in TouchTurnEffects(touches, width) ==> !e.LoadScene?
  {
    if touches != [] {
      TouchEffectsLoadNothing(touches[..|touches| - 1], width);
    }
  }

  /** Two frames with C pressed in a debug build restore the state. */
  lemma DebugToggleTwice(s: RocketState, input: FrameInput, env: Engine)
    requires env.isDebugBuild && input.cPressed
    ensures Frame(Frame(s, input, env).next, input, env).next == s
  {
  }

  // ------------------------------------------------------------------ runs

  /** One event keeps the invariant, never clears isTranscending, and hands a
      load to Invoke exactly when it starts a sequence. */
  lemma ApplyKeepsGate(s: RocketState, ev: Event)
    ensures Consistent(s) ==> Consistent(Apply(s, ev).next)
    ensures s.isTranscending ==> Apply(s, ev).next.isTranscending
    ensures Schedules(Apply(s, ev).out)
              == if !s.isTranscending && Apply(s, ev).next.isTranscending then 1 else 0
  {
    match ev
    case Collision(tag) =>
    case NewFrame(input, env) =>
      var flight := if s.isTranscending then [] else FlightEffects(s.isTouchDevice, input, env.screenWidth);
      var debug := if env.isDebugBuild then DebugKeys(s, input, env) else Step(s, []);
      FlightSchedulesNothing(s.isTouchDevice, input, env.screenWidth);
      SchedulesConcat(flight, debug.out);
    case InvokeDue(active, count) =>
      if s.pending != [] {
        var r := InvokeFires(s, active, count);
        assert r.out[0].LoadScene?;
        assert r.out[1..] == [];
      }
  }

  /** Over any run: isTranscending is never reset, the invariant holds
      throughout, and Invoke is handed a load once if the run starts a
      sequence and never otherwise. */
  lemma {:induction false} RunKeepsGate(s: RocketState, evs: seq<Event>)
    ensures Consistent(s) ==> Consistent(Run(s, evs).next)
    ensures s.isTranscending ==> Run(s, evs).next.isTranscending
    ensures Schedules(Run(s, evs).out)
              == if !s.isTranscending && Run(s, evs).next.isTranscending then 1 else 0
    decreases |evs|
  {
    if evs != [] {
      var first := Apply(s, evs[0]);
      ApplyKeepsGate(s, evs[0]);
      RunKeepsGate(first.next, evs[1..]);
      SchedulesConcat(first.out, Run(first.next, evs[1..]).out);
    }
  }

  /** The device kind is read once, in Start: no event ever changes it. */
  lemma {:induction false} DeviceKept(s: RocketState, evs: seq<Event>)
    ensures Run(s, evs).next.isTouchDevice == s.isTouchDevice
    decreases |evs|
  {
    if evs != [] {
      var first := Apply(s, evs[0]);
      assert first.next.isTouchDevice == s.isTouchDevice;
      DeviceKept(first.next, evs[1..]);
    }
  }

  /** From a freshly started rocket, whatever happens, at most one transition
      sequence starts and at most one Invoke is ever waiting. */
  lemma AtMostOneSequence(device: DeviceType, evs: seq<Event>)
    ensures Schedules(Run(Initial(device), evs).out) <= 1
    ensures |Run(Initial(device), evs).next.pending| <= 1
  {
    RunKeepsGate(Initial(device), evs);
  }
}
