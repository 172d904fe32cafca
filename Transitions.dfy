/** The decision layer of Rocket as a pure state machine. The engine calls the
    script makes (forces, audio, particles, camera shake, Invoke, scene loads)
    become Effect tokens; each handler maps a state to a new state and the
    effects it issues, in order. */
module Transitions {
  import opened Controls
  import Scenes

  datatype Clip = MainEngine | NextLevel | Explosion

  /** The three particle systems of the script: rocketJet, success and crush. */
  datatype Particles = RocketJet | SuccessBurst | CrushBurst

  /** The two delayed calls the script hands to Invoke. */
  datatype Load = LoadNextLevel | LoadFirstLevel

  datatype Effect =
    | AddThrustForce                   // rb.AddRelativeForce(Vector3.up * ...)
    | PlayUnlessPlaying(clip: Clip)    // PlayOneShot when the audio source is silent
    | PlayOneShot(clip: Clip)
    | StopAudio
    | PlayParticles(p: Particles)
    | StopParticles(p: Particles)
    | ZeroAngularVelocity
    | Rotate(dir: Turn)
    | ShakeCamera
    | Schedule(load: Load)             // Invoke(name, loadLevelDelay)
    | LoadScene(index: int)            // SceneManager.LoadScene(index)

  /** SystemInfo.deviceType. */
  datatype DeviceType = Unknown | Handheld | Console | Desktop

  /** The script's fields, plus the Invoke calls still waiting to fire, oldest first. */
  datatype RocketState = RocketState(
    isTouchDevice: bool,
    isTranscending: bool,
    collisionsDisabled: bool,
    pending: seq<Load>)

  /** One frame's input: keys held (GetKey), keys pressed this frame (GetKeyDown), touches. */
  datatype FrameInput = FrameInput(
    spaceHeld: bool, aHeld: bool, dHeld: bool,
    lPressed: bool, cPressed: bool,
    touches: seq<Touch>)

  /** What the script asks the engine during a frame: Debug.isDebugBuild,
      Screen.width, the active scene's build index and sceneCountInBuildSettings. */
  datatype Engine = Engine(isDebugBuild: bool, screenWidth: nat, activeScene: int, sceneCount: int)

  datatype Step = Step(next: RocketState, out: seq<Effect>)

  /** The field initialisers followed by Start. */
  function Initial(device: DeviceType): (s: RocketState)
    ensures s.isTouchDevice <==> device == Handheld
    ensures !s.isTranscending && !s.collisionsDisabled && s.pending == []
  {
    RocketState(device == Handheld, false, false, [])
  }

  /** The invariant the gate keeps: no Invoke is waiting before a sequence has
      started, and at most one is waiting after. */
  predicate Consistent(s: RocketState)
  {
    |s.pending| <= if s.isTranscending then 1 else 0
  }

  lemma SeqAssoc<T>(a: seq<T>, b: seq<T>, c: seq<T>)
    ensures a + b + c == a + (b + c)
  {
  }

  // ----------------------------------------------------------- effect counts

  /** How many Invoke calls an effect sequence contains. */
  function Schedules(effs: seq<Effect>): nat
  {
    if effs == [] then 0 else (if effs[0].Schedule? then 1 else 0) + Schedules(effs[1..])
  }

  lemma {:induction false} SchedulesConcat(a: seq<Effect>, b: seq<Effect>)
    ensures Schedules(a + b) == Schedules(a) + Schedules(b)
  {
    if a != [] {
      assert (a + b)[1..] == a[1..] + b;
      SchedulesConcat(a[1..], b);
    } else {
      assert a + b == b;
    }
  }

  /** Whether the rocketJet particle system is playing after `effs`, starting from `on`. */
  function JetOn(effs: seq<Effect>, on: bool): bool
  {
    if effs == [] then on
    else
      var now := match effs[0]
        case PlayParticles(RocketJet) => true
        case StopParticles(RocketJet) => false
        case _ => on;
      JetOn(effs[1..], now)
  }

  lemma {:induction false} JetOnConcat(a: seq<Effect>, b: seq<Effect>, on: bool)
    ensures JetOn(a + b, on) == JetOn(b, JetOn(a, on))
  {
    if a != [] {
      assert (a + b)[1..] == a[1..] + b;
      var now := match a[0]
        case PlayParticles(RocketJet) => true
        case StopParticles(RocketJet) => false
        case _ => on;
      JetOnConcat(a[1..], b, now);
    } else {
      assert a + b == b;
    }
  }

  // ---------------------------------------------------------- flight input

  /** ApplyThrusting. */
  function ApplyThrustingEffects(): seq<Effect>
  {
    [AddThrustForce, PlayUnlessPlaying(MainEngine), PlayParticles(RocketJet)]
  }

  /** StopApplyingThrust. */
  function StopThrustEffects(): seq<Effect>
  {
    [StopAudio, StopParticles(RocketJet)]
  }

  function ThrustEffects(c: ThrustCommand): (effs: seq<Effect>)
    ensures Schedules(effs) == 0
  {
    match c
    case Engage => ApplyThrustingEffects()
    case Release => StopThrustEffects()
    case Ignore => []
  }

  /** ApplyThrusting leaves the jet playing, StopApplyingThrust leaves it stopped. */
  lemma ThrustEffectsJet(c: ThrustCommand, on: bool)
    ensures JetOn(ThrustEffects(c), on) == if c == Ignore then on else c == Engage
  {
    match c
    case Engage =>
      var effs := ApplyThrustingEffects();
      assert effs[1..] == [PlayUnlessPlaying(MainEngine), PlayParticles(RocketJet)];
      assert effs[1..][1..] == [PlayParticles(RocketJet)];
      assert JetOn([PlayParticles(RocketJet)], on) == JetOn([], true);
    case Release =>
      var effs := StopThrustEffects();
      assert effs[1..] == [StopParticles(RocketJet)];
      assert JetOn([StopParticles(RocketJet)], on) == JetOn([], false);
    case Ignore =>
  }

  function TurnEffects(t: Turn): (effs: seq<Effect>)
    ensures Schedules(effs) == 0
    ensures |effs| <= 1
  {
    if t == NoTurn then [] else [Rotate(t)]
  }

  /** The effects of the foreach loop of RespondToTouchThrustInput, touch by touch. */
  function TouchThrustEffects(touches: seq<Touch>, width: nat): seq<Effect>
  {
    if touches == [] then []
    else TouchThrustEffects(touches[..|touches| - 1], width)
           + ThrustEffects(TouchThrust(touches[|touches| - 1], width))
  }

  /** The effects of the foreach loop of RespondToTouchRotateInput, touch by touch. */
  function TouchTurnEffects(touches: seq<Touch>, width: nat): seq<Effect>
  {
    if touches == [] then []
    else TouchTurnEffects(touches[..|touches| - 1], width)
           + TurnEffects(TouchTurn(touches[|touches| - 1].x, width))
  }

  /** The thrust and rotate handlers of one frame for the device kind. */
  function FlightEffects(isTouchDevice: bool, input: FrameInput, width: nat): seq<Effect>
  {
    if isTouchDevice then
      TouchThrustEffects(input.touches, width)
        + ([ZeroAngularVelocity] + TouchTurnEffects(input.touches, width))
    else
      ThrustEffects(KeyThrust(input.spaceHeld))
        + ([ZeroAngularVelocity] + TurnEffects(KeyboardTurn(input.aHeld, input.dHeld)))
  }

  // ------------------------------------------------------------ handlers

  /** LoadNextLevel, run at once or when its Invoke fires. */
  function LoadNextLevelEffects(activeScene: int, sceneCount: int): seq<Effect>
  {
    [LoadScene(Scenes.NextSceneIndex(activeScene, sceneCount))]
  }

  /** RespondToDebugKeys: L loads the next level at once, C toggles the collision gate. */
  function DebugKeys(s: RocketState, input: FrameInput, env: Engine): (r: Step)
    ensures r.next.collisionsDisabled == (s.collisionsDisabled != input.cPressed)
    ensures r.next.isTranscending == s.isTranscending && r.next.pending == s.pending
    ensures r.next.isTouchDevice == s.isTouchDevice
    ensures Schedules(r.out) == 0
    ensures |r.out| <= 1
    ensures r.out != [] <==> input.lPressed
    ensures forall e :: e in r.out ==> e == LoadScene(Scenes.NextSceneIndex(env.activeScene, env.sceneCount))
  {
    var out := if input.lPressed then LoadNextLevelEffects(env.activeScene, env.sceneCount) else [];
    var next := if input.cPressed then s.(collisionsDisabled := !s.collisionsDisabled) else s;
    Step(next, out)
  }

  /** Update: flight input only while no sequence runs, then the debug keys in
      a debug build whatever the state. */
  function Frame(s: RocketState, input: FrameInput, env: Engine): Step
  {
    var flight := if s.isTranscending then [] else FlightEffects(s.isTouchDevice, input, env.screenWidth);
    var debug := if env.isDebugBuild then DebugKeys(s, input, env) else Step(s, []);
    Step(debug.next, flight + debug.out)
  }

  lemma FrameInDebugBuild(s: RocketState, input: FrameInput, env: Engine)
    requires env.isDebugBuild
    ensures Frame(s, input, env).next == DebugKeys(s, input, env).next
    ensures Frame(s, input, env).out
              == (if s.isTranscending then [] else FlightEffects(s.isTouchDevice, input, env.screenWidth))
                 + DebugKeys(s, input, env).out
  {
  }

  lemma FrameInReleaseBuild(s: RocketState, input: FrameInput, env: Engine)
    requires !env.isDebugBuild
    ensures Frame(s, input, env)
              == Step(s, if s.isTranscending then [] else FlightEffects(s.isTouchDevice, input, env.screenWidth))
  {
    var flight := if s.isTranscending then [] else FlightEffects(s.isTouchDevice, input, env.screenWidth);
    assert flight + [] == flight;
  }

  /** StartSuccesSequence. */
  function SuccessSequence(s: RocketState): (r: Step)
    ensures r.next.isTranscending && r.next.pending == s.pending + [LoadNextLevel]
    ensures Schedules(r.out) == 1
  {
    Step(s.(isTranscending := true, pending := s.pending + [LoadNextLevel]),
         [StopAudio, PlayOneShot(NextLevel), PlayParticles(SuccessBurst), Schedule(LoadNextLevel)])
  }

  /** StartDeathSequence. */
  function DeathSequence(s: RocketState): (r: Step)
    ensures r.next.isTranscending && r.next.pending == s.pending + [LoadFirstLevel]
    ensures Schedules(r.out) == 1
  {
    Step(s.(isTranscending := true, pending := s.pending + [LoadFirstLevel]),
         [ShakeCamera, StopAudio, PlayOneShot(Explosion), PlayParticles(CrushBurst), Schedule(LoadFirstLevel)])
  }

  /** OnCollisionEnter, dispatched on the other object's tag behind the gate. */
  function Collide(s: RocketState, tag: string): (r: Step)
    ensures r.next.isTranscending <==>
              s.isTranscending || (!s.collisionsDisabled && tag != "Friendly")
    ensures r.next.collisionsDisabled == s.collisionsDisabled
  {
    if s.isTranscending || s.collisionsDisabled then Step(s, [])
    else if tag == "Friendly" then Step(s, [])
    else if tag == "Finish" then SuccessSequence(s)
    else DeathSequence(s)
  }

  /** The oldest Invoke call fires: LoadNextLevel or LoadFirstLevel runs. */
  function InvokeFires(s: RocketState, activeScene: int, sceneCount: int): (r: Step)
    ensures s.pending == [] ==> r == Step(s, [])
    ensures s.pending != [] ==> r.next == s.(pending := s.pending[1..]) && |r.out| == 1
    ensures s.pending != [] && s.pending[0] == LoadNextLevel ==>
              r.out == [LoadScene(Scenes.NextSceneIndex(activeScene, sceneCount))]
    ensures s.pending != [] && s.pending[0] == LoadFirstLevel ==> r.out == [LoadScene(0)]
  {
    if s.pending == [] then Step(s, [])
    else
      var out := match s.pending[0]
        case LoadNextLevel => LoadNextLevelEffects(activeScene, sceneCount)
        case LoadFirstLevel => [LoadScene(0)];
      Step(s.(pending := s.pending[1..]), out)
  }

  // -------------------------------------------------------------- traces

  /** What the engine can do to the script: a collision, a frame, or a delayed call coming due. */
  datatype Event =
    | Collision(tag: string)
    | NewFrame(input: FrameInput, env: Engine)
    | InvokeDue(activeScene: int, sceneCount: int)

  function Apply(s: RocketState, ev: Event): Step
  {
    match ev
    case Collision(tag) => Collide(s, tag)
    case NewFrame(input, env) => Frame(s, input, env)
    case InvokeDue(active, count) => InvokeFires(s, active, count)
  }

  /** A whole run: the state after the events and every effect issued on the way. */
  function Run(s: RocketState, evs: seq<Event>): Step
    decreases |evs|
  {
    if evs == [] then Step(s, [])
    else
      var first := Apply(s, evs[0]);
      var rest := Run(first.next, evs[1..]);
      Step(rest.next, first.out + rest.out)
  }
}
