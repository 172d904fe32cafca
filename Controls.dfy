/** The input classification rules of Rocket: which way the keyboard turns the
    rocket, and which screen region a touch falls in. Forces, angles and
    Time.deltaTime scaling are not modelled; a rotation is only a direction. */
module Controls {

  /** `Positive` is transform.Rotate about +Vector3.forward, `Negative` about
      -Vector3.forward; `NoTurn` leaves the transform alone. */
  datatype Turn = Positive | Negative | NoTurn

  function Opposite(t: Turn): Turn
  {
    match t
    case Positive => Negative
    case Negative => Positive
    case NoTurn => NoTurn
  }

  /** Thrust handling for one input: apply thrust, stop it, or leave it alone. */
  datatype ThrustCommand = Engage | Release | Ignore

  /** Unity's TouchPhase values. */
  datatype Phase = Began | Moved | Stationary | Ended | Canceled

  /** A touch point: its horizontal position in pixels, and its phase. */
  datatype Touch = Touch(x: real, phase: Phase)

  // ---------------------------------------------------------------- keyboard

  /** RespondToThrustInput: Space held applies thrust, otherwise thrust stops. */
  function KeyThrust(spaceHeld: bool): (c: ThrustCommand)
    ensures c != Ignore
    ensures c == Engage <==> spaceHeld
  {
    if spaceHeld then Engage else Release
  }

  /** RespondToRotateInput: A alone turns positive, D alone turns negative,
      and both keys or neither cancel out. */
  function KeyboardTurn(aHeld: bool, dHeld: bool): (t: Turn)
    ensures t == Positive <==> aHeld && !dHeld
    ensures t == Negative <==> dHeld && !aHeld
    ensures t == NoTurn <==> aHeld == dHeld
  {
    if aHeld && !dHeld then Positive
    else if dHeld && !aHeld then Negative
    else NoTurn
  }

  /** The two rotation keys are mirror images of each other. */
  lemma KeyboardTurnMirror(aHeld: bool, dHeld: bool)
    ensures KeyboardTurn(dHeld, aHeld) == Opposite(KeyboardTurn(aHeld, dHeld))
  {
  }

  // ------------------------------------------------------------------- touch

  /** The screen regions, with Screen.width / 2 and Screen.width / 4 taken as
      integer divisions (the screen width is never negative, so C#'s truncating
      division and Dafny's agree) and then compared with the float position. */
  predicate InThrustZone(x: real, width: nat)
  {
    x > (width / 2) as real
  }

  predicate InNegativeTurnZone(x: real, width: nat)
  {
    (width / 2 - width / 4) as real < x < (width / 2) as real
  }

  predicate InPositiveTurnZone(x: real, width: nat)
  {
    x < (width / 4) as real
  }

  /** RespondToTouchThrustInput, for one touch: a touch right of the middle
      thrusts until its phase is Ended; other touches do nothing. */
  function TouchThrust(t: Touch, width: nat): (c: ThrustCommand)
    ensures c != Ignore <==> InThrustZone(t.x, width)
    ensures c == Release <==> InThrustZone(t.x, width) && t.phase == Ended
  {
    if InThrustZone(t.x, width) then
      if t.phase != Ended then Engage else Release
    else Ignore
  }

  /** The region that turns the rocket in direction `dir`; `NoTurn` has none. */
  predicate InTurnZone(x: real, width: nat, dir: Turn)
  {
    match dir
    case Negative => InNegativeTurnZone(x, width)
    case Positive => InPositiveTurnZone(x, width)
    case NoTurn => false
  }

  /** RespondToTouchRotateInput, for one touch: the if / else-if of the source. */
  function TouchTurn(x: real, width: nat): Turn
  {
    if InNegativeTurnZone(x, width) then Negative
    else if InPositiveTurnZone(x, width) then Positive
    else NoTurn
  }

  /** Under integer division a quarter never reaches past the half minus a quarter. */
  lemma QuarterBelowHalf(width: nat)
    ensures width / 4 <= width / 2 - width / 4
  {
    var q, r := width / 4, width % 4;
    assert width == 4 * q + r;
    assert width / 2 == 2 * q + r / 2;
  }

  /** No position lies in two regions. */
  lemma ZonesDisjoint(x: real, width: nat)
    ensures !(InThrustZone(x, width) && InNegativeTurnZone(x, width))
    ensures !(InThrustZone(x, width) && InPositiveTurnZone(x, width))
    ensures !(InNegativeTurnZone(x, width) && InPositiveTurnZone(x, width))
  {
    QuarterBelowHalf(width);
  }

  /** Because the regions are disjoint, the else in the source decides nothing:
      each turn direction is given by its own region alone. */
  lemma TouchTurnZones(x: real, width: nat)
    ensures TouchTurn(x, width) == Negative <==> InNegativeTurnZone(x, width)
    ensures TouchTurn(x, width) == Positive <==> InPositiveTurnZone(x, width)
    ensures InThrustZone(x, width) ==> TouchTurn(x, width) == NoTurn
  {
    ZonesDisjoint(x, width);
  }

  /** Each touch triggers at most one of thrust, a negative turn or a positive turn. */
  lemma AtMostOneTouchAction(t: Touch, width: nat)
    ensures TouchThrust(t, width) == Ignore || TouchTurn(t.x, width) == NoTurn
  {
    ZonesDisjoint(t.x, width);
  }
}
