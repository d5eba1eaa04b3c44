/** Wrapping of angles in degrees. */
module Heading {

  /** `a` and `b` differ by the given number of full turns. */
  predicate TurnsApart(a: real, b: real, turns: int) {
    a == b + 360.0 * turns as real
  }

  ghost predicate Congruent(a: real, b: real) {
    exists turns :: TurnsApart(a, b, turns)
  }

  /** The number of full turns to take off an angle to bring it into [-180, 180). */
  function Turns(angle: real): int {
    ((angle + 180.0) / 360.0).Floor
  }

  function Resolved(angle: real): (r: real)
    ensures -180.0 <= r < 180.0
    ensures TurnsApart(angle, r, Turns(angle))
  {
    angle - 360.0 * Turns(angle) as real
  }

  lemma TurnsShift(angle: real, k: int)
    ensures Turns(angle + 360.0 * k as real) == Turns(angle) + k
  {
    assert (angle + 360.0 * k as real + 180.0) / 360.0 == (angle + 180.0) / 360.0 + k as real;
  }

  method Resolv(angle: real) returns (r: real)
    ensures r == Resolved(angle)
  {
    r := angle;
    while r < -180.0
      invariant Resolved(r) == Resolved(angle)
      decreases -180.0 - r
    {
      TurnsShift(r, 1);
      r := r + 360.0;
    }
    while r >= 180.0
      invariant r >= -180.0
      invariant Resolved(r) == Resolved(angle)
      decreases r
    {
      TurnsShift(r, -1);
      r := r - 360.0;
    }
  }

  /** The result is the only angle of the range that is a whole number of turns away. */
  lemma ResolvedUnique(angle: real, r: real)
    requires -180.0 <= r < 180.0
    ensures Congruent(angle, r) <==> r == Resolved(angle)
  {
    if r == Resolved(angle) {
      assert TurnsApart(angle, r, Turns(angle));
    }
    if Congruent(angle, r) {
      var k :| TurnsApart(angle, r, k);
      TurnsShift(r, k);
    }
  }

  lemma CongruentResolved(a: real, b: real, k: int)
    requires TurnsApart(a, b, k)
    ensures Resolved(a) == Resolved(b)
  {
    TurnsShift(b, k);
  }

  // ---------------------------------------------------------------- differences of headings

  function HeadingError(command: real, heading: real): real {
    Resolved(command - heading)
  }

  method ComputeHeadingError(command: real, heading: real) returns (r: real)
    ensures r == HeadingError(command, heading)
  {
    r := Resolv(command - heading);
  }

  /** Quotient rounded toward zero, as `fmod` takes it. */
  function TruncatedTurns(angle: real): int {
    if angle >= 0.0 then (angle / 360.0).Floor else -((-angle) / 360.0).Floor
  }

  function Fmod360(angle: real): real {
    angle - 360.0 * TruncatedTurns(angle) as real
  }

  method CompassNormalize(angle: real) returns (r: real)
    ensures 0.0 <= r < 360.0
    ensures Congruent(angle, r)
  {
    r := Fmod360(angle);
    assert TurnsApart(angle, r, TruncatedTurns(angle));
    if r < 0.0 {
      r := r + 360.0;
      assert TurnsApart(angle, r, TruncatedTurns(angle) - 1);
    }
  }

  /** Replacing either heading by one a whole number of turns away, as `CompassNormalize` does,
      does not change the error. */
  lemma HeadingErrorIgnoresTurns(command: real, command': real, heading: real, heading': real)
    requires Congruent(command, command') && Congruent(heading, heading')
    ensures HeadingError(command, heading) == HeadingError(command', heading')
  {
    var j :| TurnsApart(command, command', j);
    var k :| TurnsApart(heading, heading', k);
    CongruentResolved(command - heading, command' - heading', j - k);
  }

  /** Exchanging the headings negates the error, except for opposite headings, where both
      errors are -180. */
  lemma HeadingErrorAntisymmetric(command: real, heading: real)
    ensures HeadingError(heading, command) == -HeadingError(command, heading) <==> HeadingError(command, heading) != -180.0
    ensures HeadingError(command, heading) == -180.0 ==> HeadingError(heading, command) == -180.0
  {
    var e := HeadingError(command, heading);
    var k := Turns(command - heading);
    if e == -180.0 {
      CongruentResolved(heading - command, -180.0, 1 - k);
      assert TurnsApart(-180.0, -180.0, 0);
      ResolvedUnique(-180.0, -180.0);
    } else {
      CongruentResolved(heading - command, -e, -k);
      assert TurnsApart(-e, -e, 0);
      ResolvedUnique(-e, -e);
    }
  }
}
