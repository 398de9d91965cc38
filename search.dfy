/**
 * `TSNE::_search_beta`: a bounded doubling/bisection search for the kernel
 * precision `beta` whose perplexity is within `Tolerance` of the target.
 */
module BetaSearch {
  import opened Tsne

  const Tolerance: real := 0.00001
  const MaxSteps: nat := 50

  /** The loop state: the current `beta` and the two optional bounds. */
  datatype Bracket = Bracket(beta: real, downBound: Option<real>, upBound: Option<real>)

  /**
   * What a run of the loop produces: the state it ends in (whose `beta` is
   * returned), whether it left through the early exit, and every `beta`
   * handed to `cal_perp`, in order.
   */
  datatype Outcome = Outcome(final: Bracket, converged: bool, tried: seq<real>)

  const Start := Bracket(1.0, None, None)

  predicate OutOfTolerance(diff: real)
  {
    diff > Tolerance || diff < -Tolerance
  }

  /**
   * Every bound lies on the correct side of `beta`, every value is positive,
   * and once both bounds are known `beta` is their midpoint.
   */
  ghost predicate WellBracketed(st: Bracket)
  {
    && st.beta > 0.0
    && (st.downBound.Some? ==> 0.0 < st.downBound.value < st.beta)
    && (st.upBound.Some? ==> st.beta < st.upBound.value)
    && (st.downBound.Some? && st.upBound.Some? ==>
          st.beta == (st.downBound.value + st.upBound.value) / 2.0)
  }

  /**
   * `down_bound` only holds a `beta` whose perplexity was too high and
   * `up_bound` only one whose perplexity was too low.
   */
  ghost predicate Disciplined(calPerp: real -> real, target: real, st: Bracket)
  {
    && (st.downBound.Some? ==> calPerp(st.downBound.value) - target > Tolerance)
    && (st.upBound.Some? ==> calPerp(st.upBound.value) - target < -Tolerance)
  }

  function Width(st: Bracket): real
    requires st.downBound.Some? && st.upBound.Some?
  {
    st.upBound.value - st.downBound.value
  }

  /**
   * One pass of the loop body when `diff` is out of tolerance. Too high a
   * perplexity makes `beta` the lower bound and moves up (to the midpoint
   * with the upper bound, or doubling); too low makes it the upper bound and
   * moves down (to the midpoint with the lower bound, or halving).
   */
  function Step(st: Bracket, diff: real): (next: Bracket)
    requires OutOfTolerance(diff)
    ensures WellBracketed(st) ==> WellBracketed(next)
    ensures diff > Tolerance ==> next.downBound == Some(st.beta) && next.upBound == st.upBound
    ensures diff < -Tolerance ==> next.upBound == Some(st.beta) && next.downBound == st.downBound
    ensures WellBracketed(st) && diff > Tolerance ==> next.beta > st.beta
    ensures WellBracketed(st) && diff < -Tolerance ==> next.beta < st.beta
    ensures WellBracketed(st) && st.downBound.Some? && st.upBound.Some? ==>
      next.downBound.Some? && next.upBound.Some? && Width(next) == Width(st) / 2.0
  {
    if diff > Tolerance then
      match st.upBound
      case Some(bound) => Bracket((st.beta + bound) / 2.0, Some(st.beta), st.upBound)
      case None => Bracket(st.beta * 2.0, Some(st.beta), None)
    else
      match st.downBound
      case Some(bound) => Bracket((st.beta + bound) / 2.0, st.downBound, Some(st.beta))
      case None => Bracket(st.beta / 2.0, None, Some(st.beta))
  }

  /** A step records the `beta` just evaluated on the side its `diff` says. */
  lemma StepDisciplined(calPerp: real -> real, target: real, st: Bracket)
    requires Disciplined(calPerp, target, st)
    requires OutOfTolerance(calPerp(st.beta) - target)
    ensures Disciplined(calPerp, target, Step(st, calPerp(st.beta) - target))
  {
  }

  /**
   * The loop as a function: `st` is the state at the top of a pass and
   * `tried` the arguments of the `cal_perp` calls made so far, one per pass.
   */
  function Search(calPerp: real -> real, target: real, st: Bracket, tried: seq<real>): (o: Outcome)
    decreases MaxSteps - |tried|
    ensures |tried| <= |o.tried|
    ensures o.converged ==> !OutOfTolerance(calPerp(o.final.beta) - target)
  {
    if |tried| >= MaxSteps then
      Outcome(st, false, tried)
    else
      var diff := calPerp(st.beta) - target;
      if OutOfTolerance(diff) then
        Search(calPerp, target, Step(st, diff), tried + [st.beta])
      else
        Outcome(st, true, tried + [st.beta])
  }

  /**
   * The shape of a run: it extends `tried` by one evaluation per pass, starting
   * with the current `beta`, and makes at most `MaxSteps` in all. It stops
   * early only at a `beta` within tolerance, which it returns; otherwise it
   * uses every pass.
   */
  lemma {:induction false} SearchTrace(calPerp: real -> real, target: real, st: Bracket, tried: seq<real>)
    requires |tried| <= MaxSteps
    decreases MaxSteps - |tried|
    ensures var o := Search(calPerp, target, st, tried);
      && |tried| <= |o.tried| <= MaxSteps && o.tried[..|tried|] == tried
      && (|tried| < MaxSteps ==> |tried| < |o.tried| && o.tried[|tried|] == st.beta)
      && (!o.converged ==> |o.tried| == MaxSteps)
      && (o.converged ==> |tried| < |o.tried| && o.tried[|o.tried| - 1] == o.final.beta
                          && !OutOfTolerance(calPerp(o.final.beta) - target))
  {
    if |tried| < MaxSteps {
      var diff := calPerp(st.beta) - target;
      if OutOfTolerance(diff) {
        var tried' := tried + [st.beta];
        SearchTrace(calPerp, target, Step(st, diff), tried');
        var o := Search(calPerp, target, Step(st, diff), tried');
        assert o.tried[..|tried|] == o.tried[..|tried'|][..|tried|];
      }
    }
  }

  /** Every `beta` the loop tries, and the one it returns, is positive. */
  lemma {:induction false} SearchPositive(calPerp: real -> real, target: real, st: Bracket, tried: seq<real>)
    requires WellBracketed(st)
    requires forall k :: 0 <= k < |tried| ==> tried[k] > 0.0
    decreases MaxSteps - |tried|
    ensures var o := Search(calPerp, target, st, tried);
      o.final.beta > 0.0 && forall k :: 0 <= k < |o.tried| ==> o.tried[k] > 0.0
  {
    if |tried| < MaxSteps {
      var diff := calPerp(st.beta) - target;
      if OutOfTolerance(diff) {
        SearchPositive(calPerp, target, Step(st, diff), tried + [st.beta]);
      }
    }
  }

  /**
   * Every evaluation but the one that triggers the early exit was out of
   * tolerance: the loop never passes over an acceptable `beta`.
   */
  lemma {:induction false} SearchStopsAtFirst(calPerp: real -> real, target: real, st: Bracket, tried: seq<real>)
    requires forall k :: 0 <= k < |tried| ==> OutOfTolerance(calPerp(tried[k]) - target)
    decreases MaxSteps - |tried|
    ensures var o := Search(calPerp, target, st, tried);
      forall k :: 0 <= k < |o.tried| ==>
        OutOfTolerance(calPerp(o.tried[k]) - target) || (o.converged && k == |o.tried| - 1)
  {
    if |tried| < MaxSteps {
      var diff := calPerp(st.beta) - target;
      if OutOfTolerance(diff) {
        var tried' := tried + [st.beta];
        assert forall k :: 0 <= k < |tried'| ==> OutOfTolerance(calPerp(tried'[k]) - target);
        SearchStopsAtFirst(calPerp, target, Step(st, diff), tried');
        assert Search(calPerp, target, st, tried) == Search(calPerp, target, Step(st, diff), tried');
      }
    }
  }

  /**
   * Each step preserves the bound discipline, so the state the loop ends in
   * has it.
   */
  lemma {:induction false} SearchDisciplined(calPerp: real -> real, target: real, st: Bracket, tried: seq<real>)
    requires WellBracketed(st) && Disciplined(calPerp, target, st)
    decreases MaxSteps - |tried|
    ensures var o := Search(calPerp, target, st, tried);
      WellBracketed(o.final) && Disciplined(calPerp, target, o.final)
  {
    if |tried| < MaxSteps {
      var diff := calPerp(st.beta) - target;
      if OutOfTolerance(diff) {
        StepDisciplined(calPerp, target, st);
        SearchDisciplined(calPerp, target, Step(st, diff), tried + [st.beta]);
      }
    }
  }

  /**
   * `_search_beta`: start at `beta = 1` with no bounds and run at most
   * `MaxSteps` passes, leaving early once `|cal_perp(beta) - perplexity|` is
   * within tolerance. `evaluated` lists the arguments of every call of
   * `calPerp`, in order.
   */
  method SearchBeta(model: TSNE, calPerp: real -> real) returns (beta: real, ghost evaluated: seq<real>)
    ensures beta == Search(calPerp, model.perplexity, Start, []).final.beta
    ensures evaluated == Search(calPerp, model.perplexity, Start, []).tried
    ensures beta > 0.0 && 0 < |evaluated| <= MaxSteps
  {
    ghost var whole := Search(calPerp, model.perplexity, Start, []);
    SearchTrace(calPerp, model.perplexity, Start, []);
    SearchPositive(calPerp, model.perplexity, Start, []);
    beta := 1.0;
    var downBound: Option<real> := None;
    var upBound: Option<real> := None;
    evaluated := [];
    for i := 0 to MaxSteps
      invariant WellBracketed(Bracket(beta, downBound, upBound))
      invariant whole == Search(calPerp, model.perplexity, Bracket(beta, downBound, upBound), evaluated)
      invariant |evaluated| == i
    {
      ghost var st := Bracket(beta, downBound, upBound);
      var perp := calPerp(beta);
      evaluated := evaluated + [beta];
      var diff := perp - model.perplexity;
      if diff > Tolerance {
        if upBound.Some? {
          var bound := upBound.value;
          downBound := Some(beta);
          beta := (beta + bound) / 2.0;
        } else {
          downBound := Some(beta);
          beta := beta * 2.0;
        }
      } else if diff < -Tolerance {
        if downBound.Some? {
          var bound := downBound.value;
          upBound := Some(beta);
          beta := (beta + bound) / 2.0;
        } else {
          upBound := Some(beta);
          beta := beta / 2.0;
        }
      } else {
        break;
      }
      assert Bracket(beta, downBound, upBound) == Step(st, diff);
    }
  }
}
