/**
 * The debounce latch that both monitors' `FileChangeHandler` keep in the two
 * fields `last_change` and `has_alerted`, as a value with its two transitions,
 * and the behaviour of any sequence of transitions.
 *
 * Times are whole numbers of seconds supplied by the caller; `delay` is the
 * quiet threshold.
 */
module Debounce {

  datatype Latch = Latch(lastChange: int, hasAlerted: bool)

  /** The state a handler starts in: not alerted, last change at construction time. */
  function Start(now: int): Latch
  {
    Latch(now, false)
  }

  /** An accepted change puts the latch back in its start state, with the timer at `now`. */
  function Touch(now: int): Latch
  {
    Start(now)
  }

  /** A completion check at `now` fires exactly when this holds. */
  predicate Due(s: Latch, now: int, delay: int)
  {
    !s.hasAlerted && now - s.lastChange >= delay
  }

  /**
   * A completion check at `now`: it never moves the timer, and afterwards the
   * latch is set exactly when it was set already or the check fired.
   */
  function Check(s: Latch, now: int, delay: int): (r: Latch)
    ensures r.lastChange == s.lastChange
    ensures r.hasAlerted <==> s.hasAlerted || now - s.lastChange >= delay
  {
    if Due(s, now, delay) then s.(hasAlerted := true) else s
  }

  /** A check on a set latch fires nothing and changes nothing. */
  lemma CheckWhenAlerted(s: Latch, now: int, delay: int)
    requires s.hasAlerted
    ensures !Due(s, now, delay) && Check(s, now, delay) == s
  {
  }

  /** The state a firing check leaves cannot fire at the next check, whenever it comes. */
  lemma CheckFiresOnce(s: Latch, now: int, later: int, delay: int)
    requires Due(s, now, delay)
    ensures !Due(Check(s, now, delay), later, delay)
  {
  }

  /** One call to the handler: an accepted change, or a completion check. */
  datatype Step = Change(at: int) | Poll(at: int)

  function Next(s: Latch, step: Step, delay: int): Latch
  {
    match step
    case Change(t) => Touch(t)
    case Poll(t) => Check(s, t, delay)
  }

  predicate Fires(s: Latch, step: Step, delay: int)
  {
    step.Poll? && Due(s, step.at, delay)
  }

  /** The state after running `steps` from `s`. */
  function Run(s: Latch, steps: seq<Step>, delay: int): Latch
    decreases |steps|
  {
    if steps == [] then s else Run(Next(s, steps[0], delay), steps[1..], delay)
  }

  /** How many notifications `steps` fire from `s`. */
  function FireCount(s: Latch, steps: seq<Step>, delay: int): nat
    decreases |steps|
  {
    if steps == [] then 0
    else (if Fires(s, steps[0], delay) then 1 else 0) + FireCount(Next(s, steps[0], delay), steps[1..], delay)
  }

  /** No accepted change among `steps`. */
  predicate Quiet(steps: seq<Step>)
  {
    forall k :: 0 <= k < |steps| ==> steps[k].Poll?
  }

  /** Some check in `steps` happens `delay` or more after `since`. */
  predicate LatePoll(steps: seq<Step>, since: int, delay: int)
  {
    exists k :: 0 <= k < |steps| && steps[k].Poll? && steps[k].at - since >= delay
  }

  /** Running `a` then `b` is running `a + b`, and their notifications add up. */
  lemma {:induction false} RunAppend(s: Latch, a: seq<Step>, b: seq<Step>, delay: int)
    ensures Run(s, a + b, delay) == Run(Run(s, a, delay), b, delay)
    ensures FireCount(s, a + b, delay) == FireCount(s, a, delay) + FireCount(Run(s, a, delay), b, delay)
    decreases |a|
  {
    if a == [] {
      assert a + b == b;
    } else {
      assert (a + b)[0] == a[0];
      assert (a + b)[1..] == a[1..] + b;
      RunAppend(Next(s, a[0], delay), a[1..], b, delay);
    }
  }

  /**
   * The whole behaviour of a quiet period: with no accepted change, the
   * checks fire exactly once if the latch was clear and some check came
   * `delay` or more after the last change, and never otherwise; the timer
   * stays put and the latch ends set exactly when it was set or that check
   * fired.
   */
  lemma {:induction false} QuietPeriod(s: Latch, steps: seq<Step>, delay: int)
    requires Quiet(steps)
    ensures FireCount(s, steps, delay) == if !s.hasAlerted && LatePoll(steps, s.lastChange, delay) then 1 else 0
    ensures Run(s, steps, delay).lastChange == s.lastChange
    ensures Run(s, steps, delay).hasAlerted <==> s.hasAlerted || LatePoll(steps, s.lastChange, delay)
    decreases |steps|
  {
    if steps != [] {
      var s' := Next(s, steps[0], delay);
      var rest := steps[1..];
      assert Quiet(rest) by {
        forall k | 0 <= k < |rest| ensures rest[k].Poll? {
          assert rest[k] == steps[k + 1];
        }
      }
      QuietPeriod(s', rest, delay);
      assert s'.lastChange == s.lastChange;
      assert LatePoll(steps, s.lastChange, delay) <==>
        (steps[0].at - s.lastChange >= delay || LatePoll(rest, s.lastChange, delay)) by {
        if LatePoll(rest, s.lastChange, delay) {
          var k :| 0 <= k < |rest| && rest[k].Poll? && rest[k].at - s.lastChange >= delay;
          assert steps[k + 1] == rest[k];
        }
        if LatePoll(steps, s.lastChange, delay) && steps[0].at - s.lastChange < delay {
          var k :| 0 <= k < |steps| && steps[k].Poll? && steps[k].at - s.lastChange >= delay;
          assert k != 0;
          assert rest[k - 1] == steps[k];
        }
      }
    }
  }

  /** Between two accepted changes at most one notification fires. */
  lemma AtMostOncePerQuietPeriod(s: Latch, steps: seq<Step>, delay: int)
    requires Quiet(steps)
    ensures FireCount(s, steps, delay) <= 1
  {
    QuietPeriod(s, steps, delay);
  }

  /** Once alerted, any number of checks without an accepted change fire nothing and change nothing. */
  lemma {:induction false} SilentOnceAlerted(s: Latch, steps: seq<Step>, delay: int)
    requires s.hasAlerted && Quiet(steps)
    ensures FireCount(s, steps, delay) == 0
    ensures Run(s, steps, delay) == s
    decreases |steps|
  {
    if steps != [] {
      assert Quiet(steps[1..]) by {
        forall k | 0 <= k < |steps[1..]| ensures steps[1..][k].Poll? {
          assert steps[1..][k] == steps[k + 1];
        }
      }
      SilentOnceAlerted(s, steps[1..], delay);
    }
  }

  /** A check that comes less than `delay` after the last change fires nothing, however many there are. */
  lemma NothingBeforeThreshold(s: Latch, steps: seq<Step>, delay: int)
    requires Quiet(steps)
    requires forall k :: 0 <= k < |steps| ==> steps[k].at - s.lastChange < delay
    ensures FireCount(s, steps, delay) == 0
  {
    QuietPeriod(s, steps, delay);
  }

  /**
   * After a notification, an accepted change followed by a quiet period with
   * a check `delay` or more after it fires exactly one more notification,
   * whatever the state before the change.
   */
  lemma FiresAgainAfterChange(s: Latch, t: int, quiet: seq<Step>, delay: int)
    requires Quiet(quiet) && LatePoll(quiet, t, delay)
    ensures FireCount(s, [Change(t)] + quiet, delay) == 1
    ensures Run(s, [Change(t)] + quiet, delay).hasAlerted
  {
    RunAppend(s, [Change(t)], quiet, delay);
    assert Run(s, [Change(t)], delay) == Touch(t);
    QuietPeriod(Touch(t), quiet, delay);
  }

  /**
   * The latch is set after a run exactly when a notification fired since the
   * last accepted change, and at most one did.
   */
  lemma LatchMeansFiredSinceChange(s: Latch, before: seq<Step>, t: int, after: seq<Step>, delay: int)
    requires Quiet(after)
    ensures Run(s, before + [Change(t)] + after, delay).hasAlerted <==> FireCount(Touch(t), after, delay) == 1
    ensures FireCount(s, before + [Change(t)] + after, delay) == FireCount(s, before, delay) + FireCount(Touch(t), after, delay)
  {
    RunAppend(s, before, [Change(t)], delay);
    RunAppend(s, before + [Change(t)], after, delay);
    assert Run(Run(s, before, delay), [Change(t)], delay) == Touch(t);
    assert FireCount(Run(s, before, delay), [Change(t)], delay) == 0;
    QuietPeriod(Touch(t), after, delay);
  }

  /** Checks once a second at `from`, `from + 1`, ..., `to - 1`. */
  function Polls(from: int, to: int): (steps: seq<Step>)
    ensures Quiet(steps)
    ensures |steps| == if from <= to then to - from else 0
    ensures forall k :: 0 <= k < |steps| ==> steps[k].at == from + k
    decreases if from <= to then to - from else 0
  {
    if from >= to then [] else [Poll(from)] + Polls(from + 1, to)
  }

  /**
   * With a 60-second threshold, changes at 0, 10 and 20 and a check every
   * second from 21 on, nothing fires before 80, the check at 80 fires, and
   * the checks after it fire nothing more.
   */
  lemma ThresholdScenario(start: int, later: int)
    requires later >= 81
    ensures FireCount(Start(start), [Change(0), Change(10), Change(20)] + Polls(21, 80), 60) == 0
    ensures FireCount(Start(start), [Change(0), Change(10), Change(20)] + Polls(21, 81), 60) == 1
    ensures FireCount(Start(start), [Change(0), Change(10), Change(20)] + Polls(21, later), 60) == 1
  {
    var changes := [Change(0), Change(10), Change(20)];
    ScenarioChanges(start, changes);
    ScenarioBefore(start, changes);
    ScenarioFrom(start, changes, 81);
    ScenarioFrom(start, changes, later);
  }

  lemma ScenarioChanges(start: int, changes: seq<Step>)
    requires changes == [Change(0), Change(10), Change(20)]
    ensures Run(Start(start), changes, 60) == Touch(20)
    ensures FireCount(Start(start), changes, 60) == 0
  {
    var tail := changes[1..];
    assert tail == [Change(10), Change(20)] && tail[1..] == [Change(20)] && tail[1..][1..] == [];
    assert Run(Start(start), changes, 60) == Run(Touch(0), tail, 60);
    assert Run(Touch(0), tail, 60) == Run(Touch(10), tail[1..], 60);
    assert Run(Touch(10), tail[1..], 60) == Run(Touch(20), [], 60);
    assert FireCount(Start(start), changes, 60) == FireCount(Touch(0), tail, 60);
    assert FireCount(Touch(0), tail, 60) == FireCount(Touch(10), tail[1..], 60);
    assert FireCount(Touch(10), tail[1..], 60) == FireCount(Touch(20), [], 60);
  }

  lemma ScenarioBefore(start: int, changes: seq<Step>)
    requires Run(Start(start), changes, 60) == Touch(20) && FireCount(Start(start), changes, 60) == 0
    ensures FireCount(Start(start), changes + Polls(21, 80), 60) == 0
  {
    RunAppend(Start(start), changes, Polls(21, 80), 60);
    NothingBeforeThreshold(Touch(20), Polls(21, 80), 60);
  }

  lemma ScenarioFrom(start: int, changes: seq<Step>, to: int)
    requires Run(Start(start), changes, 60) == Touch(20) && FireCount(Start(start), changes, 60) == 0
    requires to >= 81
    ensures FireCount(Start(start), changes + Polls(21, to), 60) == 1
  {
    RunAppend(Start(start), changes, Polls(21, to), 60);
    QuietPeriod(Touch(20), Polls(21, to), 60);
    assert Polls(21, to)[59].at == 80;
  }
}
