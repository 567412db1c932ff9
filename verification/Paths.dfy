/**
 Series of steps, as stretches of a run.
 */
module Paths {
  import opened Registry
  import opened Lifecycle
  import Runs

  /** The events lead from s to t, each enabled where it is taken. */
  ghost predicate Path(s: State, events: seq<Event>, t: State)
    decreases |events|
  {
    if events == [] then t == s
    else Shape(s) && PointersOk(s) && Enabled(s, events[0]) && Path(Apply(s, events[0]), events[1..], t)
  }

  lemma OneStep(s: State, e: Event)
    requires Shape(s) && PointersOk(s) && Enabled(s, e)
    ensures Path(s, [e], Apply(s, e))
  {
    hide Enabled, Apply;
    var t := Apply(s, e);
    assert [e][1..] == [] && Path(t, [], t);
  }

  lemma {:induction false} Joined(s: State, es: seq<Event>, t: State, fs: seq<Event>, u: State)
    requires Path(s, es, t) && Path(t, fs, u)
    ensures Path(s, es + fs, u)
    decreases |es|
  {
    hide Enabled, Apply;
    if es == [] {
      assert es + fs == fs;
    } else {
      assert (es + fs)[1..] == es[1..] + fs && (es + fs)[0] == es[0];
      Joined(Apply(s, es[0]), es[1..], t, fs, u);
    }
  }

  /** A series of steps keeps the invariant. */
  lemma {:induction false} PathKeeps(s: State, events: seq<Event>, t: State)
    requires Inv(s) && Path(s, events, t)
    ensures Inv(t)
    decreases |events|
  {
    hide Inv, Enabled, Apply;
    if events != [] {
      Runs.StepKeeps(s, events[0]);
      PathKeeps(Apply(s, events[0]), events[1..], t);
    }
  }

  /** A state some run comes to. */
  ghost predicate Reachable(t: State) {
    exists s, events :: Runs.Initial(s) && Path(s, events, t)
  }

  /** The states on the way. */
  ghost function States(s: State, events: seq<Event>, t: State): (r: seq<State>)
    requires Path(s, events, t)
    ensures |r| == |events| + 1 && r[0] == s && r[|events|] == t
    ensures forall k :: 0 <= k < |events| ==> Runs.CanStep(r[k], events[k], r[k + 1])
    decreases |events|
  {
    hide Enabled, Apply;
    if events == [] then [s]
    else [s] + States(Apply(s, events[0]), events[1..], t)
  }

  /** What is reachable is reached by a run, and so meets the invariant. */
  lemma ReachedByRun(t: State)
    requires Reachable(t)
    ensures Inv(t) && exists states, events :: Runs.IsRun(states, events) && states[|events|] == t
  {
    hide Inv, Enabled, Apply, Runs.Initial;
    var s, events :| Runs.Initial(s) && Path(s, events, t);
    var states := States(s, events, t);
    assert Runs.IsRun(states, events) && states[|events|] == t;
    Runs.RunKeepsInv(states, events, |events|);
  }

  lemma ReachFurther(s: State, e: Event)
    requires Reachable(s) && Shape(s) && PointersOk(s) && Enabled(s, e)
    ensures Reachable(Apply(s, e))
  {
    hide Enabled, Apply, Runs.Initial;
    var first, events :| Runs.Initial(first) && Path(first, events, s);
    OneStep(s, e);
    Joined(first, events, s, [e], Apply(s, e));
  }
}
