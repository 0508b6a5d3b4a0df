/** A run of the protocol seen as the worlds it passes through: the form in which the objects
state what they did. It is the same as a legal run from one world to the other. */
module ProtocolRuns {
  import opened Common
  import opened Cadence
  import opened Protocol

  /** One step leads from `a` to `b`. */
  ghost predicate Link(cfg: Config, a: World, s: Step, b: World) { Enabled(a, s) && b == Apply(cfg, a, s) }

  ghost predicate LinkAt(cfg: Config, worlds: seq<World>, steps: seq<Step>, i: nat) {
    i < |steps| && i + 1 < |worlds| && Link(cfg, worlds[i], steps[i], worlds[i + 1])
  }

  ghost predicate Linked(cfg: Config, worlds: seq<World>, steps: seq<Step>) {
    |worlds| == |steps| + 1 && forall i: nat :: i < |steps| ==> LinkAt(cfg, worlds, steps, i)
  }

  ghost predicate Reaches(cfg: Config, w: World, steps: seq<Step>, v: World) {
    exists worlds :: Linked(cfg, worlds, steps) && worlds[0] == w && worlds[|steps|] == v
  }

  lemma ReachesNow(cfg: Config, w: World)
    ensures Reaches(cfg, w, [], w)
  {
    assert Linked(cfg, [w], []);
  }

  lemma ReachesOne(cfg: Config, w: World, s: Step)
    requires Enabled(w, s)
    ensures Reaches(cfg, w, [s], Apply(cfg, w, s))
  {
    var worlds := [w, Apply(cfg, w, s)];
    assert LinkAt(cfg, worlds, [s], 0);
    assert Linked(cfg, worlds, [s]);
  }

  lemma ReachesOn(cfg: Config, w: World, steps: seq<Step>, v: World, more: seq<Step>, u: World)
    requires Reaches(cfg, w, steps, v) && Reaches(cfg, v, more, u)
    ensures Reaches(cfg, w, steps + more, u)
  {
    var a :| Linked(cfg, a, steps) && a[0] == w && a[|steps|] == v;
    var b :| Linked(cfg, b, more) && b[0] == v && b[|more|] == u;
    var all, both := a + b[1..], steps + more;
    forall i: nat | i < |both| ensures LinkAt(cfg, all, both, i) {
      if i < |steps| { assert LinkAt(cfg, a, steps, i); } else { assert LinkAt(cfg, b, more, i - |steps|); }
    }
    assert Linked(cfg, all, both);
  }

  /** Reaching and running are the same thing. */
  lemma {:induction false} ReachesIsRun(cfg: Config, w: World, steps: seq<Step>, v: World)
    ensures Reaches(cfg, w, steps, v) <==> Legal(cfg, w, steps) && Run(cfg, w, steps) == v
    decreases |steps|
  {
    if steps == [] {
      ReachesNow(cfg, w);
    } else {
      if Reaches(cfg, w, steps, v) { FirstStep(cfg, w, steps, v); }
      if Enabled(w, steps[0]) {
        ReachesIsRun(cfg, Apply(cfg, w, steps[0]), steps[1..], v);
        if Reaches(cfg, Apply(cfg, w, steps[0]), steps[1..], v) {
          ReachesOne(cfg, w, steps[0]);
          ReachesOn(cfg, w, [steps[0]], Apply(cfg, w, steps[0]), steps[1..], v);
          assert [steps[0]] + steps[1..] == steps;
        }
      }
    }
  }

  lemma FirstStep(cfg: Config, w: World, steps: seq<Step>, v: World)
    requires steps != [] && Reaches(cfg, w, steps, v)
    ensures Enabled(w, steps[0]) && Reaches(cfg, Apply(cfg, w, steps[0]), steps[1..], v)
  {
    var worlds :| Linked(cfg, worlds, steps) && worlds[0] == w && worlds[|steps|] == v;
    assert LinkAt(cfg, worlds, steps, 0);
    TailLinked(cfg, worlds, steps);
    assert worlds[1..][0] == worlds[1] && worlds[1..][|steps[1..]|] == v;
  }

  lemma TailLinked(cfg: Config, worlds: seq<World>, steps: seq<Step>)
    requires steps != [] && Linked(cfg, worlds, steps)
    ensures Linked(cfg, worlds[1..], steps[1..])
  {
    var rest, after := worlds[1..], steps[1..];
    forall i: nat | i < |after| ensures LinkAt(cfg, rest, after, i) {
      assert LinkAt(cfg, worlds, steps, i + 1);
    }
  }
}
