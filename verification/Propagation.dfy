/** How a breaking change spreads through the crates that expose another
    crate's types: passes over the plan until one changes nothing. */
module Propagation {
  datatype Level = Breaking | Review | New | Additive | Same

  type Plan = map<string, Level>

  /** The dependencies each crate lists among the planned ones, and whether its
      public text names a dependency's items. */
  datatype Workspace = Workspace(deps: map<string, seq<string>>, exposes: (string, string) -> bool)

  predicate Covers(w: Workspace, plan: Plan) { plan.Keys == w.deps.Keys }

  predicate Broken(l: Level) { l == Breaking || l == Review }

  /** Levels the loop leaves as they are. */
  predicate Settled(l: Level) { Broken(l) || l == New }

  function BrokenCrates(plan: Plan): (r: set<string>) {
    set name | name in plan && Broken(plan[name])
  }

  function OpenCrates(plan: Plan): set<string> {
    set name | name in plan && !Settled(plan[name])
  }

  // -------------------------------------------------------------------------
  // What the loop is to compute.
  // -------------------------------------------------------------------------

  /** Some exposed dependency of `name` is in `s`. */
  ghost predicate ExposesOne(w: Workspace, name: string, s: set<string>) {
    name in w.deps && exists dep :: dep in w.deps[name] && dep in s && w.exposes(name, dep)
  }

  /** Contains every crate that starts out broken, and every published crate
      that exposes a member. */
  ghost predicate Closed(w: Workspace, initial: Plan, s: set<string>) {
    && BrokenCrates(initial) <= s
    && forall name :: name in initial && initial[name] != New && ExposesOne(w, name, s) ==> name in s
  }

  ghost predicate Least(w: Workspace, initial: Plan, s: set<string>) {
    Closed(w, initial, s) && forall t :: Closed(w, initial, t) ==> s <= t
  }

  /** Crates that join become breaking; every other level stays. */
  predicate Raised(initial: Plan, plan: Plan) {
    && plan.Keys == initial.Keys
    && forall name :: name in initial ==>
         plan[name] == initial[name] || (plan[name] == Breaking && !Settled(initial[name]))
  }

  /** Each raised crate has the reason recorded for it. */
  predicate Justified(w: Workspace, initial: Plan, plan: Plan, why: map<string, string>) {
    && why.Keys == set name | name in initial && name in plan && plan[name] != initial[name]
    && forall name :: name in why ==>
         name in w.deps && why[name] in w.deps[name] && w.exposes(name, why[name])
         && why[name] in plan && Broken(plan[why[name]])
  }

  // -------------------------------------------------------------------------
  // The loop.
  // -------------------------------------------------------------------------

  /** Nothing outside a closed set has been broken so far. */
  ghost predicate Within(w: Workspace, initial: Plan, plan: Plan) {
    forall t :: Closed(w, initial, t) ==> BrokenCrates(plan) <= t
  }

  ghost predicate Progress(w: Workspace, initial: Plan, plan: Plan, why: map<string, string>) {
    Raised(initial, plan) && Justified(w, initial, plan, why) && Within(w, initial, plan)
  }

  lemma Raise(w: Workspace, initial: Plan, plan: Plan, why: map<string, string>, name: string, dep: string)
    requires Progress(w, initial, plan, why)
    requires name in plan && !Settled(plan[name]) && name in w.deps && dep in w.deps[name] && w.exposes(name, dep)
    requires dep in plan && Broken(plan[dep])
    ensures Progress(w, initial, plan[name := Breaking], why[name := dep])
    ensures OpenCrates(plan[name := Breaking]) == OpenCrates(plan) - {name}
  {
    var next := plan[name := Breaking];
    assert initial[name] == plan[name];
    assert Justified(w, initial, next, why[name := dep]) by { RaiseJustified(w, initial, plan, why, name, dep); }
    hide Justified;
    assert BrokenCrates(next) == BrokenCrates(plan) + {name};
    forall t | Closed(w, initial, t) ensures BrokenCrates(next) <= t {
      assert dep in BrokenCrates(plan);
      assert ExposesOne(w, name, t);
    }
  }

  lemma RaiseJustified(w: Workspace, initial: Plan, plan: Plan, why: map<string, string>, name: string, dep: string)
    requires Raised(initial, plan) && Justified(w, initial, plan, why)
    requires name in plan && !Settled(plan[name]) && name in w.deps && dep in w.deps[name] && w.exposes(name, dep)
    requires dep in plan && Broken(plan[dep])
    ensures Justified(w, initial, plan[name := Breaking], why[name := dep])
  {
    hide BrokenCrates;
  }

  /** The first exposed dependency that is broken, if any. */
  method FirstBroken(w: Workspace, plan: Plan, name: string) returns (found: bool, dep: string)
    requires name in w.deps
    ensures found ==> dep in w.deps[name] && dep in plan && Broken(plan[dep]) && w.exposes(name, dep)
    ensures !found ==> !ExposesOne(w, name, BrokenCrates(plan))
  {
    var deps := w.deps[name];
    for k := 0 to |deps|
      invariant forall j :: 0 <= j < k ==> !(deps[j] in plan && Broken(plan[deps[j]]) && w.exposes(name, deps[j]))
    {
      dep := deps[k];
      if dep in plan && Broken(plan[dep]) && w.exposes(name, dep) { return true, dep; }
    }
    found, dep := false, "";
  }

  /** One pass over the plan. */
  method Pass(w: Workspace, names: seq<string>, ghost initial: Plan, before: Plan, reasons: map<string, string>)
    returns (plan: Plan, why: map<string, string>, changed: bool)
    requires Covers(w, before) && (forall name :: name in before <==> name in names)
    requires Progress(w, initial, before, reasons)
    ensures Progress(w, initial, plan, why)
    ensures changed ==> OpenCrates(plan) < OpenCrates(before)
    ensures !changed ==> plan == before
    ensures !changed ==>
      forall name :: name in plan && !Settled(plan[name]) ==> !ExposesOne(w, name, BrokenCrates(plan))
  {
    plan, why, changed := before, reasons, false;
    for k := 0 to |names|
      invariant Progress(w, initial, plan, why) && plan.Keys == before.Keys
      invariant if changed then OpenCrates(plan) < OpenCrates(before) else plan == before
      invariant !changed ==> forall j :: 0 <= j < k && !Settled(plan[names[j]]) ==>
                  !ExposesOne(w, names[j], BrokenCrates(plan))
    {
      var name := names[k];
      if !Settled(plan[name]) {
        var found, dep := FirstBroken(w, plan, name);
        if found {
          Raise(w, initial, plan, why, name, dep);
          assert name in OpenCrates(plan);
          plan, why, changed := plan[name := Breaking], why[name := dep], true;
        }
      }
    }
  }

  /** Stops, having broken the least closed set, whatever the order of the plan
      and of the dependencies. */
  method Propagate(w: Workspace, names: seq<string>, initial: Plan) returns (plan: Plan, why: map<string, string>)
    requires Covers(w, initial) && (forall name :: name in initial <==> name in names)
    ensures Raised(initial, plan) && Justified(w, initial, plan, why)
    ensures Least(w, initial, BrokenCrates(plan))
  {
    plan, why := initial, map[];
    var changed := true;
    while changed
      invariant Progress(w, initial, plan, why)
      invariant !changed ==>
        forall name :: name in plan && !Settled(plan[name]) ==> !ExposesOne(w, name, BrokenCrates(plan))
      decreases OpenCrates(plan), changed
    {
      plan, why, changed := Pass(w, names, initial, plan, why);
    }
    forall name | name in initial && initial[name] != New && ExposesOne(w, name, BrokenCrates(plan))
      ensures name in BrokenCrates(plan)
    {}
  }

  // -------------------------------------------------------------------------
  // The outcome depends on nothing but the initial levels and the exposures.
  // -------------------------------------------------------------------------

  /** The same dependencies, in any order and any number of times. */
  ghost predicate SameWorkspace(v: Workspace, w: Workspace) {
    && v.deps.Keys == w.deps.Keys && v.exposes == w.exposes
    && forall name, dep :: name in v.deps ==> (dep in v.deps[name] <==> dep in w.deps[name])
  }

  lemma SameClosed(v: Workspace, w: Workspace, initial: Plan, s: set<string>)
    requires SameWorkspace(v, w) && Closed(v, initial, s)
    ensures Closed(w, initial, s)
  {
    forall name | name in initial && initial[name] != New && ExposesOne(w, name, s) ensures name in s {
      assert ExposesOne(v, name, s);
    }
  }

  lemma RaisedBy(initial: Plan, plan: Plan, name: string)
    requires Raised(initial, plan) && name in initial
    ensures plan[name] == if name in BrokenCrates(plan) && !Broken(initial[name]) then Breaking else initial[name]
  {}

  /** Any two outcomes the loop allows give every crate the same level. */
  lemma OrderIndependent(v: Workspace, w: Workspace, initial: Plan, first: Plan, second: Plan)
    requires SameWorkspace(v, w)
    requires Raised(initial, first) && Least(v, initial, BrokenCrates(first))
    requires Raised(initial, second) && Least(w, initial, BrokenCrates(second))
    ensures first == second
  {
    SameClosed(v, w, initial, BrokenCrates(first));
    SameClosed(w, v, initial, BrokenCrates(second));
    assert BrokenCrates(first) == BrokenCrates(second);
    forall name | name in initial ensures first[name] == second[name] {
      RaisedBy(initial, first, name);
      RaisedBy(initial, second, name);
    }
  }

  /** A crate's steps from one that was broken at the start: each exposes the next. */
  ghost predicate Chain(w: Workspace, initial: Plan, path: seq<string>) {
    && path != [] && path[|path| - 1] in initial && initial[path[|path| - 1]] in {Breaking, Review}
    && forall k :: 0 <= k < |path| - 1 ==>
         && path[k] in initial && initial[path[k]] != New && path[k] in w.deps
         && path[k + 1] in w.deps[path[k]] && w.exposes(path[k], path[k + 1])
  }

  lemma {:induction false} ChainInClosed(w: Workspace, initial: Plan, path: seq<string>, s: set<string>)
    requires Chain(w, initial, path) && Closed(w, initial, s)
    ensures path[0] in s
  {
    if |path| > 1 {
      var rest := path[1..];
      assert Chain(w, initial, rest) by { assert forall k :: 0 <= k < |rest| ==> rest[k] == path[k + 1]; }
      ChainInClosed(w, initial, rest, s);
      assert ExposesOne(w, path[0], s);
    }
  }

  lemma ChainExtends(w: Workspace, initial: Plan, name: string, path: seq<string>)
    requires Chain(w, initial, path) && name in initial && initial[name] != New && name in w.deps
    requires path[0] in w.deps[name] && w.exposes(name, path[0])
    ensures Chain(w, initial, [name] + path)
  {
    var longer := [name] + path;
    forall k | 0 <= k < |longer| - 1
      ensures longer[k] in initial && initial[longer[k]] != New && longer[k] in w.deps
           && longer[k + 1] in w.deps[longer[k]] && w.exposes(longer[k], longer[k + 1])
    {
      if k > 0 { assert longer[k] == path[k - 1] && longer[k + 1] == path[k]; }
    }
  }

  ghost predicate Linked(w: Workspace, initial: Plan, name: string) {
    exists path :: Chain(w, initial, path) && path[0] == name
  }

  lemma LinkedNext(w: Workspace, initial: Plan, name: string, dep: string)
    requires Covers(w, initial) && name in initial && initial[name] != New
    requires dep in w.deps[name] && w.exposes(name, dep) && Linked(w, initial, dep)
    ensures Linked(w, initial, name)
  {
    var path :| Chain(w, initial, path) && path[0] == dep;
    ChainExtends(w, initial, name, path);
    assert ([name] + path)[0] == name;
  }

  lemma LinkedClosed(w: Workspace, initial: Plan, linked: set<string>)
    requires Covers(w, initial) && forall n :: n in linked <==> n in initial && Linked(w, initial, n)
    ensures Closed(w, initial, linked)
  {
    forall n | n in BrokenCrates(initial) ensures n in linked {
      assert Chain(w, initial, [n]) && [n][0] == n;
    }
    forall n | n in initial && initial[n] != New && ExposesOne(w, n, linked) ensures n in linked {
      var dep :| dep in w.deps[n] && dep in linked && w.exposes(n, dep);
      LinkedNext(w, initial, n, dep);
    }
  }

  /** A crate ends up broken exactly when exposures lead from it to a crate that
      was broken at the start. */
  lemma BrokenByChain(w: Workspace, initial: Plan, s: set<string>, name: string)
    requires Covers(w, initial) && Least(w, initial, s)
    ensures name in s <==> Linked(w, initial, name)
  {
    if Linked(w, initial, name) {
      var path :| Chain(w, initial, path) && path[0] == name;
      ChainInClosed(w, initial, path, s);
    }
    var linked := set n | n in initial && Linked(w, initial, n);
    LinkedClosed(w, initial, linked);
  }

  /** The level of every crate, from the levels at the start: a level that needs no
      raising stays, and another becomes breaking exactly where a chain leads to a
      breaking crate or one under review. */
  lemma LevelExact(w: Workspace, initial: Plan, plan: Plan, name: string)
    requires Covers(w, initial) && Raised(initial, plan) && Least(w, initial, BrokenCrates(plan)) && name in initial
    ensures plan[name]
         == if initial[name] in {Breaking, Review, New} then initial[name]
            else if Linked(w, initial, name) then Breaking
            else initial[name]
  {
    BrokenByChain(w, initial, BrokenCrates(plan), name);
    RaisedBy(initial, plan, name);
    hide Linked, Least, Raised;
  }
}
