/** The bootstrap rounds: every plugin that failed is tried again as long as a round
    activates at least one. */
module PluginBootstrap {
  import opened Prelude
  import opened PluginState
  import opened PluginTheorems
  import PluginRuntimeObject

  function ActivationId(run: string, id: string): string {
    "run:" + run + ":" + id
  }

  lemma ActivationIdInjective(run: string, a: string, b: string)
    requires ActivationId(run, a) == ActivationId(run, b)
    ensures a == b
  {
    var prefix := "run:" + run + ":";
    assert ActivationId(run, a)[|prefix|..] == a;
    assert ActivationId(run, b)[|prefix|..] == b;
  }

  function Try(rt: Runtime, run: string, id: string): (Runtime, Option<PluginError>) {
    Activate(rt, ActivationId(run, id), RunScope(run), id)
  }

  /** The runtime after activating a list of plugins in turn. */
  function After(rt: Runtime, run: string, order: seq<string>): Runtime {
    if order == [] then rt else Try(After(rt, run, Init(order)), run, Last(order)).0
  }

  ghost predicate AllSucceed(rt: Runtime, run: string, order: seq<string>) {
    order == [] || (AllSucceed(rt, run, Init(order)) && Try(After(rt, run, Init(order)), run, Last(order)).1.None?)
  }

  ghost predicate Named(list: seq<(string, PluginError)>, id: string) {
    exists w :: w in list && w.0 == id
  }

  /** Each listed plugin fails in this state, with this error. */
  ghost predicate Stuck(rt: Runtime, run: string, list: seq<(string, PluginError)>) {
    forall w :: w in list ==> Try(rt, run, w.0) == (rt, Some(w.1))
  }

  /** What any bootstrap promises: the activations it made succeeded one after the
      other, and every other plugin is reported with the error it still meets. */
  ghost predicate Settled(rt: Runtime, run: string, plugins: seq<string>, active: seq<string>,
                          warnings: seq<(string, PluginError)>) {
    && AllSucceed(rt, run, active) && Elements(active) <= Elements(plugins)
    && (forall id :: id in plugins ==> id in active || Named(warnings, id))
    && (forall w :: w in warnings ==> w.0 in plugins) && Stuck(After(rt, run, active), run, warnings)
  }

  lemma StuckFails(rt: Runtime, run: string, list: seq<(string, PluginError)>, id: string)
    requires Stuck(rt, run, list) && Named(list, id)
    ensures Try(rt, run, id).1.Some?
  {
    var w :| w in list && w.0 == id;
  }

  function Ids(list: seq<(string, PluginError)>): seq<string> {
    if list == [] then [] else Ids(Init(list)) + [Last(list).0]
  }

  lemma {:induction false} IdsAre(list: seq<(string, PluginError)>)
    ensures |Ids(list)| == |list| && forall k :: 0 <= k < |list| ==> Ids(list)[k] == list[k].0
  {
    if list != [] {
      IdsAre(Init(list));
    }
  }

  lemma IdsNamed(list: seq<(string, PluginError)>, id: string)
    ensures id in Ids(list) <==> Named(list, id)
  {
    IdsAre(list);
    if id in Ids(list) {
      var k :| 0 <= k < |list| && Ids(list)[k] == id;
      assert list[k] in list;
    }
    if Named(list, id) {
      var w :| w in list && w.0 == id;
      var k :| 0 <= k < |list| && list[k] == w;
      assert Ids(list)[k] == id;
    }
  }

  /** One round over the plugins that still wait. */
  method TryAll(runtime: PluginRuntimeObject.PluginRuntime, run: string, pending: seq<string>, active0: seq<string>,
                ghost rt: Runtime)
    returns (active: seq<string>, next: seq<(string, PluginError)>)
    requires runtime.State() == After(rt, run, active0) && AllSucceed(rt, run, active0)
    modifies runtime, runtime.capabilities
    ensures runtime.State() == After(rt, run, active) && AllSucceed(rt, run, active)
    ensures Elements(active0) <= Elements(active) <= Elements(active0) + Elements(pending)
    ensures |next| <= |pending| && forall w :: w in next ==> w.0 in pending
    ensures forall id :: id in pending ==> id in active || Named(next, id)
    ensures |next| == |pending| ==> Stuck(runtime.State(), run, next)
  {
    active, next := active0, [];
    for i := 0 to |pending|
      invariant runtime.State() == After(rt, run, active) && AllSucceed(rt, run, active)
      invariant Elements(active0) <= Elements(active) <= Elements(active0) + Elements(pending)
      invariant |next| <= i && forall w :: w in next ==> w.0 in pending
      invariant forall k :: 0 <= k < i ==> pending[k] in active || Named(next, pending[k])
      invariant |next| == i ==> Stuck(runtime.State(), run, next)
    {
      var id := pending[i];
      var error := runtime.ActivatePlugin(ActivationId(run, id), RunScope(run), id);
      if error.None? {
        InitOfAppend(active, id);
        active := active + [id];
      } else {
        NamedGrows(next, (id, error.value));
        next := next + [(id, error.value)];
      }
    }
  }

  lemma NamedGrows(list: seq<(string, PluginError)>, w: (string, PluginError))
    ensures Named(list + [w], w.0) && forall id :: Named(list, id) ==> Named(list + [w], id)
  {
    assert w in list + [w];
    forall id | Named(list, id) ensures Named(list + [w], id) {
      var x :| x in list && x.0 == id;
      assert x in list + [w];
    }
  }

  /** Rounds go on until nothing waits or a round activates nothing. */
  method ActivateInRounds(runtime: PluginRuntimeObject.PluginRuntime, run: string, plugins: seq<string>)
    returns (active: seq<string>, warnings: seq<(string, PluginError)>)
    modifies runtime, runtime.capabilities
    ensures runtime.State() == After(old(runtime.State()), run, active)
    ensures Settled(old(runtime.State()), run, plugins, active, warnings)
  {
    ghost var rt := runtime.State();
    var pending := plugins;
    active, warnings := [], [];
    while pending != []
      invariant runtime.State() == After(rt, run, active) && AllSucceed(rt, run, active)
      invariant Elements(pending) <= Elements(plugins) && Elements(active) <= Elements(plugins)
      invariant forall id :: id in plugins ==> id in active || id in pending
      invariant warnings == []
      decreases |pending|
    {
      var before := |pending|;
      var next;
      ghost var was := active;
      active, next := TryAll(runtime, run, pending, active, rt);
      forall id ensures id in Ids(next) <==> Named(next, id) {
        IdsNamed(next, id);
      }
      IdsAre(next);
      forall id | id in plugins ensures id in active || id in Ids(next) {
        assert id in was ==> id in Elements(was) && id in Elements(active);
      }
      assert forall w :: w in next ==> w.0 in Elements(pending);
      if next == [] {
        assert forall id :: id in pending ==> !Named(next, id) && id in active;
        return;
      }
      if |next| == before {
        warnings := next;
        return;
      }
      forall id | id in Ids(next) ensures id in Elements(pending) {
        var w :| w in next && w.0 == id;
      }
      pending := Ids(next);
    }
  }

  // ----- the least fixpoint --------------------------------------------------------------------

  ghost predicate Available(rt: Runtime, s: string, c: string) {
    Resolve(rt.scopes, s, c).Some?
  }

  /** What keeps a plugin out whatever else is active. */
  ghost predicate Defect(rt: Runtime, run: string, id: string) {
    || id !in rt.installed || !rt.installed[id].wellFormed || ActiveIn(rt, id, RunScope(run))
    || Contributions(rt.installed[id].contributions).Err? || ScopeId(RunScope(run)) !in rt.scopes
    || exists c :: c in rt.installed[id].declared && Taken(rt, run, id, c)
  }

  /** Another plugin holds the capability in the Run's scope. */
  ghost predicate Taken(rt: Runtime, run: string, id: string, c: string) {
    var s := ScopeId(RunScope(run));
    BoundIn(rt, s, c) && rt.scopes[s].bindings[c].plugin != id
  }

  ghost predicate Declares(rt: Runtime, id: string, c: string) {
    id in rt.installed && c in rt.installed[id].declared
  }

  /** A capability is there from the start or declared by one of these plugins. */
  ghost predicate Supplied(rt: Runtime, run: string, plugins: set<string>, c: string) {
    Available(rt, ScopeId(RunScope(run)), c) || exists q :: q in plugins && Declares(rt, q, c)
  }

  ghost predicate Ready(rt: Runtime, run: string, plugins: set<string>, id: string) {
    && !Defect(rt, run, id)
    && forall v :: v in rt.installed[id].requiredServices ==> Supplied(rt, run, plugins, "service:" + v)
  }

  /** Pairwise disjoint declarations and activation ids nobody uses yet. */
  ghost predicate Orderly(rt: Runtime, run: string, ids: set<string>) {
    && (forall id :: id in rt.installed ==> rt.installed[id].id == id)
    && (forall p, q, c :: p in ids && q in ids && p != q && Declares(rt, p, c) ==> !Declares(rt, q, c))
    && (forall id :: id in ids ==> ActivationId(run, id) !in rt.activations)
  }

  /** Each plugin of the order is ready once those before it are active. */
  ghost predicate Derivable(rt: Runtime, run: string, order: seq<string>) {
    || order == []
    || (Derivable(rt, run, Init(order)) && Last(order) !in Init(order) &&
        Ready(rt, run, Elements(Init(order)), Last(order)))
  }

  ghost predicate Closed(rt: Runtime, run: string, ids: set<string>, plugins: set<string>) {
    forall id :: id in ids && Ready(rt, run, plugins, id) ==> id in plugins
  }

  lemma AvailableWhenBound(scopes: Scopes, s: string, c: string)
    ensures Resolve(scopes, s, c).Some? <==> exists k: nat :: BoundAt(scopes, s, c, k)
  {
    ResolveIsNearest(scopes, s, c);
  }

  lemma {:induction false} SameChain(x: Scopes, y: Scopes, s: string, k: nat)
    requires x.Keys == y.Keys && forall t :: t in x ==> x[t].parent == y[t].parent
    ensures Ancestor(x, s, k) == Ancestor(y, s, k)
  {
    if k > 0 {
      SameChain(x, y, s, k - 1);
    }
  }

  /** More bindings in a scope add just those to what resolves from it. */
  lemma AvailableGrows(x: Runtime, y: Runtime, s: string, c: string, more: seq<string>)
    requires s in x.scopes && x.scopes.Keys == y.scopes.Keys
    requires forall t :: t in x.scopes ==> x.scopes[t].parent == y.scopes[t].parent
    requires forall t :: BoundIn(y, t, c) <==> BoundIn(x, t, c) || (t == s && c in more)
    ensures Available(y, s, c) <==> Available(x, s, c) || c in more
  {
    AvailableWhenBound(x.scopes, s, c);
    AvailableWhenBound(y.scopes, s, c);
    forall k: nat ensures Ancestor(x.scopes, s, k) == Ancestor(y.scopes, s, k) {
      SameChain(x.scopes, y.scopes, s, k);
    }
    forall k: nat ensures BoundAt(x.scopes, s, c, k) ==> BoundAt(y.scopes, s, c, k) {
      var t := Ancestor(x.scopes, s, k);
      assert t.Some? ==> (BoundIn(y, t.value, c) <==> BoundIn(x, t.value, c) || (t.value == s && c in more));
    }
    forall k: nat ensures BoundAt(y.scopes, s, c, k) ==> BoundAt(x.scopes, s, c, k) || c in more {
      var t := Ancestor(x.scopes, s, k);
      assert t.Some? ==> (BoundIn(y, t.value, c) <==> BoundIn(x, t.value, c) || (t.value == s && c in more));
    }
    assert Ancestor(y.scopes, s, 0) == Some(s);
    assert BoundIn(y, s, c) ==> BoundAt(y.scopes, s, c, 0);
  }

  lemma {:induction false} NothingMissing(scopes: Scopes, s: string, services: seq<string>)
    ensures MissingFrom(scopes, s, services).None? <==>
            forall v :: v in services ==> Resolve(scopes, s, "service:" + v).Some?
  {
    if services != [] {
      NothingMissing(scopes, s, Init(services));
      InitLast(services);
      assert Last(services) in services;
    }
  }

  /** How a state reached by an order relates to the one it started from. */
  ghost predicate Tracks(rt: Runtime, run: string, ids: set<string>, order: seq<string>, now: Runtime) {
    var s := ScopeId(RunScope(run));
    && now.installed == rt.installed && now.scopes.Keys == rt.scopes.Keys
    && (forall c :: Available(now, s, c) <==> Supplied(rt, run, Elements(order), c))
    && (forall id :: id in ids ==> (ActiveIn(now, id, RunScope(run)) <==> ActiveIn(rt, id, RunScope(run)) || id in order))
    && (forall id :: id in ids && id !in order ==> ActivationId(run, id) !in now.activations)
    && (forall id, c :: id in ids && id !in order && Declares(rt, id, c) ==>
          (Taken(now, run, id, c) <==> Taken(rt, run, id, c)))
  }

  /** In a tracked state a plugin activates exactly when it is new and ready. */
  lemma TryWhenReady(rt: Runtime, run: string, ids: set<string>, order: seq<string>, now: Runtime, id: string)
    requires Orderly(rt, run, ids) && Tracks(rt, run, ids, order, now) && id in ids
    ensures Try(now, run, id).1.None? <==> id !in order && Ready(rt, run, Elements(order), id)
  {
    var s := ScopeId(RunScope(run));
    if id in rt.installed {
      var plugin := rt.installed[id];
      NothingMissing(now.scopes, s, plugin.requiredServices);
      forall v | v in plugin.requiredServices
        ensures Resolve(now.scopes, s, "service:" + v).Some? <==> Supplied(rt, run, Elements(order), "service:" + v)
      {
        assert Available(now, s, "service:" + v) <==> Supplied(rt, run, Elements(order), "service:" + v);
      }
      if s in now.scopes {
        BatchConflicts(now.scopes[s].bindings, plugin, plugin.declared);
        forall c | c in plugin.declared && id !in order ensures Taken(now, run, id, c) <==> Taken(rt, run, id, c) {
          assert Declares(rt, id, c);
        }
      }
    }
  }

  lemma ActiveAfterTry(now: Runtime, run: string, id: string, other: string)
    requires id in now.installed && now.installed[id].id == id
    requires Try(now, run, id).1.None? && ActivationId(run, id) !in now.activations
    ensures ActiveIn(Try(now, run, id).0, other, RunScope(run)) <==> ActiveIn(now, other, RunScope(run)) || other == id
  {
    var a, after := ActivationId(run, id), Try(now, run, id).0;
    Activated(now, a, RunScope(run), id);
    if ActiveIn(now, other, RunScope(run)) {
      var b :| b in now.activations && now.activations[b].plugin.id == other && now.activations[b].scope == RunScope(run);
      assert after.activations[b].plugin.id == other;
    }
    assert after.activations[a].plugin.id == id && after.activations[a].scope == RunScope(run);
    if ActiveIn(after, other, RunScope(run)) {
      var b :| b in after.activations && after.activations[b].plugin.id == other && after.activations[b].scope == RunScope(run);
      assert b != a ==> now.activations[b].plugin.id == other;
    }
  }

  lemma AvailableAfterTry(now: Runtime, run: string, id: string, c: string)
    requires Try(now, run, id).1.None? && id in now.installed
    ensures Available(Try(now, run, id).0, ScopeId(RunScope(run)), c) <==>
            Available(now, ScopeId(RunScope(run)), c) || c in now.installed[id].declared
  {
    var a, s, after := ActivationId(run, id), ScopeId(RunScope(run)), Try(now, run, id).0;
    Activated(now, a, RunScope(run), id);
    ActivatedBindings(now, a, RunScope(run), id, c);
    AvailableGrows(now, after, s, c, now.installed[id].declared);
  }

  lemma TrackStep(rt: Runtime, run: string, ids: set<string>, order: seq<string>, now: Runtime, id: string)
    requires Orderly(rt, run, ids) && Tracks(rt, run, ids, order, now) && id in ids && id !in order
    requires Try(now, run, id).1.None?
    ensures Tracks(rt, run, ids, order + [id], Try(now, run, id).0)
  {
    var a, s, after, longer := ActivationId(run, id), ScopeId(RunScope(run)), Try(now, run, id).0, order + [id];
    Activated(now, a, RunScope(run), id);
    assert Elements(longer) == Elements(order) + {id};
    forall c ensures Available(after, s, c) <==> Supplied(rt, run, Elements(longer), c) {
      AvailableAfterTry(now, run, id, c);
      SuppliedMore(rt, run, Elements(order), id, c);
    }
    forall other | other in ids
      ensures ActiveIn(after, other, RunScope(run)) <==> ActiveIn(rt, other, RunScope(run)) || other in longer
    {
      ActiveAfterTry(now, run, id, other);
    }
    forall other | other in ids && other !in longer ensures ActivationId(run, other) !in after.activations {
      if ActivationId(run, other) == a {
        ActivationIdInjective(run, other, id);
      }
    }
    forall other, c | other in ids && other !in longer && Declares(rt, other, c)
      ensures Taken(after, run, other, c) <==> Taken(rt, run, other, c)
    {
      assert !Declares(rt, id, c);
      ActivatedBindings(now, a, RunScope(run), id, c);
      assert Taken(now, run, other, c) <==> Taken(rt, run, other, c);
    }
  }

  lemma SuppliedMore(rt: Runtime, run: string, plugins: set<string>, id: string, c: string)
    ensures Supplied(rt, run, plugins + {id}, c) <==> Supplied(rt, run, plugins, c) || Declares(rt, id, c)
  {
  }

  lemma TrackStart(rt: Runtime, run: string, ids: set<string>)
    requires Orderly(rt, run, ids)
    ensures Tracks(rt, run, ids, [], rt)
  {
  }

  /** Activations that succeed one after the other are those of a derivation. */
  lemma {:induction false} SuccessIsDerivation(rt: Runtime, run: string, ids: set<string>, order: seq<string>)
    requires Orderly(rt, run, ids) && Elements(order) <= ids && AllSucceed(rt, run, order)
    ensures Derivable(rt, run, order) && Tracks(rt, run, ids, order, After(rt, run, order))
  {
    if order == [] {
      TrackStart(rt, run, ids);
    } else {
      assert forall x :: x in Init(order) ==> x in Elements(order);
      assert Last(order) in Elements(order);
      SuccessIsDerivation(rt, run, ids, Init(order));
      var now := After(rt, run, Init(order));
      TryWhenReady(rt, run, ids, Init(order), now, Last(order));
      TrackStep(rt, run, ids, Init(order), now, Last(order));
      InitLast(order);
    }
  }

  lemma ReadyMonotone(rt: Runtime, run: string, fewer: set<string>, more: set<string>, id: string)
    requires fewer <= more && Ready(rt, run, fewer, id)
    ensures Ready(rt, run, more, id)
  {
    forall v | v in rt.installed[id].requiredServices ensures Supplied(rt, run, more, "service:" + v) {
      assert Supplied(rt, run, fewer, "service:" + v);
    }
  }

  /** A derivation stays inside every set that is closed under readiness. */
  lemma {:induction false} DerivationIsLeast(rt: Runtime, run: string, ids: set<string>, order: seq<string>, closed: set<string>)
    requires Derivable(rt, run, order) && Elements(order) <= ids && Closed(rt, run, ids, closed)
    ensures Elements(order) <= closed
  {
    if order != [] {
      assert forall x :: x in Init(order) ==> x in Elements(order);
      assert Last(order) in Elements(order);
      DerivationIsLeast(rt, run, ids, Init(order), closed);
      ReadyMonotone(rt, run, Elements(Init(order)), closed, Last(order));
      InitLast(order);
    }
  }

  /** The rounds end with the least set of plugins closed under the dependency on
      services, activated in an order that serves every dependency. */
  lemma RoundsReachLeastFixpoint(rt: Runtime, run: string, plugins: seq<string>, active: seq<string>,
                                 warnings: seq<(string, PluginError)>, closed: set<string>)
    requires Orderly(rt, run, Elements(plugins)) && Settled(rt, run, plugins, active, warnings)
    ensures Derivable(rt, run, active) && Closed(rt, run, Elements(plugins), Elements(active))
    ensures Closed(rt, run, Elements(plugins), closed) ==> Elements(active) <= closed
  {
    var ids, now := Elements(plugins), After(rt, run, active);
    SuccessIsDerivation(rt, run, ids, active);
    forall id | id in ids && Ready(rt, run, Elements(active), id) ensures id in active {
      TryWhenReady(rt, run, ids, active, now, id);
      if Named(warnings, id) {
        StuckFails(now, run, warnings, id);
      }
    }
    if Closed(rt, run, ids, closed) {
      DerivationIsLeast(rt, run, ids, active, closed);
    }
  }

  /** Two bootstraps of the same plugins, listed in any order and with any repetition,
      activate the same set. */
  lemma OrderIsIrrelevant(rt: Runtime, run: string, plugins: seq<string>, others: seq<string>, active: seq<string>,
                          activeToo: seq<string>, warnings: seq<(string, PluginError)>,
                          warningsToo: seq<(string, PluginError)>)
    requires Orderly(rt, run, Elements(plugins)) && Elements(plugins) == Elements(others)
    requires Settled(rt, run, plugins, active, warnings) && Settled(rt, run, others, activeToo, warningsToo)
    ensures Elements(active) == Elements(activeToo)
  {
    RoundsReachLeastFixpoint(rt, run, plugins, active, warnings, Elements(activeToo));
    RoundsReachLeastFixpoint(rt, run, others, activeToo, warningsToo, Elements(active));
  }
}
