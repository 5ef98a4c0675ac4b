/** Resolution finds the nearest binding, and the bindings of a scope are those of the
    plugins active in it. */
module PluginTheorems {
  import opened Prelude
  import opened PluginState

  // ----- scope ids ------------------------------------------------------------------------

  lemma ScopeIdInjective(a: Scope, b: Scope)
    requires ScopeId(a) == ScopeId(b)
    ensures a == b
  {
    var x, y := ScopeId(a), ScopeId(b);
    assert x[0] == y[0] && x[1] == y[1];
    assert x[2] == y[2] && x[3] == y[3];
    if a.Workspace? { assert x[10..] == a.id && y[10..] == b.id; }
    if a.RunScope? && b.RunScope? { assert x[4..] == a.id && y[4..] == b.id; }
    if a.TeamScope? { assert x[5..] == a.id && y[5..] == b.id; }
    if a.AgentScope? { assert x[6..] == a.id && y[6..] == b.id; }
  }

  // ----- resolution -------------------------------------------------------------------------

  /** The scope k parents up, as long as the chain is defined. */
  ghost function Ancestor(scopes: Scopes, scope: string, k: nat): Option<string> {
    if k == 0 then Some(scope)
    else
      var below := Ancestor(scopes, scope, k - 1);
      if below.Some? && below.value in scopes then scopes[below.value].parent else None
  }

  ghost predicate BoundAt(scopes: Scopes, scope: string, capability: string, k: nat) {
    var s := Ancestor(scopes, scope, k);
    s.Some? && s.value in scopes && capability in scopes[s.value].bindings
  }

  /** The nearest ancestor that binds the capability, where any does. */
  ghost predicate Nearest(scopes: Scopes, scope: string, capability: string, answer: Option<(string, Binding)>) {
    if answer.None? then forall k: nat :: !BoundAt(scopes, scope, capability, k)
    else exists k: nat :: NearestAt(scopes, scope, capability, answer.value, k)
  }

  ghost predicate NearestAt(scopes: Scopes, scope: string, capability: string, found: (string, Binding), k: nat) {
    && BoundAt(scopes, scope, capability, k) && Ancestor(scopes, scope, k) == Some(found.0)
    && scopes[found.0].bindings[capability] == found.1
    && (forall j: nat :: j < k ==> !BoundAt(scopes, scope, capability, j))
  }

  /** A chain that comes back to a scope goes on as it did the first time. */
  lemma {:induction false} ChainRepeats(scopes: Scopes, scope: string, i: nat, k: nat, m: nat)
    requires i < k && Ancestor(scopes, scope, i) == Ancestor(scopes, scope, k)
    ensures Ancestor(scopes, scope, i + m) == Ancestor(scopes, scope, k + m)
  {
    if m > 0 {
      ChainRepeats(scopes, scope, i, k, m - 1);
    }
  }

  lemma {:induction false} CycleStaysUnbound(scopes: Scopes, scope: string, capability: string, i: nat, k: nat, m: nat)
    requires i < k && Ancestor(scopes, scope, i) == Ancestor(scopes, scope, k)
    requires forall j: nat :: j < k ==> !BoundAt(scopes, scope, capability, j)
    ensures !BoundAt(scopes, scope, capability, m)
    decreases m
  {
    if m >= k {
      CycleStaysUnbound(scopes, scope, capability, i, k, m - (k - i));
      ChainRepeats(scopes, scope, i, k, m - k);
    }
  }

  lemma {:induction false} ChainEnds(scopes: Scopes, scope: string, capability: string, k: nat, m: nat)
    requires Ancestor(scopes, scope, k).None? || Ancestor(scopes, scope, k).value !in scopes
    ensures m >= k ==> !BoundAt(scopes, scope, capability, m)
    ensures m > k ==> Ancestor(scopes, scope, m).None?
  {
    if m > k {
      ChainEnds(scopes, scope, capability, k, m - 1);
    }
  }

  ghost predicate IsAncestor(scopes: Scopes, scope: string, k: nat, s: string) {
    Ancestor(scopes, scope, k) == Some(s)
  }

  /** The ids of the first k scopes of the chain. */
  ghost predicate SeenBelow(scopes: Scopes, scope: string, k: nat, seen: set<string>) {
    && (forall s :: s in seen ==> exists j: nat :: j < k && IsAncestor(scopes, scope, j, s))
    && (forall j: nat, s :: j < k && IsAncestor(scopes, scope, j, s) ==> s in seen)
  }

  lemma SeenNext(scopes: Scopes, scope: string, k: nat, seen: set<string>, current: string)
    requires SeenBelow(scopes, scope, k, seen) && IsAncestor(scopes, scope, k, current)
    ensures SeenBelow(scopes, scope, k + 1, seen + {current})
  {
  }

  lemma {:induction false} ResolveFromNearest(scopes: Scopes, scope: string, capability: string, k: nat, seen: set<string>)
    requires SeenBelow(scopes, scope, k, seen)
    requires forall j: nat :: j < k ==> !BoundAt(scopes, scope, capability, j)
    ensures Nearest(scopes, scope, capability, ResolveFrom(scopes, capability, Ancestor(scopes, scope, k), seen))
    decreases scopes.Keys - seen
  {
    var current := Ancestor(scopes, scope, k);
    if current.None? || current.value !in scopes {
      forall m: nat ensures !BoundAt(scopes, scope, capability, m) {
        ChainEnds(scopes, scope, capability, k, m);
      }
    } else if current.value in seen {
      var i: nat :| i < k && IsAncestor(scopes, scope, i, current.value);
      forall m: nat ensures !BoundAt(scopes, scope, capability, m) {
        CycleStaysUnbound(scopes, scope, capability, i, k, m);
      }
    } else if capability in scopes[current.value].bindings {
      var found := (current.value, scopes[current.value].bindings[capability]);
      assert NearestAt(scopes, scope, capability, found, k);
    } else {
      SeenNext(scopes, scope, k, seen, current.value);
      assert Ancestor(scopes, scope, k + 1) == scopes[current.value].parent;
      assert !BoundAt(scopes, scope, capability, k);
      ResolveFromNearest(scopes, scope, capability, k + 1, seen + {current.value});
    }
  }

  /** Resolution gives the nearest binding on the parent chain, and none exactly when no
      ancestor binds the capability, be the chain finite, broken or a cycle. */
  lemma ResolveIsNearest(scopes: Scopes, scope: string, capability: string)
    ensures Nearest(scopes, scope, capability, Resolve(scopes, scope, capability))
  {
    assert Ancestor(scopes, scope, 0) == Some(scope);
    ResolveFromNearest(scopes, scope, capability, 0, {});
  }

  // ----- what a batch of bindings does --------------------------------------------------------

  lemma {:induction false} BatchInserts(bound: map<string, Binding>, plugin: Plugin, declared: seq<string>, c: string)
    ensures var after := InsertAll(bound, BindingsOf(plugin, declared));
            && (c in after <==> c in bound || c in declared)
            && (c in declared ==> after[c] == Binding(c, plugin.implementation, plugin.id))
            && (c in bound && c !in declared ==> after[c] == bound[c])
  {
    if declared != [] {
      BatchInserts(bound, plugin, Init(declared), c);
      InitLast(declared);
      InitOfAppend(BindingsOf(plugin, Init(declared)), Binding(Last(declared), plugin.implementation, plugin.id));
    }
  }

  /** A batch is accepted exactly when no other plugin holds one of its capabilities. */
  lemma {:induction false} BatchConflicts(bound: map<string, Binding>, plugin: Plugin, declared: seq<string>)
    ensures Conflict(bound, BindingsOf(plugin, declared)).None? <==>
            forall c :: c in declared && c in bound ==> bound[c].plugin == plugin.id
  {
    if declared != [] {
      BatchConflicts(bound, plugin, Init(declared));
      InitLast(declared);
      InitOfAppend(BindingsOf(plugin, Init(declared)), Binding(Last(declared), plugin.implementation, plugin.id));
      assert Last(declared) in declared;
    }
  }

  // ----- bindings are those of the active plugins -----------------------------------------------

  /** Activation a is in scope s and its plugin declares c. */
  ghost predicate Owns(rt: Runtime, a: string, s: string, c: string) {
    a in rt.activations && ScopeId(rt.activations[a].scope) == s && c in rt.activations[a].plugin.declared
  }

  ghost predicate BoundIn(rt: Runtime, s: string, c: string) {
    s in rt.scopes && c in rt.scopes[s].bindings
  }

  ghost predicate Owned(rt: Runtime, s: string, c: string) {
    exists a :: Owns(rt, a, s, c)
  }

  /** Activation a binds c in s under its own plugin and implementation. */
  ghost predicate Binds(rt: Runtime, a: string, s: string, c: string)
    requires a in rt.activations
  {
    && BoundIn(rt, s, c)
    && rt.scopes[s].bindings[c] == Binding(c, rt.activations[a].plugin.implementation, rt.activations[a].plugin.id)
  }

  ghost predicate Twins(rt: Runtime, a: string, b: string)
    requires a in rt.activations && b in rt.activations
  {
    rt.activations[a].plugin.id == rt.activations[b].plugin.id && rt.activations[a].scope == rt.activations[b].scope
  }

  /** Every scope binds exactly what the plugins active in it declare. */
  ghost predicate Exact(rt: Runtime) {
    && (forall id :: id in rt.installed ==> rt.installed[id].id == id)
    && (forall a :: a in rt.activations ==> ScopeId(rt.activations[a].scope) in rt.scopes)
    && (forall s, c :: BoundIn(rt, s, c) ==> Owned(rt, s, c))
    && (forall a, s, c :: Owns(rt, a, s, c) ==> Binds(rt, a, s, c))
    && (forall a, b :: a in rt.activations && b in rt.activations && a != b ==> !Twins(rt, a, b))
  }

  /** The declarations of two plugins active in one scope are disjoint. */
  lemma OwnersAreUnique(rt: Runtime, a: string, b: string, s: string, c: string)
    requires Exact(rt) && Owns(rt, a, s, c) && Owns(rt, b, s, c)
    ensures a == b
  {
    assert Binds(rt, a, s, c) && Binds(rt, b, s, c);
    ScopeIdInjective(rt.activations[a].scope, rt.activations[b].scope);
    assert Twins(rt, a, b);
  }

  /** The new activation may take an id only from a plugin without capabilities. */
  predicate Overwritable(rt: Runtime, a: string) {
    a !in rt.activations || rt.activations[a].plugin.declared == []
  }

  lemma Activated(rt: Runtime, a: string, scope: Scope, id: string)
    requires Activate(rt, a, scope, id).1.None?
    ensures id in rt.installed && ScopeId(scope) in rt.scopes && !ActiveIn(rt, id, scope)
    ensures var plugin, after := rt.installed[id], Activate(rt, a, scope, id).0;
            && after.scopes.Keys == rt.scopes.Keys && after.installed == rt.installed
            && (forall s :: s in rt.scopes && s != ScopeId(scope) ==> after.scopes[s] == rt.scopes[s])
            && after.scopes[ScopeId(scope)].parent == rt.scopes[ScopeId(scope)].parent
            && a in after.activations && after.activations[a].scope == scope && after.activations[a].plugin == plugin
            && (forall b :: b != a ==> (b in after.activations <==> b in rt.activations))
            && (forall b :: b != a && b in rt.activations ==> after.activations[b] == rt.activations[b])
            && (forall c :: c in plugin.declared && BoundIn(rt, ScopeId(scope), c) ==>
                  rt.scopes[ScopeId(scope)].bindings[c].plugin == plugin.id)
  {
    BatchConflicts(rt.scopes[ScopeId(scope)].bindings, rt.installed[id], rt.installed[id].declared);
  }

  lemma ActivatedBindings(rt: Runtime, a: string, scope: Scope, id: string, c: string)
    requires Activate(rt, a, scope, id).1.None?
    ensures id in rt.installed && ScopeId(scope) in rt.scopes
    ensures var plugin, s, after := rt.installed[id], ScopeId(scope), Activate(rt, a, scope, id).0;
            && (BoundIn(after, s, c) <==> BoundIn(rt, s, c) || c in plugin.declared)
            && (c in plugin.declared ==> after.scopes[s].bindings[c] == Binding(c, plugin.implementation, plugin.id))
            && (BoundIn(rt, s, c) && c !in plugin.declared ==>
                  after.scopes[s].bindings[c] == rt.scopes[s].bindings[c])
  {
    BatchInserts(rt.scopes[ScopeId(scope)].bindings, rt.installed[id], rt.installed[id].declared, c);
  }

  lemma NotActiveThere(rt: Runtime, a: string, scope: Scope, id: string)
    requires !ActiveIn(rt, id, scope) && a in rt.activations && rt.activations[a].scope == scope
    ensures rt.activations[a].plugin.id != id
  {
  }

  /** Who owns what after an activation: the others as before, and the new one its own. */
  lemma ActivatedOwners(rt: Runtime, a: string, scope: Scope, id: string, b: string, s: string, c: string)
    requires Activate(rt, a, scope, id).1.None?
    ensures var after := Activate(rt, a, scope, id).0;
            id in rt.installed &&
            (Owns(after, b, s, c) <==>
             if b == a then s == ScopeId(scope) && c in rt.installed[id].declared else Owns(rt, b, s, c))
  {
    Activated(rt, a, scope, id);
  }

  lemma ActivateKeepsOwned(rt: Runtime, a: string, scope: Scope, id: string, s: string, c: string)
    requires Exact(rt) && Activate(rt, a, scope, id).1.None? && Overwritable(rt, a)
    requires BoundIn(Activate(rt, a, scope, id).0, s, c)
    ensures Owned(Activate(rt, a, scope, id).0, s, c)
  {
    Activated(rt, a, scope, id);
    ActivatedBindings(rt, a, scope, id, c);
    ActivatedOwners(rt, a, scope, id, a, s, c);
    var after := Activate(rt, a, scope, id).0;
    if s == ScopeId(scope) && c in rt.installed[id].declared {
      assert Owns(after, a, s, c);
    } else {
      assert BoundIn(rt, s, c);
      var b :| Owns(rt, b, s, c);
      ActivatedOwners(rt, a, scope, id, b, s, c);
    }
  }

  lemma ActivateKeepsBinds(rt: Runtime, a: string, scope: Scope, id: string, b: string, s: string, c: string)
    requires Exact(rt) && Activate(rt, a, scope, id).1.None?
    requires Owns(Activate(rt, a, scope, id).0, b, s, c)
    ensures Binds(Activate(rt, a, scope, id).0, b, s, c)
  {
    Activated(rt, a, scope, id);
    ActivatedBindings(rt, a, scope, id, c);
    ActivatedOwners(rt, a, scope, id, b, s, c);
    if b != a {
      assert Binds(rt, b, s, c);
      if s == ScopeId(scope) {
        ScopeIdInjective(rt.activations[b].scope, scope);
        NotActiveThere(rt, b, scope, id);
      }
    }
  }

  /** A successful activation keeps the bindings exact, exactly when its id is fresh or
      belonged to a plugin that declares nothing. */
  lemma ActivationExact(rt: Runtime, a: string, scope: Scope, id: string)
    requires Exact(rt) && Activate(rt, a, scope, id).1.None?
    ensures Exact(Activate(rt, a, scope, id).0) <==> Overwritable(rt, a)
  {
    Activated(rt, a, scope, id);
    var after := Activate(rt, a, scope, id).0;
    if Overwritable(rt, a) {
      forall s, c | BoundIn(after, s, c) ensures Owned(after, s, c) {
        ActivateKeepsOwned(rt, a, scope, id, s, c);
      }
      forall b, s, c | Owns(after, b, s, c) ensures Binds(after, b, s, c) {
        ActivateKeepsBinds(rt, a, scope, id, b, s, c);
      }
      ActivationAddsNoTwin(rt, a, scope, id);
    } else {
      OverwrittenBindingsStay(rt, a, scope, id);
    }
  }

  lemma ActivationAddsNoTwin(rt: Runtime, a: string, scope: Scope, id: string)
    requires Exact(rt) && Activate(rt, a, scope, id).1.None?
    ensures var after := Activate(rt, a, scope, id).0;
            forall b, c :: b in after.activations && c in after.activations && b != c ==> !Twins(after, b, c)
  {
    Activated(rt, a, scope, id);
    var after := Activate(rt, a, scope, id).0;
    forall b, c | b in after.activations && c in after.activations && b != c ensures !Twins(after, b, c) {
      assert b != a && c != a ==> !Twins(rt, b, c);
      assert b != a && Twins(after, b, a) ==> ActiveIn(rt, id, scope);
      assert c != a && Twins(after, a, c) ==> ActiveIn(rt, id, scope);
    }
  }

  lemma OverwrittenBindingsStay(rt: Runtime, a: string, scope: Scope, id: string)
    requires Exact(rt) && Activate(rt, a, scope, id).1.None? && !Overwritable(rt, a)
    ensures !Exact(Activate(rt, a, scope, id).0)
  {
    Activated(rt, a, scope, id);
    var after, lost := Activate(rt, a, scope, id).0, rt.activations[a];
    var s, c := ScopeId(lost.scope), lost.plugin.declared[0];
    assert Owns(rt, a, s, c) && Binds(rt, a, s, c);
    ActivatedBindings(rt, a, scope, id, c);
    assert BoundIn(after, s, c);
    if s == ScopeId(scope) {
      ScopeIdInjective(lost.scope, scope);
      NotActiveThere(rt, a, scope, id);
    }
    forall b ensures !Owns(after, b, s, c) {
      ActivatedOwners(rt, a, scope, id, b, s, c);
      if Owns(rt, b, s, c) {
        OwnersAreUnique(rt, a, b, s, c);
      }
    }
  }

  /** Ending an activation removes exactly its own bindings. */
  lemma DeactivationExact(rt: Runtime, a: string)
    requires Exact(rt)
    ensures Exact(Deactivate(rt, a))
    ensures forall s, c :: BoundIn(Deactivate(rt, a), s, c) <==> BoundIn(rt, s, c) && !Owns(rt, a, s, c)
  {
    if a in rt.activations {
      var after := Deactivate(rt, a);
      forall s, c ensures BoundIn(after, s, c) <==> BoundIn(rt, s, c) && !Owns(rt, a, s, c) {
        DeactivatedBinding(rt, a, s, c);
      }
      forall s, c | BoundIn(after, s, c) ensures Owned(after, s, c) {
        DeactivatedBinding(rt, a, s, c);
        var b :| Owns(rt, b, s, c);
        assert Owns(after, b, s, c);
      }
      forall b, s, c | Owns(after, b, s, c) ensures Binds(after, b, s, c) {
        assert Owns(rt, b, s, c) && Binds(rt, b, s, c);
        if Owns(rt, a, s, c) {
          OwnersAreUnique(rt, a, b, s, c);
        }
        DeactivatedBinding(rt, a, s, c);
      }
      forall b, c | b in after.activations && c in after.activations && b != c ensures !Twins(after, b, c) {
        assert !Twins(rt, b, c);
      }
    }
  }

  lemma DeactivatedBinding(rt: Runtime, a: string, s: string, c: string)
    requires Exact(rt) && a in rt.activations
    ensures BoundIn(Deactivate(rt, a), s, c) <==> BoundIn(rt, s, c) && !Owns(rt, a, s, c)
    ensures BoundIn(Deactivate(rt, a), s, c) ==> Deactivate(rt, a).scopes[s].bindings[c] == rt.scopes[s].bindings[c]
  {
    if BoundIn(rt, s, c) && s == ScopeId(rt.activations[a].scope) {
      var b :| Owns(rt, b, s, c);
      assert Binds(rt, b, s, c);
      if rt.activations[b].plugin.id == rt.activations[a].plugin.id {
        ScopeIdInjective(rt.activations[a].scope, rt.activations[b].scope);
        assert Twins(rt, a, b);
      } else if Owns(rt, a, s, c) {
        OwnersAreUnique(rt, a, b, s, c);
      }
    }
  }

  lemma SameBindings(x: Runtime, y: Runtime, s: string)
    requires s in x.scopes && s in y.scopes && forall c :: BoundIn(x, s, c) <==> BoundIn(y, s, c)
    requires forall c :: BoundIn(x, s, c) && BoundIn(y, s, c) ==> x.scopes[s].bindings[c] == y.scopes[s].bindings[c]
    ensures x.scopes[s].bindings == y.scopes[s].bindings
  {
    forall c ensures c in x.scopes[s].bindings <==> c in y.scopes[s].bindings {
      assert BoundIn(x, s, c) <==> BoundIn(y, s, c);
    }
    forall c | c in x.scopes[s].bindings ensures x.scopes[s].bindings[c] == y.scopes[s].bindings[c] {
      assert BoundIn(x, s, c);
    }
  }

  /** Ending a fresh activation puts the whole runtime back. */
  lemma DeactivationUndoes(rt: Runtime, a: string, scope: Scope, id: string)
    requires Exact(rt) && a !in rt.activations && Activate(rt, a, scope, id).1.None?
    ensures Deactivate(Activate(rt, a, scope, id).0, a) == rt
  {
    Activated(rt, a, scope, id);
    ActivationExact(rt, a, scope, id);
    var middle, back, s := Activate(rt, a, scope, id).0, Deactivate(Activate(rt, a, scope, id).0, a), ScopeId(scope);
    assert back.activations == rt.activations;
    forall c ensures BoundIn(back, s, c) <==> BoundIn(rt, s, c) {
      DeactivatedBinding(middle, a, s, c);
      ActivatedBindings(rt, a, scope, id, c);
      ActivatedOwners(rt, a, scope, id, a, s, c);
      if BoundIn(rt, s, c) {
        var b :| Owns(rt, b, s, c);
        assert Binds(rt, b, s, c);
        ScopeIdInjective(rt.activations[b].scope, scope);
        NotActiveThere(rt, b, scope, id);
      }
    }
    forall c | BoundIn(back, s, c) ensures back.scopes[s].bindings[c] == rt.scopes[s].bindings[c] {
      DeactivatedBinding(middle, a, s, c);
      ActivatedBindings(rt, a, scope, id, c);
      ActivatedOwners(rt, a, scope, id, a, s, c);
    }
    SameBindings(back, rt, s);
    assert back.scopes[s] == rt.scopes[s];
    forall t | t in rt.scopes ensures t in back.scopes && back.scopes[t] == rt.scopes[t] {
      assert t != s ==> middle.scopes[t] == rt.scopes[t];
    }
    assert back.scopes.Keys == rt.scopes.Keys;
    assert back.scopes == rt.scopes;
  }

  // ----- whole runs ----------------------------------------------------------------------------

  datatype Operation =
    | Define(scopeId: string, parent: Option<string>)
    | InstallPlugin(plugin: Plugin)
    | Begin(activation: string, scope: Scope, id: string)
    | End(activation: string)

  ghost function Step(rt: Runtime, op: Operation): Runtime {
    match op
    case Define(id, parent) => rt.(scopes := DefineScope(rt.scopes, id, parent))
    case InstallPlugin(plugin) => Install(rt, plugin)
    case Begin(activation, scope, id) => Activate(rt, activation, scope, id).0
    case End(activation) => Deactivate(rt, activation)
  }

  ghost function Run(ops: seq<Operation>): Runtime {
    if ops == [] then NEW_RUNTIME else Step(Run(Init(ops)), Last(ops))
  }

  /** No activation takes over the id of one that declares capabilities. */
  ghost predicate FreshIds(ops: seq<Operation>) {
    ops == [] || (FreshIds(Init(ops)) && (Last(ops).Begin? ==> Overwritable(Run(Init(ops)), Last(ops).activation)))
  }

  lemma DefinitionExact(rt: Runtime, id: string, parent: Option<string>)
    requires Exact(rt)
    ensures Exact(rt.(scopes := DefineScope(rt.scopes, id, parent)))
  {
    var after := rt.(scopes := DefineScope(rt.scopes, id, parent));
    assert forall s, c :: BoundIn(after, s, c) <==> BoundIn(rt, s, c);
    assert forall a, s, c :: Owns(after, a, s, c) <==> Owns(rt, a, s, c);
    forall s, c | BoundIn(after, s, c) ensures Owned(after, s, c) {
      var a :| Owns(rt, a, s, c);
      assert Owns(after, a, s, c);
    }
    forall a, s, c | Owns(after, a, s, c) ensures Binds(after, a, s, c) {
      assert Binds(rt, a, s, c);
    }
    forall a, b | a in rt.activations && b in rt.activations && a != b ensures !Twins(after, a, b) {
      assert !Twins(rt, a, b);
    }
  }

  lemma InstallExact(rt: Runtime, plugin: Plugin)
    requires Exact(rt)
    ensures Exact(Install(rt, plugin))
  {
    var after := Install(rt, plugin);
    forall s, c | BoundIn(after, s, c) ensures Owned(after, s, c) {
      assert BoundIn(rt, s, c);
      var a :| Owns(rt, a, s, c);
      assert Owns(after, a, s, c);
    }
    forall a, s, c | Owns(after, a, s, c) ensures Binds(after, a, s, c) {
      assert Owns(rt, a, s, c) && Binds(rt, a, s, c);
    }
    forall a, b | a in rt.activations && b in rt.activations && a != b ensures !Twins(after, a, b) {
      assert !Twins(rt, a, b);
    }
  }

  /** In every run with fresh activation ids, each scope binds exactly the capabilities
      of the plugins active there, each held by one of them. */
  lemma {:induction false} RunsStayExact(ops: seq<Operation>)
    requires FreshIds(ops)
    ensures Exact(Run(ops))
    ensures forall a, b, s, c :: Owns(Run(ops), a, s, c) && Owns(Run(ops), b, s, c) ==> a == b
  {
    if ops != [] {
      RunsStayExact(Init(ops));
      var rt := Run(Init(ops));
      match Last(ops)
      case Define(id, parent) => DefinitionExact(rt, id, parent);
      case InstallPlugin(plugin) => InstallExact(rt, plugin);
      case Begin(activation, scope, id) =>
        if Activate(rt, activation, scope, id).1.None? {
          ActivationExact(rt, activation, scope, id);
        }
      case End(activation) => DeactivationExact(rt, activation);
    }
    forall a, b, s, c | Owns(Run(ops), a, s, c) && Owns(Run(ops), b, s, c) ensures a == b {
      OwnersAreUnique(Run(ops), a, b, s, c);
    }
  }

  // ----- command contributions -------------------------------------------------------------------

  ghost predicate Answers(rt: Runtime, a: string, found: (string, Binding)) {
    && a in rt.activations && rt.activations[a].plugin.id == found.1.plugin
    && ScopeId(rt.activations[a].scope) == found.0
  }

  /** A resolved capability leads to one activation, the one that declared it, so the
      order in which activations are searched does not matter. */
  lemma ResolvedActivation(rt: Runtime, scope: string, capability: string)
    requires Exact(rt) && Resolve(rt.scopes, scope, capability).Some?
    ensures var found := Resolve(rt.scopes, scope, capability).value;
            && (exists a :: Answers(rt, a, found))
            && (forall a :: Answers(rt, a, found) ==> Owns(rt, a, found.0, capability))
            && (forall a, b :: Answers(rt, a, found) && Answers(rt, b, found) ==> a == b)
  {
    ResolveIsNearest(rt.scopes, scope, capability);
    var found := Resolve(rt.scopes, scope, capability).value;
    assert BoundIn(rt, found.0, capability) && rt.scopes[found.0].bindings[capability] == found.1;
    var owner :| Owns(rt, owner, found.0, capability);
    assert Binds(rt, owner, found.0, capability);
    assert Answers(rt, owner, found);
    forall a | Answers(rt, a, found) ensures a == owner {
      ScopeIdInjective(rt.activations[a].scope, rt.activations[owner].scope);
      assert Twins(rt, a, owner);
    }
  }

  // ----- a reused activation id ------------------------------------------------------------------

  const PROVIDER := Plugin("p", 0, true, [], ["tool:a"], [])
  const IDLE := Plugin("q", 0, true, [], [], [])
  const SETUP := [Define("runtime", None), InstallPlugin(PROVIDER), InstallPlugin(IDLE)]

  lemma AfterSetup()
    ensures FreshIds(SETUP)
    ensures Run(SETUP) == Runtime(map["p" := PROVIDER, "q" := IDLE], map[], map["runtime" := ScopeEntry(None, map[])])
  {
    var a, b, c := SETUP[0], SETUP[1], SETUP[2];
    assert Init(SETUP) == [a, b] && Init([a, b]) == [a] && Init([a]) == [];
    assert Run([]) == NEW_RUNTIME && FreshIds([]) && FreshIds([a]) && FreshIds([a, b]);
    var scopes := map["runtime" := ScopeEntry(None, map[])];
    assert Run([a]) == Step(NEW_RUNTIME, a) == Runtime(map[], map[], scopes);
    assert Run([a, b]) == Step(Run([a]), b) == Runtime(map["p" := PROVIDER], map[], scopes);
    assert map["p" := PROVIDER]["q" := IDLE] == map["p" := PROVIDER, "q" := IDLE];
  }

  lemma ProviderStarts(rt: Runtime)
    requires rt == Run(SETUP)
    ensures Activate(rt, "a", Global, "p").1.None?
  {
    AfterSetup();
    BatchConflicts(map[], PROVIDER, PROVIDER.declared);
  }

  lemma IdleStarts(rt: Runtime)
    requires Activate(Run(SETUP), "a", Global, "p") == (rt, None)
    ensures Activate(rt, "a", Global, "q").1.None? && !Overwritable(rt, "a")
  {
    AfterSetup();
    Activated(Run(SETUP), "a", Global, "p");
    BatchConflicts(rt.scopes["runtime"].bindings, IDLE, IDLE.declared);
    assert forall x :: x in rt.activations ==> x == "a";
  }

  /** Two activations under one id: the bindings of the first stay without an owner. */
  lemma ReusedIdBreaksBindings()
    ensures var rt := Run(SETUP + [Begin("a", Global, "p")]);
            Exact(rt) && Activate(rt, "a", Global, "q").1.None? && !Exact(Step(rt, Begin("a", Global, "q")))
  {
    var first := Begin("a", Global, "p");
    AfterSetup();
    InitOfAppend(SETUP, first);
    RunsStayExact(SETUP + [first]);
    ProviderStarts(Run(SETUP));
    IdleStarts(Run(SETUP + [first]));
    ActivationExact(Run(SETUP + [first]), "a", Global, "q");
  }
}
