/** Exactly which activations succeed, which reason a refused one is given, and what the
    installed table and the scopes hold afterwards. */
module PluginAnswers {
  import opened Prelude
  import opened PluginState
  import opened PluginTheorems

  // ----- contributions ---------------------------------------------------------------------

  ghost predicate DistinctCapabilities(list: seq<Contribution>) {
    forall i, j :: 0 <= i < j < |list| ==> list[i].capability != list[j].capability
  }

  ghost predicate AllResolve(list: seq<Contribution>) {
    forall i :: 0 <= i < |list| ==> list[i].resolves
  }

  /** The table has each contribution under its capability, and nothing else. */
  ghost predicate Tabled(table: map<string, Contribution>, list: seq<Contribution>) {
    && (forall i :: 0 <= i < |list| ==> list[i].capability in table && table[list[i].capability] == list[i])
    && (forall c :: c in table ==> exists i :: 0 <= i < |list| && list[i].capability == c)
  }

  lemma TabledOneMore(table: map<string, Contribution>, list: seq<Contribution>)
    requires list != [] && Tabled(table, Init(list)) && DistinctCapabilities(Init(list))
    ensures DistinctCapabilities(list) <==> Last(list).capability !in table
    ensures Last(list).capability !in table ==> Tabled(table[Last(list).capability := Last(list)], list)
  {
    var last := |list| - 1;
    assert forall i :: 0 <= i < last ==> Init(list)[i] == list[i];
    if Last(list).capability in table {
      var i :| 0 <= i < last && Init(list)[i].capability == Last(list).capability;
      assert list[i].capability == list[last].capability;
    } else {
      var more := table[Last(list).capability := Last(list)];
      forall c | c in more ensures exists i :: 0 <= i < |list| && list[i].capability == c {
        if c in table {
          var i :| 0 <= i < last && Init(list)[i].capability == c;
          assert list[i].capability == c;
        } else {
          assert list[last].capability == c;
        }
      }
    }
  }

  /** A plugin's contributions are accepted exactly when all resolve and no two are of one
      capability; they are then kept under their capabilities. */
  lemma {:induction false} ContributionsExactly(list: seq<Contribution>)
    ensures Contributions(list).Ok? <==> AllResolve(list) && DistinctCapabilities(list)
    ensures Contributions(list).Ok? ==> Tabled(Contributions(list).value, list)
  {
    if list != [] {
      ContributionsExactly(Init(list));
      assert forall i :: 0 <= i < |list| - 1 ==> Init(list)[i] == list[i];
      assert AllResolve(list) <==> AllResolve(Init(list)) && Last(list).resolves;
      assert DistinctCapabilities(list) ==> DistinctCapabilities(Init(list));
      if Contributions(Init(list)).Ok? {
        TabledOneMore(Contributions(Init(list)).value, list);
      }
    }
  }

  // ----- services ------------------------------------------------------------------------------

  /** Some scope on the parent chain binds the service. */
  ghost predicate Available(scopes: Scopes, scope: string, service: string) {
    exists k: nat :: BoundAt(scopes, scope, "service:" + service, k)
  }

  ghost predicate AllAvailable(scopes: Scopes, scope: string, services: seq<string>) {
    forall i :: 0 <= i < |services| ==> Available(scopes, scope, services[i])
  }

  ghost predicate FirstMissing(scopes: Scopes, scope: string, services: seq<string>, service: string) {
    exists i :: 0 <= i < |services| && services[i] == service && !Available(scopes, scope, services[i])
                && AllAvailable(scopes, scope, services[..i])
  }

  /** The services are missing exactly when one of them is bound nowhere up the chain, and
      the first such one is reported. */
  lemma {:induction false} MissingExactly(scopes: Scopes, scope: string, services: seq<string>)
    ensures var missing := MissingFrom(scopes, scope, services);
            && (missing.None? <==> AllAvailable(scopes, scope, services))
            && (missing.Some? ==> FirstMissing(scopes, scope, services, missing.value))
  {
    if services != [] {
      var last := |services| - 1;
      MissingExactly(scopes, scope, Init(services));
      assert forall i :: 0 <= i < last ==> Init(services)[i] == services[i];
      ResolveIsNearest(scopes, scope, "service:" + Last(services));
      if MissingFrom(scopes, scope, Init(services)).Some? {
        var i :| 0 <= i < last && Init(services)[i] == MissingFrom(scopes, scope, Init(services)).value
                 && !Available(scopes, scope, Init(services)[i]) && AllAvailable(scopes, scope, Init(services)[..i]);
        assert Init(services)[..i] == services[..i];
        assert services[i] == MissingFrom(scopes, scope, services).value && !Available(scopes, scope, services[i]);
      } else {
        assert services[..last] == Init(services);
        assert Available(scopes, scope, services[last]) <==> Resolve(scopes, scope, "service:" + Last(services)).Some?;
      }
    }
  }

  // ----- bindings --------------------------------------------------------------------------------

  /** Another plugin holds the capability in the scope. */
  predicate Taken(scopes: Scopes, scope: string, plugin: Plugin, capability: string)
    requires scope in scopes
  {
    capability in scopes[scope].bindings && scopes[scope].bindings[capability].plugin != plugin.id
  }

  ghost predicate NoneTaken(scopes: Scopes, scope: string, plugin: Plugin, declared: seq<string>)
    requires scope in scopes
  {
    forall i :: 0 <= i < |declared| ==> !Taken(scopes, scope, plugin, declared[i])
  }

  ghost predicate FirstTaken(scopes: Scopes, scope: string, plugin: Plugin, declared: seq<string>, capability: string)
    requires scope in scopes
  {
    exists i :: 0 <= i < |declared| && declared[i] == capability && Taken(scopes, scope, plugin, declared[i])
                && NoneTaken(scopes, scope, plugin, declared[..i])
  }

  /** The first declared capability that another plugin holds is reported. */
  lemma {:induction false} ConflictExactly(scopes: Scopes, scope: string, plugin: Plugin, declared: seq<string>)
    requires scope in scopes
    ensures var conflict := Conflict(scopes[scope].bindings, BindingsOf(plugin, declared));
            && (conflict.None? <==> NoneTaken(scopes, scope, plugin, declared))
            && (conflict.Some? ==> FirstTaken(scopes, scope, plugin, declared, conflict.value))
  {
    if declared != [] {
      var bound, last := scopes[scope].bindings, |declared| - 1;
      ConflictExactly(scopes, scope, plugin, Init(declared));
      InitOfAppend(BindingsOf(plugin, Init(declared)), Binding(Last(declared), plugin.implementation, plugin.id));
      assert forall i :: 0 <= i < last ==> Init(declared)[i] == declared[i];
      var earlier := Conflict(bound, BindingsOf(plugin, Init(declared)));
      if earlier.Some? {
        var i :| 0 <= i < last && Init(declared)[i] == earlier.value && Taken(scopes, scope, plugin, Init(declared)[i])
                 && NoneTaken(scopes, scope, plugin, Init(declared)[..i]);
        assert Init(declared)[..i] == declared[..i];
        assert declared[i] == earlier.value && Taken(scopes, scope, plugin, declared[i]);
      } else {
        assert declared[..last] == Init(declared);
        assert declared[last] == Last(declared);
      }
    }
  }

  // ----- activation -----------------------------------------------------------------------------------

  /** The plugin runs in the scope under some activation. */
  ghost predicate Running(rt: Runtime, id: string, scope: Scope) {
    exists a :: a in rt.activations && rt.activations[a].plugin.id == id && rt.activations[a].scope == scope
  }

  ghost predicate Served(rt: Runtime, scope: Scope, plugin: Plugin) {
    AllAvailable(rt.scopes, ScopeId(scope), plugin.requiredServices)
  }

  ghost predicate Unopposed(rt: Runtime, scope: Scope, plugin: Plugin) {
    ScopeId(scope) in rt.scopes && NoneTaken(rt.scopes, ScopeId(scope), plugin, plugin.declared)
  }

  /** An activation succeeds exactly for an installed, well-formed plugin that does not run
      in the scope, has its services, whose contributions are in order and whose
      capabilities no other plugin holds there. It records scope, plugin and contributions;
      a refused one changes nothing. */
  lemma ActivatesExactly(rt: Runtime, a: string, scope: Scope, id: string)
    ensures var (after, error) := Activate(rt, a, scope, id);
            && (error.None? <==>
                  && id in rt.installed && rt.installed[id].wellFormed && !Running(rt, id, scope)
                  && var plugin := rt.installed[id];
                  && Served(rt, scope, plugin)
                  && AllResolve(plugin.contributions) && DistinctCapabilities(plugin.contributions)
                  && Unopposed(rt, scope, plugin))
            && (error.Some? ==> after == rt)
            && (error.None? ==>
                  && a in after.activations
                  && after.activations == rt.activations[a := after.activations[a]]
                  && after.activations[a].scope == scope && after.activations[a].plugin == rt.installed[id]
                  && Tabled(after.activations[a].contributions, rt.installed[id].contributions))
  {
    if id in rt.installed {
      var plugin := rt.installed[id];
      MissingExactly(rt.scopes, ScopeId(scope), plugin.requiredServices);
      ContributionsExactly(plugin.contributions);
      if ScopeId(scope) in rt.scopes {
        ConflictExactly(rt.scopes, ScopeId(scope), plugin, plugin.declared);
      }
    }
  }

  /** The checks are made in this order, and the first that fails is reported. */
  lemma RefusedBecause(rt: Runtime, a: string, scope: Scope, id: string)
    ensures var error := Activate(rt, a, scope, id).1;
            && (error == Some(NotInstalled) <==> id !in rt.installed)
            && (id in rt.installed ==>
                  var plugin := rt.installed[id];
                  var idle := plugin.wellFormed && !Running(rt, id, scope);
                  var ready := idle && Served(rt, scope, plugin) && AllResolve(plugin.contributions)
                               && DistinctCapabilities(plugin.contributions);
                  && (error == Some(InvalidDefinition) <==> !plugin.wellFormed)
                  && (error == Some(AlreadyActive) <==> plugin.wellFormed && Running(rt, id, scope))
                  && (idle && !Served(rt, scope, plugin) ==>
                        error.Some? && error.value.MissingService?
                        && FirstMissing(rt.scopes, ScopeId(scope), plugin.requiredServices, error.value.service))
                  && (idle && Served(rt, scope, plugin) && !ready ==>
                        error.Some? && (error.value.InvalidContribution? || error.value.DuplicateContribution?))
                  && (ready ==> (error == Some(UnknownScope) <==> ScopeId(scope) !in rt.scopes))
                  && (ready && ScopeId(scope) in rt.scopes && !Unopposed(rt, scope, plugin) ==>
                        error.Some? && error.value.AlreadyBound?
                        && FirstTaken(rt.scopes, ScopeId(scope), plugin, plugin.declared, error.value.capability)))
  {
    if id in rt.installed {
      var plugin := rt.installed[id];
      MissingExactly(rt.scopes, ScopeId(scope), plugin.requiredServices);
      ContributionsExactly(plugin.contributions);
      ContributionErrors(plugin.contributions);
      if ScopeId(scope) in rt.scopes {
        ConflictExactly(rt.scopes, ScopeId(scope), plugin, plugin.declared);
      }
    }
  }

  lemma {:induction false} ContributionErrors(list: seq<Contribution>)
    ensures Contributions(list).Err? ==>
              Contributions(list).error.InvalidContribution? || Contributions(list).error.DuplicateContribution?
  {
    if list != [] {
      ContributionErrors(Init(list));
    }
  }

  /** Installing replaces the plugin of that id and touches no running one; a scope is
      defined once, with the parent it was first given and nothing bound. */
  lemma TablesExactly(rt: Runtime, plugin: Plugin, id: string, parent: Option<string>)
    ensures Install(rt, plugin) == Runtime(rt.installed[plugin.id := plugin], rt.activations, rt.scopes)
    ensures var scopes := DefineScope(rt.scopes, id, parent);
            && id in scopes
            && (id in rt.scopes ==> scopes == rt.scopes)
            && (id !in rt.scopes ==> scopes[id].parent == parent && scopes[id].bindings == map[] && scopes - {id} == rt.scopes)
  {
    assert id !in rt.scopes ==> DefineScope(rt.scopes, id, parent) - {id} == rt.scopes;
  }
}
