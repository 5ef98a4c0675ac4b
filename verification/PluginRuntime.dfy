/** The capability resolver and the plugin runtime as objects updated in place. */
module PluginRuntimeObject {
  import opened Prelude
  import opened PluginState

  class CapabilityResolver {
    var scopes: Scopes

    constructor ()
      ensures scopes == map[]
    {
      scopes := map[];
    }

    method Define(id: string, parent: Option<string>)
      modifies this
      ensures scopes == DefineScope(old(scopes), id, parent)
    {
      if id !in scopes {
        scopes := scopes[id := ScopeEntry(parent, map[])];
      }
    }

    /** Checks every binding before it inserts the first. */
    method Bind(scope: string, bindings: seq<Binding>) returns (error: Option<PluginError>)
      modifies this
      ensures (scopes, error) == BindBatch(old(scopes), scope, bindings)
      ensures error.Some? ==> scopes == old(scopes)
    {
      if scope !in scopes { return Some(UnknownScope); }
      var entry := scopes[scope];
      for i := 0 to |bindings|
        invariant scopes == old(scopes) && Conflict(entry.bindings, bindings[..i]).None?
      {
        NextBinding(entry.bindings, bindings, i);
        var binding := bindings[i];
        if binding.capability in entry.bindings && entry.bindings[binding.capability].plugin != binding.plugin {
          ConflictStays(entry.bindings, bindings, i + 1);
          return Some(AlreadyBound(binding.capability));
        }
      }
      assert bindings[..|bindings|] == bindings;
      var bound := entry.bindings;
      for i := 0 to |bindings|
        invariant scopes == old(scopes) && bound == InsertAll(entry.bindings, bindings[..i])
      {
        NextBinding(entry.bindings, bindings, i);
        bound := bound[bindings[i].capability := bindings[i]];
      }
      scopes := scopes[scope := entry.(bindings := bound)];
      return None;
    }

    method Unbind(scope: string, plugin: string) returns (removed: nat)
      modifies this
      ensures scopes == UnbindPlugin(old(scopes), scope, plugin)
      ensures removed == if scope in scopes then SaturatingSub(|old(scopes)[scope].bindings|, |scopes[scope].bindings|) else 0
    {
      if scope !in scopes { return 0; }
      var before := |scopes[scope].bindings|;
      var kept := Retained(scopes[scope].bindings, plugin);
      scopes := scopes[scope := scopes[scope].(bindings := kept)];
      return SaturatingSub(before, |kept|);
    }

    method ResolveWithScope(scope: string, capability: string) returns (found: Option<(string, Binding)>)
      ensures found == Resolve(scopes, scope, capability)
    {
      var current, seen := Some(scope), {};
      while current.Some?
        invariant Resolve(scopes, scope, capability) == ResolveFrom(scopes, capability, current, seen)
        decreases scopes.Keys - seen, current.Some?
      {
        if current.value in seen { return None; }
        if current.value !in scopes { return None; }
        var entry := scopes[current.value];
        if capability in entry.bindings { return Some((current.value, entry.bindings[capability])); }
        seen := seen + {current.value};
        current := entry.parent;
      }
      return None;
    }
  }

  class PluginRuntime {
    var installed: map<string, Plugin>
    var activations: map<string, Activation>
    const capabilities: CapabilityResolver

    function State(): Runtime
      reads this, capabilities
    {
      Runtime(installed, activations, capabilities.scopes)
    }

    constructor ()
      ensures State() == NEW_RUNTIME && fresh(capabilities)
    {
      installed, activations := map[], map[];
      capabilities := new CapabilityResolver();
    }

    method InstallPlugin(plugin: Plugin)
      modifies this
      ensures State() == Install(old(State()), plugin)
    {
      installed := installed[plugin.id := plugin];
    }

    method RequireServices(scope: string, services: seq<string>) returns (missing: Option<string>)
      ensures missing == MissingFrom(capabilities.scopes, scope, services)
    {
      for i := 0 to |services|
        invariant MissingFrom(capabilities.scopes, scope, services[..i]).None?
      {
        assert services[..i + 1] == services[..i] + [services[i]];
        InitOfAppend(services[..i], services[i]);
        var found := capabilities.ResolveWithScope(scope, "service:" + services[i]);
        if found.None? {
          MissingStays(capabilities.scopes, scope, services, i + 1);
          return Some(services[i]);
        }
      }
      assert services[..|services|] == services;
      return None;
    }

    method CollectContributions(list: seq<Contribution>) returns (answer: Result<map<string, Contribution>, PluginError>)
      ensures answer == Contributions(list)
    {
      var table: map<string, Contribution> := map[];
      for i := 0 to |list|
        invariant Contributions(list[..i]) == Ok(table)
      {
        assert list[..i + 1] == list[..i] + [list[i]];
        InitOfAppend(list[..i], list[i]);
        if !list[i].resolves {
          ContributionsStayErr(list, i + 1);
          return Err(InvalidContribution);
        }
        if list[i].capability in table {
          ContributionsStayErr(list, i + 1);
          return Err(DuplicateContribution(list[i].capability));
        }
        table := table[list[i].capability := list[i]];
      }
      assert list[..|list|] == list;
      return Ok(table);
    }

    method ActivatePlugin(activation: string, scope: Scope, id: string) returns (error: Option<PluginError>)
      modifies this, capabilities
      ensures (State(), error) == Activate(old(State()), activation, scope, id)
      ensures error.Some? ==> State() == old(State())
    {
      if id !in installed { return Some(NotInstalled); }
      var plugin := installed[id];
      if !plugin.wellFormed { return Some(InvalidDefinition); }
      if ActiveIn(State(), id, scope) { return Some(AlreadyActive); }
      var missing := RequireServices(ScopeId(scope), plugin.requiredServices);
      if missing.Some? { return Some(MissingService(missing.value)); }
      var contributions := CollectContributions(plugin.contributions);
      if contributions.Err? { return Some(contributions.error); }
      error := capabilities.Bind(ScopeId(scope), PluginBindings(plugin));
      if error.Some? { return; }
      activations := activations[activation := Activation(scope, plugin, contributions.value)];
    }

    method DeactivatePlugin(activation: string) returns (ended: bool)
      modifies this, capabilities
      ensures State() == Deactivate(old(State()), activation) && ended == (activation in old(activations))
    {
      if activation !in activations { return false; }
      var ending := activations[activation];
      activations := activations - {activation};
      var _ := capabilities.Unbind(ScopeId(ending.scope), ending.plugin.id);
      return true;
    }
  }

  lemma NextBinding(bound: map<string, Binding>, bindings: seq<Binding>, i: nat)
    requires i < |bindings|
    ensures Init(bindings[..i + 1]) == bindings[..i] && Last(bindings[..i + 1]) == bindings[i]
  {
  }

  lemma {:induction false} ConflictStays(bound: map<string, Binding>, bindings: seq<Binding>, k: nat)
    requires k <= |bindings| && Conflict(bound, bindings[..k]).Some?
    ensures Conflict(bound, bindings) == Conflict(bound, bindings[..k])
  {
    if k == |bindings| {
      assert bindings[..k] == bindings;
    } else {
      assert Init(bindings)[..k] == bindings[..k];
      ConflictStays(bound, Init(bindings), k);
    }
  }

  lemma {:induction false} MissingStays(scopes: Scopes, scope: string, services: seq<string>, k: nat)
    requires k <= |services| && MissingFrom(scopes, scope, services[..k]).Some?
    ensures MissingFrom(scopes, scope, services) == MissingFrom(scopes, scope, services[..k])
  {
    if k == |services| {
      assert services[..k] == services;
    } else {
      assert Init(services)[..k] == services[..k];
      MissingStays(scopes, scope, Init(services), k);
    }
  }

  lemma {:induction false} ContributionsStayErr(list: seq<Contribution>, k: nat)
    requires k <= |list| && Contributions(list[..k]).Err?
    ensures Contributions(list) == Contributions(list[..k])
  {
    if k == |list| {
      assert list[..k] == list;
    } else {
      assert Init(list)[..k] == list[..k];
      ContributionsStayErr(Init(list), k);
    }
  }
}
