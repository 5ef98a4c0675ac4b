/** Scoped capabilities and plugin activation, on values. */
module PluginState {
  import opened Prelude

  datatype Scope =
    | Global
    | Workspace(id: string)
    | RunScope(id: string)
    | TeamScope(id: string)
    | AgentScope(id: string)

  function ScopeId(scope: Scope): string {
    match scope
    case Global => "runtime"
    case Workspace(id) => "workspace:" + id
    case RunScope(id) => "run:" + id
    case TeamScope(id) => "team:" + id
    case AgentScope(id) => "agent:" + id
  }

  datatype Binding = Binding(capability: string, implementation: nat, plugin: string)

  datatype ScopeEntry = ScopeEntry(parent: Option<string>, bindings: map<string, Binding>)

  type Scopes = map<string, ScopeEntry>

  /** A command a plugin contributes; `resolves` says whether its files check out. */
  datatype Contribution = Contribution(capability: string, resolves: bool, command: nat)

  /** `declared` lists the capabilities as `kind:name`, command tools included. */
  datatype Plugin = Plugin(id: string, implementation: nat, wellFormed: bool, requiredServices: seq<string>,
                           declared: seq<string>, contributions: seq<Contribution>)

  datatype Activation = Activation(scope: Scope, plugin: Plugin, contributions: map<string, Contribution>)

  datatype Runtime = Runtime(installed: map<string, Plugin>, activations: map<string, Activation>, scopes: Scopes)

  datatype PluginError =
    | UnknownScope
    | AlreadyBound(capability: string)
    | NotInstalled
    | InvalidDefinition
    | AlreadyActive
    | MissingService(service: string)
    | InvalidContribution
    | DuplicateContribution(capability: string)

  const NEW_RUNTIME := Runtime(map[], map[], map[])

  // ----- the capability resolver ----------------------------------------------------------

  function DefineScope(scopes: Scopes, id: string, parent: Option<string>): Scopes {
    if id in scopes then scopes else scopes[id := ScopeEntry(parent, map[])]
  }

  /** The first binding of a list that another plugin already holds. */
  function Conflict(bound: map<string, Binding>, bindings: seq<Binding>): Option<string> {
    if bindings == [] then None
    else
      var earlier := Conflict(bound, Init(bindings));
      var last := Last(bindings);
      if earlier.Some? then earlier
      else if last.capability in bound && bound[last.capability].plugin != last.plugin then Some(last.capability)
      else None
  }

  function InsertAll(bound: map<string, Binding>, bindings: seq<Binding>): map<string, Binding> {
    if bindings == [] then bound
    else InsertAll(bound, Init(bindings))[Last(bindings).capability := Last(bindings)]
  }

  function BindBatch(scopes: Scopes, scope: string, bindings: seq<Binding>): (Scopes, Option<PluginError>) {
    if scope !in scopes then (scopes, Some(UnknownScope))
    else
      var conflict := Conflict(scopes[scope].bindings, bindings);
      if conflict.Some? then (scopes, Some(AlreadyBound(conflict.value)))
      else (scopes[scope := scopes[scope].(bindings := InsertAll(scopes[scope].bindings, bindings))], None)
  }

  function Retained(bound: map<string, Binding>, plugin: string): map<string, Binding> {
    map c | c in bound && bound[c].plugin != plugin :: bound[c]
  }

  function UnbindPlugin(scopes: Scopes, scope: string, plugin: string): Scopes {
    if scope !in scopes then scopes
    else scopes[scope := scopes[scope].(bindings := Retained(scopes[scope].bindings, plugin))]
  }

  /** Walks up from `current` until a binding, a scope seen before or the end. */
  function ResolveFrom(scopes: Scopes, capability: string, current: Option<string>, seen: set<string>):
    Option<(string, Binding)>
    decreases scopes.Keys - seen
  {
    if current.None? || current.value in seen || current.value !in scopes then None
    else
      var entry := scopes[current.value];
      if capability in entry.bindings then Some((current.value, entry.bindings[capability]))
      else ResolveFrom(scopes, capability, entry.parent, seen + {current.value})
  }

  function Resolve(scopes: Scopes, scope: string, capability: string): Option<(string, Binding)> {
    ResolveFrom(scopes, capability, Some(scope), {})
  }

  // ----- the plugin runtime ------------------------------------------------------------------

  function Install(rt: Runtime, plugin: Plugin): Runtime {
    rt.(installed := rt.installed[plugin.id := plugin])
  }

  predicate ActiveIn(rt: Runtime, plugin: string, scope: Scope) {
    exists a :: a in rt.activations && rt.activations[a].plugin.id == plugin && rt.activations[a].scope == scope
  }

  /** The first required service that cannot be resolved from a scope. */
  function MissingFrom(scopes: Scopes, scope: string, services: seq<string>): Option<string> {
    if services == [] then None
    else
      var earlier := MissingFrom(scopes, scope, Init(services));
      if earlier.Some? then earlier
      else if Resolve(scopes, scope, "service:" + Last(services)).None? then Some(Last(services))
      else None
  }

  function Contributions(list: seq<Contribution>): Result<map<string, Contribution>, PluginError> {
    if list == [] then Ok(map[])
    else
      var earlier := Contributions(Init(list));
      var last := Last(list);
      if earlier.Err? then earlier
      else if !last.resolves then Err(InvalidContribution)
      else if last.capability in earlier.value then Err(DuplicateContribution(last.capability))
      else Ok(earlier.value[last.capability := last])
  }

  function PluginBindings(plugin: Plugin): seq<Binding> {
    BindingsOf(plugin, plugin.declared)
  }

  function BindingsOf(plugin: Plugin, declared: seq<string>): seq<Binding> {
    if declared == [] then []
    else BindingsOf(plugin, Init(declared)) + [Binding(Last(declared), plugin.implementation, plugin.id)]
  }

  function Activate(rt: Runtime, activation: string, scope: Scope, id: string): (Runtime, Option<PluginError>) {
    if id !in rt.installed then (rt, Some(NotInstalled))
    else if !rt.installed[id].wellFormed then (rt, Some(InvalidDefinition))
    else if ActiveIn(rt, id, scope) then (rt, Some(AlreadyActive))
    else
      var plugin := rt.installed[id];
      var missing := MissingFrom(rt.scopes, ScopeId(scope), plugin.requiredServices);
      var contributions := Contributions(plugin.contributions);
      if missing.Some? then (rt, Some(MissingService(missing.value)))
      else if contributions.Err? then (rt, Some(contributions.error))
      else
        var (scopes, error) := BindBatch(rt.scopes, ScopeId(scope), PluginBindings(plugin));
        if error.Some? then (rt, error)
        else
          (rt.(scopes := scopes,
               activations := rt.activations[activation := Activation(scope, plugin, contributions.value)]),
           None)
  }

  function Deactivate(rt: Runtime, activation: string): Runtime {
    if activation !in rt.activations then rt
    else
      var ended := rt.activations[activation];
      rt.(activations := rt.activations - {activation},
          scopes := UnbindPlugin(rt.scopes, ScopeId(ended.scope), ended.plugin.id))
  }
}
