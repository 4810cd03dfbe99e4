/** The plugin registry: plugin records, per-group views with their lookups,
    and the registry object that plugins register themselves into. */
module Plugger {
  import opened Wrappers
  import opened Symbols
  import opened Identity

  /** What a plugin hands in: an optional explicit group and name, and its
      declared symbols. */
  datatype PluginSpec = PluginSpec(group: string, name: string, symbols: seq<Symbol>)

  /** A registered plugin: its identity, its declared symbols, and the symbol
      map built from them at registration. */
  datatype Plugin = Plugin(group: string, name: string, symbols: seq<Symbol>, symbolmap: map<string, Symbol>)

  /** A looked-up symbol value together with the plugin that owns it. */
  datatype PluginFunc = PluginFunc(f: Symbol, plugin: Plugin)

  /** Why a registration was refused (the Go code panics). */
  datatype RegisterError =
    | IdentityFailed(reason: IdentityError)
    | DuplicateSymbol(plugin: Identity, symbol: string)
    | DuplicatePlugin(plugin: Identity)

  /** A declared symbol takes part in prefix lookup when its (once unwrapped)
      value is a function whose stripped runtime name starts with `prefix`. */
  predicate MatchesPrefix(s: Symbol, prefix: string)
  {
    var v := SymbolValue(s);
    v.Function? && prefix <= StripPackage(v.qualName)
  }

  /** The values of the declared symbols matching `prefix`, in declaration order. */
  function PrefixFuncs(symbols: seq<Symbol>, prefix: string): (r: seq<Symbol>)
    ensures |r| <= |symbols|
    decreases |symbols|
  {
    if symbols == [] then []
    else
      var head := if MatchesPrefix(symbols[0], prefix) then [SymbolValue(symbols[0])] else [];
      head + PrefixFuncs(symbols[1..], prefix)
  }

  /** Prefix matching works symbol by symbol: the matches of two lists
      declared one after the other are the first list's followed by the
      second's. */
  lemma {:induction false} PrefixFuncsAppend(a: seq<Symbol>, b: seq<Symbol>, prefix: string)
    ensures PrefixFuncs(a + b, prefix) == PrefixFuncs(a, prefix) + PrefixFuncs(b, prefix)
    decreases |a|
  {
    if a == [] {
      assert a + b == b;
    } else {
      var head := if MatchesPrefix(a[0], prefix) then [SymbolValue(a[0])] else [];
      assert (a + b)[0] == a[0];
      assert (a + b)[1..] == a[1..] + b;
      assert PrefixFuncs(a + b, prefix) == head + PrefixFuncs(a[1..] + b, prefix);
      PrefixFuncsAppend(a[1..], b, prefix);
      assert head + (PrefixFuncs(a[1..], prefix) + PrefixFuncs(b, prefix))
          == (head + PrefixFuncs(a[1..], prefix)) + PrefixFuncs(b, prefix);
    }
  }

  /** A single declared symbol yields its value exactly when it matches. */
  lemma PrefixFuncsOne(s: Symbol, prefix: string)
    ensures PrefixFuncs([s], prefix) == if MatchesPrefix(s, prefix) then [SymbolValue(s)] else []
  {
    assert [s][1..] == [];
  }

  /** Every value found is the value of a matching declared symbol. */
  lemma {:induction false} PrefixFuncsSound(symbols: seq<Symbol>, prefix: string, v: Symbol)
    requires v in PrefixFuncs(symbols, prefix)
    ensures exists j :: 0 <= j < |symbols| && MatchesPrefix(symbols[j], prefix) && SymbolValue(symbols[j]) == v
    decreases |symbols|
  {
    var head := if MatchesPrefix(symbols[0], prefix) then [SymbolValue(symbols[0])] else [];
    assert PrefixFuncs(symbols, prefix) == head + PrefixFuncs(symbols[1..], prefix);
    if v !in head {
      PrefixFuncsSound(symbols[1..], prefix, v);
      var j :| 0 <= j < |symbols[1..]| && MatchesPrefix(symbols[1..][j], prefix) && SymbolValue(symbols[1..][j]) == v;
      assert symbols[1..][j] == symbols[j + 1];
    }
  }

  /** The value of every matching declared symbol is found. */
  lemma PrefixFuncsComplete(symbols: seq<Symbol>, prefix: string, j: int)
    requires 0 <= j < |symbols| && MatchesPrefix(symbols[j], prefix)
    ensures SymbolValue(symbols[j]) in PrefixFuncs(symbols, prefix)
  {
    assert symbols == (symbols[..j] + [symbols[j]]) + symbols[j + 1..];
    PrefixFuncsAppend(symbols[..j] + [symbols[j]], symbols[j + 1..], prefix);
    PrefixFuncsAppend(symbols[..j], [symbols[j]], prefix);
    PrefixFuncsOne(symbols[j], prefix);
  }

  /** Exactly the values of the matching declared symbols are found. */
  lemma PrefixFuncsMembers(symbols: seq<Symbol>, prefix: string)
    ensures forall v :: v in PrefixFuncs(symbols, prefix) <==>
      exists j :: 0 <= j < |symbols| && MatchesPrefix(symbols[j], prefix) && SymbolValue(symbols[j]) == v
  {
    forall v | v in PrefixFuncs(symbols, prefix)
      ensures exists j :: 0 <= j < |symbols| && MatchesPrefix(symbols[j], prefix) && SymbolValue(symbols[j]) == v
    {
      PrefixFuncsSound(symbols, prefix, v);
    }
    forall j | 0 <= j < |symbols| && MatchesPrefix(symbols[j], prefix)
      ensures SymbolValue(symbols[j]) in PrefixFuncs(symbols, prefix)
    {
      PrefixFuncsComplete(symbols, prefix, j);
    }
  }

  /** Prefix lookup only ever yields functions whose stripped name has the prefix. */
  lemma PrefixFuncsAreFunctions(symbols: seq<Symbol>, prefix: string)
    ensures forall v :: v in PrefixFuncs(symbols, prefix) ==> v.Function? && prefix <= StripPackage(v.qualName)
  {
    PrefixFuncsMembers(symbols, prefix);
  }

  /** A read-only view of one group's plugins, in registration order. */
  datatype PluginGroup = PluginGroup(group: string, plugins: seq<Plugin>) {

    /** The group's plugins. */
    function Plugins(): seq<Plugin>
    {
      plugins
    }

    /** For every plugin exporting a symbol under `name`, that value with its owner. */
    function PluginsFunc(name: string): (r: seq<PluginFunc>)
      ensures |r| <= |plugins|
      decreases |plugins|
    {
      if plugins == [] then []
      else
        var p := plugins[0];
        var rest := PluginGroup(group, plugins[1..]).PluginsFunc(name);
        (if name in p.symbolmap then [PluginFunc(p.symbolmap[name], p)] else []) + rest
    }

    /** The values exported under exactly `name`, one per plugin that has it. */
    function Func(name: string): (r: seq<Symbol>)
      ensures |r| <= |plugins|
      ensures forall v :: v in r <==> exists p :: p in plugins && name in p.symbolmap && p.symbolmap[name] == v
      decreases |plugins|
    {
      if plugins == [] then []
      else
        var p := plugins[0];
        var rest := PluginGroup(group, plugins[1..]).Func(name);
        (if name in p.symbolmap then [p.symbolmap[name]] else []) + rest
    }

    /** The function values of all plugins whose stripped names start with
        `prefix`, plugin by plugin and within a plugin in declaration order. */
    function FuncPrefix(prefix: string): (r: seq<Symbol>)
      ensures forall v :: v in r ==> v.Function? && prefix <= StripPackage(v.qualName)
      decreases |plugins|
    {
      if plugins == [] then []
      else
        PrefixFuncsAreFunctions(plugins[0].symbols, prefix);
        PrefixFuncs(plugins[0].symbols, prefix) + PluginGroup(group, plugins[1..]).FuncPrefix(prefix)
    }
  }

  /** Prefix lookup finds exactly the values of the matching declared
      symbols of the group's plugins. */
  lemma {:induction false} FuncPrefixMembers(g: PluginGroup, prefix: string)
    ensures forall v :: v in g.FuncPrefix(prefix) <==>
      exists i, j :: 0 <= i < |g.plugins| && 0 <= j < |g.plugins[i].symbols| &&
        MatchesPrefix(g.plugins[i].symbols[j], prefix) && SymbolValue(g.plugins[i].symbols[j]) == v
    decreases |g.plugins|
  {
    if g.plugins != [] {
      var tail := PluginGroup(g.group, g.plugins[1..]);
      FuncPrefixMembers(tail, prefix);
      PrefixFuncsMembers(g.plugins[0].symbols, prefix);
      assert forall i :: 0 <= i < |tail.plugins| ==> tail.plugins[i] == g.plugins[i + 1];
      assert g.FuncPrefix(prefix) == PrefixFuncs(g.plugins[0].symbols, prefix) + tail.FuncPrefix(prefix);
      forall v | v in tail.FuncPrefix(prefix)
        ensures exists i, j ::
                  0 <= i < |g.plugins| && 0 <= j < |g.plugins[i].symbols| &&
                  MatchesPrefix(g.plugins[i].symbols[j], prefix) && SymbolValue(g.plugins[i].symbols[j]) == v
      {
        var i, j :| 0 <= i < |tail.plugins| && 0 <= j < |tail.plugins[i].symbols| &&
          MatchesPrefix(tail.plugins[i].symbols[j], prefix) && SymbolValue(tail.plugins[i].symbols[j]) == v;
        assert g.plugins[i + 1] == tail.plugins[i];
      }
      forall i, j | 1 <= i < |g.plugins| && 0 <= j < |g.plugins[i].symbols| && MatchesPrefix(g.plugins[i].symbols[j], prefix)
        ensures SymbolValue(g.plugins[i].symbols[j]) in tail.FuncPrefix(prefix)
      {
        assert tail.plugins[i - 1] == g.plugins[i];
      }
    }
  }

  /** PluginsFunc yields, for every plugin of the group exporting `name`, the
      value stored under that name together with that plugin, and nothing else. */
  lemma {:induction false} PluginsFuncRecords(g: PluginGroup, name: string)
    ensures forall k :: 0 <= k < |g.PluginsFunc(name)| ==>
      var rec := g.PluginsFunc(name)[k];
      rec.plugin in g.plugins && name in rec.plugin.symbolmap && rec.f == rec.plugin.symbolmap[name]
    ensures forall p :: p in g.plugins && name in p.symbolmap ==> PluginFunc(p.symbolmap[name], p) in g.PluginsFunc(name)
    decreases |g.plugins|
  {
    if g.plugins != [] {
      var tail := PluginGroup(g.group, g.plugins[1..]);
      PluginsFuncRecords(tail, name);
      forall p | p in g.plugins && name in p.symbolmap
        ensures PluginFunc(p.symbolmap[name], p) in g.PluginsFunc(name)
      {
        if p != g.plugins[0] {
          assert p in tail.plugins;
        }
      }
    }
  }

  /** Func and PluginsFunc agree: the values are exactly the value part of
      the owner records, in the same order. */
  lemma {:induction false} FuncIsPluginsFuncValues(g: PluginGroup, name: string)
    ensures |g.Func(name)| == |g.PluginsFunc(name)|
    ensures forall k :: 0 <= k < |g.Func(name)| ==> g.Func(name)[k] == g.PluginsFunc(name)[k].f
    decreases |g.plugins|
  {
    if g.plugins != [] {
      FuncIsPluginsFuncValues(PluginGroup(g.group, g.plugins[1..]), name);
    }
  }

  /** A plugin appended to a group contributes its own records after all
      earlier ones. */
  lemma {:induction false} PluginsFuncAppend(g: PluginGroup, p: Plugin, name: string)
    ensures PluginGroup(g.group, g.plugins + [p]).PluginsFunc(name) ==
      g.PluginsFunc(name) + (if name in p.symbolmap then [PluginFunc(p.symbolmap[name], p)] else [])
    decreases |g.plugins|
  {
    var ps := g.plugins + [p];
    if g.plugins == [] {
      assert ps[1..] == [];
    } else {
      assert ps[1..] == g.plugins[1..] + [p];
      PluginsFuncAppend(PluginGroup(g.group, g.plugins[1..]), p, name);
    }
  }

  /** The same for exact-name values: registration order is lookup order. */
  lemma {:induction false} FuncAppend(g: PluginGroup, p: Plugin, name: string)
    ensures PluginGroup(g.group, g.plugins + [p]).Func(name) ==
      g.Func(name) + (if name in p.symbolmap then [p.symbolmap[name]] else [])
    decreases |g.plugins|
  {
    var ps := g.plugins + [p];
    if g.plugins == [] {
      assert ps[1..] == [];
    } else {
      assert ps[1..] == g.plugins[1..] + [p];
      FuncAppend(PluginGroup(g.group, g.plugins[1..]), p, name);
    }
  }

  /** And for prefix lookup: the new plugin's matches follow all earlier ones. */
  lemma {:induction false} FuncPrefixAppend(g: PluginGroup, p: Plugin, prefix: string)
    ensures PluginGroup(g.group, g.plugins + [p]).FuncPrefix(prefix) ==
      g.FuncPrefix(prefix) + PrefixFuncs(p.symbols, prefix)
    decreases |g.plugins|
  {
    var ps := g.plugins + [p];
    if g.plugins == [] {
      assert ps[1..] == [];
    } else {
      var hd := PrefixFuncs(g.plugins[0].symbols, prefix);
      var tail := PluginGroup(g.group, g.plugins[1..]);
      assert ps[0] == g.plugins[0] && ps[1..] == tail.plugins + [p];
      FuncPrefixAppend(tail, p, prefix);
      assert g.FuncPrefix(prefix) == hd + tail.FuncPrefix(prefix);
      assert PluginGroup(g.group, ps).FuncPrefix(prefix) == hd + PluginGroup(g.group, tail.plugins + [p]).FuncPrefix(prefix);
    }
  }

  /** The view of a group; a group nobody registered into is an empty view,
      not an error. */
  function GroupOf(groups: map<string, seq<Plugin>>, group: string): (g: PluginGroup)
    ensures ValidGroups(groups) && group in groups ==> g.plugins != []
    ensures ValidGroups(groups) ==> forall i :: 0 <= i < |g.plugins| ==>
      g.plugins[i].group == group && WellFormed(g.plugins[i])
    ensures ValidGroups(groups) ==> forall i, j :: 0 <= i < j < |g.plugins| ==>
      g.plugins[i].name != g.plugins[j].name
  {
    PluginGroup(group, if group in groups then groups[group] else [])
  }

  /** Looking into a group nobody registered yields nothing, for every query. */
  lemma UnknownGroupIsEmpty(groups: map<string, seq<Plugin>>, group: string, name: string, prefix: string)
    requires group !in groups
    ensures GroupOf(groups, group).Plugins() == []
    ensures GroupOf(groups, group).Func(name) == []
    ensures GroupOf(groups, group).PluginsFunc(name) == []
    ensures GroupOf(groups, group).FuncPrefix(prefix) == []
  {
  }

  /** Some plugin of the list already carries `name`. */
  predicate HasPlugin(plugins: seq<Plugin>, name: string)
  {
    exists i :: 0 <= i < |plugins| && plugins[i].name == name
  }

  /** The scan for an already registered plugin name. */
  method FindPlugin(plugins: seq<Plugin>, name: string) returns (found: bool)
    ensures found <==> HasPlugin(plugins, name)
  {
    found := false;
    var i := 0;
    while i < |plugins|
      invariant 0 <= i <= |plugins|
      invariant !found <==> forall k :: 0 <= k < i ==> plugins[k].name != name
    {
      if plugins[i].name == name {
        found := true;
        break;
      }
      i := i + 1;
    }
  }

  /** A registered plugin is well formed: non-empty identity, and the symbol
      map is the one its declared symbols build. */
  ghost predicate WellFormed(p: Plugin)
  {
    p.group != "" && p.name != "" && SymbolTable(p.symbols) == Success(p.symbolmap)
  }

  /** The list stored for group `g`: non-empty, every plugin well formed and
      filed under `g`, and no plugin name twice. */
  ghost predicate ValidGroup(g: string, plugins: seq<Plugin>)
  {
    && plugins != []
    && (forall i :: 0 <= i < |plugins| ==> plugins[i].group == g && WellFormed(plugins[i]))
    && (forall i, j :: 0 <= i < j < |plugins| ==> plugins[i].name != plugins[j].name)
  }

  /** The registry invariant. */
  ghost predicate ValidGroups(groups: map<string, seq<Plugin>>)
  {
    forall g :: g in groups ==> ValidGroup(g, groups[g])
  }

  /** The record registration builds. */
  function NewPlugin(id: Identity, symbols: seq<Symbol>, symbolmap: map<string, Symbol>): Plugin
  {
    Plugin(id.group, id.name, symbols, symbolmap)
  }

  /** The registry state after registering `spec`, with `file`/`ok` standing
      for what the caller lookup reports: the identity is resolved, the symbol
      map built, and the plugin appended to its group unless that group
      already has a plugin of that name. Every refusal names its reason. */
  function Registered(groups: map<string, seq<Plugin>>, spec: PluginSpec, file: string, ok: bool)
    : (r: Result<map<string, seq<Plugin>>, RegisterError>)
    ensures r.Success? ==> groups.Keys <= r.value.Keys
    ensures r.Success? ==> forall g :: g in groups ==> groups[g] <= r.value[g]
  {
    match ResolveIdentity(spec.group, spec.name, file, ok)
    case Failure(e) => Failure(IdentityFailed(e))
    case Success(id) =>
      match SymbolTable(spec.symbols)
      case Failure(dup) => Failure(DuplicateSymbol(id, dup))
      case Success(m) =>
        var existing := GroupOf(groups, id.group).plugins;
        if HasPlugin(existing, id.name) then Failure(DuplicatePlugin(id))
        else Success(groups[id.group := existing + [NewPlugin(id, spec.symbols, m)]])
  }

  /** Registration succeeds exactly when an identity can be resolved, the
      declared symbols have distinct names, and the group has no plugin of
      that name yet; each failure is reported with its cause. */
  lemma RegisterSucceeds(groups: map<string, seq<Plugin>>, spec: PluginSpec, file: string, ok: bool)
    ensures var id := ResolveIdentity(spec.group, spec.name, file, ok);
      && (id.Failure? ==> Registered(groups, spec, file, ok) == Failure(IdentityFailed(id.error)))
      && (id.Success? && !DistinctNames(spec.symbols) ==>
            Registered(groups, spec, file, ok).Failure? && Registered(groups, spec, file, ok).error.DuplicateSymbol?)
      && (id.Success? && DistinctNames(spec.symbols) && HasPlugin(GroupOf(groups, id.value.group).plugins, id.value.name) ==>
            Registered(groups, spec, file, ok) == Failure(DuplicatePlugin(id.value)))
      && (Registered(groups, spec, file, ok).Success? <==>
            id.Success? && DistinctNames(spec.symbols) && !HasPlugin(GroupOf(groups, id.value.group).plugins, id.value.name))
  {
    SymbolTableSucceeds(spec.symbols);
  }

  /** A successful registration appends one plugin, carrying the resolved
      identity and the declared symbols, to its group, creating the group if
      needed; every other group is left as it was. */
  lemma RegisterAppends(groups: map<string, seq<Plugin>>, spec: PluginSpec, file: string, ok: bool)
    requires Registered(groups, spec, file, ok).Success?
    ensures var id := ResolveIdentity(spec.group, spec.name, file, ok).value;
      var after := Registered(groups, spec, file, ok).value;
      && after.Keys == groups.Keys + {id.group}
      && |GroupOf(after, id.group).Plugins()| == |GroupOf(groups, id.group).Plugins()| + 1
      && GroupOf(after, id.group).Plugins()[..|GroupOf(groups, id.group).Plugins()|] == GroupOf(groups, id.group).Plugins()
      && (var p := GroupOf(after, id.group).Plugins()[|GroupOf(groups, id.group).Plugins()|];
          p.group == id.group && p.name == id.name && p.symbols == spec.symbols
          && SymbolTable(spec.symbols) == Success(p.symbolmap))
      && forall g :: g != id.group ==> GroupOf(after, g) == GroupOf(groups, g)
  {
  }

  /** Registration keeps the registry invariant. */
  lemma RegisterPreservesValid(groups: map<string, seq<Plugin>>, spec: PluginSpec, file: string, ok: bool)
    requires ValidGroups(groups)
    requires Registered(groups, spec, file, ok).Success?
    ensures ValidGroups(Registered(groups, spec, file, ok).value)
  {
    var id := ResolveIdentity(spec.group, spec.name, file, ok).value;
    var after := Registered(groups, spec, file, ok).value;
    var existing := GroupOf(groups, id.group).plugins;
    var ps := after[id.group];
    assert ps == existing + [ps[|ps| - 1]];
    assert !HasPlugin(existing, id.name);
    forall g | g in after ensures ValidGroup(g, after[g]) {
      if g == id.group {
        assert forall i :: 0 <= i < |existing| ==> ps[i] == existing[i];
        forall i, j | 0 <= i < j < |ps| ensures ps[i].name != ps[j].name {
          if j == |ps| - 1 {
            assert existing[i].name != id.name;
          }
        }
      }
    }
  }

  /** In a valid registry, an exact-name lookup finds a plugin exactly when
      one of its declared symbols resolves to that name, and then it finds
      that symbol's value; a NamedSymbol with an empty name is never found. */
  lemma LookupFindsDeclared(groups: map<string, seq<Plugin>>, group: string, p: Plugin, name: string)
    requires ValidGroups(groups)
    requires p in GroupOf(groups, group).plugins
    ensures name in p.symbolmap <==>
      name != "" && exists j :: 0 <= j < |p.symbols| && SymbolName(p.symbols[j]) == name
    ensures forall j :: 0 <= j < |p.symbols| && SymbolName(p.symbols[j]) == name && name != "" ==>
      PluginFunc(SymbolValue(p.symbols[j]), p) in GroupOf(groups, group).PluginsFunc(name)
  {
    var i :| 0 <= i < |groups[group]| && groups[group][i] == p;
    assert WellFormed(p);
    SymbolTableKeys(p.symbols);
    SymbolTableValues(p.symbols);
    PluginsFuncRecords(GroupOf(groups, group), name);
  }

  /** The registry object: group name to the group's plugins, in registration
      order. It only grows. */
  class Registry {
    var groups: map<string, seq<Plugin>>

    ghost predicate Valid()
      reads this
    {
      ValidGroups(groups)
    }

    constructor ()
      ensures Valid() && groups == map[]
    {
      groups := map[];
    }

    /** The view of one group (Go's New): empty if nothing registered into it. */
    function New(group: string): (g: PluginGroup)
      reads this
      ensures group !in groups ==> g.plugins == []
      ensures Valid() && group in groups ==> g.plugins != []
      ensures Valid() ==> forall i, j :: 0 <= i < j < |g.Plugins()| ==>
        g.Plugins()[i].name != g.Plugins()[j].name
    {
      GroupOf(groups, group)
    }

    /** Registers `spec`, with `file` and `ok` standing for the caller lookup.
        On success the plugin is appended to its group; on any refusal the
        registry is left exactly as it was and the reason is returned. */
    method Register(spec: PluginSpec, file: string, ok: bool) returns (err: Option<RegisterError>)
      requires Valid()
      modifies this
      ensures Valid()
      ensures match Registered(old(groups), spec, file, ok)
        case Success(after) => err == None && groups == after
        case Failure(e) => err == Some(e) && groups == old(groups)
    {
      var id := ResolveIdentity(spec.group, spec.name, file, ok);
      if id.Failure? {
        return Some(IdentityFailed(id.error));
      }
      var table := BuildSymbolMap(spec.symbols);
      if table.Failure? {
        return Some(DuplicateSymbol(id.value, table.error));
      }
      var existing := if id.value.group in groups then groups[id.value.group] else [];
      var taken := FindPlugin(existing, id.value.name);
      if taken {
        return Some(DuplicatePlugin(id.value));
      }
      RegisterPreservesValid(groups, spec, file, ok);
      groups := groups[id.value.group := existing + [NewPlugin(id.value, spec.symbols, table.value)]];
      return None;
    }
  }
}
