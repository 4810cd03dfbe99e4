/** The registration scenarios of the package's own test suite, replayed on
    the model. The Go fixtures become symbolic values: the functions Foo,
    PrefixFoo and PrefixBar of package plugger (import path
    github.com/thediveo/go-plugger), and a pointer to a Loo, which also
    implements the interface Ioo. */
module PluggerScenarios {
  import opened Wrappers
  import opened Paths
  import opened Symbols
  import opened Identity
  import opened Plugger

  /** The runtime name of a function of package plugger. */
  function InPlugger(ident: string): string
  {
    "github.com/thediveo/go-plugger." + ident
  }

  const FooFn: Symbol := Function(InPlugger("Foo"))
  const PrefixFooFn: Symbol := Function(InPlugger("PrefixFoo"))
  const PrefixBarFn: Symbol := Function(InPlugger("PrefixBar"))
  const LooPtr: Symbol := Pointer("Loo")

  // Proof steps. The lemmas of this section state facts about sequence
  // displays and string literals (joining, appending, distinct names) that
  // the scenarios below need spelled out; they say nothing about the registry.

  lemma Join2(a: string, b: string, sep: char)
    ensures Join([a, b], sep) == a + [sep] + b
  {
    assert [a, b][1..] == [b];
  }

  lemma Join3(a: string, b: string, c: string, sep: char)
    ensures Join([a, b, c], sep) == a + [sep] + b + [sep] + c
  {
    assert [a, b, c][1..] == [b, c];
    Join2(b, c, sep);
    assert Join([a, b, c], sep) == a + [sep] + (b + [sep] + c);
  }

  /** The runtime name of a plugger function, cut at its separators. */
  lemma PluggerLiteral(ident: string)
    ensures "github.com" + "/" + "thediveo" + "/" + ("go-plugger" + "." + ident) == InPlugger(ident)
  { }

  lemma PluggerJoined(ident: string)
    ensures Join(["github.com", "thediveo"] + ["go-plugger" + "." + ident], '/') ==
      "github.com" + "/" + "thediveo" + "/" + ("go-plugger" + "." + ident)
  {
    assert ["github.com", "thediveo"] + ["go-plugger" + "." + ident] == ["github.com", "thediveo", "go-plugger" + "." + ident];
    Join3("github.com", "thediveo", "go-plugger" + "." + ident, '/');
  }

  lemma Snoc1(a: Plugin) ensures [] + [a] == [a] { }
  lemma Snoc2(a: Plugin, b: Plugin) ensures [a] + [b] == [a, b] { }
  lemma Snoc3(a: Plugin, b: Plugin, c: Plugin) ensures [a, b] + [c] == [a, b, c] { }

  /** Neither of two plugins carries `name`. */
  lemma Fresh2(a: Plugin, b: Plugin, name: string)
    requires a.name != name && b.name != name
    ensures forall i :: 0 <= i < |[a, b]| ==> [a, b][i].name != name
  { }

  lemma RootFileJoined() ensures Join([""] + ["plug.go"], '/') == "/plug.go"
  {
    assert [""] + ["plug.go"] == ["", "plug.go"];
    Join2("", "plug.go", '/');
  }

  lemma OneDirectoryJoined() ensures Join(["foo"] + ["plug.go"], '/') == "foo/plug.go"
  {
    assert ["foo"] + ["plug.go"] == ["foo", "plug.go"];
    Join2("foo", "plug.go", '/');
  }

  lemma PluginsFooJoined() ensures Join(["plugins", "foo"] + ["plug.go"], '/') == "plugins/foo/plug.go"
  {
    assert ["plugins", "foo"] + ["plug.go"] == ["plugins", "foo", "plug.go"];
    Join3("plugins", "foo", "plug.go", '/');
  }

  // The scenarios.

  /** A function of package plugger is registered under its bare identifier. */
  lemma PluggerFunctionName(ident: string)
    requires '/' !in ident
    ensures SymbolName(Function(InPlugger(ident))) == ident
  {
    PluggerLiteral(ident);
    PluggerJoined(ident);
    StripQualified(["github.com", "thediveo"], "go-plugger", ident);
  }

  lemma FooName() ensures SymbolName(FooFn) == "Foo" { PluggerFunctionName("Foo"); }
  lemma PrefixFooName() ensures SymbolName(PrefixFooFn) == "PrefixFoo" { PluggerFunctionName("PrefixFoo"); }
  lemma PrefixBarName() ensures SymbolName(PrefixBarFn) == "PrefixBar" { PluggerFunctionName("PrefixBar"); }

  /** The symbol map of a one-symbol list. */
  lemma SymbolTableOne(s: Symbol)
    ensures SymbolTable([s]) ==
      if SymbolName(s) == "" then Success(map[]) else Success(map[SymbolName(s) := SymbolValue(s)])
  {
    assert [s][..0] == [];
  }

  /** A named symbol listed twice is refused under its name. */
  lemma SymbolTableTwice(s: Symbol)
    requires SymbolName(s) != ""
    ensures SymbolTable([s, s]) == Failure(SymbolName(s))
  {
    SymbolTableOne(s);
    assert [s, s][..1] == [s];
  }

  function Explicit(name: string, symbols: seq<Symbol>): PluginSpec
  {
    PluginSpec("group", name, symbols)
  }

  /** A registry holding exactly the plugins `ps` in group "group". */
  function Only(ps: seq<Plugin>): map<string, seq<Plugin>>
  {
    if ps == [] then map[] else map["group" := ps]
  }

  /** Registering a fresh name with the explicit group "group" appends to it. */
  lemma RegisterInGroup(ps: seq<Plugin>, name: string, symbols: seq<Symbol>, m: map<string, Symbol>)
    requires name != "" && SymbolTable(symbols) == Success(m)
    requires forall i :: 0 <= i < |ps| ==> ps[i].name != name
    ensures Registered(Only(ps), Explicit(name, symbols), "", false) ==
      Success(Only(ps + [Plugin("group", name, symbols, m)]))
  {
    var p := Plugin("group", name, symbols, m);
    assert GroupOf(Only(ps), "group").plugins == ps;
    assert ps + [p] != [];
    assert Only(ps)["group" := ps + [p]] == map["group" := ps + [p]];
  }

  /** A spec that leaves its identity to be derived. */
  const Anonymous: PluginSpec := PluginSpec("", "", [])

  /** Without caller data, a spec that leaves its identity empty is refused. */
  lemma NoCallerData(groups: map<string, seq<Plugin>>, file: string)
    ensures Registered(groups, Anonymous, file, false) == Failure(IdentityFailed(NoCallerInfo))
  {
  }

  /** Locations with fewer than two directory levels are refused. */
  lemma ArcaneCallerData(groups: map<string, seq<Plugin>>)
    ensures Registered(groups, Anonymous, "plug.go", true) == Failure(IdentityFailed(ArcaneLocation("plug.go")))
    ensures Registered(groups, Anonymous, "/plug.go", true) == Failure(IdentityFailed(ArcaneLocation("/plug.go")))
    ensures Registered(groups, Anonymous, "foo/plug.go", true) == Failure(IdentityFailed(ArcaneLocation("foo/plug.go")))
  {
    BareFileName();
    RootFile();
    OneDirectory();
  }

  lemma BareFileName()
    ensures ResolveIdentity("", "", "plug.go", true) == Failure(ArcaneLocation("plug.go"))
  {
    ResolveFromPath([], "plug.go");
    assert [] + ["plug.go"] == ["plug.go"];
  }

  lemma RootFile()
    ensures ResolveIdentity("", "", "/plug.go", true) == Failure(ArcaneLocation("/plug.go"))
  {
    RootFileJoined();
    ResolveFromPath([""], "plug.go");
    assert NonEmpty([""]) == [];
  }

  lemma OneDirectory()
    ensures ResolveIdentity("", "", "foo/plug.go", true) == Failure(ArcaneLocation("foo/plug.go"))
  {
    OneDirectoryJoined();
    ResolveFromPath(["foo"], "plug.go");
  }

  lemma PluginsFooLocation()
    ensures ResolveIdentity("", "", "plugins/foo/plug.go", true) == Success(Identity("plugins", "foo"))
  {
    PluginsFooJoined();
    ResolveFromPath(["plugins", "foo"], "plug.go");
  }

  const PluginsFoo: Plugin := Plugin("plugins", "foo", [], map[])

  /** "plugins/foo/plug.go" registers plugin foo in group plugins; the same
      registration again is refused, and the group keeps its one plugin. */
  lemma CorrectCallerData()
    ensures Registered(map[], Anonymous, "plugins/foo/plug.go", true) == Success(map["plugins" := [PluginsFoo]])
    ensures Registered(map["plugins" := [PluginsFoo]], Anonymous, "plugins/foo/plug.go", true)
      == Failure(DuplicatePlugin(Identity("plugins", "foo")))
    ensures GroupOf(map["plugins" := [PluginsFoo]], "plugins").Plugins() == [PluginsFoo]
    ensures PluginsFoo.name == "foo"
  {
    PluginsFooLocation();
    assert GroupOf(map[], "plugins").plugins + [PluginsFoo] == [PluginsFoo];
    assert [PluginsFoo][0].name == "foo";
  }

  const Plug1Plain: Plugin := Plugin("group", "plug1", [Plain("42")], map[])

  lemma PlainTable() ensures SymbolTable([Plain("42")]) == Success(map[]) { SymbolTableOne(Plain("42")); }

  /** A bare value that is neither a function nor a pointer is left out of
      the symbol map, and registration still succeeds. */
  lemma NonFunctionSymbolIgnored()
    ensures Registered(Only([]), Explicit("plug1", [Plain("42")]), "", false) == Success(Only([Plug1Plain]))
    ensures GroupOf(Only([Plug1Plain]), "group").Plugins()[0].symbolmap == map[]
  {
    PlainTable();
    RegisterInGroup([], "plug1", [Plain("42")], map[]);
    Snoc1(Plug1Plain);
  }

  const Plug1Unnamed: Plugin := Plugin("group", "plug1", [Named("", PrefixFooFn)], map[])

  lemma UnnamedTable() ensures SymbolTable([Named("", PrefixFooFn)]) == Success(map[]) { SymbolTableOne(Named("", PrefixFooFn)); }

  /** A NamedSymbol with an empty name is left out of the symbol map too, so
      no exact-name lookup finds it. */
  lemma UnnamedSymbolIgnored(name: string)
    ensures Registered(Only([]), Explicit("plug1", [Named("", PrefixFooFn)]), "", false) == Success(Only([Plug1Unnamed]))
    ensures GroupOf(Only([Plug1Unnamed]), "group").Func(name) == []
  {
    UnnamedTable();
    RegisterInGroup([], "plug1", Plug1Unnamed.symbols, map[]);
    Snoc1(Plug1Unnamed);
  }

  const Plug1Foo: Plugin := Plugin("group", "plug1", [Named("Foo", PrefixFooFn)], map["Foo" := PrefixFooFn])
  const Plug2Foo: Plugin := Plugin("group", "plug2", [Named("Foo", PrefixBarFn)], map["Foo" := PrefixBarFn])

  lemma Plug1FooTable() ensures SymbolTable(Plug1Foo.symbols) == Success(Plug1Foo.symbolmap) { SymbolTableOne(Named("Foo", PrefixFooFn)); }
  lemma Plug2FooTable() ensures SymbolTable(Plug2Foo.symbols) == Success(Plug2Foo.symbolmap) { SymbolTableOne(Named("Foo", PrefixBarFn)); }

  lemma RegisterPlug1Foo()
    ensures Registered(Only([]), Explicit("plug1", Plug1Foo.symbols), "", false) == Success(Only([Plug1Foo]))
  {
    Plug1FooTable();
    RegisterInGroup([], "plug1", Plug1Foo.symbols, Plug1Foo.symbolmap);
    Snoc1(Plug1Foo);
  }

  lemma RegisterPlug2Foo()
    ensures Registered(Only([Plug1Foo]), Explicit("plug2", Plug2Foo.symbols), "", false)
      == Success(Only([Plug1Foo, Plug2Foo]))
  {
    Plug2FooTable();
    RegisterInGroup([Plug1Foo], "plug2", Plug2Foo.symbols, Plug2Foo.symbolmap);
    Snoc2(Plug1Foo, Plug2Foo);
  }

  lemma FuncFoo()
    ensures GroupOf(Only([Plug1Foo, Plug2Foo]), "group").Func("Foo") == [PrefixFooFn, PrefixBarFn]
  {
    FuncAppend(PluginGroup("group", [Plug1Foo]), Plug2Foo, "Foo");
    Snoc2(Plug1Foo, Plug2Foo);
  }

  /** Two plugins each exporting "Foo" both register, and Func finds both
      values, in registration order. */
  lemma NamedSymbolsAcrossPlugins()
    ensures Registered(Only([]), Explicit("plug1", Plug1Foo.symbols), "", false) == Success(Only([Plug1Foo]))
    ensures Registered(Only([Plug1Foo]), Explicit("plug2", Plug2Foo.symbols), "", false)
      == Success(Only([Plug1Foo, Plug2Foo]))
    ensures GroupOf(Only([Plug1Foo, Plug2Foo]), "group").Func("Foo") == [PrefixFooFn, PrefixBarFn]
  {
    RegisterPlug1Foo();
    RegisterPlug2Foo();
    FuncFoo();
  }

  lemma NamedTwiceTable()
    ensures SymbolTable([Named("Foo", PrefixFooFn), Named("Foo", PrefixFooFn)]) == Failure("Foo")
  {
    SymbolTableTwice(Named("Foo", PrefixFooFn));
  }

  lemma FunctionTwiceTable()
    ensures SymbolTable([PrefixFooFn, PrefixFooFn]) == Failure("PrefixFoo")
  {
    PrefixFooName();
    SymbolTableTwice(PrefixFooFn);
  }

  lemma NamedTwice(groups: map<string, seq<Plugin>>)
    ensures Registered(groups, Explicit("plug1", [Named("Foo", PrefixFooFn), Named("Foo", PrefixFooFn)]), "", false)
      == Failure(DuplicateSymbol(Identity("group", "plug1"), "Foo"))
  {
    NamedTwiceTable();
  }

  lemma FunctionTwice(groups: map<string, seq<Plugin>>)
    ensures Registered(groups, Explicit("plug1", [PrefixFooFn, PrefixFooFn]), "", false)
      == Failure(DuplicateSymbol(Identity("group", "plug1"), "PrefixFoo"))
  {
    FunctionTwiceTable();
  }

  /** Two symbols of one spec resolving to the same name refuse the
      registration, whether named explicitly or derived from one function
      listed twice. */
  lemma DuplicateSymbolsRefused(groups: map<string, seq<Plugin>>)
    ensures Registered(groups, Explicit("plug1", [Named("Foo", PrefixFooFn), Named("Foo", PrefixFooFn)]), "", false)
      == Failure(DuplicateSymbol(Identity("group", "plug1"), "Foo"))
    ensures Registered(groups, Explicit("plug1", [PrefixFooFn, PrefixFooFn]), "", false)
      == Failure(DuplicateSymbol(Identity("group", "plug1"), "PrefixFoo"))
  {
    NamedTwice(groups);
    FunctionTwice(groups);
  }

  const Plug1: Plugin := Plugin("group", "plug1", [PrefixFooFn], map["PrefixFoo" := PrefixFooFn])
  const Plug2: Plugin := Plugin("group", "plug2", [PrefixBarFn], map["PrefixBar" := PrefixBarFn])
  const Plug3: Plugin := Plugin("group", "plug3", [FooFn], map["Foo" := FooFn])

  lemma Plug1Table() ensures SymbolTable(Plug1.symbols) == Success(Plug1.symbolmap) { PrefixFooName(); SymbolTableOne(PrefixFooFn); }
  lemma Plug2Table() ensures SymbolTable(Plug2.symbols) == Success(Plug2.symbolmap) { PrefixBarName(); SymbolTableOne(PrefixBarFn); }
  lemma Plug3Table() ensures SymbolTable(Plug3.symbols) == Success(Plug3.symbolmap) { FooName(); SymbolTableOne(FooFn); }

  lemma RegisterPlug1()
    ensures Registered(Only([]), Explicit("plug1", [PrefixFooFn]), "", false) == Success(Only([Plug1]))
  {
    Plug1Table();
    RegisterInGroup([], "plug1", Plug1.symbols, Plug1.symbolmap);
    Snoc1(Plug1);
  }

  lemma RegisterPlug2()
    ensures Registered(Only([Plug1]), Explicit("plug2", [PrefixBarFn]), "", false)
      == Success(Only([Plug1, Plug2]))
  {
    Plug2Table();
    RegisterInGroup([Plug1], "plug2", Plug2.symbols, Plug2.symbolmap);
    Snoc2(Plug1, Plug2);
  }

  lemma RegisterPlug3()
    ensures Registered(Only([Plug1, Plug2]), Explicit("plug3", [FooFn]), "", false)
      == Success(Only([Plug1, Plug2, Plug3]))
  {
    Plug3Table();
    Fresh2(Plug1, Plug2, "plug3");
    RegisterInGroup([Plug1, Plug2], "plug3", Plug3.symbols, Plug3.symbolmap);
    Snoc3(Plug1, Plug2, Plug3);
  }

  lemma Plug1Prefix() ensures PrefixFuncs(Plug1.symbols, "Prefix") == [PrefixFooFn]
  {
    PrefixFooName();
    assert "Prefix" <= "PrefixFoo";
  }

  lemma Plug2Prefix() ensures PrefixFuncs(Plug2.symbols, "Prefix") == [PrefixBarFn]
  {
    PrefixBarName();
    assert "Prefix" <= "PrefixBar";
  }

  lemma Plug3Prefix() ensures PrefixFuncs(Plug3.symbols, "Prefix") == []
  {
    FooName();
    assert !("Prefix" <= "Foo");
  }

  /** Registering the plugins exporting PrefixFoo and PrefixBar succeeds, and
      so does the one exporting Foo. */
  lemma PrefixedRegistrations()
    ensures Registered(Only([]), Explicit("plug1", [PrefixFooFn]), "", false) == Success(Only([Plug1]))
    ensures Registered(Only([Plug1]), Explicit("plug2", [PrefixBarFn]), "", false)
      == Success(Only([Plug1, Plug2]))
    ensures Registered(Only([Plug1, Plug2]), Explicit("plug3", [FooFn]), "", false)
      == Success(Only([Plug1, Plug2, Plug3]))
  {
    RegisterPlug1();
    RegisterPlug2();
    RegisterPlug3();
  }

  /** Prefix lookup over those three plugins yields exactly the two functions
      whose stripped names start with "Prefix". */
  lemma PrefixedFunctions()
    ensures GroupOf(Only([Plug1, Plug2, Plug3]), "group").FuncPrefix("Prefix") == [PrefixFooFn, PrefixBarFn]
  {
    Plug1Prefix();
    Plug2Prefix();
    Plug3Prefix();
    FuncPrefixAppend(PluginGroup("group", []), Plug1, "Prefix");
    FuncPrefixAppend(PluginGroup("group", [Plug1]), Plug2, "Prefix");
    FuncPrefixAppend(PluginGroup("group", [Plug1, Plug2]), Plug3, "Prefix");
    Snoc1(Plug1);
    Snoc2(Plug1, Plug2);
    Snoc3(Plug1, Plug2, Plug3);
  }

  const LooPlugin: Plugin := Plugin("group", "plug1", [LooPtr], map["Loo" := LooPtr])
  const IooPlugin: Plugin := Plugin("group", "plug1", [Named("Ioo", LooPtr)], map["Ioo" := LooPtr])

  lemma LooTable() ensures SymbolTable(LooPlugin.symbols) == Success(LooPlugin.symbolmap) { SymbolTableOne(LooPtr); }
  lemma IooTable() ensures SymbolTable(IooPlugin.symbols) == Success(IooPlugin.symbolmap) { SymbolTableOne(Named("Ioo", LooPtr)); }

  /** A bare pointer is exported under the name of the type it points to. */
  lemma PointerSymbol()
    ensures Registered(Only([]), Explicit("plug1", [LooPtr]), "", false) == Success(Only([LooPlugin]))
    ensures GroupOf(Only([LooPlugin]), "group").PluginsFunc("Loo") == [PluginFunc(LooPtr, LooPlugin)]
  {
    LooTable();
    RegisterInGroup([], "plug1", LooPlugin.symbols, LooPlugin.symbolmap);
    Snoc1(LooPlugin);
  }

  /** An interface value under an explicit name is exported under that name. */
  lemma NamedInterfaceSymbol()
    ensures Registered(Only([]), Explicit("plug1", [Named("Ioo", LooPtr)]), "", false) == Success(Only([IooPlugin]))
    ensures GroupOf(Only([IooPlugin]), "group").PluginsFunc("Ioo") == [PluginFunc(LooPtr, IooPlugin)]
  {
    IooTable();
    RegisterInGroup([], "plug1", IooPlugin.symbols, IooPlugin.symbolmap);
    Snoc1(IooPlugin);
  }

  /** The correct-caller-data scenario driven through the registry object:
      what a caller of Register can conclude from its contract alone. The
      second registration is refused and the group view shows the one plugin. */
  method RegistryClient() returns (first: Option<RegisterError>, second: Option<RegisterError>, view: PluginGroup)
    ensures first == None
    ensures second == Some(DuplicatePlugin(Identity("plugins", "foo")))
    ensures view.Plugins() == [PluginsFoo] && view.Plugins()[0].name == "foo"
  {
    var registry := new Registry();
    CorrectCallerData();
    first := registry.Register(Anonymous, "plugins/foo/plug.go", true);
    second := registry.Register(Anonymous, "plugins/foo/plug.go", true);
    view := registry.New("plugins");
  }
}
