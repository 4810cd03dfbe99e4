/** The symbols a plugin exports, the lookup name each one gets, and the
    symbol map built from a plugin's declared symbol list. */
module Symbols {
  import opened Wrappers
  import Paths

  /** A registered capability. Go inspects symbols by reflection; here the
      kind the registry distinguishes is explicit:
      a function carries its runtime-qualified name ("pkg/path.Ident"),
      a pointer carries the name of the type it points to ("" when unnamed),
      any other value carries only an identity, and a NamedSymbol wraps a
      value under an explicit lookup name. */
  datatype Symbol =
    | Function(qualName: string)
    | Pointer(elemType: string)
    | Plain(repr: string)
    | Named(name: string, symbol: Symbol)

  /** A function's identifier without its package qualification: the last
      slash-separated piece of the qualified name, then what follows the
      first dot in it. */
  function StripPackage(qualName: string): (r: string)
    ensures '/' !in r
  {
    Paths.AfterFirst(Paths.Base(qualName), '.')
  }

  /** For a runtime name "path/to/pkg.Ident" the stripped name is "Ident":
      the package path may hold dots ("github.com"), the package name may not. */
  lemma StripQualified(path: seq<string>, pkg: string, ident: string)
    requires forall i :: 0 <= i < |path| ==> '/' !in path[i]
    requires '/' !in pkg && '.' !in pkg && '/' !in ident
    ensures StripPackage(Paths.Join(path + [pkg + "." + ident], '/')) == ident
  {
    var last := pkg + "." + ident;
    QualifiedPiece(pkg, ident);
    var parts := path + [last];
    forall i | 0 <= i < |parts| ensures '/' !in parts[i] {
      if i < |path| {
        assert parts[i] == path[i];
      }
    }
    Paths.BaseJoin(parts);
    assert Paths.Base(Paths.Join(parts, '/')) == last;
    Paths.AfterFirstCut(pkg, ident, '.');
  }

  /** The last piece "pkg.Ident" of a qualified name holds no slash. */
  lemma QualifiedPiece(pkg: string, ident: string)
    requires '/' !in pkg && '/' !in ident
    ensures pkg + "." + ident == pkg + ['.'] + ident
    ensures '/' !in pkg + "." + ident
  {
    var last := pkg + ['.'] + ident;
    forall c | c in last ensures c != '/' {
      assert c in pkg || c == '.' || c in ident;
    }
  }

  /** The name a symbol is registered under in the symbol map; the empty
      string means the symbol is left out of the map. */
  function SymbolName(s: Symbol): (r: string)
    ensures s.Function? ==> '/' !in r
    ensures s.Plain? ==> r == ""
  {
    match s
    case Named(n, _) => n
    case Function(q) => StripPackage(q)
    case Pointer(t) => t
    case Plain(_) => ""
  }

  /** The value stored for a symbol: a NamedSymbol is unwrapped once. */
  function SymbolValue(s: Symbol): (r: Symbol)
    ensures r == s || (s.Named? && r == s.symbol)
  {
    if s.Named? then s.symbol else s
  }

  /** The symbol map of a declared symbol list, built front to back: unnamed
      symbols are skipped and the first name seen twice refuses the whole
      list (the failure carries that name). */
  function SymbolTable(symbols: seq<Symbol>): (r: Result<map<string, Symbol>, string>)
    ensures r.Success? ==> "" !in r.value
    ensures r.Failure? ==> r.error != ""
    decreases |symbols|
  {
    if symbols == [] then Success(map[])
    else
      var last := symbols[|symbols| - 1];
      match SymbolTable(symbols[..|symbols| - 1])
      case Failure(dup) => Failure(dup)
      case Success(m) =>
        var n := SymbolName(last);
        if n == "" then Success(m)
        else if n in m then Failure(n)
        else Success(m[n := SymbolValue(last)])
  }

  /** No two symbols of the list resolve to the same (non-empty) name. */
  ghost predicate DistinctNames(symbols: seq<Symbol>)
  {
    forall i, j :: 0 <= i < j < |symbols| && SymbolName(symbols[i]) != "" ==>
      SymbolName(symbols[i]) != SymbolName(symbols[j])
  }

  /** The loop that fills the symbol map, refusing a duplicate name as soon as
      it is met. */
  method BuildSymbolMap(symbols: seq<Symbol>) returns (r: Result<map<string, Symbol>, string>)
    ensures r == SymbolTable(symbols)
  {
    var m: map<string, Symbol> := map[];
    var i := 0;
    while i < |symbols|
      invariant 0 <= i <= |symbols|
      invariant SymbolTable(symbols[..i]) == Success(m)
    {
      assert symbols[..i + 1][..i] == symbols[..i];
      var n := SymbolName(symbols[i]);
      if n != "" {
        if n in m {
          FailureSticks(symbols, i + 1);
          return Failure(n);
        }
        m := m[n := SymbolValue(symbols[i])];
      }
      i := i + 1;
    }
    assert symbols[..i] == symbols;
    return Success(m);
  }

  /** Once a prefix of the list is refused, so is the whole list, for the same name. */
  lemma {:induction false} FailureSticks(symbols: seq<Symbol>, k: nat)
    requires k <= |symbols|
    requires SymbolTable(symbols[..k]).Failure?
    ensures SymbolTable(symbols) == SymbolTable(symbols[..k])
    decreases |symbols|
  {
    if k < |symbols| {
      var init := symbols[..|symbols| - 1];
      assert init[..k] == symbols[..k];
      FailureSticks(init, k);
    } else {
      assert symbols[..k] == symbols;
    }
  }

  /** The symbol map is built exactly when the names are distinct. */
  lemma {:induction false} SymbolTableSucceeds(symbols: seq<Symbol>)
    ensures SymbolTable(symbols).Success? <==> DistinctNames(symbols)
    ensures SymbolTable(symbols).Failure? ==>
      exists i, j :: 0 <= i < j < |symbols| && SymbolName(symbols[i]) == SymbolName(symbols[j]) == SymbolTable(symbols).error
    decreases |symbols|
  {
    if symbols != [] {
      var init := symbols[..|symbols| - 1];
      var last := |symbols| - 1;
      var n := SymbolName(symbols[last]);
      SymbolTableSucceeds(init);
      match SymbolTable(init)
      case Failure(e) =>
        assert SymbolTable(symbols) == Failure(e);
        var i, j :| 0 <= i < j < |init| && SymbolName(init[i]) == SymbolName(init[j]) == e;
        assert init[i] == symbols[i] && init[j] == symbols[j];
        Duplicate(symbols, i, j);
      case Success(m) =>
        SymbolTableKeys(init);
        if n != "" && n in m {
          assert SymbolTable(symbols) == Failure(n);
          var i :| 0 <= i < |init| && SymbolName(init[i]) == n;
          assert init[i] == symbols[i];
          Duplicate(symbols, i, last);
        } else {
          assert SymbolTable(symbols).Success?;
          forall i, j | 0 <= i < j < |symbols| && SymbolName(symbols[i]) != ""
            ensures SymbolName(symbols[i]) != SymbolName(symbols[j])
          {
            assert init[i] == symbols[i];
            if j < last {
              assert init[j] == symbols[j];
            } else {
              assert SymbolName(init[i]) in m;
            }
          }
        }
    }
  }

  /** Two symbols sharing a non-empty name make the names not distinct. */
  lemma Duplicate(symbols: seq<Symbol>, i: int, j: int)
    requires 0 <= i < j < |symbols| && SymbolName(symbols[i]) != ""
    requires SymbolName(symbols[i]) == SymbolName(symbols[j])
    ensures !DistinctNames(symbols)
  { }

  /** The built map takes one step per symbol: no change for an unnamed one,
      one new key otherwise. */
  lemma SymbolTableStep(symbols: seq<Symbol>)
    requires symbols != [] && SymbolTable(symbols).Success?
    ensures SymbolTable(symbols[..|symbols| - 1]).Success?
    ensures var m := SymbolTable(symbols[..|symbols| - 1]).value;
      var n := SymbolName(symbols[|symbols| - 1]);
      SymbolTable(symbols).value ==
        (if n == "" then m else m[n := SymbolValue(symbols[|symbols| - 1])])
    ensures SymbolName(symbols[|symbols| - 1]) !in SymbolTable(symbols[..|symbols| - 1]).value
  { }

  /** A built symbol map has exactly the names of the symbols as keys. */
  lemma {:induction false} SymbolTableKeys(symbols: seq<Symbol>)
    requires SymbolTable(symbols).Success?
    ensures forall k :: k in SymbolTable(symbols).value <==>
      k != "" && exists i :: 0 <= i < |symbols| && SymbolName(symbols[i]) == k
    decreases |symbols|
  {
    if symbols != [] {
      var init := symbols[..|symbols| - 1];
      var last := |symbols| - 1;
      SymbolTableStep(symbols);
      SymbolTableKeys(init);
      var m := SymbolTable(init).value;
      var r := SymbolTable(symbols).value;
      forall k ensures k in r <==> k != "" && exists i :: 0 <= i < |symbols| && SymbolName(symbols[i]) == k {
        if k in m {
          var i :| 0 <= i < |init| && SymbolName(init[i]) == k;
          assert SymbolName(symbols[i]) == k;
        } else if k in r {
          assert SymbolName(symbols[last]) == k;
        }
        if exists i :: 0 <= i < |symbols| && SymbolName(symbols[i]) == k {
          var i :| 0 <= i < |symbols| && SymbolName(symbols[i]) == k;
          if i < last {
            assert SymbolName(init[i]) == k;
          }
        }
      }
    }
  }

  /** A built symbol map stores each named symbol's unwrapped value under its
      name. */
  lemma {:induction false} SymbolTableValues(symbols: seq<Symbol>)
    requires SymbolTable(symbols).Success?
    ensures forall i :: 0 <= i < |symbols| && SymbolName(symbols[i]) != "" ==>
      SymbolName(symbols[i]) in SymbolTable(symbols).value &&
      SymbolTable(symbols).value[SymbolName(symbols[i])] == SymbolValue(symbols[i])
    decreases |symbols|
  {
    if symbols != [] {
      var init := symbols[..|symbols| - 1];
      var last := |symbols| - 1;
      SymbolTableStep(symbols);
      SymbolTableKeys(init);
      SymbolTableValues(init);
      var m := SymbolTable(init).value;
      var r := SymbolTable(symbols).value;
      forall i | 0 <= i < |symbols| && SymbolName(symbols[i]) != ""
        ensures SymbolName(symbols[i]) in r && r[SymbolName(symbols[i])] == SymbolValue(symbols[i])
      {
        if i < last {
          assert init[i] == symbols[i];
          assert SymbolName(init[i]) in m;
        }
      }
    }
  }

  /** A NamedSymbol with a name is stored under that name as the value it
      wraps, never still wrapped. */
  lemma NamedStoredUnwrapped(symbols: seq<Symbol>, i: int)
    requires SymbolTable(symbols).Success?
    requires 0 <= i < |symbols| && symbols[i].Named? && symbols[i].name != ""
    ensures symbols[i].name in SymbolTable(symbols).value
    ensures SymbolTable(symbols).value[symbols[i].name] == symbols[i].symbol
  {
    SymbolTableValues(symbols);
  }

  /** A bare pointer to a named type is stored as itself under the type's name. */
  lemma PointerStoredAsItself(symbols: seq<Symbol>, i: int)
    requires SymbolTable(symbols).Success?
    requires 0 <= i < |symbols| && symbols[i].Pointer? && symbols[i].elemType != ""
    ensures symbols[i].elemType in SymbolTable(symbols).value
    ensures SymbolTable(symbols).value[symbols[i].elemType] == symbols[i]
  {
    SymbolTableValues(symbols);
  }
}
