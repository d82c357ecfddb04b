/** The scopes of the main code generator (compiler/compiler.go): a
    parent-linked chain of symbol tables, each with a bump allocator that
    hands out 4-byte slots. */
module Symbols {
  import opened Wrappers

  datatype Symbol = Symbol(name: string, typ: string, address: int)

  /** The contents of one table. */
  datatype Scope = Scope(symbols: map<string, Symbol>, nextAddress: int)

  const EmptyScope := Scope(map[], 0)

  /** `Define` on a table's contents: the new symbol gets the current
      `nextAddress`, replaces any entry of the same name, and the allocator
      moves on by one 4-byte slot. */
  function DefineIn(sc: Scope, name: string, typ: string): (r: (Scope, Symbol))
    ensures r.1.address == sc.nextAddress && r.0.nextAddress == sc.nextAddress + 4
    ensures r.0.symbols.Keys == sc.symbols.Keys + {name} && r.0.symbols[name] == r.1
    ensures forall other :: other in sc.symbols && other != name ==> r.0.symbols[other] == sc.symbols[other]
  {
    var sym := Symbol(name, typ, sc.nextAddress);
    (Scope(sc.symbols[name := sym], sc.nextAddress + 4), sym)
  }

  /** `Resolve` over a chain of tables, innermost first: the entry of the
      first table that has the name. */
  function Lookup(chain: seq<Scope>, name: string): Option<Symbol> {
    if chain == [] then None
    else if name in chain[0].symbols then Some(chain[0].symbols[name])
    else Lookup(chain[1..], name)
  }

  /** A lookup misses exactly when no table has the name, and a hit is the
      entry of the first table that has it. */
  lemma {:induction false} LookupMeaning(chain: seq<Scope>, name: string)
    ensures Lookup(chain, name).None? <==> forall i :: 0 <= i < |chain| ==> name !in chain[i].symbols
    ensures Lookup(chain, name).Some? ==>
      (exists i :: 0 <= i < |chain| && name in chain[i].symbols
         && chain[i].symbols[name] == Lookup(chain, name).value
         && forall j :: 0 <= j < i ==> name !in chain[j].symbols)
  {
    if chain == [] {
    } else if name in chain[0].symbols {
      assert 0 < |chain| && name in chain[0].symbols && chain[0].symbols[name] == Lookup(chain, name).value;
    } else {
      var r := Lookup(chain[1..], name);
      LookupMeaning(chain[1..], name);
      if r.Some? {
        var i :| 0 <= i < |chain| - 1 && name in chain[1..][i].symbols
          && chain[1..][i].symbols[name] == r.value
          && forall j :: 0 <= j < i ==> name !in chain[1..][j].symbols;
        assert forall j :: 0 <= j < i + 1 ==> name !in chain[j].symbols by {
          forall j | 0 <= j < i + 1 ensures name !in chain[j].symbols {
            if j > 0 { assert chain[j] == chain[1..][j - 1]; }
          }
        }
        assert chain[i + 1] == chain[1..][i];
      } else {
        assert forall i :: 0 <= i < |chain| ==> name !in chain[i].symbols by {
          forall i | 0 <= i < |chain| ensures name !in chain[i].symbols {
            if i > 0 { assert chain[i] == chain[1..][i - 1]; }
          }
        }
      }
    }
  }

  /** The innermost table shadows every outer one. */
  lemma InnermostWins(chain: seq<Scope>, name: string)
    requires |chain| > 0 && name in chain[0].symbols
    ensures Lookup(chain, name) == Some(chain[0].symbols[name])
  {
  }

  /** An outer table is consulted only on a miss in every inner one. */
  lemma {:induction false} OuterOnMiss(inner: seq<Scope>, outer: seq<Scope>, name: string)
    requires forall i :: 0 <= i < |inner| ==> name !in inner[i].symbols
    ensures Lookup(inner + outer, name) == Lookup(outer, name)
    decreases |inner|
  {
    if inner != [] {
      assert (inner + outer)[1..] == inner[1..] + outer;
      OuterOnMiss(inner[1..], outer, name);
    } else {
      assert inner + outer == outer;
    }
  }

  /** Defining the names one after another. */
  function DefineAll(sc: Scope, names: seq<string>, typ: string): Scope
    decreases |names|
  {
    if names == [] then sc
    else DefineAll(DefineIn(sc, names[0], typ).0, names[1..], typ)
  }

  /** Successive definitions get 0, 4, 8, …: after `k` of them in a fresh
      table the allocator stands at `4*k`, and a name defined only once, at
      position `i`, has address `4*i`. */
  lemma {:induction false} SuccessiveAddresses(sc: Scope, names: seq<string>, typ: string, i: nat)
    requires i < |names|
    requires forall j :: 0 <= j < |names| && j != i ==> names[j] != names[i]
    ensures DefineAll(sc, names, typ).nextAddress == sc.nextAddress + 4 * |names|
    ensures var r := DefineAll(sc, names, typ);
      names[i] in r.symbols && r.symbols[names[i]].address == sc.nextAddress + 4 * i
    decreases |names|
  {
    var sc' := DefineIn(sc, names[0], typ).0;
    if i == 0 {
      NotRedefined(sc', names[1..], typ, names[0]);
      AllocatorAdvance(sc', names[1..], typ);
    } else {
      SuccessiveAddresses(sc', names[1..], typ, i - 1);
    }
  }

  lemma {:induction false} AllocatorAdvance(sc: Scope, names: seq<string>, typ: string)
    ensures DefineAll(sc, names, typ).nextAddress == sc.nextAddress + 4 * |names|
    decreases |names|
  {
    if names != [] {
      AllocatorAdvance(DefineIn(sc, names[0], typ).0, names[1..], typ);
    }
  }

  /** A name that is not defined again keeps its entry. */
  lemma {:induction false} NotRedefined(sc: Scope, names: seq<string>, typ: string, name: string)
    requires name in sc.symbols && name !in names
    ensures name in DefineAll(sc, names, typ).symbols
    ensures DefineAll(sc, names, typ).symbols[name] == sc.symbols[name]
    decreases |names|
  {
    if names != [] {
      NotRedefined(DefineIn(sc, names[0], typ).0, names[1..], typ, name);
    }
  }

  /** Redefining a name replaces its entry but still uses up a new slot. */
  lemma RedefinitionUsesNewSlot(sc: Scope, name: string, t1: string, t2: string)
    ensures var (sc1, first) := DefineIn(sc, name, t1);
      var (sc2, second) := DefineIn(sc1, name, t2);
      && second.address == first.address + 4
      && sc2.symbols[name] == second
      && sc2.symbols.Keys == sc1.symbols.Keys
      && sc2.nextAddress == sc.nextAddress + 8
  {
  }

  /** A table: its own entries and allocator, and its parent, held as the
      contents of the enclosing tables, innermost first (empty for a table
      made by `NewSymbolTable`). */
  class SymbolTable {
    var symbols: map<string, Symbol>
    var nextAddress: int
    const parent: seq<Scope>

    /** The contents of this table and of every table above it, innermost
        first. */
    function Chain(): seq<Scope>
      reads this
    {
      [Scope(symbols, nextAddress)] + parent
    }

    /** `NewSymbolTable`. */
    constructor ()
      ensures symbols == map[] && nextAddress == 0 && parent == []
    {
      symbols := map[];
      nextAddress := 0;
      parent := [];
    }

    /** An empty table below the tables `outer`. */
    constructor Enclosed(outer: seq<Scope>)
      ensures symbols == map[] && nextAddress == 0 && parent == outer
    {
      symbols := map[];
      nextAddress := 0;
      parent := outer;
    }

    method Define(name: string, typ: string) returns (sym: Symbol)
      modifies this
      ensures (Scope(symbols, nextAddress), sym) == DefineIn(old(Scope(symbols, nextAddress)), name, typ)
    {
      sym := Symbol(name, typ, nextAddress);
      symbols := symbols[name := sym];
      nextAddress := nextAddress + 4;
    }

    /** The write `symbol.Address = …` through the `*Symbol` that `Define`
        returned, which is the entry stored under the name. */
    method SetAddress(name: string, address: int)
      requires name in symbols
      modifies this
      ensures symbols == old(symbols)[name := old(symbols)[name].(address := address)]
      ensures nextAddress == old(nextAddress)
    {
      symbols := symbols[name := symbols[name].(address := address)];
    }

    /** A miss in this table goes on to the parent tables. */
    method Resolve(name: string) returns (r: Option<Symbol>)
      ensures r == Lookup(Chain(), name)
    {
      if name in symbols {
        return Some(symbols[name]);
      }
      return Lookup(parent, name);
    }

    /** `NewEnclosedSymbolTable`: a new empty table whose parent is this
        table's chain as it stands now. */
    method NewEnclosedSymbolTable() returns (enclosed: SymbolTable)
      ensures fresh(enclosed)
      ensures enclosed.symbols == map[] && enclosed.nextAddress == 0 && enclosed.parent == Chain()
    {
      enclosed := new SymbolTable.Enclosed(Chain());
    }
  }
}
