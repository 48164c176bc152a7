/** The Group objects, the compile that walks and seals them, and the calls a sealed tree refuses. */
module Wiring {
  import opened Options
  import opened Groups

  /** http.ServeMux, as the table it registered under some rule of its own. */
  class Mux {
    const accepts: MuxRule
    var table: seq<Entry>

    constructor (rule: MuxRule)
      ensures accepts == rule && table == []
    {
      accepts, table := rule, [];
    }

    method Handle(pattern: string, handler: Handler) returns (panicked: bool)
      modifies this
      ensures Register(accepts, old(table), [Entry(pattern, handler)]) == if panicked then PatternPanic else Done(table)
      ensures panicked ==> table == old(table)
    {
      assert [Entry(pattern, handler)][1..] == [];
      if !accepts(table, pattern) {
        return true;
      }
      table := table + [Entry(pattern, handler)];
      return false;
    }
  }

  predicate ValidPrefix(prefix: string) {
    prefix != "" && prefix[0] == '/' && prefix[|prefix| - 1] != '/'
  }

  class Group {
    const prefix: string
    var middleware: seq<Middleware>
    var routes: seq<Route>
    var groups: seq<Group>
    var errors: Option<nat>
    var notFound: Option<nat>
    var methodNotAllowed: Option<nat>
    var sealed: bool

    /** NewGroup, on a prefix validatePrefix lets pass. */
    constructor (p: string)
      requires ValidPrefix(p)
      ensures prefix == p && middleware == [] && routes == [] && groups == [] && errors == None
      ensures notFound == None && methodNotAllowed == None && !sealed
    {
      prefix, middleware, routes, groups, errors := p, [], [], [], None;
      notFound, methodNotAllowed, sealed := None, None, false;
    }

    /** Every mutation checks the seal first: a sealed group refuses it and stays as it was. */
    method Use(mw: seq<Middleware>) returns (panicked: bool)
      modifies this`middleware
      ensures panicked == sealed
      ensures middleware == if sealed then old(middleware) else old(middleware) + mw
    {
      if sealed {
        return true;
      }
      middleware := middleware + mw;
      return false;
    }

    method Handle(method_: string, pattern: string, handler: Endpoint, mw: seq<Middleware>) returns (panicked: bool)
      modifies this`routes
      ensures panicked == sealed
      ensures routes == if sealed then old(routes) else old(routes) + [Route(method_, pattern, handler, mw)]
    {
      if sealed {
        return true;
      }
      routes := routes + [Route(method_, pattern, handler, mw)];
      return false;
    }

    method SetErrorWriter(ew: Option<nat>) returns (panicked: bool)
      modifies this`errors
      ensures panicked == sealed
      ensures errors == if sealed then old(errors) else ew
    {
      if sealed {
        return true;
      }
      errors := ew;
      return false;
    }

    method SetNotFound(h: Option<nat>) returns (panicked: bool)
      modifies this`notFound
      ensures panicked == sealed
      ensures notFound == if sealed then old(notFound) else h
    {
      if sealed {
        return true;
      }
      notFound := h;
      return false;
    }

    method SetMethodNotAllowed(h: Option<nat>) returns (panicked: bool)
      modifies this`methodNotAllowed
      ensures panicked == sealed
      ensures methodNotAllowed == if sealed then old(methodNotAllowed) else h
    {
      if sealed {
        return true;
      }
      methodNotAllowed := h;
      return false;
    }

    /** HandleErr panics on a group with no writer before it looks at the seal. */
    method HandleErr(method_: string, pattern: string, fn: nat, mw: seq<Middleware>) returns (panicked: bool)
      modifies this`routes
      ensures panicked == (errors == None || sealed)
      ensures routes == if panicked then old(routes)
                        else old(routes) + [Route(method_, pattern, Adapted(fn, errors.value), mw)]
    {
      if errors.None? {
        return true;
      }
      panicked := Handle(method_, pattern, Adapted(fn, errors.value), mw);
    }

    method Mount(child: Group) returns (panicked: bool)
      modifies this`groups
      ensures panicked == sealed
      ensures groups == if sealed then old(groups) else old(groups) + [child]
    {
      if sealed {
        return true;
      }
      groups := groups + [child];
      return false;
    }
  }

  /** NewGroup: null is the panic on a prefix that does not begin with '/', or ends with one. */
  method NewGroup(prefix: string) returns (g: Group?)
    ensures g == null <==> prefix == "" || prefix[0] != '/' || prefix[|prefix| - 1] == '/'
    ensures g != null ==> fresh(g) && g.prefix == prefix && g.middleware == [] && g.routes == [] && g.groups == []
    ensures g != null ==> g.errors == g.notFound == g.methodNotAllowed == None && !g.sealed
  {
    if !ValidPrefix(prefix) {
      return null;
    }
    g := new Group(prefix);
  }

  // ---------------------------------------------------------------- reading a tree off the heap

  /** The groups of S below g, g included, are the tree t. A finite t is what an acyclic mounting
      unfolds to. */
  predicate Shows(g: Group, t: Tree, S: set<Group>)
    reads S`middleware, S`routes, S`groups, S`notFound, S`methodNotAllowed
    decreases t
  {
    && g in S
    && g.prefix == t.prefix && g.middleware == t.middleware && g.routes == t.routes
    && t.misses == (g.notFound.Some? || g.methodNotAllowed.Some?)
    && |g.groups| == |t.children|
    && forall i | 0 <= i < |t.children| :: Shows(g.groups[i], t.children[i], S)
  }

  /** Groups show one tree at most. */
  lemma {:induction false} ShowsOne(g: Group, t: Tree, S: set<Group>, u: Tree, U: set<Group>)
    requires Shows(g, t, S) && Shows(g, u, U)
    ensures t == u
    decreases t
  {
    forall i | 0 <= i < |t.children|
      ensures t.children[i] == u.children[i]
    {
      ShowsOne(g.groups[i], t.children[i], S, u.children[i], U);
    }
  }

  lemma {:induction false} ShowsInMore(g: Group, t: Tree, S: set<Group>, U: set<Group>)
    requires Shows(g, t, S) && S <= U
    ensures Shows(g, t, U)
    decreases t
  {
    forall i | 0 <= i < |t.children|
      ensures Shows(g.groups[i], t.children[i], U)
    {
      ShowsInMore(g.groups[i], t.children[i], S, U);
    }
  }

  ghost predicate Sealed(gs: set<Group>)
    reads gs`sealed
  {
    forall g | g in gs :: g.sealed
  }

  /** What was sealed stays sealed. */
  twostate predicate KeepsSeals(S: set<Group>)
    reads S`sealed
  {
    forall g | g in S :: old(g.sealed) ==> g.sealed
  }

  // ---------------------------------------------------------------- compile

  ghost predicate Matches(r: Compiled, panic: Option<Compiled>, table: seq<Entry>) {
    if r.Done? then panic.None? && r.table == table else panic == Some(r)
  }

  /** compile: the mux gains what the specification says, over chains whose storage is never shared,
      and the tree's groups join the sealed ones. */
  method CompileGroup(mux: Mux, parent: string, outer: Slice, g: Group,
                      ghost t: Tree, ghost S: set<Group>, ghost before: set<Group>)
    returns (panic: Option<Compiled>, ghost after: set<Group>)
    requires Shows(g, t, S) && ValidSlice(outer) && before <= S && Sealed(before)
    modifies S`sealed, mux
    ensures Matches(Compile(t, parent, old(Elements(outer)), mux.accepts, old(mux.table)), panic, mux.table)
    ensures before <= after <= S && Sealed(after) && (panic.None? ==> Shows(g, t, after)) && KeepsSeals(S)
    decreases t, 2
  {
    ghost var elements := Elements(outer);
    var prefix := parent + g.prefix;
    var chain;
    panic, chain := EnterGroup(mux, parent, prefix, outer, g, t, S);
    after := before + {g};
    if panic.Some? {
      return;
    }
    panic, after := CompileChildren(mux, parent, elements, prefix, chain, g, t, S, after);
  }

  /** compile's own part: seal the group, refuse a nested miss handler, register the group's routes. */
  method EnterGroup(mux: Mux, parent: string, prefix: string, outer: Slice, g: Group,
                    ghost t: Tree, ghost S: set<Group>)
    returns (panic: Option<Compiled>, chain: Slice)
    requires Shows(g, t, S) && ValidSlice(outer)
    modifies g`sealed, mux
    ensures g.sealed && Shows(g, t, S) && ValidSlice(chain)
    ensures Matches(if parent != "" && t.misses then NestedMissPanic
                    else Register(mux.accepts, old(mux.table),
                                  RouteEntries(prefix, old(Elements(outer)) + t.middleware, t.routes)),
                    panic, mux.table)
    ensures panic.None? ==> Elements(chain) == old(Elements(outer)) + t.middleware
  {
    g.sealed := true;
    chain := outer;
    if parent != "" && (g.notFound.Some? || g.methodNotAllowed.Some?) {
      return Some(NestedMissPanic), chain;
    }
    chain := Extend(outer, g.middleware);
    assert g.middleware == t.middleware && g.routes == t.routes;
    var refused := RegisterRoutes(mux, prefix, chain, g.routes);
    panic := if refused then Some(PatternPanic) else None;
  }

  /** compile's loop over the children, under the group's own prefix and chain. */
  method CompileChildren(mux: Mux, ghost parent: string, ghost outer: seq<Middleware>, prefix: string, chain: Slice,
                         g: Group, ghost t: Tree, ghost S: set<Group>, ghost before: set<Group>)
    returns (panic: Option<Compiled>, ghost after: set<Group>)
    requires Shows(g, t, S) && g in before && before <= S && Sealed(before)
    requires prefix == parent + t.prefix && ValidSlice(chain) && Elements(chain) == outer + t.middleware
    modifies S`sealed, mux
    ensures Matches(CompileKids(t, 0, parent, outer, mux.accepts, old(mux.table)), panic, mux.table)
    ensures before <= after <= S && Sealed(after) && (panic.None? ==> Shows(g, t, after)) && KeepsSeals(S)
    decreases t, 1
  {
    ghost var spec := CompileKids(t, 0, parent, outer, mux.accepts, mux.table);
    after := before;
    for i := 0 to |g.groups|
      invariant Elements(chain) == outer + t.middleware && Shows(g, t, S)
      invariant spec == CompileKids(t, i, parent, outer, mux.accepts, mux.table)
      invariant before <= after <= S && Sealed(after)
      invariant KidsShow(g, t, i, after) && KeepsSeals(S)
    {
      panic, after := CompileChild(mux, parent, outer, prefix, chain, g, i, t, S, after);
      if panic.Some? {
        return;
      }
    }
    panic := None;
  }

  /** One turn of that loop. */
  method CompileChild(mux: Mux, ghost parent: string, ghost outer: seq<Middleware>, prefix: string, chain: Slice,
                      g: Group, i: nat, ghost t: Tree, ghost S: set<Group>, ghost before: set<Group>)
    returns (panic: Option<Compiled>, ghost after: set<Group>)
    requires i < |g.groups| && Shows(g, t, S) && KidsShow(g, t, i, before) && before <= S && Sealed(before)
    requires prefix == parent + t.prefix && ValidSlice(chain) && Elements(chain) == outer + t.middleware
    modifies S`sealed, mux
    ensures CompileKids(t, i, parent, outer, mux.accepts, old(mux.table))
            == if panic.None? then CompileKids(t, i + 1, parent, outer, mux.accepts, mux.table) else panic.value
    ensures panic.Some? ==> !panic.value.Done?
    ensures before <= after <= S && Sealed(after) && (panic.None? ==> KidsShow(g, t, i + 1, after)) && KeepsSeals(S)
    decreases t, 0
  {
    ghost var r := KidsUnfold(t, i, parent, outer, mux.accepts, mux.table,
                              CompileKids(t, i, parent, outer, mux.accepts, mux.table));
    panic, after := CompileGroup(mux, prefix, chain, g.groups[i], t.children[i], S, before);
    if panic.None? {
      OneMoreKidShows(g, t, i, before, after);
    }
  }

  ghost predicate KidsShow(g: Group, t: Tree, k: nat, S: set<Group>)
    reads g`groups, S`middleware, S`routes, S`groups, S`notFound, S`methodNotAllowed
  {
    |g.groups| == |t.children| && k <= |t.children| && forall i | 0 <= i < k :: Shows(g.groups[i], t.children[i], S)
  }

  lemma OneMoreKidShows(g: Group, t: Tree, k: nat, S: set<Group>, U: set<Group>)
    requires KidsShow(g, t, k, S) && S <= U && k < |t.children| && Shows(g.groups[k], t.children[k], U)
    ensures KidsShow(g, t, k + 1, U)
  {
    forall i | 0 <= i < k
      ensures Shows(g.groups[i], t.children[i], U)
    {
      ShowsInMore(g.groups[i], t.children[i], S, U);
    }
  }

  lemma KidsUnfold(t: Tree, i: nat, parent: string, outer: seq<Middleware>,
                   accepts: MuxRule, table: seq<Entry>, spec: Compiled)
    returns (r: Compiled)
    requires i < |t.children| && spec == CompileKids(t, i, parent, outer, accepts, table)
    ensures r == Compile(t.children[i], parent + t.prefix, outer + t.middleware, accepts, table)
    ensures spec == if r.Done? then CompileKids(t, i + 1, parent, outer, accepts, r.table) else r
  {
    r := Compile(t.children[i], parent + t.prefix, outer + t.middleware, accepts, table);
  }

  method RegisterRoutes(mux: Mux, prefix: string, chain: Slice, routes: seq<Route>) returns (refused: bool)
    requires ValidSlice(chain)
    modifies mux
    ensures var r := Register(mux.accepts, old(mux.table), RouteEntries(prefix, Elements(chain), routes));
            if refused then r == PatternPanic else r == Done(mux.table)
  {
    ghost var entries := RouteEntries(prefix, Elements(chain), routes);
    ghost var start := Elements(chain);
    for i := 0 to |routes|
      invariant Elements(chain) == start
      invariant Register(mux.accepts, old(mux.table), entries) == Register(mux.accepts, mux.table, entries[i..])
    {
      var rt := routes[i];
      var pattern := prefix + rt.pattern;
      if rt.method_ != "" {
        pattern := rt.method_ + " " + pattern;
      }
      var mw := Extend(chain, rt.middleware);
      var handler := BuildChain(Leaf(rt.handler), mw.backing[..mw.len]);
      assert entries[i..][0] == Entry(pattern, handler) && entries[i..][1..] == entries[i + 1..];
      refused := mux.Handle(pattern, handler);
      assert [Entry(pattern, handler)][1..] == [];
      if refused {
        return;
      }
    }
    return false;
  }

  /** NewModule: the tree's table on a fresh mux, or the panic; a compiled tree is sealed throughout. */
  method NewModule(g: Group, rule: MuxRule, ghost t: Tree, ghost S: set<Group>)
    returns (mux: Mux, panic: Option<Compiled>, ghost compiled: set<Group>)
    requires Shows(g, t, S) && forall x | x in S :: ValidPrefix(x.prefix)
    modifies S`sealed
    ensures fresh(mux)
    ensures panic.None? <==> NoNestedMiss(t) && AllAccepted(rule, [], Flatten(t, "", []))
    ensures panic.None? ==> mux.table == Flatten(t, "", []) && Shows(g, t, compiled) && Sealed(compiled)
    ensures panic.None? ==> TableNames(mux.table, t)
    ensures panic == Some(NestedMissPanic) ==> !NoNestedMiss(t)
    ensures panic == Some(PatternPanic) ==> !AllAccepted(rule, [], Flatten(t, "", []))
    ensures KeepsSeals(S)
  {
    mux := new Mux(rule);
    var none := new Middleware[0];
    PrefixesNonEmpty(g, t, S);
    CompileFlattens(t, "", [], rule, []);
    assert Elements(Slice(none, 0)) == [];
    panic, compiled := CompileGroup(mux, "", Slice(none, 0), g, t, S, {});
    assert [] + Flatten(t, "", []) == Flatten(t, "", []);
    TableIsNamed(t);
  }

  /** Entry by entry, the table is the routes of the tree, each once: under its full pattern, behind the
      middleware from root to leaf and its own, and reaching its handler. */
  ghost predicate TableNames(table: seq<Entry>, t: Tree) {
    && |table| == |Addresses(t)| && DistinctAddresses(Addresses(t))
    && (forall a :: a in Addresses(t) <==> ValidAddress(t, a))
    && forall i | 0 <= i < |table| :: NamesRoute(table[i], t, Addresses(t)[i])
  }

  ghost predicate NamesRoute(e: Entry, t: Tree, a: Address) {
    && PatternFor(t, a, e.pattern)
    && Crosses(e.handler) == NonNil(MiddlewareAlong(t, a) + RouteAt(t, a).middleware)
    && Reaches(e.handler) == RouteAt(t, a).handler
  }

  lemma TableIsNamed(t: Tree)
    ensures TableNames(Flatten(t, "", []), t)
  {
    AddressesComplete(t);
    var table := Flatten(t, "", []);
    SameLength(t, "", []);
    forall i | 0 <= i < |table|
      ensures NamesRoute(table[i], t, Addresses(t)[i])
    {
      EntryPattern(t, i);
      EntryOrder(t, i);
    }
  }

  lemma {:induction false} PrefixesNonEmpty(g: Group, t: Tree, S: set<Group>)
    requires Shows(g, t, S) && forall x | x in S :: ValidPrefix(x.prefix)
    ensures NonEmptyPrefixes(t)
    decreases t
  {
    forall i | 0 <= i < |t.children|
      ensures NonEmptyPrefixes(t.children[i])
    {
      PrefixesNonEmpty(g.groups[i], t.children[i], S);
    }
  }

  // ---------------------------------------------------------------- runs of calls

  /** A call on some group: a mutation, or a compile of the groups below it, which are the tree t. */
  datatype Call =
    | UseCall(on: Group, mw: seq<Middleware>)
    | HandleCall(on: Group, method_: string, pattern: string, handler: Endpoint, mw: seq<Middleware>)
    | HandleErrCall(on: Group, method_: string, pattern: string, fn: nat, mw: seq<Middleware>)
    | ErrorWriterCall(on: Group, ew: Option<nat>)
    | NotFoundCall(on: Group, handler_: Option<nat>)
    | NotAllowedCall(on: Group, handler_: Option<nat>)
    | MountCall(on: Group, child: Group)
    | CompileCall(on: Group, rule: MuxRule, t: Tree, below: set<Group>)

  ghost function Touched(c: Call): set<Group> {
    if c.CompileCall? then c.below else {c.on}
  }

  /** A group that was sealed is sealed, and reads as it did. */
  twostate predicate Stays(g: Group)
    reads g
  {
    old(g.sealed) ==> g.sealed && g.middleware == old(g.middleware)
                      && g.routes == old(g.routes) && g.groups == old(g.groups)
                      && g.notFound == old(g.notFound) && g.methodNotAllowed == old(g.methodNotAllowed)
  }

  method Mutate(c: Call) returns (panicked: bool)
    requires !c.CompileCall?
    modifies c.on
    ensures old(c.on.sealed) ==> panicked
    ensures c.on.sealed == old(c.on.sealed)
    ensures panicked ==> unchanged(c.on)
  {
    match c {
      case UseCall(g, mw) => panicked := g.Use(mw);
      case HandleCall(g, m, p, h, mw) => panicked := g.Handle(m, p, h, mw);
      case HandleErrCall(g, m, p, fn, mw) => panicked := g.HandleErr(m, p, fn, mw);
      case ErrorWriterCall(g, ew) => panicked := g.SetErrorWriter(ew);
      case NotFoundCall(g, h) => panicked := g.SetNotFound(h);
      case NotAllowedCall(g, h) => panicked := g.SetMethodNotAllowed(h);
      case MountCall(g, child) => panicked := g.Mount(child);
    }
  }

  /** A compile of something that is not the tree named is no call of the run. */
  method Perform(c: Call) returns (panicked: bool)
    modifies Touched(c)
    ensures !c.CompileCall? && old(c.on.sealed) ==> panicked
    ensures forall g | g in Touched(c) :: Stays(g)
  {
    if !c.CompileCall? {
      panicked := Mutate(c);
      return;
    }
    panicked := false;
    if Shows(c.on, c.t, c.below) && forall g | g in c.below :: ValidPrefix(g.prefix) {
      var mux, panic;
      ghost var compiled;
      mux, panic, compiled := NewModule(c.on, c.rule, c.t, c.below);
      panicked := panic.Some?;
    }
  }

  /** One call, seen from a sealed tree. */
  method PerformBeside(c: Call, root: Group, ghost t: Tree, ghost compiled: set<Group>) returns (panicked: bool)
    requires Shows(root, t, compiled) && Sealed(compiled)
    modifies Touched(c)
    ensures !c.CompileCall? && c.on in compiled ==> panicked
    ensures Shows(root, t, compiled) && Sealed(compiled)
  {
    panicked := Perform(c);
    forall g | g in compiled
      ensures Stays(g)
    {
      if g !in Touched(c) {
        assert unchanged(g);
      }
    }
  }

  ghost function TouchedByAll(calls: seq<Call>): set<Group> {
    set c, g | c in calls && g in Touched(c) :: g
  }

  /** After NewModule, whatever calls follow and on whatever groups, further compiles of trees that
      share groups with this one included, the sealed tree stays the tree that was compiled, so the
      compiled table stays its flattening; each mutation of it is refused. */
  method PerformAll(calls: seq<Call>, root: Group, ghost t: Tree, ghost compiled: set<Group>)
    returns (panicked: seq<bool>)
    requires Shows(root, t, compiled) && Sealed(compiled)
    modifies TouchedByAll(calls)
    ensures |panicked| == |calls|
    ensures forall i | 0 <= i < |calls| && !calls[i].CompileCall? && calls[i].on in compiled :: panicked[i]
    ensures Shows(root, t, compiled) && Sealed(compiled)
  {
    panicked := [];
    for i := 0 to |calls|
      invariant |panicked| == i
      invariant forall j | 0 <= j < i && !calls[j].CompileCall? && calls[j].on in compiled :: panicked[j]
      invariant Shows(root, t, compiled) && Sealed(compiled)
    {
      assert calls[i] in calls;
      var p := PerformBeside(calls[i], root, t, compiled);
      panicked := panicked + [p];
    }
  }
}
