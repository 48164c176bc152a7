/** Groups of routes, the chains around them, and the table a tree of groups compiles to. */
module Groups {
  import opened Options

  // ---------------------------------------------------------------- Chain

  /** A middleware value, nil or not; what it does to a handler is opaque. */
  type Middleware = Option<nat>

  /** What a route may be declared with: a handler, or an error-returning one adapted by Handle with
      an error writer. */
  datatype Endpoint = Plain(id: nat) | Adapted(id: nat, writer: nat)

  datatype Handler = Leaf(endpoint: Endpoint) | Wrapped(layer: nat, inner: Handler)

  function Chain(h: Handler, ms: seq<Middleware>): Handler {
    if ms == [] then h
    else if ms[0].None? then Chain(h, ms[1..])
    else Wrapped(ms[0].value, Chain(h, ms[1..]))
  }

  /** Chain's backward loop. */
  method BuildChain(h: Handler, ms: seq<Middleware>) returns (handler: Handler)
    ensures handler == Chain(h, ms)
  {
    handler := h;
    var i := |ms|;
    while i > 0
      invariant 0 <= i <= |ms|
      invariant handler == Chain(h, ms[i..])
    {
      i := i - 1;
      assert ms[i..][0] == ms[i] && ms[i..][1..] == ms[i + 1..];
      if ms[i].None? {
        continue;
      }
      handler := Wrapped(ms[i].value, handler);
    }
  }

  /** The layers a request crosses, in order, and the endpoint it reaches. */
  function Crosses(h: Handler): seq<nat> {
    match h case Leaf(_) => [] case Wrapped(layer, inner) => [layer] + Crosses(inner)
  }

  function Reaches(h: Handler): Endpoint {
    match h case Leaf(e) => e case Wrapped(_, inner) => Reaches(inner)
  }

  function NonNil(ms: seq<Middleware>): seq<nat> {
    if ms == [] then [] else if ms[0].None? then NonNil(ms[1..]) else [ms[0].value] + NonNil(ms[1..])
  }

  /** Nil entries vanish, and the first argument sees the request first. */
  lemma {:induction false} ChainOrder(h: Handler, ms: seq<Middleware>)
    ensures Crosses(Chain(h, ms)) == NonNil(ms) + Crosses(h)
    ensures Reaches(Chain(h, ms)) == Reaches(h)
  {
    if ms != [] {
      ChainOrder(h, ms[1..]);
    }
  }

  lemma {:induction false} NonNilConcat(a: seq<Middleware>, b: seq<Middleware>)
    ensures NonNil(a + b) == NonNil(a) + NonNil(b)
  {
    if a == [] {
      assert a + b == b;
    } else {
      assert (a + b)[1..] == a[1..] + b;
      NonNilConcat(a[1..], b);
    }
  }

  /** Chaining a concatenation is chaining the outer part around the inner. */
  lemma {:induction false} ChainConcat(h: Handler, a: seq<Middleware>, b: seq<Middleware>)
    ensures Chain(h, a + b) == Chain(Chain(h, b), a)
  {
    if a == [] {
      assert a + b == b;
    } else {
      assert (a + b)[1..] == a[1..] + b;
      ChainConcat(h, a[1..], b);
    }
  }

  // ---------------------------------------------------------------- slices

  /** A Go slice of middleware: a window of a backing array that other slices may share. */
  datatype Slice = Slice(backing: array<Middleware>, len: nat)

  ghost predicate ValidSlice(s: Slice) {
    s.len <= s.backing.Length
  }

  ghost function Elements(s: Slice): seq<Middleware>
    requires ValidSlice(s)
    reads s.backing
  {
    s.backing[..s.len]
  }

  /** copy, into storage that has the room. */
  method CopyInto(into: array<Middleware>, at: nat, more: seq<Middleware>)
    requires at + |more| <= into.Length
    modifies into
    ensures into[..at] == old(into[..at]) && into[at..at + |more|] == more
  {
    for i := 0 to |more|
      invariant into[..at] == old(into[..at])
      invariant forall k | 0 <= k < i :: into[at + k] == more[k]
    {
      into[at + i] := more[i];
    }
  }

  /** Fresh storage that starts with what s holds. */
  method Grown(s: Slice, capacity: nat) returns (into: array<Middleware>)
    requires ValidSlice(s) && s.len <= capacity
    ensures fresh(into) && into.Length == capacity && into[..s.len] == Elements(s)
  {
    into := new Middleware[capacity]
      (i requires 0 <= i < capacity reads s.backing => if i < s.len then s.backing[i] else None);
  }

  /** append: in place while the capacity lasts, and into fresh storage past it. */
  method Append(s: Slice, more: seq<Middleware>) returns (t: Slice)
    requires ValidSlice(s)
    modifies s.backing
    ensures ValidSlice(t) && Elements(t) == old(Elements(s)) + more
    ensures t.backing == s.backing || fresh(t.backing)
    ensures s.len + |more| > s.backing.Length ==> fresh(t.backing) && s.backing[..] == old(s.backing[..])
    ensures s.backing[..s.len] == old(s.backing[..s.len])
  {
    var n := s.len + |more|;
    var into := s.backing;
    if n > s.backing.Length {
      into := Grown(s, 2 * n);
    }
    CopyInto(into, s.len, more);
    t := Slice(into, n);
    assert into[..n] == into[..s.len] + into[s.len..n];
  }

  /** compile's append(append([]Middleware{}, outer...), own...): storage of its own every time, so
      nothing that existed is written and no two chains built from one outer chain share storage. */
  method Extend(outer: Slice, own: seq<Middleware>) returns (chain: Slice)
    requires ValidSlice(outer)
    ensures ValidSlice(chain) && Elements(chain) == Elements(outer) + own && fresh(chain.backing)
  {
    var none := new Middleware[0];
    var empty := Slice(none, 0);
    var copied := Append(empty, outer.backing[..outer.len]);
    assert Elements(copied) == Elements(outer);
    chain := Append(copied, own);
  }

  // ---------------------------------------------------------------- the tree and its table

  datatype Route = Route(method_: string, pattern: string, handler: Endpoint, middleware: seq<Middleware>)

  /** A tree of groups as compile reads it; misses says that the group carries a miss handler. */
  datatype Tree = Node(prefix: string, middleware: seq<Middleware>, routes: seq<Route>, misses: bool,
                       children: seq<Tree>)

  /** A registration on the mux. */
  datatype Entry = Entry(pattern: string, handler: Handler)

  function RouteEntry(prefix: string, chain: seq<Middleware>, r: Route): Entry {
    Entry(if r.method_ != "" then r.method_ + " " + (prefix + r.pattern) else prefix + r.pattern,
          Chain(Leaf(r.handler), chain + r.middleware))
  }

  function RouteEntries(prefix: string, chain: seq<Middleware>, rs: seq<Route>): (es: seq<Entry>)
    ensures |es| == |rs|
  {
    seq(|rs|, i requires 0 <= i < |rs| => RouteEntry(prefix, chain, rs[i]))
  }

  /** The table: a group's routes, then its children's, under the prefixes and chains above. */
  function Flatten(t: Tree, parent: string, outer: seq<Middleware>): seq<Entry>
    decreases t, |t.children| + 1
  {
    RouteEntries(parent + t.prefix, outer + t.middleware, t.routes) + FlattenKids(t, 0, parent, outer)
  }

  function FlattenKids(t: Tree, k: nat, parent: string, outer: seq<Middleware>): seq<Entry>
    requires k <= |t.children|
    decreases t, |t.children| - k
  {
    if k == |t.children| then []
    else Flatten(t.children[k], parent + t.prefix, outer + t.middleware) + FlattenKids(t, k + 1, parent, outer)
  }

  /** No group below the root carries a miss handler. */
  predicate NoNestedMiss(t: Tree)
    decreases t, |t.children| + 1
  {
    NoMissBelow(t, 0)
  }

  predicate NoMissBelow(t: Tree, k: nat)
    requires k <= |t.children|
    decreases t, |t.children| - k
  {
    k == |t.children| || (!t.children[k].misses && NoNestedMiss(t.children[k]) && NoMissBelow(t, k + 1))
  }

  predicate NonEmptyPrefixes(t: Tree) {
    t.prefix != "" && forall c | c in t.children :: NonEmptyPrefixes(c)
  }

  /** Whether a mux holding some entries takes one more pattern, the standard library's matter: any
      rule at all. */
  type MuxRule = (seq<Entry>, string) -> bool

  predicate AllAccepted(accepts: MuxRule, table: seq<Entry>, es: seq<Entry>)
    decreases |es|
  {
    es == [] || (accepts(table, es[0].pattern) && AllAccepted(accepts, table + [es[0]], es[1..]))
  }

  /** The mux takes the entries in turn, each on what it then holds. */
  lemma {:induction false} AcceptedInTurn(accepts: MuxRule, table: seq<Entry>, es: seq<Entry>)
    ensures AllAccepted(accepts, table, es) <==> forall i | 0 <= i < |es| :: accepts(table + es[..i], es[i].pattern)
    decreases |es|
  {
    if es != [] {
      var next := table + [es[0]];
      AcceptedInTurn(accepts, next, es[1..]);
      assert table + es[..0] == table;
      forall i | 0 < i < |es|
        ensures table + es[..i] == next + es[1..][..i - 1] && es[i] == es[1..][i - 1]
      {}
      assert forall j | 0 <= j < |es| - 1 :: next + es[1..][..j] == table + es[..j + 1] && es[1..][j] == es[j + 1];
    }
  }

  predicate ValidPath(t: Tree, path: seq<nat>)
    decreases |path|
  {
    path == [] || (path[0] < |t.children| && ValidPath(t.children[path[0]], path[1..]))
  }

  /** The group these child indices lead to. */
  function GroupAt(t: Tree, path: seq<nat>): Tree
    requires ValidPath(t, path)
    decreases |path|
  {
    if path == [] then t else GroupAt(t.children[path[0]], path[1..])
  }

  /** Every group that a path through a child from k on leads to is without a miss handler. */
  ghost predicate CleanFrom(t: Tree, k: nat) {
    forall path: seq<nat> | path != [] && path[0] >= k && ValidPath(t, path) :: !GroupAt(t, path).misses
  }

  /** A miss handler is nested exactly when some group other than the root carries one. */
  lemma {:induction false} NestedMissIff(t: Tree)
    ensures NoNestedMiss(t) <==> CleanFrom(t, 0)
    decreases t, |t.children| + 1
  {
    MissBelowIff(t, 0);
  }

  lemma ThroughChild(t: Tree, k: nat, path: seq<nat>)
    requires k < |t.children| && ValidPath(t.children[k], path)
    ensures ValidPath(t, [k] + path) && GroupAt(t, [k] + path) == GroupAt(t.children[k], path)
  {
    assert ([k] + path)[1..] == path;
  }

  lemma CleanStep(t: Tree, k: nat)
    requires k < |t.children|
    ensures CleanFrom(t, k) <==> !t.children[k].misses && CleanFrom(t.children[k], 0) && CleanFrom(t, k + 1)
  {
    var c := t.children[k];
    if CleanFrom(t, k) {
      ThroughChild(t, k, []);
      assert !GroupAt(t, [k] + []).misses;
      forall path: seq<nat> | path != [] && ValidPath(c, path)
        ensures !GroupAt(c, path).misses
      {
        ThroughChild(t, k, path);
        assert !GroupAt(t, [k] + path).misses;
      }
    }
    if !c.misses && CleanFrom(c, 0) && CleanFrom(t, k + 1) {
      forall path: seq<nat> | path != [] && path[0] >= k && ValidPath(t, path)
        ensures !GroupAt(t, path).misses
      {
        if path[0] == k {
          assert GroupAt(t, path) == GroupAt(c, path[1..]);
        }
      }
    }
  }

  lemma {:induction false} MissBelowIff(t: Tree, k: nat)
    requires k <= |t.children|
    ensures NoMissBelow(t, k) <==> CleanFrom(t, k)
    decreases t, |t.children| - k
  {
    if k < |t.children| {
      CleanStep(t, k);
      NestedMissIff(t.children[k]);
      MissBelowIff(t, k + 1);
    }
  }

  datatype Compiled = Done(table: seq<Entry>) | PatternPanic | NestedMissPanic

  function Register(accepts: MuxRule, table: seq<Entry>, es: seq<Entry>): Compiled
    decreases |es|
  {
    if es == [] then Done(table)
    else if !accepts(table, es[0].pattern) then PatternPanic
    else Register(accepts, table + [es[0]], es[1..])
  }

  function Compile(t: Tree, parent: string, outer: seq<Middleware>, accepts: MuxRule, table: seq<Entry>): Compiled
    decreases t, |t.children| + 1
  {
    if parent != "" && t.misses then NestedMissPanic
    else
      var r := Register(accepts, table, RouteEntries(parent + t.prefix, outer + t.middleware, t.routes));
      if r.Done? then CompileKids(t, 0, parent, outer, accepts, r.table) else r
  }

  function CompileKids(t: Tree, k: nat, parent: string, outer: seq<Middleware>,
                       accepts: MuxRule, table: seq<Entry>): Compiled
    requires k <= |t.children|
    decreases t, |t.children| - k
  {
    if k == |t.children| then Done(table)
    else
      var r := Compile(t.children[k], parent + t.prefix, outer + t.middleware, accepts, table);
      if r.Done? then CompileKids(t, k + 1, parent, outer, accepts, r.table) else r
  }

  lemma {:induction false} RegisterAppends(accepts: MuxRule, table: seq<Entry>, es: seq<Entry>)
    ensures Register(accepts, table, es) == if AllAccepted(accepts, table, es) then Done(table + es) else PatternPanic
    decreases |es|
  {
    if es == [] {
      assert table + es == table;
    } else {
      assert table + es == table + [es[0]] + es[1..];
      RegisterAppends(accepts, table + [es[0]], es[1..]);
    }
  }

  lemma {:induction false} AcceptedConcat(accepts: MuxRule, table: seq<Entry>, a: seq<Entry>, b: seq<Entry>)
    ensures AllAccepted(accepts, table, a + b) <==> AllAccepted(accepts, table, a) && AllAccepted(accepts, table + a, b)
    decreases |a|
  {
    if a == [] {
      assert a + b == b && table + a == table;
    } else {
      assert (a + b)[1..] == a[1..] + b && table + a == table + [a[0]] + a[1..];
      AcceptedConcat(accepts, table + [a[0]], a[1..], b);
    }
  }

  /** r is what registering es on a mux holding table comes to: it is done exactly when the tree part
      is clean and the mux takes every entry in turn, and then the table has gained exactly es; and each
      panic is for its own fault. */
  ghost predicate CompilesTo(r: Compiled, clean: bool, accepts: MuxRule, table: seq<Entry>, es: seq<Entry>) {
    && (r.Done? <==> clean && AllAccepted(accepts, table, es))
    && (r.Done? ==> r.table == table + es)
    && (r.NestedMissPanic? ==> !clean)
    && (r.PatternPanic? ==> !AllAccepted(accepts, table, es))
  }

  lemma CompilesInTurn(r1: Compiled, clean1: bool, es1: seq<Entry>, r2: Compiled, clean2: bool, es2: seq<Entry>,
                       accepts: MuxRule, table: seq<Entry>)
    requires CompilesTo(r1, clean1, accepts, table, es1)
    requires r1.Done? ==> CompilesTo(r2, clean2, accepts, r1.table, es2)
    ensures CompilesTo(if r1.Done? then r2 else r1, clean1 && clean2, accepts, table, es1 + es2)
  {
    AcceptedConcat(accepts, table, es1, es2);
    assert table + es1 + es2 == table + (es1 + es2);
  }

  /** Compiling a tree succeeds exactly when no nested group carries a miss handler and the mux takes
      the flattened entries in turn, and then it adds exactly those entries. */
  lemma {:induction false} CompileFlattens(t: Tree, parent: string, outer: seq<Middleware>,
                                        accepts: MuxRule, table: seq<Entry>)
    requires NonEmptyPrefixes(t)
    ensures CompilesTo(Compile(t, parent, outer, accepts, table), (parent != "" ==> !t.misses) && NoNestedMiss(t),
                       accepts, table, Flatten(t, parent, outer))
    decreases t, |t.children| + 1
  {
    if parent == "" || !t.misses {
      var own := RouteEntries(parent + t.prefix, outer + t.middleware, t.routes);
      RegisterAppends(accepts, table, own);
      var r := Register(accepts, table, own);
      if r.Done? {
        KidsFlatten(t, 0, parent, outer, accepts, r.table);
        CompilesInTurn(r, true, own, CompileKids(t, 0, parent, outer, accepts, r.table), NoNestedMiss(t),
                       FlattenKids(t, 0, parent, outer), accepts, table);
      } else {
        CompilesInTurn(r, true, own, r, NoNestedMiss(t), FlattenKids(t, 0, parent, outer), accepts, table);
      }
    }
  }

  lemma {:induction false} KidsFlatten(t: Tree, k: nat, parent: string, outer: seq<Middleware>,
                                    accepts: MuxRule, table: seq<Entry>)
    requires NonEmptyPrefixes(t) && k <= |t.children|
    ensures CompilesTo(CompileKids(t, k, parent, outer, accepts, table), NoMissBelow(t, k),
                       accepts, table, FlattenKids(t, k, parent, outer))
    decreases t, |t.children| - k
  {
    if k == |t.children| {
      assert table + [] == table;
    } else {
      var here, chain, c := parent + t.prefix, outer + t.middleware, t.children[k];
      assert here != "";
      CompileFlattens(c, here, chain, accepts, table);
      var r := Compile(c, here, chain, accepts, table);
      var clean, es := !c.misses && NoNestedMiss(c), Flatten(c, here, chain);
      if r.Done? {
        KidsFlatten(t, k + 1, parent, outer, accepts, r.table);
        CompilesInTurn(r, clean, es, CompileKids(t, k + 1, parent, outer, accepts, r.table), NoMissBelow(t, k + 1),
                       FlattenKids(t, k + 1, parent, outer), accepts, table);
      } else {
        CompilesInTurn(r, clean, es, r, NoMissBelow(t, k + 1), FlattenKids(t, k + 1, parent, outer), accepts, table);
      }
    }
  }

  // ---------------------------------------------------------------- one entry per route

  /** A route of a tree: the child indices down to its group, and its index there. */
  datatype Address = Address(path: seq<nat>, route: nat)

  predicate ValidAddress(t: Tree, a: Address)
    decreases |a.path|
  {
    if a.path == [] then a.route < |t.routes|
    else a.path[0] < |t.children| && ValidAddress(t.children[a.path[0]], Address(a.path[1..], a.route))
  }

  function RouteAt(t: Tree, a: Address): Route
    requires ValidAddress(t, a)
    decreases |a.path|
  {
    if a.path == [] then t.routes[a.route] else RouteAt(t.children[a.path[0]], Address(a.path[1..], a.route))
  }

  /** The prefixes of the groups from the root down to the route's, joined. */
  function PrefixAlong(t: Tree, a: Address): string
    requires ValidAddress(t, a)
    decreases |a.path|
  {
    t.prefix + if a.path == [] then "" else PrefixAlong(t.children[a.path[0]], Address(a.path[1..], a.route))
  }

  /** The middleware of the groups from the root down to the route's, in order. */
  function MiddlewareAlong(t: Tree, a: Address): seq<Middleware>
    requires ValidAddress(t, a)
    decreases |a.path|
  {
    t.middleware + if a.path == [] then [] else MiddlewareAlong(t.children[a.path[0]], Address(a.path[1..], a.route))
  }

  function Under(k: nat, places: seq<Address>): (r: seq<Address>)
    ensures |r| == |places|
  {
    seq(|places|, i requires 0 <= i < |places| => Address([k] + places[i].path, places[i].route))
  }

  function OwnAddresses(n: nat): seq<Address> {
    seq(n, i requires 0 <= i < n => Address([], i))
  }

  /** Every route of the tree, in the order compile registers them. */
  function Addresses(t: Tree): seq<Address>
    decreases t, |t.children| + 1
  {
    OwnAddresses(|t.routes|) + AddressesOfKids(t, 0)
  }

  function AddressesOfKids(t: Tree, k: nat): seq<Address>
    requires k <= |t.children|
    decreases t, |t.children| - k
  {
    if k == |t.children| then [] else Under(k, Addresses(t.children[k])) + AddressesOfKids(t, k + 1)
  }

  ghost predicate DistinctAddresses(places: seq<Address>) {
    forall i, j | 0 <= i < j < |places| :: places[i] != places[j]
  }

  /** The address list names every route of the tree exactly once. */
  lemma {:induction false} AddressesComplete(t: Tree)
    ensures DistinctAddresses(Addresses(t))
    ensures forall a :: a in Addresses(t) <==> ValidAddress(t, a)
    decreases t, |t.children| + 1
  {
    KidAddressesComplete(t, 0);
    var own := OwnAddresses(|t.routes|);
    forall a
      ensures a in Addresses(t) <==> ValidAddress(t, a)
    {
      if a.path == [] && a.route < |t.routes| {
        assert own[a.route] == a;
      }
    }
  }

  lemma {:induction false} KidAddressesComplete(t: Tree, k: nat)
    requires k <= |t.children|
    ensures DistinctAddresses(AddressesOfKids(t, k))
    ensures forall a :: a in AddressesOfKids(t, k) <==> a.path != [] && a.path[0] >= k && ValidAddress(t, a)
    decreases t, |t.children| - k
  {
    if k < |t.children| {
      var kid := Addresses(t.children[k]);
      AddressesComplete(t.children[k]);
      KidAddressesComplete(t, k + 1);
      UnderMembers(k, kid);
    }
  }

  lemma UnderMembers(k: nat, places: seq<Address>)
    requires DistinctAddresses(places)
    ensures DistinctAddresses(Under(k, places))
    ensures forall a: Address :: a in Under(k, places) <==>
              a.path != [] && a.path[0] == k && Address(a.path[1..], a.route) in places
  {
    forall i | 0 <= i < |places|
      ensures var a := Under(k, places)[i]; a.path != [] && a.path[0] == k && Address(a.path[1..], a.route) == places[i]
    {
      assert ([k] + places[i].path)[1..] == places[i].path;
    }
    forall a: Address | a.path != [] && a.path[0] == k && Address(a.path[1..], a.route) in places
      ensures a in Under(k, places)
    {
      var i :| 0 <= i < |places| && places[i] == Address(a.path[1..], a.route);
      assert a.path == [k] + a.path[1..];
      assert Under(k, places)[i] == a;
    }
  }

  /** e is the route that a names: its pattern under the joined prefixes, its handler behind the
      middleware from root to leaf and then the route's own. */
  predicate EntryAt(t: Tree, parent: string, outer: seq<Middleware>, a: Address, e: Entry) {
    ValidAddress(t, a) && e == RouteEntry(parent + PrefixAlong(t, a), outer + MiddlewareAlong(t, a), RouteAt(t, a))
  }

  lemma Parts<T>(whole: seq<T>, a: seq<T>, b: seq<T>, i: nat)
    requires whole == a + b && i < |whole|
    ensures |whole| == |a| + |b| && whole[i] == if i < |a| then a[i] else b[i - |a|]
  {}

  /** Entry i of the table is the route the i-th address names. */
  lemma {:induction false} FlattenByAddress(t: Tree, parent: string, outer: seq<Middleware>, i: nat)
    requires i < |Flatten(t, parent, outer)|
    ensures |Flatten(t, parent, outer)| == |Addresses(t)|
    ensures EntryAt(t, parent, outer, Addresses(t)[i], Flatten(t, parent, outer)[i])
    decreases t, |t.children| + 1
  {
    SameLength(t, parent, outer);
    if i < |t.routes| {
      OwnByAddress(t, parent, outer, i);
    } else {
      PastOwn(t, parent, outer, i);
      KidsByAddress(t, 0, parent, outer, i - |t.routes|);
    }
  }

  lemma PastOwn(t: Tree, parent: string, outer: seq<Middleware>, i: nat)
    requires |t.routes| <= i < |Flatten(t, parent, outer)|
    ensures |Flatten(t, parent, outer)| == |t.routes| + |FlattenKids(t, 0, parent, outer)|
    ensures |Addresses(t)| == |t.routes| + |AddressesOfKids(t, 0)| == |Flatten(t, parent, outer)|
    ensures Flatten(t, parent, outer)[i] == FlattenKids(t, 0, parent, outer)[i - |t.routes|]
    ensures Addresses(t)[i] == AddressesOfKids(t, 0)[i - |t.routes|]
  {
    SameLengthKids(t, 0, parent, outer);
    var own := RouteEntries(parent + t.prefix, outer + t.middleware, t.routes);
    Parts(Addresses(t), OwnAddresses(|t.routes|), AddressesOfKids(t, 0), i);
    Parts(Flatten(t, parent, outer), own, FlattenKids(t, 0, parent, outer), i);
  }

  lemma OwnByAddress(t: Tree, parent: string, outer: seq<Middleware>, i: nat)
    requires i < |t.routes|
    ensures Addresses(t)[i] == Address([], i)
    ensures EntryAt(t, parent, outer, Address([], i), Flatten(t, parent, outer)[i])
  {
    assert t.prefix + "" == t.prefix && t.middleware + [] == t.middleware;
  }

  lemma {:induction false} KidsByAddress(t: Tree, k: nat, parent: string, outer: seq<Middleware>, i: nat)
    requires k <= |t.children| && i < |FlattenKids(t, k, parent, outer)|
    ensures |FlattenKids(t, k, parent, outer)| == |AddressesOfKids(t, k)|
    ensures EntryAt(t, parent, outer, AddressesOfKids(t, k)[i], FlattenKids(t, k, parent, outer)[i])
    decreases t, |t.children| - k
  {
    var c, here, chain := t.children[k], parent + t.prefix, outer + t.middleware;
    var n := |Flatten(c, here, chain)|;
    KidCounts(t, k, parent, outer);
    KidAddress(t, k, i);
    KidEntry(t, k, parent, outer, i);
    if i < n {
      FlattenByAddress(c, here, chain, i);
      ThroughKid(t, k, parent, outer, Addresses(c)[i]);
    } else {
      KidsByAddress(t, k + 1, parent, outer, i - n);
    }
  }

  /** One child's addresses, and the later ones'. */
  lemma KidAddress(t: Tree, k: nat, i: nat)
    requires k < |t.children| && i < |AddressesOfKids(t, k)|
    ensures var kid, later := Addresses(t.children[k]), AddressesOfKids(t, k + 1);
            && |AddressesOfKids(t, k)| == |kid| + |later|
            && AddressesOfKids(t, k)[i] ==
                  if i < |kid| then Address([k] + kid[i].path, kid[i].route) else later[i - |kid|]
  {
    var kid := Under(k, Addresses(t.children[k]));
    Parts(AddressesOfKids(t, k), kid, AddressesOfKids(t, k + 1), i);
  }

  lemma KidEntry(t: Tree, k: nat, parent: string, outer: seq<Middleware>, i: nat)
    requires k < |t.children| && i < |FlattenKids(t, k, parent, outer)|
    ensures var kid := Flatten(t.children[k], parent + t.prefix, outer + t.middleware);
            var later := FlattenKids(t, k + 1, parent, outer);
            && |FlattenKids(t, k, parent, outer)| == |kid| + |later|
            && FlattenKids(t, k, parent, outer)[i] == if i < |kid| then kid[i] else later[i - |kid|]
  {
    var kid := Flatten(t.children[k], parent + t.prefix, outer + t.middleware);
    Parts(FlattenKids(t, k, parent, outer), kid, FlattenKids(t, k + 1, parent, outer), i);
  }

  lemma KidCounts(t: Tree, k: nat, parent: string, outer: seq<Middleware>)
    requires k < |t.children|
    ensures |AddressesOfKids(t, k)| == |FlattenKids(t, k, parent, outer)|
    ensures |AddressesOfKids(t, k + 1)| == |FlattenKids(t, k + 1, parent, outer)|
    ensures |Addresses(t.children[k])| == |Flatten(t.children[k], parent + t.prefix, outer + t.middleware)|
  {
    SameLengthKids(t, k, parent, outer);
    SameLength(t.children[k], parent + t.prefix, outer + t.middleware);
    SameLengthKids(t, k + 1, parent, outer);
  }

  /** Seen from the parent, a child's route has the parent's prefix and middleware in front. */
  lemma ThroughKid(t: Tree, k: nat, parent: string, outer: seq<Middleware>, b: Address)
    requires k < |t.children| && ValidAddress(t.children[k], b)
    ensures var a, c := Address([k] + b.path, b.route), t.children[k];
            && ValidAddress(t, a) && RouteAt(t, a) == RouteAt(c, b)
            && parent + PrefixAlong(t, a) == parent + t.prefix + PrefixAlong(c, b)
            && outer + MiddlewareAlong(t, a) == outer + t.middleware + MiddlewareAlong(c, b)
  {
    var a := Address([k] + b.path, b.route);
    assert a.path[1..] == b.path && Address(a.path[1..], a.route) == b;
  }

  lemma {:induction false} SameLength(t: Tree, parent: string, outer: seq<Middleware>)
    ensures |Flatten(t, parent, outer)| == |Addresses(t)|
    decreases t, |t.children| + 1
  {
    SameLengthKids(t, 0, parent, outer);
  }

  lemma {:induction false} SameLengthKids(t: Tree, k: nat, parent: string, outer: seq<Middleware>)
    requires k <= |t.children|
    ensures |FlattenKids(t, k, parent, outer)| == |AddressesOfKids(t, k)|
    decreases t, |t.children| - k
  {
    if k < |t.children| {
      SameLength(t.children[k], parent + t.prefix, outer + t.middleware);
      SameLengthKids(t, k + 1, parent, outer);
    }
  }

  /** The pattern of a route of the tree: its method and a blank, if it has one, then every prefix from
      the root down, then its own pattern. */
  ghost predicate PatternFor(t: Tree, a: Address, pattern: string) {
    && ValidAddress(t, a)
    && var r := RouteAt(t, a);
       pattern == (if r.method_ == "" then "" else r.method_ + " ") + PrefixAlong(t, a) + r.pattern
  }

  lemma EntryPattern(t: Tree, i: nat)
    requires i < |Flatten(t, "", [])|
    ensures |Flatten(t, "", [])| == |Addresses(t)| && PatternFor(t, Addresses(t)[i], Flatten(t, "", [])[i].pattern)
  {
    FlattenByAddress(t, "", [], i);
    var a := Addresses(t)[i];
    assert "" + PrefixAlong(t, a) == PrefixAlong(t, a);
    Associate(RouteAt(t, a).method_ + " ", PrefixAlong(t, a), RouteAt(t, a).pattern);
    Associate("", PrefixAlong(t, a), RouteAt(t, a).pattern);
  }

  lemma Associate(a: string, b: string, c: string)
    ensures a + (b + c) == a + b + c && (a == "" ==> a + (b + c) == b + c)
  {}

  /** What a request to the i-th entry crosses: the chain from root to leaf, the route's own
      middleware, and then the route's handler. */
  lemma EntryOrder(t: Tree, i: nat)
    requires i < |Flatten(t, "", [])|
    ensures |Flatten(t, "", [])| == |Addresses(t)| && ValidAddress(t, Addresses(t)[i])
    ensures var a, h := Addresses(t)[i], Flatten(t, "", [])[i].handler;
            && Crosses(h) == NonNil(MiddlewareAlong(t, a) + RouteAt(t, a).middleware)
            && Reaches(h) == RouteAt(t, a).handler
  {
    FlattenByAddress(t, "", [], i);
    var a := Addresses(t)[i];
    assert [] + MiddlewareAlong(t, a) == MiddlewareAlong(t, a);
    var ms := MiddlewareAlong(t, a) + RouteAt(t, a).middleware;
    ChainOrder(Leaf(RouteAt(t, a).handler), ms);
    assert NonNil(ms) + [] == NonNil(ms);
  }
}
