/** Router: modules mounted at path prefixes, dispatched by the longest match on segment boundaries. */
module Routing {
  import opened Options
  import opened Text
  import Groups

  /** A mounted module; its handler is opaque here. */
  datatype Module = Module(prefix: string, handler: nat)

  predicate Matches(path: string, prefix: string) {
    prefix <= path && (|path| == |prefix| || path[|prefix|] == '/')
  }

  function Segments(path: string): seq<string> {
    Split(path, '/')
  }

  lemma SplitFirst(s: string, i: nat)
    requires i < |s| && s[i] == '/' && forall k | 0 <= k < i :: s[k] != '/'
    ensures Segments(s) == [s[..i]] + Segments(s[i + 1..])
  {
    IndexOfFirst(s[..i], '/', s[i + 1..]);
    assert s == s[..i] + ['/'] + s[i + 1..];
  }

  lemma MatchesWhole(path: string, prefix: string, j: nat)
    requires '/' !in prefix
    requires j < |path| && path[j] == '/' && forall k | 0 <= k < j :: path[k] != '/'
    ensures Matches(path, prefix) <==> prefix == path[..j]
  {
    assert forall k | 0 <= k < |prefix| :: prefix[k] in prefix;
    assert prefix <= path ==> forall k | 0 <= k < |prefix| :: path[k] == prefix[k];
  }

  lemma MatchesStep(path: string, prefix: string, i: nat, j: nat)
    requires i < |prefix| && prefix[i] == '/' && forall k | 0 <= k < i :: prefix[k] != '/'
    requires j < |path| && path[j] == '/' && forall k | 0 <= k < j :: path[k] != '/'
    ensures Matches(path, prefix) <==> path[..j] == prefix[..i] && Matches(path[j + 1..], prefix[i + 1..])
  {
    if prefix <= path {
      assert forall k | 0 <= k < |prefix| :: path[k] == prefix[k];
      assert i == j;
      assert path[..i] == prefix[..i];
      assert path[j + 1..][..|prefix| - i - 1] == prefix[i + 1..];
    }
    if path[..j] == prefix[..i] && prefix[i + 1..] <= path[j + 1..] {
      assert i == j;
      assert prefix == prefix[..i] + ['/'] + prefix[i + 1..];
      assert path == path[..j] + ['/'] + path[j + 1..];
    }
  }

  lemma PrefixMembers(prefix: string, path: string, c: char)
    ensures prefix <= path && c in prefix ==> c in path
  {}

  /** matches, on characters, is list-prefix on the '/'-separated segments, for all strings. */
  lemma {:induction false} MatchesIsSegmentPrefix(path: string, prefix: string)
    ensures Matches(path, prefix) <==> Segments(prefix) <= Segments(path)
    decreases |prefix|
  {
    var i, j := IndexOf(prefix, '/'), IndexOf(path, '/');
    if i < 0 && j < 0 {
      assert Matches(path, prefix) <==> prefix == path;
      PrefixCons(prefix, [], path, []);
    } else if i < 0 {
      SplitFirst(path, j);
      MatchesWhole(path, prefix, j);
      PrefixCons(prefix, [], path[..j], Segments(path[j + 1..]));
    } else if j < 0 {
      SplitFirst(prefix, i);
      PrefixMembers(prefix, path, '/');
    } else {
      SplitFirst(prefix, i);
      SplitFirst(path, j);
      MatchesStep(path, prefix, i, j);
      MatchesIsSegmentPrefix(path[j + 1..], prefix[i + 1..]);
      PrefixCons(prefix[..i], Segments(prefix[i + 1..]), path[..j], Segments(path[j + 1..]));
    }
  }

  lemma PrefixCons(a: string, s: seq<string>, b: string, t: seq<string>)
    ensures [a] + s <= [b] + t <==> a == b && s <= t
  {
    if [a] + s <= [b] + t {
      assert ([a] + s)[0] == ([b] + t)[0];
      assert ([a] + s)[1..] == s && ([b] + t)[1..] == t;
    }
  }

  // ---------------------------------------------------------------- the mounted set

  predicate LongestFirst(ms: seq<Module>) {
    forall i, j | 0 <= i < j < |ms| :: |ms[i].prefix| >= |ms[j].prefix|
  }

  predicate DistinctPrefixes(ms: seq<Module>) {
    forall i, j | 0 <= i < j < |ms| :: ms[i].prefix != ms[j].prefix
  }

  function FirstMatch(ms: seq<Module>, path: string): Option<Module> {
    if ms == [] then None else if Matches(path, ms[0].prefix) then Some(ms[0]) else FirstMatch(ms[1..], path)
  }

  /** m owns path: its segments are the longest list-prefix of the path's among the modules. */
  ghost predicate Owns(ms: seq<Module>, path: string, m: Module) {
    && m in ms && Segments(m.prefix) <= Segments(path)
    && forall other | other in ms && Segments(other.prefix) <= Segments(path) && other != m ::
         |Segments(other.prefix)| < |Segments(m.prefix)|
  }

  /** Where the first match is: nothing before it matches. */
  lemma {:induction false} FirstMatchAt(ms: seq<Module>, path: string) returns (i: nat)
    requires FirstMatch(ms, path).Some?
    ensures i < |ms| && FirstMatch(ms, path).value == ms[i] && Matches(path, ms[i].prefix)
    ensures forall j | 0 <= j < i :: !Matches(path, ms[j].prefix)
  {
    i := 0;
    if !Matches(path, ms[0].prefix) {
      var tail := ms[1..];
      var k := FirstMatchAt(tail, path);
      i := k + 1;
      forall j | 0 < j < i
        ensures !Matches(path, ms[j].prefix)
      {
        assert ms[j] == tail[j - 1];
      }
    }
  }

  lemma {:induction false} NoMatchIff(ms: seq<Module>, path: string)
    ensures FirstMatch(ms, path).None? <==> forall i | 0 <= i < |ms| :: !Matches(path, ms[i].prefix)
  {
    if ms != [] {
      var tail := ms[1..];
      NoMatchIff(tail, path);
      assert forall i | 0 <= i < |tail| :: tail[i] == ms[i + 1];
    }
  }

  /** Of two prefixes that match one path, the shorter has properly fewer segments. */
  lemma ShorterHasFewerSegments(path: string, long: string, short: string)
    requires Matches(path, long) && Matches(path, short) && |short| <= |long| && short != long
    ensures |Segments(short)| < |Segments(long)|
  {
    assert short == long[..|short|];
    assert Matches(long, short);
    MatchesIsSegmentPrefix(long, short);
    JoinSplit(short, '/');
    JoinSplit(long, '/');
    assert |Segments(short)| == |Segments(long)| ==> Segments(short) == Segments(long);
  }

  /** A module that matches, and that no module before it does, owns the path. */
  lemma FirstHitOwns(ms: seq<Module>, path: string, i: nat)
    requires LongestFirst(ms) && DistinctPrefixes(ms) && i < |ms| && Matches(path, ms[i].prefix)
    requires forall j | 0 <= j < i :: !Matches(path, ms[j].prefix)
    ensures Owns(ms, path, ms[i])
  {
    MatchesIsSegmentPrefix(path, ms[i].prefix);
    forall other | other in ms && Segments(other.prefix) <= Segments(path) && other != ms[i]
      ensures |Segments(other.prefix)| < |Segments(ms[i].prefix)|
    {
      var j :| 0 <= j < |ms| && ms[j] == other;
      MatchesIsSegmentPrefix(path, other.prefix);
      ShorterHasFewerSegments(path, ms[i].prefix, other.prefix);
    }
  }

  lemma OneOwner(ms: seq<Module>, path: string, m: Module, n: Module)
    requires Owns(ms, path, m) && Owns(ms, path, n)
    ensures m == n
  {}

  lemma NoneIffNoPrefix(ms: seq<Module>, path: string)
    ensures FirstMatch(ms, path).None? <==> forall m | m in ms :: !(Segments(m.prefix) <= Segments(path))
  {
    NoMatchIff(ms, path);
    forall i | 0 <= i < |ms|
      ensures Matches(path, ms[i].prefix) <==> Segments(ms[i].prefix) <= Segments(path)
    {
      MatchesIsSegmentPrefix(path, ms[i].prefix);
    }
  }

  /** Dispatch by first match in the sorted list picks the one module that owns the path, and none
      exactly when none has a prefix of its segments. */
  lemma DispatchOwns(ms: seq<Module>, path: string)
    requires LongestFirst(ms) && DistinctPrefixes(ms)
    ensures forall m :: FirstMatch(ms, path) == Some(m) <==> Owns(ms, path, m)
    ensures FirstMatch(ms, path).None? <==> forall m | m in ms :: !(Segments(m.prefix) <= Segments(path))
  {
    NoneIffNoPrefix(ms, path);
    if FirstMatch(ms, path).Some? {
      var i := FirstMatchAt(ms, path);
      FirstHitOwns(ms, path, i);
      forall m | Owns(ms, path, m)
        ensures m == ms[i]
      {
        OneOwner(ms, path, m, ms[i]);
      }
    }
  }

  /** Any rearrangement of the same mounts dispatches every path alike. */
  lemma MountOrderIrrelevant(a: seq<Module>, b: seq<Module>, path: string)
    requires LongestFirst(a) && DistinctPrefixes(a) && LongestFirst(b) && DistinctPrefixes(b)
    requires forall m :: m in a <==> m in b
    ensures FirstMatch(a, path) == FirstMatch(b, path)
  {
    DispatchOwns(a, path);
    DispatchOwns(b, path);
    forall m
      ensures Owns(a, path, m) <==> Owns(b, path, m)
    {}
    if FirstMatch(a, path).Some? {
      assert Owns(b, path, FirstMatch(a, path).value);
    }
  }

  // ---------------------------------------------------------------- the code

  /** The router's own dispatch, as the handler its middleware wraps. */
  const DISPATCH: Groups.Handler := Groups.Leaf(Groups.Plain(0))

  class Router {
    var modules: seq<Module>
    var middleware: seq<Groups.Middleware>
    var handler: Groups.Handler

    ghost predicate Valid()
      reads this
    {
      LongestFirst(modules) && DistinctPrefixes(modules) && handler == Groups.Chain(DISPATCH, middleware)
    }

    constructor ()
      ensures Valid() && modules == [] && middleware == []
    {
      modules, middleware, handler := [], [], DISPATCH;
    }

    /** Use: a request then crosses the middleware of every Use so far, in order, and the dispatch. */
    method Use(mw: seq<Groups.Middleware>)
      requires Valid()
      modifies this`middleware, this`handler
      ensures Valid() && middleware == old(middleware) + mw
      ensures Groups.Crosses(handler) == Groups.NonNil(old(middleware)) + Groups.NonNil(mw) &&
              Groups.Reaches(handler) == DISPATCH.endpoint
    {
      middleware := middleware + mw;
      handler := Groups.BuildChain(DISPATCH, middleware);
      Groups.ChainOrder(DISPATCH, middleware);
      Groups.NonNilConcat(old(middleware), mw);
    }

    /** Mount: a second module at one prefix is the panic; otherwise the list gains exactly m. */
    method Mount(m: Module) returns (panicked: bool)
      requires Valid()
      modifies this`modules
      ensures Valid()
      ensures panicked <==> exists mounted :: mounted in old(modules) && mounted.prefix == m.prefix
      ensures panicked ==> modules == old(modules)
      ensures !panicked ==> multiset(modules) == multiset(old(modules)) + multiset{m}
    {
      for i := 0 to |modules|
        invariant modules == old(modules)
        invariant forall k | 0 <= k < i :: modules[k].prefix != m.prefix
      {
        if modules[i].prefix == m.prefix {
          assert modules[i] in old(modules);
          return true;
        }
      }
      modules := SortByLength(modules + [m]);
      DistinctAfterSort(old(modules), m, modules);
      return false;
    }

    method Dispatch(path: string) returns (r: Option<Module>)
      ensures r == FirstMatch(modules, path)
    {
      for i := 0 to |modules|
        invariant FirstMatch(modules, path) == FirstMatch(modules[i..], path)
      {
        assert modules[i..][0] == modules[i] && modules[i..][1..] == modules[i + 1..];
        if Matches(path, modules[i].prefix) {
          return Some(modules[i]);
        }
      }
      return None;
    }
  }

  lemma DistinctAfterSort(before: seq<Module>, m: Module, sorted: seq<Module>)
    requires DistinctPrefixes(before) && forall k | 0 <= k < |before| :: before[k].prefix != m.prefix
    requires multiset(sorted) == multiset(before + [m])
    ensures DistinctPrefixes(sorted)
    ensures multiset(sorted) == multiset(before) + multiset{m}
  {
    var all := before + [m];
    assert DistinctPrefixes(all);
    forall i, j | 0 <= i < j < |sorted|
      ensures sorted[i].prefix != sorted[j].prefix
    {
      assert sorted[i] in multiset(sorted) && sorted[j] in multiset(sorted);
      OnceEach(all, sorted[i]);
      TwiceMeansTwo(sorted, i, j);
      SamePrefixSame(all, sorted[i], sorted[j]);
    }
  }

  lemma TwiceMeansTwo(ms: seq<Module>, i: nat, j: nat)
    requires i < j < |ms|
    ensures ms[i] == ms[j] ==> multiset(ms)[ms[i]] >= 2
  {
    var front, back := ms[..j], ms[j..];
    assert ms == front + back;
    assert front[i] == ms[i] && back[0] == ms[j];
    assert ms[i] in multiset(front) && ms[j] in multiset(back);
  }

  lemma SamePrefixSame(ms: seq<Module>, a: Module, b: Module)
    requires DistinctPrefixes(ms) && a in ms && b in ms
    ensures a.prefix == b.prefix ==> a == b
  {
    var x :| 0 <= x < |ms| && ms[x] == a;
    var y :| 0 <= y < |ms| && ms[y] == b;
  }

  lemma {:induction false} OnceEach(ms: seq<Module>, m: Module)
    requires DistinctPrefixes(ms)
    ensures multiset(ms)[m] <= 1
  {
    if ms != [] {
      assert ms == [ms[0]] + ms[1..];
      OnceEach(ms[1..], m);
      assert forall k | 0 <= k < |ms[1..]| :: ms[1..][k] == ms[k + 1];
      assert ms[0] !in ms[1..];
    }
  }

  /** slices.SortFunc by descending prefix length: some such rearrangement, ties in any order. */
  method SortByLength(ms: seq<Module>) returns (sorted: seq<Module>)
    ensures LongestFirst(sorted) && multiset(sorted) == multiset(ms)
  {
    sorted := [];
    for i := 0 to |ms|
      invariant LongestFirst(sorted) && multiset(sorted) == multiset(ms[..i])
    {
      assert ms[..i + 1] == ms[..i] + [ms[i]];
      sorted := Insert(sorted, ms[i]);
    }
    assert ms[..|ms|] == ms;
  }

  method Insert(ms: seq<Module>, m: Module) returns (r: seq<Module>)
    requires LongestFirst(ms)
    ensures LongestFirst(r) && multiset(r) == multiset(ms + [m])
  {
    var k := |ms|;
    while k > 0 && |ms[k - 1].prefix| < |m.prefix|
      invariant 0 <= k <= |ms|
      invariant forall j | k <= j < |ms| :: |ms[j].prefix| <= |m.prefix|
    {
      k := k - 1;
    }
    InsertKeepsOrder(ms, k, m);
    InsertKeepsMembers(ms, k, m);
    r := ms[..k] + [m] + ms[k..];
  }

  lemma InsertKeepsOrder(ms: seq<Module>, k: nat, m: Module)
    requires k <= |ms| && LongestFirst(ms)
    requires k > 0 ==> |ms[k - 1].prefix| >= |m.prefix|
    requires forall j | k <= j < |ms| :: |ms[j].prefix| <= |m.prefix|
    ensures LongestFirst(ms[..k] + [m] + ms[k..])
  {
    var r := ms[..k] + [m] + ms[k..];
    assert forall i | 0 <= i < k :: r[i] == ms[i] && |ms[i].prefix| >= |m.prefix|;
    assert r[k] == m;
    assert forall i | k < i < |r| :: r[i] == ms[i - 1];
  }

  lemma InsertKeepsMembers(ms: seq<Module>, k: nat, m: Module)
    requires k <= |ms|
    ensures multiset(ms[..k] + [m] + ms[k..]) == multiset(ms + [m])
  {
    assert ms == ms[..k] + ms[k..];
  }
}
