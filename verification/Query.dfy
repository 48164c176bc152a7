/** ParseQuery: a read request's query string as a Query, whatever order the parameter map is walked in. */
module Query {
  import opened Options
  import opened Text
  import opened Decimal

  type Int64 = n: int | MIN_INT <= n <= MAX_INT

  datatype Sort = Sort(field: string, descending: bool)

  datatype Filter = Filter(field: string, op: string, values: seq<string>)

  datatype Query = Query(page: int, size: int, sort: seq<Sort>, filters: seq<Filter>, cursor: string)

  datatype Limits = Limits(defaultSize: Int64, maxSize: Int64, cursor: bool)

  /** url.Values: every parameter with the values it carried. */
  type Values = map<string, seq<string>>

  datatype Reason =
    | NotAtLeastOne
    | Above(last: int)
    | NoCursorHere
    | CursorWithPage
    | EmptySortKey
    | NoName
    | Unbalanced
    | NoFieldBeforeOperator
    | NotOneSuffix
    | EmptyOperator
    | TakesNoOperator

  datatype QueryError = QueryError(param: string, value: string, reason: Reason)

  /** InvalidLimits is the panic on limits outside 1 <= DefaultSize <= MaxSize. */
  datatype Outcome = Parsed(query: Query) | Rejected(error: QueryError) | InvalidLimits

  predicate Reserved(key: string) {
    key == "page" || key == "size" || key == "sort" || key == "cursor"
  }

  function Lookup(q: Values, key: string): seq<string> {
    if key in q then q[key] else []
  }

  function Get(q: Values, key: string): string {
    if key in q && q[key] != [] then q[key][0] else ""
  }

  predicate ValidLimits(l: Limits) {
    1 <= l.defaultSize <= l.maxSize
  }

  // ---------------------------------------------------------------- filter keys

  datatype FilterKey = Key(field: string, op: string) | BadKey(error: QueryError)

  function ParseFilterKey(key: string, values: seq<string>): FilterKey {
    var value := if values != [] then values[0] else "";
    var open := IndexOf(key, '[');
    if key == "" then BadKey(QueryError(key, value, NoName))
    else if open < 0 then
      if IndexOf(key, ']') >= 0 then BadKey(QueryError(key, value, Unbalanced)) else Key(key, "")
    else if open == 0 then BadKey(QueryError(key, value, NoFieldBeforeOperator))
    else if !HasSuffix(key, "]") || Count(key, '[') != 1 || Count(key, ']') != 1 then
      BadKey(QueryError(key, value, NotOneSuffix))
    else
      var field, op := key[..open], key[open + 1..|key| - 1];
      if op == "" then BadKey(QueryError(key, value, EmptyOperator))
      else if Reserved(field) then BadKey(QueryError(field, value, TakesNoOperator))
      else Key(field, op)
  }

  /** The printer of filter keys: "name", or "name[op]". */
  function PrintKey(field: string, op: string): string {
    if op == "" then field else field + "[" + op + "]"
  }

  predicate Lexical(name: string) {
    '[' !in name && ']' !in name
  }

  predicate PrintableKey(field: string, op: string) {
    field != "" && Lexical(field) && Lexical(op) && (op != "" ==> !Reserved(field))
  }

  lemma PrintedKeyParses(field: string, op: string, values: seq<string>)
    requires PrintableKey(field, op)
    ensures ParseFilterKey(PrintKey(field, op), values) == Key(field, op)
  {
    if op != "" {
      var key := PrintKey(field, op);
      BracketPositions(field, op);
      BracketMembers(field, op);
      BracketedParses(key, |field|, |key| - 1, values);
    }
  }

  lemma BracketMembers(field: string, op: string)
    requires Lexical(field) && Lexical(op)
    ensures '[' !in op + "]" && ']' !in field + "[" + op
  {}

  lemma BracketPositions(field: string, op: string)
    requires Lexical(field) && Lexical(op) && op != ""
    ensures var key, open := PrintKey(field, op), |field|;
            var n := |key| - 1;
            && open + 1 < n && key[open] == '[' && key[n] == ']'
            && key[..open] == field && key[open + 1..n] == op
            && key[open + 1..] == op + "]" && key[..n] == field + "[" + op
            && IndexOf(key, '[') == open
  {
    var key := PrintKey(field, op);
    assert key == field + ['['] + (op + "]");
    IndexOfFirst(field, '[', op + "]");
  }

  lemma BracketedParses(key: string, open: nat, n: nat, values: seq<string>)
    requires 0 < open && open + 1 < n == |key| - 1 && key[open] == '[' && key[n] == ']' && IndexOf(key, '[') == open
    requires '[' !in key[open + 1..] && ']' !in key[..n] && !Reserved(key[..open])
    ensures ParseFilterKey(key, values) == Key(key[..open], key[open + 1..n])
  {
    SuffixChar(key, ']');
    CountOne(key, '[', open);
    CountOne(key, ']', n);
  }

  lemma ParsedKeyPrints(key: string, values: seq<string>)
    requires ParseFilterKey(key, values).Key?
    ensures var k := ParseFilterKey(key, values); PrintableKey(k.field, k.op) && PrintKey(k.field, k.op) == key
  {
    var open := IndexOf(key, '[');
    if open >= 0 {
      SuffixChar(key, ']');
      CountOne(key, '[', open);
      CountOne(key, ']', |key| - 1);
      BracketedPrints(key, open, |key| - 1);
    }
  }

  lemma BracketedPrints(key: string, open: nat, n: nat)
    requires open < n == |key| - 1 && key[open] == '[' && key[n] == ']'
    requires '[' !in key[..open] && '[' !in key[open + 1..] && ']' !in key[..n]
    ensures var field, op := key[..open], key[open + 1..n];
            Lexical(field) && Lexical(op) && (op != "" ==> PrintKey(field, op) == key)
  {
    var field, op := key[..open], key[open + 1..n];
    assert key == field + "[" + op + "]";
    forall i | 0 <= i < |field|
      ensures field[i] in key[..n]
    {
      assert field[i] == key[..n][i];
    }
    forall i | 0 <= i < |op|
      ensures op[i] in key[..n] && op[i] in key[open + 1..]
    {
      assert op[i] == key[..n][open + 1 + i] == key[open + 1..][i];
    }
  }

  /** The keys a filter can have are exactly the printed ones, each read back to what was printed. */
  lemma FilterKeyGrammar(key: string, values: seq<string>, field: string, op: string)
    ensures ParseFilterKey(key, values) == Key(field, op) <==> PrintableKey(field, op) && key == PrintKey(field, op)
  {
    if ParseFilterKey(key, values) == Key(field, op) {
      ParsedKeyPrints(key, values);
    }
    if PrintableKey(field, op) {
      PrintedKeyParses(field, op, values);
    }
  }

  /** Why a key is no filter's: what it lacks, in the order the faults are looked for. */
  function FaultOf(key: string): Reason
    requires key != "" ==> '[' in key || ']' in key
  {
    if key == "" then NoName
    else if '[' !in key then Unbalanced
    else if key[0] == '[' then NoFieldBeforeOperator
    else if !Suffixed(key) then NotOneSuffix
    else if key[|key| - 2] == '[' then EmptyOperator
    else TakesNoOperator
  }

  /** A name, then one pair of brackets, which ends the key. */
  predicate Suffixed(key: string) {
    key != "" && key[|key| - 1] == ']' && Count(key, '[') == 1 && ']' !in key[..|key| - 1]
  }

  lemma SuffixedCounts(key: string)
    ensures Suffixed(key) <==> HasSuffix(key, "]") && Count(key, '[') == 1 && Count(key, ']') == 1
  {
    SuffixChar(key, ']');
    if key != "" && key[|key| - 1] == ']' {
      CountOne(key, ']', |key| - 1);
    }
  }

  lemma BracketOpens(key: string)
    requires Suffixed(key) && '[' in key && key[0] != '['
    ensures var open := IndexOf(key, '['); 0 < open < |key| - 1 && (open == |key| - 2 <==> key[|key| - 2] == '[')
  {
    var open := IndexOf(key, '[');
    CountOne(key, '[', open);
    assert forall j | open < j < |key| :: key[j] == key[open + 1..][j - open - 1];
  }

  /** A refused key is refused for its first fault, under the key itself, or under the reserved name it
      would give an operator to, and with the first value it carried. */
  lemma KeyFaults(key: string, values: seq<string>)
    requires ParseFilterKey(key, values).BadKey?
    ensures key != "" ==> '[' in key || ']' in key
    ensures var e := ParseFilterKey(key, values).error;
            && e.reason == FaultOf(key)
            && e.value == (if values == [] then "" else values[0])
            && (e.reason != TakesNoOperator ==> e.param == key)
            && (e.reason == TakesNoOperator ==>
                  Reserved(e.param) && exists op :: op != "" && Lexical(op) && key == PrintKey(e.param, op))
  {
    SuffixedCounts(key);
    if Suffixed(key) && '[' in key && key[0] != '[' {
      BracketOpens(key);
    }
    if ParseFilterKey(key, values).error.reason == TakesNoOperator {
      ReservedOperator(key, values);
    }
  }

  lemma ReservedOperator(key: string, values: seq<string>)
    requires ParseFilterKey(key, values).BadKey? && ParseFilterKey(key, values).error.reason == TakesNoOperator
    ensures var field := ParseFilterKey(key, values).error.param;
            Reserved(field) && exists op :: op != "" && Lexical(op) && key == PrintKey(field, op)
  {
    var open, n := IndexOf(key, '['), |key| - 1;
    SuffixChar(key, ']');
    CountOne(key, '[', open);
    CountOne(key, ']', n);
    BracketedPrints(key, open, n);
  }

  /** Distinct filters have distinct keys. */
  lemma KeysInject(f: string, o: string, g: string, p: string)
    requires PrintableKey(f, o) && PrintableKey(g, p) && PrintKey(f, o) == PrintKey(g, p)
    ensures f == g && o == p
  {
    PrintedKeyParses(f, o, []);
    PrintedKeyParses(g, p, []);
  }

  // ---------------------------------------------------------------- sort keys

  function SortOf(token: string): Sort {
    Sort(TrimPrefix(token, "-"), "-" <= token)
  }

  function SortsOf(tokens: seq<string>): (sorts: seq<Sort>)
    ensures |sorts| == |tokens|
  {
    seq(|tokens|, i requires 0 <= i < |tokens| => SortOf(tokens[i]))
  }

  function SortsOfValue(v: string): seq<Sort> {
    if v == "" then [] else SortsOf(Split(v, ','))
  }

  /** Every sort parameter's keys, in request order. */
  function SortsOfFirst(values: seq<string>, n: nat): seq<Sort>
    requires n <= |values|
  {
    if n == 0 then [] else SortsOfFirst(values, n - 1) + SortsOfValue(values[n - 1])
  }

  function SortsOfValues(values: seq<string>): seq<Sort> {
    SortsOfFirst(values, |values|)
  }

  predicate NoEmptyKey(v: string) {
    forall s | s in SortsOfValue(v) :: s.field != ""
  }

  predicate NoEmptyKeys(values: seq<string>, n: nat)
    requires n <= |values|
  {
    forall i | 0 <= i < n :: NoEmptyKey(values[i])
  }

  function PrintSort(s: Sort): string {
    if s.descending then "-" + s.field else s.field
  }

  predicate PrintableSort(s: Sort) {
    s.field != "" && ',' !in s.field && (!s.descending ==> s.field[0] != '-')
  }

  function PrintSorts(sorts: seq<Sort>): (tokens: seq<string>)
    ensures |tokens| == |sorts|
  {
    seq(|sorts|, i requires 0 <= i < |sorts| => PrintSort(sorts[i]))
  }

  lemma PrintedSortsParse(sorts: seq<Sort>)
    requires sorts != [] && forall s | s in sorts :: PrintableSort(s)
    ensures var v := Join(PrintSorts(sorts), ','); SortsOfValues([v]) == sorts && NoEmptyKey(v)
  {
    var tokens := PrintSorts(sorts);
    forall i | 0 <= i < |sorts|
      ensures ',' !in tokens[i] && SortOf(tokens[i]) == sorts[i]
    {
      assert PrintableSort(sorts[i]);
    }
    SplitJoin(tokens, ',');
    var v := Join(tokens, ',');
    assert tokens[0] != "" by {
      assert PrintableSort(sorts[0]);
    }
    assert v != "";
    assert SortsOf(tokens) == sorts;
    assert SortsOfFirst([v], 1) == SortsOfFirst([v], 0) + SortsOfValue(v);
  }

  lemma ValueSortsPrintable(v: string)
    requires NoEmptyKey(v)
    ensures forall s | s in SortsOfValue(v) :: PrintableSort(s)
  {
    if v != "" {
      var tokens := Split(v, ',');
      forall i | 0 <= i < |tokens|
        ensures PrintableSort(SortsOf(tokens)[i])
      {
        assert tokens[i] in tokens && SortsOf(tokens)[i] in SortsOfValue(v);
        var field := SortOf(tokens[i]).field;
        assert forall c | c in field :: c in tokens[i];
      }
    }
  }

  lemma {:induction false} ParsedSortsPrintable(values: seq<string>, n: nat)
    requires n <= |values| && NoEmptyKeys(values, n)
    ensures forall s | s in SortsOfFirst(values, n) :: PrintableSort(s)
  {
    if n > 0 {
      ParsedSortsPrintable(values, n - 1);
      ValueSortsPrintable(values[n - 1]);
    }
  }

  /** The tokens of every sort parameter, in request order; an empty parameter has none. */
  function Tokens(values: seq<string>): seq<string> {
    if values == [] then [] else (if values[0] == "" then [] else Split(values[0], ',')) + Tokens(values[1..])
  }

  /** A token names a key: more than nothing, or than its minus. */
  predicate NamesKey(token: string) {
    token != "" && token != "-"
  }

  lemma {:induction false} TokensSnoc(values: seq<string>, v: string)
    ensures Tokens(values + [v]) == Tokens(values) + if v == "" then [] else Split(v, ',')
  {
    var own := if v == "" then [] else Split(v, ',');
    if values == [] {
      assert [] + [v] == [v] && [v][1..] == [];
      assert Tokens([v]) == own + [] == [] + own;
    } else {
      TokensSnoc(values[1..], v);
      Unroll(values, v);
      Regroup(if values[0] == "" then [] else Split(values[0], ','), Tokens(values[1..]), own);
    }
  }

  lemma Unroll(values: seq<string>, v: string)
    requires values != []
    ensures (values + [v])[0] == values[0] && (values + [v])[1..] == values[1..] + [v]
  {}

  lemma Regroup(a: seq<string>, b: seq<string>, c: seq<string>)
    ensures a + b + c == a + (b + c)
  {}

  lemma SortPrints(token: string)
    ensures PrintSort(SortOf(token)) == token && (SortOf(token).field != "" <==> NamesKey(token))
  {
    if "-" <= token {
      assert token == "-" + token[1..];
    }
  }

  lemma SortsOfPrint(tokens: seq<string>)
    ensures PrintSorts(SortsOf(tokens)) == tokens
    ensures (forall s | s in SortsOf(tokens) :: s.field != "") <==> forall token | token in tokens :: NamesKey(token)
  {
    forall i | 0 <= i < |tokens|
      ensures PrintSort(SortsOf(tokens)[i]) == tokens[i]
      ensures SortsOf(tokens)[i].field != "" <==> NamesKey(tokens[i])
    {
      SortPrints(tokens[i]);
    }
    forall s | s in SortsOf(tokens)
      ensures exists i :: 0 <= i < |tokens| && SortsOf(tokens)[i] == s
    {}
  }

  lemma ValuePrints(v: string)
    ensures PrintSorts(SortsOfValue(v)) == if v == "" then [] else Split(v, ',')
    ensures NoEmptyKey(v) <==> v == "" || forall token | token in Split(v, ',') :: NamesKey(token)
  {
    SortsOfPrint(Split(v, ','));
  }

  lemma PrintSortsConcat(a: seq<Sort>, b: seq<Sort>)
    ensures PrintSorts(a + b) == PrintSorts(a) + PrintSorts(b)
  {}

  /** The sort keys are the tokens of every parameter, in request order, each printed back as it came. */
  lemma {:induction false} SortsPrintTokens(values: seq<string>, n: nat)
    requires n <= |values|
    ensures PrintSorts(SortsOfFirst(values, n)) == Tokens(values[..n])
  {
    if n > 0 {
      SortsPrintTokens(values, n - 1);
      ValuePrints(values[n - 1]);
      PrintSortsConcat(SortsOfFirst(values, n - 1), SortsOfValue(values[n - 1]));
      TokensOneMore(values, n);
    }
  }

  lemma TokensOneMore(values: seq<string>, n: nat)
    requires 0 < n <= |values|
    ensures Tokens(values[..n]) == Tokens(values[..n - 1]) +
              if values[n - 1] == "" then [] else Split(values[n - 1], ',')
  {
    assert values[..n] == values[..n - 1] + [values[n - 1]];
    TokensSnoc(values[..n - 1], values[n - 1]);
  }

  /** Some token of this parameter names no key. */
  predicate BadSortValue(v: string) {
    v != "" && exists token | token in Split(v, ',') :: !NamesKey(token)
  }

  lemma NoEmptyKeysIff(values: seq<string>, n: nat)
    requires n <= |values|
    ensures NoEmptyKeys(values, n) <==> forall i | 0 <= i < n :: !BadSortValue(values[i])
  {
    forall i | 0 <= i < n
      ensures NoEmptyKey(values[i]) <==> !BadSortValue(values[i])
    {
      ValuePrints(values[i]);
    }
  }

  // ---------------------------------------------------------------- paging

  datatype Paging = Paging(page: int, cursor: string, size: int) | BadPaging(error: QueryError)

  function PageOf(q: Values, l: Limits): Paging
    requires ValidLimits(l)
  {
    var v := Get(q, "page");
    var n := Parse(v);
    var last := MAX_INT / l.maxSize;
    if v == "" then Paging(1, "", l.defaultSize)
    else if !n.Number? || n.value < 1 then BadPaging(QueryError("page", v, NotAtLeastOne))
    else if n.value > last then BadPaging(QueryError("page", v, Above(last)))
    else Paging(n.value, "", l.defaultSize)
  }

  function CursorOf(q: Values, l: Limits): Paging
    requires ValidLimits(l)
  {
    var p := PageOf(q, l);
    var v := Get(q, "cursor");
    if p.BadPaging? || v == "" then p
    else if !l.cursor then BadPaging(QueryError("cursor", v, NoCursorHere))
    else if Get(q, "page") != "" then BadPaging(QueryError("cursor", v, CursorWithPage))
    else p.(page := 0, cursor := v)
  }

  function PagingOf(q: Values, l: Limits): Paging
    requires ValidLimits(l)
  {
    var p := CursorOf(q, l);
    var v := Get(q, "size");
    var n := Parse(v);
    if p.BadPaging? || v == "" then p
    else if !n.Number? || n.value < 1 then BadPaging(QueryError("size", v, NotAtLeastOne))
    else if n.value > l.maxSize then BadPaging(QueryError("size", v, Above(l.maxSize)))
    else p.(size := n.value)
  }

  predicate PrintablePaging(page: int, cursor: string, size: int, l: Limits) {
    && 1 <= size <= l.maxSize
    && if cursor == "" then 1 <= page && page * l.maxSize <= MAX_INT else page == 0 && l.cursor
  }

  lemma PageBound(page: int, max: int)
    requires 1 <= max && 0 <= page
    ensures page <= MAX_INT / max <==> page * max <= MAX_INT
  {
    var last := MAX_INT / max;
    assert last * max <= MAX_INT < (last + 1) * max;
    if page <= last {
      assert page * max <= last * max;
    } else {
      assert page * max >= (last + 1) * max;
    }
  }

  lemma PagingPrintable(q: Values, l: Limits)
    requires ValidLimits(l) && PagingOf(q, l).Paging?
    ensures var p := PagingOf(q, l); PrintablePaging(p.page, p.cursor, p.size, l)
  {
    PageBound(1, l.maxSize);
    var n := Parse(Get(q, "page"));
    if n.Number? && n.value >= 1 {
      PageBound(n.value, l.maxSize);
    }
  }

  /** The parameter holds an integer from 1 to last. */
  predicate Names(q: Values, key: string, last: int) {
    var n := Parse(Get(q, key));
    n.Number? && 1 <= n.value <= last
  }

  /** A page whose end still fits an int at the largest size, if one is given. */
  predicate GoodPage(q: Values, l: Limits) {
    var n := Parse(Get(q, "page"));
    Get(q, "page") == "" || (n.Number? && 1 <= n.value && n.value * l.maxSize <= MAX_INT)
  }

  predicate GoodCursor(q: Values, l: Limits) {
    Get(q, "cursor") == "" || (l.cursor && Get(q, "page") == "")
  }

  predicate GoodSize(q: Values, l: Limits) {
    Get(q, "size") == "" || Names(q, "size", l.maxSize)
  }

  lemma PageInBounds(q: Values, l: Limits)
    requires ValidLimits(l)
    ensures GoodPage(q, l) <==> Get(q, "page") == "" || Names(q, "page", MAX_INT / l.maxSize)
  {
    var n := Parse(Get(q, "page"));
    if n.Number? && n.value >= 1 {
      PageBound(n.value, l.maxSize);
    }
  }

  /** Paging is accepted exactly when each of its three parameters is good. */
  lemma PagingAcceptedIff(q: Values, l: Limits)
    requires ValidLimits(l)
    ensures PagingOf(q, l).Paging? <==> GoodPage(q, l) && GoodCursor(q, l) && GoodSize(q, l)
  {
    PageInBounds(q, l);
  }

  // ---------------------------------------------------------------- filters

  predicate FilterAtMost(a: Filter, b: Filter) {
    if a.field == b.field then AtMost(a.op, b.op) else AtMost(a.field, b.field)
  }

  predicate Ordered(fs: seq<Filter>) {
    forall i, j | 0 <= i < j < |fs| :: FilterAtMost(fs[i], fs[j])
  }

  /** No two filters share a field and an operator: the sort has no ties. */
  predicate NoTies(fs: seq<Filter>) {
    forall i, j | 0 <= i < j < |fs| :: KeyOf(fs[i]) != KeyOf(fs[j])
  }

  function KeyOf(f: Filter): string {
    PrintKey(f.field, f.op)
  }

  /** The filters of a query map: one per non-reserved key, carrying that key's values, ordered by
      field, then operator. */
  ghost predicate IsFilters(q: Values, fs: seq<Filter>) {
    && Ordered(fs) && NoTies(fs)
    && (forall f | f in fs :: IsFilterOf(q, f))
    && (forall key | key in q && !Reserved(key) :: exists f :: f in fs && KeyOf(f) == key)
  }

  predicate IsFilterOf(q: Values, f: Filter) {
    PrintableKey(f.field, f.op) && KeyOf(f) in q && !Reserved(KeyOf(f)) && f.values == q[KeyOf(f)]
  }

  predicate PrintableFilter(f: Filter) {
    PrintableKey(f.field, f.op) && !Reserved(f.field)
  }

  lemma FilterAtMostAntisymmetric(a: Filter, b: Filter)
    requires FilterAtMost(a, b) && FilterAtMost(b, a)
    ensures a.field == b.field && a.op == b.op
  {
    AtMostTotal(a.field, b.field);
    AtMostTotal(a.op, b.op);
  }

  lemma FilterAtMostTotal(a: Filter, b: Filter)
    ensures FilterAtMost(a, b) || FilterAtMost(b, a)
  {
    AtMostTotal(a.field, b.field);
    AtMostTotal(a.op, b.op);
  }

  lemma FilterAtMostTransitive(a: Filter, b: Filter, c: Filter)
    requires FilterAtMost(a, b) && FilterAtMost(b, c)
    ensures FilterAtMost(a, c)
  {
    if a.field == b.field == c.field {
      AtMostTransitive(a.op, b.op, c.op);
    } else {
      AtMostTotal(a.field, b.field);
      AtMostTotal(b.field, c.field);
      AtMostTotal(a.field, c.field);
      AtMostTotal(b.field, a.field);
      if a.field != b.field && b.field != c.field {
        AtMostTransitive(a.field, b.field, c.field);
      }
    }
  }

  /** The least filter of a set comes first in any order of it. */
  lemma HeadsAgree(a: seq<Filter>, b: seq<Filter>)
    requires Ordered(a) && Ordered(b) && a != [] && b != []
    requires a[0] in b && b[0] in a
    ensures a[0].field == b[0].field && a[0].op == b[0].op
  {
    var i :| 0 <= i < |b| && b[i] == a[0];
    var j :| 0 <= j < |a| && a[j] == b[0];
    if i > 0 && j > 0 {
      FilterAtMostAntisymmetric(a[0], b[0]);
    }
  }

  lemma SameKeySame(a: seq<Filter>, f: Filter, g: Filter)
    requires NoTies(a) && f in a && g in a && f.field == g.field && f.op == g.op
    ensures f == g
  {
    var i :| 0 <= i < |a| && a[i] == f;
    var j :| 0 <= j < |a| && a[j] == g;
  }

  lemma TailIsOrdered(a: seq<Filter>)
    requires a != [] && Ordered(a) && NoTies(a)
    ensures Ordered(a[1..]) && NoTies(a[1..])
  {
    assert forall i | 0 <= i < |a[1..]| :: a[1..][i] == a[i + 1];
  }

  /** Without ties, what any sort makes of a set of filters is one sequence. */
  lemma {:induction false} OrderIsUnique(a: seq<Filter>, b: seq<Filter>)
    requires Ordered(a) && Ordered(b) && NoTies(a) && NoTies(b)
    requires forall f :: f in a <==> f in b
    ensures a == b
    decreases |a|
  {
    assert b != [] ==> b[0] in a;
    if a != [] {
      assert a[0] in b;
      HeadsAgree(a, b);
      SameKeySame(a, a[0], b[0]);
      TailIsOrdered(a);
      TailIsOrdered(b);
      forall f
        ensures f in a[1..] <==> f in b[1..]
      {
        TailMembers(a, f);
        TailMembers(b, f);
      }
      OrderIsUnique(a[1..], b[1..]);
      Uncons(a);
      Uncons(b);
    }
  }

  lemma Uncons(fs: seq<Filter>)
    requires fs != []
    ensures fs == [fs[0]] + fs[1..]
  {}

  lemma TailMembers(fs: seq<Filter>, f: Filter)
    requires fs != [] && NoTies(fs)
    ensures f in fs[1..] <==> f in fs && f != fs[0]
  {
    assert fs == [fs[0]] + fs[1..];
    if f in fs[1..] {
      var i :| 0 <= i < |fs[1..]| && fs[1..][i] == f;
      assert fs[i + 1] == f;
    }
  }

  lemma FiltersPrintable(q: Values, fs: seq<Filter>)
    requires IsFilters(q, fs)
    ensures forall f | f in fs :: PrintableFilter(f)
  {
    forall f | f in fs
      ensures PrintableFilter(f)
    {
      assert IsFilterOf(q, f);
    }
  }

  /** The query map's contents fix its filters. */
  lemma FiltersUnique(q: Values, a: seq<Filter>, b: seq<Filter>)
    requires IsFilters(q, a) && IsFilters(q, b)
    ensures a == b
  {
    forall f
      ensures f in a <==> f in b
    {
      if f in a { SameFilter(q, a, b, f); }
      if f in b { SameFilter(q, b, a, f); }
    }
    OrderIsUnique(a, b);
  }

  lemma SameFilter(q: Values, a: seq<Filter>, b: seq<Filter>, f: Filter)
    requires IsFilters(q, a) && IsFilters(q, b) && f in a
    ensures f in b
  {
    assert IsFilterOf(q, f);
    var g :| g in b && KeyOf(g) == KeyOf(f);
    assert IsFilterOf(q, g);
    KeysInject(f.field, f.op, g.field, g.op);
  }

  // ---------------------------------------------------------------- the whole query

  /** out is what the query map means under l. */
  ghost predicate Answers(q: Values, l: Limits, out: Query) {
    && ValidLimits(l)
    && PagingOf(q, l) == Paging(out.page, out.cursor, out.size)
    && NoEmptyKeys(Lookup(q, "sort"), |Lookup(q, "sort")|)
    && out.sort == SortsOfValues(Lookup(q, "sort"))
    && IsFilters(q, out.filters)
  }

  ghost predicate FirstBadSort(values: seq<string>, i: int, e: QueryError) {
    && 0 <= i < |values| && !NoEmptyKey(values[i]) && NoEmptyKeys(values, i)
    && e == QueryError("sort", values[i], EmptySortKey)
  }

  /** e is a fault of the query map: its first paging fault, else its first sort fault, else any one
      of the filter keys'. */
  ghost predicate Refuses(q: Values, l: Limits, e: QueryError) {
    && ValidLimits(l)
    && if PagingOf(q, l).BadPaging? then PagingOf(q, l).error == e
       else if !NoEmptyKeys(Lookup(q, "sort"), |Lookup(q, "sort")|) then
         exists i :: FirstBadSort(Lookup(q, "sort"), i, e)
       else exists key | key in q :: !Reserved(key) && ParseFilterKey(key, q[key]) == BadKey(e)
  }

  /** ParseQuery is a function of the map's contents: one answer at most, and never an answer and a
      refusal, for any two walks of the same map. */
  lemma Deterministic(q: Values, l: Limits, a: Query, b: Query, e: QueryError)
    requires Answers(q, l, a)
    ensures Answers(q, l, b) ==> a == b
    ensures !Refuses(q, l, e)
  {
    if Answers(q, l, b) {
      FiltersUnique(q, a.filters, b.filters);
    }
    AnswerKeysParse(q, l, a);
  }

  /** What a parse of the map may come to. */
  ghost predicate IsOutcome(q: Values, l: Limits, r: Outcome) {
    match r
    case InvalidLimits => !ValidLimits(l)
    case Parsed(query) => Answers(q, l, query)
    case Rejected(error) => Refuses(q, l, error)
  }

  /** The panic is for limits outside 1 <= DefaultSize <= MaxSize, and for nothing else. */
  lemma LimitsPanic(q: Values, l: Limits, r: Outcome)
    requires IsOutcome(q, l, r)
    ensures r.InvalidLimits? <==> l.defaultSize < 1 || l.maxSize < l.defaultSize
  {}

  /** Any two walks of one map agree on whether it is accepted, and on the whole Query when it is. */
  lemma OrderIndependent(q: Values, l: Limits, r: Outcome, r2: Outcome)
    requires IsOutcome(q, l, r) && IsOutcome(q, l, r2)
    ensures (r.Parsed? <==> r2.Parsed?) && (r.InvalidLimits? <==> r2.InvalidLimits?) && (r.Parsed? ==> r == r2)
  {
    var e := QueryError("", "", NoName);
    if r.Parsed? {
      Deterministic(q, l, r.query, if r2.Parsed? then r2.query else r.query, if r2.Rejected? then r2.error else e);
    } else if r2.Parsed? {
      Deterministic(q, l, r2.query, r2.query, if r.Rejected? then r.error else e);
    }
  }

  /** Filters and non-reserved keys are in bijection, and no filter's field is reserved. */
  lemma FiltersMatchKeys(q: Values, l: Limits, out: Query)
    requires Answers(q, l, out)
    ensures |out.filters| == |set key | key in q && !Reserved(key)|
    ensures forall f | f in out.filters :: !Reserved(f.field) && KeyOf(f) in q
    ensures forall key | key in q && !Reserved(key) :: exists f :: f in out.filters && KeyOf(f) == key
  {
    FiltersPrintable(q, out.filters);
    CountKeys(out.filters, set key | key in q && !Reserved(key));
  }

  lemma {:induction false} CountKeys(fs: seq<Filter>, keys: set<string>)
    requires NoTies(fs)
    requires forall key :: key in keys <==> exists f :: f in fs && KeyOf(f) == key
    ensures |fs| == |keys|
    decreases |fs|
  {
    if fs == [] {
      assert keys == {};
    } else {
      var key0 := KeyOf(fs[0]);
      assert fs[0] in fs && key0 in keys;
      forall key
        ensures key in keys - {key0} <==> exists f :: f in fs[1..] && KeyOf(f) == key
      {
        if key in keys - {key0} {
          var f :| f in fs && KeyOf(f) == key;
          TailMembers(fs, f);
        }
        if f :| f in fs[1..] && KeyOf(f) == key {
          TailMembers(fs, f);
          var i :| 0 <= i < |fs[1..]| && fs[1..][i] == f;
          assert fs[i + 1] == f;
        }
      }
      CountKeys(fs[1..], keys - {key0});
    }
  }

  /** The refusal's place: a sort parameter is named only when paging is good, a filter key only when
      the sort parameters are too; and the parameter named is the first bad one in request order. */
  lemma RefusalNamesBadSort(q: Values, l: Limits, e: QueryError)
    requires Refuses(q, l, e) && GoodPage(q, l) && GoodCursor(q, l) && GoodSize(q, l)
    ensures var values := Lookup(q, "sort");
            if exists v | v in values :: BadSortValue(v) then
              && e.param == "sort" && e.reason == EmptySortKey
              && exists i | 0 <= i < |values| ::
                   e.value == values[i] && BadSortValue(values[i]) && forall j | 0 <= j < i :: !BadSortValue(values[j])
            else
              exists key | key in q :: !Reserved(key) && ParseFilterKey(key, q[key]) == BadKey(e)
  {
    var values := Lookup(q, "sort");
    PagingAcceptedIff(q, l);
    NoEmptyKeysIff(values, |values|);
    if !NoEmptyKeys(values, |values|) {
      var i :| FirstBadSort(values, i, e);
      NoEmptyKeysIff(values, i);
      ValuePrints(values[i]);
    }
  }

  // ---------------------------------------------------------------- what is accepted

  lemma {:induction false} PlaceOf(fs: seq<Filter>, f: Filter, n: nat) returns (k: nat)
    requires n <= |fs| && Ordered(fs) && forall j | n <= j < |fs| :: FilterAtMost(f, fs[j])
    ensures k <= |fs| && (k > 0 ==> FilterAtMost(fs[k - 1], f)) && forall j | k <= j < |fs| :: FilterAtMost(f, fs[j])
  {
    k := n;
    if n > 0 && !FilterAtMost(fs[n - 1], f) {
      FilterAtMostTotal(fs[n - 1], f);
      k := PlaceOf(fs, f, n - 1);
    }
  }

  lemma {:induction false} SortedForm(fs: seq<Filter>) returns (sorted: seq<Filter>)
    ensures Ordered(sorted) && multiset(sorted) == multiset(fs)
  {
    sorted := [];
    if fs != [] {
      var front, f := fs[..|fs| - 1], fs[|fs| - 1];
      assert fs == front + [f];
      var rest := SortedForm(front);
      var k := PlaceOf(rest, f, |rest|);
      InsertKeepsOrder(rest, k, f);
      InsertKeepsMembers(rest, k, f);
      sorted := rest[..k] + [f] + rest[k..];
    }
  }

  lemma {:induction false} GatheredForm(q: Values, keys: seq<string>) returns (fs: seq<Filter>)
    requires (forall i, j | 0 <= i < j < |keys| :: keys[i] != keys[j]) && (forall key | key in keys :: key in q)
    requires forall key | key in keys && !Reserved(key) :: ParseFilterKey(key, q[key]).Key?
    ensures Gathered(q, keys, fs)
  {
    fs := [];
    if keys != [] {
      var front, key := keys[..|keys| - 1], keys[|keys| - 1];
      assert keys == front + [key];
      fs := GatheredForm(q, front);
      if !Reserved(key) {
        var k := ParseFilterKey(key, q[key]);
        var f := Filter(k.field, k.op, q[key]);
        GatherOne(q, front, fs, key, f);
        fs := fs + [f];
      }
    }
  }

  lemma {:induction false} Listed(keys: set<string>) returns (order: seq<string>)
    ensures forall key :: key in order <==> key in keys
    ensures forall i, j | 0 <= i < j < |order| :: order[i] != order[j]
  {
    order := [];
    if keys != {} {
      var key :| key in keys;
      var rest := Listed(keys - {key});
      order := [key] + rest;
    }
  }

  lemma FiltersExist(q: Values) returns (fs: seq<Filter>)
    requires forall key | key in q && !Reserved(key) :: ParseFilterKey(key, q[key]).Key?
    ensures IsFilters(q, fs)
  {
    var keys := Listed(q.Keys);
    var gathered := GatheredForm(q, keys);
    fs := SortedForm(gathered);
    SortedGathering(q, keys, gathered, fs);
  }

  /** What a read request may ask: good paging, sort keys that name something, and parameters that are
      reserved or printed filter keys. */
  ghost predicate Acceptable(q: Values, l: Limits) {
    && ValidLimits(l) && GoodPage(q, l) && GoodCursor(q, l) && GoodSize(q, l)
    && (forall v | v in Lookup(q, "sort") :: !BadSortValue(v))
    && forall key | key in q && !Reserved(key) ::
         exists field, op :: PrintableKey(field, op) && key == PrintKey(field, op)
  }

  lemma KeyParsesIff(key: string, values: seq<string>)
    ensures ParseFilterKey(key, values).Key? <==>
              exists field, op :: PrintableKey(field, op) && key == PrintKey(field, op)
  {
    if ParseFilterKey(key, values).Key? {
      ParsedKeyPrints(key, values);
    }
    if field, op :| PrintableKey(field, op) && key == PrintKey(field, op) {
      PrintedKeyParses(field, op, values);
    }
  }

  /** A query has an answer exactly when it is acceptable, and a refusal exactly when it is not, under
      valid limits. */
  lemma AcceptedIff(q: Values, l: Limits)
    ensures (exists out :: Answers(q, l, out)) <==> Acceptable(q, l)
  {
    var values := Lookup(q, "sort");
    NoEmptyKeysIff(values, |values|);
    if ValidLimits(l) {
      PagingAcceptedIff(q, l);
    }
    forall key | key in q && !Reserved(key)
      ensures ParseFilterKey(key, q[key]).Key? <==>
                exists field, op :: PrintableKey(field, op) && key == PrintKey(field, op)
    {
      KeyParsesIff(key, q[key]);
    }
    if out :| Answers(q, l, out) {
      AnswerKeysParse(q, l, out);
    }
    if Acceptable(q, l) {
      var fs := FiltersExist(q);
      var p := PagingOf(q, l);
      assert Answers(q, l, Query(p.page, p.size, SortsOfValues(values), fs, p.cursor));
    }
  }

  lemma AnswerKeysParse(q: Values, l: Limits, out: Query)
    requires Answers(q, l, out)
    ensures forall key | key in q && !Reserved(key) :: ParseFilterKey(key, q[key]).Key?
  {
    forall key | key in q && !Reserved(key)
      ensures ParseFilterKey(key, q[key]).Key?
    {
      var f :| f in out.filters && KeyOf(f) == key;
      assert IsFilterOf(q, f);
      PrintedKeyParses(f.field, f.op, q[key]);
    }
  }

  lemma RefusedIff(q: Values, l: Limits)
    requires ValidLimits(l)
    ensures (exists e :: Refuses(q, l, e)) <==> !Acceptable(q, l)
  {
    AcceptedIff(q, l);
    if e :| Refuses(q, l, e) {
      if out :| Answers(q, l, out) {
        Deterministic(q, l, out, out, e);
      }
    }
    if !Acceptable(q, l) {
      RefusalExists(q, l);
    }
  }

  lemma RefusalExists(q: Values, l: Limits)
    requires ValidLimits(l) && !Acceptable(q, l)
    ensures exists e :: Refuses(q, l, e)
  {
    var values := Lookup(q, "sort");
    PagingAcceptedIff(q, l);
    NoEmptyKeysIff(values, |values|);
    if PagingOf(q, l).BadPaging? {
      assert Refuses(q, l, PagingOf(q, l).error);
    } else if !NoEmptyKeys(values, |values|) {
      var i := FirstEmpty(values, |values|);
      assert FirstBadSort(values, i, QueryError("sort", values[i], EmptySortKey));
      assert Refuses(q, l, QueryError("sort", values[i], EmptySortKey));
    } else {
      var key :| key in q && !Reserved(key) &&
                 !exists field, op :: PrintableKey(field, op) && key == PrintKey(field, op);
      KeyParsesIff(key, q[key]);
      assert Refuses(q, l, ParseFilterKey(key, q[key]).error);
    }
  }

  lemma {:induction false} FirstEmpty(values: seq<string>, n: nat) returns (i: nat)
    requires n <= |values| && !NoEmptyKeys(values, n)
    ensures i < n && !NoEmptyKey(values[i]) && NoEmptyKeys(values, i)
  {
    i := n - 1;
    if !NoEmptyKeys(values, n - 1) {
      i := FirstEmpty(values, n - 1);
    }
  }

  /** What the paging of an accepted query says: each parameter's own number or text where it is given,
      and the defaults where it is not. */
  lemma AnswerReadsPaging(q: Values, l: Limits, out: Query)
    requires Answers(q, l, out)
    ensures GoodPage(q, l) && GoodCursor(q, l) && GoodSize(q, l)
    ensures if Get(q, "size") == "" then out.size == l.defaultSize else Parse(Get(q, "size")) == Number(out.size)
    ensures out.cursor == Get(q, "cursor")
    ensures if Get(q, "page") != "" then Parse(Get(q, "page")) == Number(out.page)
            else out.page == if Get(q, "cursor") != "" then 0 else 1
  {
    PagingAcceptedIff(q, l);
  }

  /** The sort keys of an accepted query are the tokens of its sort parameters, in request order, a
      leading minus as the direction. */
  lemma AnswerReadsSort(q: Values, l: Limits, out: Query)
    requires Answers(q, l, out)
    ensures PrintSorts(out.sort) == Tokens(Lookup(q, "sort"))
    ensures forall s | s in out.sort :: PrintableSort(s)
  {
    var values := Lookup(q, "sort");
    SortsPrintTokens(values, |values|);
    assert values[..|values|] == values;
    ParsedSortsPrintable(values, |values|);
  }

  /** The first bad paging parameter, in the order page, cursor, size, is the refusal: which it is, what
      it held, and why. */
  lemma RefusalNamesFirstBad(q: Values, l: Limits, e: QueryError)
    requires Refuses(q, l, e)
    ensures !GoodPage(q, l) ==>
              e == QueryError("page", Get(q, "page"),
                              if Parse(Get(q, "page")).Number? && Parse(Get(q, "page")).value >= 1
                              then Above(MAX_INT / l.maxSize)
                              else NotAtLeastOne)
    ensures GoodPage(q, l) && !GoodCursor(q, l) ==>
              e == QueryError("cursor", Get(q, "cursor"), if l.cursor then CursorWithPage else NoCursorHere)
    ensures GoodPage(q, l) && GoodCursor(q, l) && !GoodSize(q, l) ==>
              e == QueryError("size", Get(q, "size"),
                              if Parse(Get(q, "size")).Number? && Parse(Get(q, "size")).value >= 1 then Above(l.maxSize)
                              else NotAtLeastOne)
  {
    PageInBounds(q, l);
  }

  /** Where a page of this size starts. */
  function Offset(page: int, size: int): int {
    (page - 1) * size
  }

  /** The data layer's offset fits an int at every size the limits admit. */
  lemma OffsetFits(q: Values, l: Limits, out: Query, size: int)
    requires Answers(q, l, out) && 1 <= size <= l.maxSize && out.page >= 1
    ensures 0 <= (out.page - 1) * size <= MAX_INT
  {
    AnswersPage(q, l, out);
    ProductFits(out.page, size, l.maxSize);
  }

  lemma AnswersPage(q: Values, l: Limits, out: Query)
    requires Answers(q, l, out)
    ensures out.page * l.maxSize <= MAX_INT
  {
    PagingPrintable(q, l);
  }

  lemma ProductFits(page: int, size: int, max: int)
    requires 1 <= page && 1 <= size <= max && page * max <= MAX_INT
    ensures 0 <= Offset(page, size) <= MAX_INT
  {
    Products(page - 1, size, max);
    Products(max, page - 1, page);
  }

  lemma Products(a: nat, b: nat, c: nat)
    requires b <= c
    ensures 0 <= a * b <= a * c && a * b == b * a && a * c == c * a
  {}

  // ---------------------------------------------------------------- the printer

  /** What a Query printed as a query string needs to be. */
  ghost predicate Printable(out: Query, l: Limits) {
    && ValidLimits(l)
    && PrintablePaging(out.page, out.cursor, out.size, l)
    && (forall s | s in out.sort :: PrintableSort(s))
    && Ordered(out.filters) && NoTies(out.filters) && (forall f | f in out.filters :: PrintableFilter(f))
  }

  function PrintFilters(fs: seq<Filter>): Values {
    if fs == [] then map[] else PrintFilters(fs[1..])[KeyOf(fs[0]) := fs[0].values]
  }

  /** The filters' parameters with the four reserved ones beside them. */
  function Parameters(m: Values, size: string, page: string, cursor: string, sort: seq<string>): Values {
    m + map["size" := [size]] + (if cursor != "" then map["cursor" := [cursor]] else map["page" := [page]])
    + (if sort == [] then map[] else map["sort" := sort])
  }

  function Print(out: Query): Values {
    Parameters(PrintFilters(out.filters), Format(out.size), Format(out.page), out.cursor,
               if out.sort == [] then [] else [Join(PrintSorts(out.sort), ',')])
  }

  lemma PrintedKeyNotReserved(f: Filter)
    requires PrintableFilter(f)
    ensures !Reserved(KeyOf(f))
  {
    if f.op != "" {
      assert '[' in KeyOf(f);
    }
  }

  lemma {:induction false} PrintedFilterKeys(fs: seq<Filter>)
    ensures forall key :: key in PrintFilters(fs) <==> exists f :: f in fs && KeyOf(f) == key
  {
    if fs != [] {
      PrintedFilterKeys(fs[1..]);
      assert fs == [fs[0]] + fs[1..];
    }
  }

  lemma TailKeysDiffer(fs: seq<Filter>, f: Filter)
    requires NoTies(fs) && fs != [] && f in fs[1..]
    ensures KeyOf(f) != KeyOf(fs[0])
  {
    var i :| 0 <= i < |fs[1..]| && fs[1..][i] == f;
    assert fs[i + 1] == f;
  }

  lemma {:induction false} PrintedFilterValues(fs: seq<Filter>)
    requires NoTies(fs)
    ensures forall f | f in fs :: KeyOf(f) in PrintFilters(fs) && PrintFilters(fs)[KeyOf(f)] == f.values
  {
    if fs != [] {
      PrintedFilterValues(fs[1..]);
      assert fs == [fs[0]] + fs[1..];
      forall f | f in fs[1..]
        ensures KeyOf(f) != KeyOf(fs[0])
      {
        TailKeysDiffer(fs, f);
      }
    }
  }

  lemma PrintedFilters(fs: seq<Filter>)
    requires NoTies(fs) && forall f | f in fs :: PrintableFilter(f)
    ensures forall f | f in fs :: KeyOf(f) in PrintFilters(fs) && PrintFilters(fs)[KeyOf(f)] == f.values
    ensures forall key | key in PrintFilters(fs) :: !Reserved(key) && exists f :: f in fs && KeyOf(f) == key
  {
    PrintedFilterKeys(fs);
    PrintedFilterValues(fs);
    forall f | f in fs
      ensures !Reserved(KeyOf(f))
    {
      PrintedKeyNotReserved(f);
    }
  }

  lemma PrintedFiltersParse(out: Query, l: Limits)
    requires Printable(out, l)
    ensures IsFilters(Print(out), out.filters)
  {
    var m, fs := PrintFilters(out.filters), out.filters;
    PrintedFilters(fs);
    ReservedUnprinted(fs);
    FiltersBeside(m, Print(out));
    forall f | f in fs
      ensures IsFilterOf(Print(out), f)
    {
      assert PrintableFilter(f) && KeyOf(f) in m;
    }
  }

  /** The reserved parameters leave every filter's parameter as it was, and add no other. */
  lemma FiltersBeside(m: Values, q: Values)
    requires exists size, page, cursor, sort :: q == Parameters(m, size, page, cursor, sort)
    requires forall key | key in m :: !Reserved(key)
    ensures forall key | key in m :: key in q && q[key] == m[key]
    ensures forall key | key in q && !Reserved(key) :: key in m
  {}

  lemma ReservedUnprinted(fs: seq<Filter>)
    requires NoTies(fs) && forall f | f in fs :: PrintableFilter(f)
    ensures var m := PrintFilters(fs); "page" !in m && "size" !in m && "cursor" !in m && "sort" !in m
  {
    PrintedFilters(fs);
    assert Reserved("page") && Reserved("size") && Reserved("cursor") && Reserved("sort");
  }

  lemma PrintedLookups(out: Query, l: Limits)
    requires Printable(out, l)
    ensures var q := Print(out);
            && Get(q, "size") == Format(out.size)
            && Get(q, "page") == (if out.cursor == "" then Format(out.page) else "")
            && Get(q, "cursor") == out.cursor
            && Lookup(q, "sort") == if out.sort == [] then [] else [Join(PrintSorts(out.sort), ',')]
  {
    ReservedUnprinted(out.filters);
    LookupsOver(PrintFilters(out.filters), Format(out.size), Format(out.page), out.cursor,
                if out.sort == [] then [] else [Join(PrintSorts(out.sort), ',')]);
  }

  lemma LookupsOver(m: Values, size: string, page: string, cursor: string, sort: seq<string>)
    requires "page" !in m && "size" !in m && "cursor" !in m && "sort" !in m
    ensures var q := Parameters(m, size, page, cursor, sort);
            && Get(q, "size") == size && Get(q, "page") == (if cursor == "" then page else "")
            && Get(q, "cursor") == cursor && Lookup(q, "sort") == sort
  {}

  lemma PrintedPagingParses(q: Values, out: Query, l: Limits)
    requires ValidLimits(l) && PrintablePaging(out.page, out.cursor, out.size, l)
    requires Get(q, "size") == Format(out.size) && Get(q, "cursor") == out.cursor
    requires Get(q, "page") == if out.cursor == "" then Format(out.page) else ""
    ensures PagingOf(q, l) == Paging(out.page, out.cursor, out.size)
  {
    ParseFormat(out.size);
    if out.cursor == "" {
      PageBound(out.page, l.maxSize);
      PageBelowProduct(out.page, l.maxSize);
      ParseFormat(out.page);
    }
  }

  lemma PageBelowProduct(page: int, max: int)
    requires 1 <= page && 1 <= max
    ensures page <= page * max
  {}

  /** Parsing what was printed gives the Query back. */
  lemma PrintedQueryParses(out: Query, l: Limits)
    requires Printable(out, l)
    ensures Answers(Print(out), l, out)
  {
    PrintedLookups(out, l);
    PrintedPagingParses(Print(out), out, l);
    PrintedFiltersParse(out, l);
    if out.sort != [] {
      PrintedSortsParse(out.sort);
    }
  }

  /** Every answer is printable, so for every accepted query, parsing its printed answer, under any
      walk of the printed map, gives that answer and no refusal. */
  lemma RoundTrip(q: Values, l: Limits, out: Query)
    requires Answers(q, l, out)
    ensures Printable(out, l)
    ensures Answers(Print(out), l, out)
    ensures forall other :: Answers(Print(out), l, other) ==> other == out
    ensures forall e :: !Refuses(Print(out), l, e)
  {
    PagingPrintable(q, l);
    ParsedSortsPrintable(Lookup(q, "sort"), |Lookup(q, "sort")|);
    FiltersPrintable(q, out.filters);
    PrintedQueryParses(out, l);
    var e0 := QueryError("", "", NoName);
    forall other | Answers(Print(out), l, other)
      ensures other == out
    {
      Deterministic(Print(out), l, out, other, e0);
    }
    forall e
      ensures !Refuses(Print(out), l, e)
    {
      Deterministic(Print(out), l, out, out, e);
    }
  }

  // ---------------------------------------------------------------- the code

  /** slices.SortFunc: some ordered rearrangement; nothing is promised about ties. */
  method SortFunc(fs: seq<Filter>) returns (sorted: seq<Filter>)
    ensures Ordered(sorted) && multiset(sorted) == multiset(fs)
  {
    sorted := [];
    for i := 0 to |fs|
      invariant Ordered(sorted) && multiset(sorted) == multiset(fs[..i])
    {
      assert fs[..i + 1] == fs[..i] + [fs[i]];
      sorted := Insert(sorted, fs[i]);
    }
    assert fs[..|fs|] == fs;
  }

  method Insert(fs: seq<Filter>, f: Filter) returns (r: seq<Filter>)
    requires Ordered(fs)
    ensures Ordered(r) && multiset(r) == multiset(fs + [f])
  {
    var k := |fs|;
    while k > 0 && !FilterAtMost(fs[k - 1], f)
      invariant 0 <= k <= |fs|
      invariant forall j | k <= j < |fs| :: FilterAtMost(f, fs[j])
    {
      FilterAtMostTotal(fs[k - 1], f);
      k := k - 1;
    }
    InsertKeepsOrder(fs, k, f);
    InsertKeepsMembers(fs, k, f);
    r := fs[..k] + [f] + fs[k..];
  }

  lemma InsertKeepsMembers(fs: seq<Filter>, k: nat, f: Filter)
    requires k <= |fs|
    ensures multiset(fs[..k] + [f] + fs[k..]) == multiset(fs + [f])
  {
    assert fs == fs[..k] + fs[k..];
  }

  lemma InsertKeepsOrder(fs: seq<Filter>, k: nat, f: Filter)
    requires k <= |fs| && Ordered(fs)
    requires k > 0 ==> FilterAtMost(fs[k - 1], f)
    requires forall j | k <= j < |fs| :: FilterAtMost(f, fs[j])
    ensures Ordered(fs[..k] + [f] + fs[k..])
  {
    forall i | 0 <= i < k
      ensures FilterAtMost(fs[i], f)
    {
      if i < k - 1 {
        FilterAtMostTransitive(fs[i], fs[k - 1], f);
      }
    }
  }

  /** What the walk has gathered after some keys, before the sort. */
  ghost predicate Gathered(q: Values, keys: seq<string>, fs: seq<Filter>) {
    && NoTies(fs)
    && (forall f | f in fs :: KeyOf(f) in keys && IsFilterOf(q, f))
    && (forall key | key in keys && key in q && !Reserved(key) :: exists f :: f in fs && KeyOf(f) == key)
  }

  lemma GatherOne(q: Values, keys: seq<string>, fs: seq<Filter>, key: string, f: Filter)
    requires Gathered(q, keys, fs) && key !in keys && key in q && !Reserved(key)
    requires ParseFilterKey(key, q[key]) == Key(f.field, f.op) && f.values == q[key]
    ensures Gathered(q, keys + [key], fs + [f])
  {
    ParsedKeyPrints(key, q[key]);
    assert IsFilterOf(q, f);
    GrowGathering(q, keys, fs, key, f);
  }

  lemma GrowGathering(q: Values, keys: seq<string>, fs: seq<Filter>, key: string, f: Filter)
    requires Gathered(q, keys, fs) && key !in keys && KeyOf(f) == key && IsFilterOf(q, f)
    ensures Gathered(q, keys + [key], fs + [f])
  {
    forall i | 0 <= i < |fs|
      ensures KeyOf(fs[i]) != KeyOf(f)
    {
      assert fs[i] in fs;
    }
    forall k | k in keys + [key] && k in q && !Reserved(k)
      ensures exists g :: g in fs + [f] && KeyOf(g) == k
    {
      if k in keys {
        var g :| g in fs && KeyOf(g) == k;
        assert g in fs + [f];
      } else {
        assert f in fs + [f];
      }
    }
  }

  lemma SortedGathering(q: Values, keys: seq<string>, fs: seq<Filter>, sorted: seq<Filter>)
    requires Gathered(q, keys, fs) && (forall key | key in q :: key in keys)
    requires Ordered(sorted) && multiset(sorted) == multiset(fs)
    ensures IsFilters(q, sorted)
  {
    forall f
      ensures f in sorted <==> f in fs
    {
      assert f in multiset(sorted) <==> f in multiset(fs);
    }
    forall f, g | f in fs && g in fs && KeyOf(f) == KeyOf(g)
      ensures f == g
    {
      var i :| 0 <= i < |fs| && fs[i] == f;
      var j :| 0 <= j < |fs| && fs[j] == g;
    }
    NoTiesInPermutation(fs, sorted);
  }

  /** A rearrangement of filters with distinct keys has no ties either. */
  lemma NoTiesInPermutation(fs: seq<Filter>, sorted: seq<Filter>)
    requires NoTies(fs) && multiset(sorted) == multiset(fs)
    requires forall f, g | f in fs && g in fs && KeyOf(f) == KeyOf(g) :: f == g
    ensures NoTies(sorted)
  {
    forall i, j | 0 <= i < j < |sorted|
      ensures KeyOf(sorted[i]) != KeyOf(sorted[j])
    {
      var f, g := sorted[i], sorted[j];
      assert f in multiset(sorted) && g in multiset(sorted);
      OncePerKey(fs, f);
      assert sorted == sorted[..i] + [f] + sorted[i + 1..j] + [g] + sorted[j + 1..];
      assert f == g ==> multiset(sorted)[f] >= 2;
    }
  }

  lemma {:induction false} OncePerKey(fs: seq<Filter>, f: Filter)
    requires NoTies(fs)
    ensures multiset(fs)[f] <= 1
  {
    if fs != [] {
      assert fs == [fs[0]] + fs[1..];
      OncePerKey(fs[1..], f);
      TailMembers(fs, f);
    }
  }

  /** ParseQuery, walking the parameters in the given order. */
  method ParseQuery(q: Values, l: Limits, order: seq<string>) returns (r: Outcome)
    requires (forall key :: key in order <==> key in q) && (forall i, j | 0 <= i < j < |order| :: order[i] != order[j])
    ensures IsOutcome(q, l, r)
  {
    if l.defaultSize < 1 || l.maxSize < l.defaultSize {
      return InvalidLimits;
    }
    var p := ParsePaging(q, l);
    if p.BadPaging? {
      return Rejected(p.error);
    }
    var sorts, badSort := ParseSorts(Lookup(q, "sort"));
    if badSort.Some? {
      return Rejected(badSort.value);
    }
    var filters, badKey := GatherFilters(q, order);
    if badKey.Some? {
      return Rejected(badKey.value);
    }
    var sorted := SortFunc(filters);
    SortedGathering(q, order, filters, sorted);
    return Parsed(Query(p.page, p.size, sorts, sorted, p.cursor));
  }

  /** The page, cursor and size parameters, in that order; the first fault ends the parse. */
  method ParsePaging(q: Values, l: Limits) returns (out: Paging)
    requires ValidLimits(l)
    ensures out == PagingOf(q, l)
  {
    out := Paging(1, "", l.defaultSize);
    var v := Get(q, "page");
    if v != "" {
      var n := Parse(v);
      if !n.Number? || n.value < 1 {
        return BadPaging(QueryError("page", v, NotAtLeastOne));
      }
      var last := MAX_INT / l.maxSize;
      if n.value > last {
        return BadPaging(QueryError("page", v, Above(last)));
      }
      out := out.(page := n.value);
    }
    v := Get(q, "cursor");
    if v != "" {
      if !l.cursor {
        return BadPaging(QueryError("cursor", v, NoCursorHere));
      }
      if Get(q, "page") != "" {
        return BadPaging(QueryError("cursor", v, CursorWithPage));
      }
      out := out.(page := 0, cursor := v);
    }
    v := Get(q, "size");
    if v != "" {
      var n := Parse(v);
      if !n.Number? || n.value < 1 {
        return BadPaging(QueryError("size", v, NotAtLeastOne));
      }
      if n.value > l.maxSize {
        return BadPaging(QueryError("size", v, Above(l.maxSize)));
      }
      out := out.(size := n.value);
    }
  }

  /** The sort loop: every parameter's tokens in request order, or the first value with an empty key. */
  method ParseSorts(values: seq<string>) returns (sorts: seq<Sort>, bad: Option<QueryError>)
    ensures bad.None? ==> sorts == SortsOfValues(values) && NoEmptyKeys(values, |values|)
    ensures bad.Some? ==> exists i :: FirstBadSort(values, i, bad.value)
  {
    sorts := [];
    for i := 0 to |values|
      invariant SortsUpTo(values, i, sorts)
    {
      var more, ok := ParseSort(values[i]);
      if !ok {
        bad := Some(QueryError("sort", values[i], EmptySortKey));
        assert FirstBadSort(values, i, bad.value);
        return;
      }
      NextValueSorts(values, i, sorts);
      sorts := sorts + more;
    }
    return sorts, None;
  }

  /** The loop has read the first i values, all without an empty key. */
  ghost predicate SortsUpTo(values: seq<string>, i: nat, sorts: seq<Sort>) {
    i <= |values| && sorts == SortsOfFirst(values, i) && NoEmptyKeys(values, i)
  }

  lemma NextValueSorts(values: seq<string>, i: nat, sorts: seq<Sort>)
    requires i < |values| && SortsUpTo(values, i, sorts) && NoEmptyKey(values[i])
    ensures SortsUpTo(values, i + 1, sorts + SortsOfValue(values[i]))
  {
    OneMoreNoEmpty(values, i);
  }

  lemma OneMoreNoEmpty(values: seq<string>, i: nat)
    requires i < |values| && NoEmptyKeys(values, i) && NoEmptyKey(values[i])
    ensures NoEmptyKeys(values, i + 1)
  {}

  /** One sort parameter's tokens; an empty value reads as omitted. */
  method ParseSort(v: string) returns (sorts: seq<Sort>, ok: bool)
    ensures ok <==> NoEmptyKey(v)
    ensures ok ==> sorts == SortsOfValue(v)
  {
    sorts := [];
    if v == "" {
      return sorts, true;
    }
    var tokens := Split(v, ',');
    for j := 0 to |tokens|
      invariant sorts == SortsOf(tokens[..j])
      invariant forall k | 0 <= k < j :: SortsOf(tokens)[k].field != ""
    {
      var s := Sort(TrimPrefix(tokens[j], "-"), "-" <= tokens[j]);
      assert SortsOf(tokens)[j] == s;
      if s.field == "" {
        assert s in SortsOfValue(v);
        return sorts, false;
      }
      sorts := sorts + [s];
    }
    assert tokens[..|tokens|] == tokens;
    return sorts, true;
  }

  /** The filter loop over the map, in the order the walk takes. */
  method GatherFilters(q: Values, order: seq<string>) returns (filters: seq<Filter>, bad: Option<QueryError>)
    requires (forall key | key in order :: key in q) && (forall i, j | 0 <= i < j < |order| :: order[i] != order[j])
    ensures bad.None? ==> Gathered(q, order, filters)
    ensures bad.Some? ==> exists key | key in q :: !Reserved(key) && ParseFilterKey(key, q[key]) == BadKey(bad.value)
  {
    filters := [];
    for i := 0 to |order|
      invariant Gathered(q, order[..i], filters)
    {
      var key := order[i];
      assert key in order;
      assert order[..i + 1] == order[..i] + [key];
      if !Reserved(key) {
        var k := ParseFilterKey(key, q[key]);
        if k.BadKey? {
          return filters, Some(k.error);
        }
        var f := Filter(k.field, k.op, q[key]);
        GatherOne(q, order[..i], filters, key, f);
        filters := filters + [f];
      }
    }
    assert order[..|order|] == order;
    return filters, None;
  }
}
