/** ErrorWriter: the problem a returned error maps to, and what of its text reaches the wire. */
module Errors {
  import opened Options
  import opened Problems

  datatype Kind = QueryKind | PreconditionKind | BodyKind | UploadKind | PathKind

  /** The package's own errors, by what their status depends on, and the nil pointer of each kind. */
  datatype Own =
    | QueryError
    | PreconditionError(missing: bool)
    | BodyError(tooLarge: bool)
    | UploadError(header: string, tooLarge: bool)
    | PathError
    | NilPointer(kind: Kind)

  /** The status method; None where it reads a field of a nil pointer, which is a panic. */
  function StatusOf(e: Own): Option<int> {
    match e
    case QueryError => Some(400)
    case PreconditionError(missing) => Some(if missing then 428 else 400)
    case BodyError(tooLarge) => Some(if tooLarge then 413 else 400)
    case UploadError(header, tooLarge) =>
      Some(if tooLarge then 413 else if header == "Content-Length" then 411 else 415)
    case PathError => Some(400)
    case NilPointer(kind) => if kind == QueryKind || kind == PathKind then Some(400) else None
  }

  /** An error tree. A bare Problem, or a pointer to one that may be nil, wraps nothing; Wrap is an
      error with one cause, Join one with several. Each carries what its Error method says. A late
      text is put together from the causes' on every call, as errors.Join does; any other was fixed
      when the error was made, as fmt.Errorf does. */
  datatype Err =
    | OwnErr(own: Own, text: string)
    | PlainErr(text: string)
    | Canceled(text: string)
    | ProblemErr(problem: Problem, text: string)
    | PointerErr(pointer: Option<Problem>, text: string)
    | Wrap(text: string, late: bool, cause: Err)
    | Join(text: string, late: bool, causes: seq<Err>)

  /** The Error method returns: it reads no field of a nil pointer. */
  predicate Readable(e: Err) {
    match e
    case OwnErr(own, _) => !own.NilPointer?
    case PointerErr(pointer, _) => pointer.Some?
    case Wrap(_, late, cause) => late ==> Readable(cause)
    case Join(_, late, causes) => late ==> forall i | 0 <= i < |causes| :: Readable(causes[i])
    case _ => true
  }

  // ---------------------------------------------------------------- searching the tree

  /** errors.AsType: the first own error in a depth-first walk, the error before its causes. */
  function FirstOwn(e: Err): Option<Own>
    decreases e, 0
  {
    match e
    case OwnErr(own, _) => Some(own)
    case Wrap(_, _, cause) => FirstOwn(cause)
    case Join(_, _, causes) => FirstOwnOf(e, 0)
    case _ => None
  }

  function FirstOwnOf(e: Err, k: nat): Option<Own>
    requires e.Join? && k <= |e.causes|
    decreases e, 0, |e.causes| - k
  {
    if k == |e.causes| then None
    else if FirstOwn(e.causes[k]).Some? then FirstOwn(e.causes[k])
    else FirstOwnOf(e, k + 1)
  }

  /** Which cause to take at each level, from the root down. */
  type Path = seq<nat>

  /** own is the error at the end of this path. */
  predicate At(e: Err, p: Path, own: Own) {
    match e
    case OwnErr(o, _) => p == [] && o == own
    case Wrap(_, _, cause) => p != [] && p[0] == 0 && At(cause, p[1..], own)
    case Join(_, _, causes) => p != [] && p[0] < |causes| && At(causes[p[0]], p[1..], own)
    case _ => false
  }

  /** The order of a depth-first walk. */
  predicate Before(p: Path, q: Path) {
    q != [] && (p == [] || p[0] < q[0] || (p[0] == q[0] && Before(p[1..], q[1..])))
  }

  ghost predicate Occurs(e: Err, own: Own) {
    exists p: Path :: At(e, p, own)
  }

  /** own is at p, and every other own error comes later. */
  ghost predicate FirstAt(e: Err, p: Path, own: Own) {
    At(e, p, own) && forall q: Path, o | At(e, q, o) :: p == q || Before(p, q)
  }

  /** errors.Is(e, context.Canceled). */
  predicate IsCanceled(e: Err) {
    match e
    case Canceled(_) => true
    case Wrap(_, _, cause) => IsCanceled(cause)
    case Join(_, _, causes) => exists i | 0 <= i < |causes| :: IsCanceled(causes[i])
    case _ => false
  }

  /** The walk finds the own error that comes first, and none exactly when none occurs. */
  lemma {:induction false} FirstOwnIsFirst(e: Err) returns (p: Path)
    ensures FirstOwn(e).Some? ==> FirstAt(e, p, FirstOwn(e).value)
    ensures FirstOwn(e).None? ==> forall own :: !Occurs(e, own)
    decreases e, 1
  {
    p := [];
    match e
    case Wrap(_, _, cause) =>
      var inner := FirstOwnIsFirst(cause);
      p := [0] + inner;
      assert p[1..] == inner;
      forall q: Path, o | At(e, q, o)
        ensures FirstOwn(e).Some? && (p == q || Before(p, q))
      {
        assert At(cause, q[1..], o) && q == [0] + q[1..];
        assert Occurs(cause, o);
      }
    case Join(_, _, causes) =>
      p := FirstOwnOfIsFirst(e, 0);
    case _ =>
  }

  lemma {:induction false} FirstOwnOfIsFirst(e: Err, k: nat) returns (p: Path)
    requires e.Join? && k <= |e.causes|
    ensures FirstOwnOf(e, k).Some? ==> At(e, p, FirstOwnOf(e, k).value)
    ensures forall q: Path, o | At(e, q, o) && q[0] >= k :: FirstOwnOf(e, k).Some? && (p == q || Before(p, q))
    decreases e, 0, |e.causes| - k
  {
    p := [];
    if k < |e.causes| {
      var inner := FirstOwnIsFirst(e.causes[k]);
      var later := FirstOwnOfIsFirst(e, k + 1);
      p := if FirstOwn(e.causes[k]).Some? then [k] + inner else later;
      assert ([k] + inner)[1..] == inner;
      forall q: Path, o | At(e, q, o) && q[0] >= k
        ensures FirstOwnOf(e, k).Some? && (p == q || Before(p, q))
      {
        if q[0] == k {
          assert At(e.causes[k], q[1..], o) && q == [k] + q[1..];
          assert Occurs(e.causes[k], o);
        }
      }
    }
  }

  lemma {:induction false} BeforeOneWay(p: Path, q: Path)
    ensures !(Before(p, q) && Before(q, p))
  {
    if p != [] && q != [] {
      BeforeOneWay(p[1..], q[1..]);
    }
  }

  lemma {:induction false} OneAtAPath(e: Err, p: Path, a: Own, b: Own)
    requires At(e, p, a) && At(e, p, b)
    ensures a == b
  {
    match e
    case Wrap(_, _, cause) => OneAtAPath(cause, p[1..], a, b);
    case Join(_, _, causes) => OneAtAPath(causes[p[0]], p[1..], a, b);
    case _ =>
  }

  /** Only one own error comes first. */
  lemma FirstIsOne(e: Err, p: Path, a: Own, q: Path, b: Own)
    requires FirstAt(e, p, a) && FirstAt(e, q, b)
    ensures p == q && a == b
  {
    BeforeOneWay(p, q);
    OneAtAPath(e, p, a, b);
  }

  // ---------------------------------------------------------------- the mapping

  type Matcher = Err -> Option<Problem>

  /** A problem, and whether it was returned whole. */
  datatype Mapping = Mapping(problem: Problem, whole: bool)

  function Bare(status: int): Problem {
    Problem("", "", status, "", "", None)
  }

  function WithStatus(p: Problem): Problem {
    if p.status == 0 then p.(status := 500) else p
  }

  /** The problem e itself is, when it is one and not a nil pointer. */
  function Whole(e: Err): Option<Problem> {
    match e
    case ProblemErr(p, _) => Some(p)
    case PointerErr(p, _) => p
    case _ => None
  }

  /** What e maps to, by priority: the own error that comes first in the tree, then e as a problem,
      then the first matcher that claims it, then a 500. None is the panic of a nil pointer's status. */
  ghost predicate MapsTo(matchers: seq<Matcher>, e: Err, m: Option<Mapping>) {
    if exists own :: Occurs(e, own) then exists p: Path, own :: FirstAt(e, p, own) && m == OwnMapping(own)
    else if Whole(e).Some? then m == Some(Mapping(WithStatus(Whole(e).value), true))
    else if exists i | 0 <= i < |matchers| :: matchers[i](e).Some? then
      exists i | 0 <= i < |matchers| ::
        && matchers[i](e).Some? && (forall j | 0 <= j < i :: matchers[j](e).None?)
        && m == Some(Mapping(WithStatus(matchers[i](e).value), false))
    else m == Some(Mapping(Bare(500), false))
  }

  function OwnMapping(own: Own): Option<Mapping> {
    if StatusOf(own).None? then None else Some(Mapping(Bare(StatusOf(own).value), false))
  }

  /** The mapping is a function of the error. */
  lemma MapsToOne(matchers: seq<Matcher>, e: Err, m: Option<Mapping>, n: Option<Mapping>)
    requires MapsTo(matchers, e, m) && MapsTo(matchers, e, n)
    ensures m == n
  {
    if exists own :: Occurs(e, own) {
      var p, a :| FirstAt(e, p, a) && m == OwnMapping(a);
      var q, b :| FirstAt(e, q, b) && n == OwnMapping(b);
      FirstIsOne(e, p, a, q, b);
    }
  }

  const DEFAULT_DETAIL: set<int> := {400, 411, 413, 415, 428}

  /** The first own error is answered under its own status: a malformed parameter, precondition, body or
      path by 400, a missing precondition by 428, too large a body or upload by 413, an upload of no
      declared length by 411 and of any other refused header by 415. */
  lemma OwnStatuses(matchers: seq<Matcher>, e: Err, p: Path, own: Own, m: Option<Mapping>)
    requires FirstAt(e, p, own) && MapsTo(matchers, e, m)
    ensures own == QueryError || own == PathError ==> m == Some(Mapping(Bare(400), false))
    ensures own == PreconditionError(true) ==> m == Some(Mapping(Bare(428), false))
    ensures own == PreconditionError(false) ==> m == Some(Mapping(Bare(400), false))
    ensures own == BodyError(true) ==> m == Some(Mapping(Bare(413), false))
    ensures own == BodyError(false) ==> m == Some(Mapping(Bare(400), false))
    ensures own.UploadError? && own.tooLarge ==> m == Some(Mapping(Bare(413), false))
    ensures own == UploadError("Content-Length", false) ==> m == Some(Mapping(Bare(411), false))
    ensures own.UploadError? && !own.tooLarge && own.header != "Content-Length" ==> m == Some(Mapping(Bare(415), false))
    ensures own == NilPointer(QueryKind) || own == NilPointer(PathKind) ==> m == Some(Mapping(Bare(400), false))
    ensures own.NilPointer? && own.kind != QueryKind && own.kind != PathKind ==> m == None
    ensures m.Some? ==> var b := m.value.problem; b.kind == b.title == b.detail == b.instance == "" && b.extras == None
  {
    assert Occurs(e, own);
    var q, o :| FirstAt(e, q, o) && m == OwnMapping(o);
    FirstIsOne(e, p, own, q, o);
  }

  /** Where no own error occurs, a problem is sent as it is and the first matcher's as it claimed it, a
      status of 0 as 500; what nothing claims is a bare 500. */
  lemma OtherStatuses(matchers: seq<Matcher>, e: Err, m: Option<Mapping>)
    requires MapsTo(matchers, e, m) && forall own :: !Occurs(e, own)
    ensures m.Some? && m.value.problem.status != 0
    ensures e.ProblemErr? ==> m == Some(Mapping(Claimed(e.problem), true))
    ensures e.PointerErr? && e.pointer.Some? ==> m == Some(Mapping(Claimed(e.pointer.value), true))
    ensures !IsWhole(e) && (forall i | 0 <= i < |matchers| :: matchers[i](e).None?) ==>
              m == Some(Mapping(Problem("", "", 500, "", "", None), false))
  {}

  /** A Problem, or a pointer to one that is not nil. */
  predicate IsWhole(e: Err) {
    e.ProblemErr? || (e.PointerErr? && e.pointer.Some?)
  }

  lemma FirstClaimStatus(matchers: seq<Matcher>, e: Err, i: nat, m: Option<Mapping>)
    requires MapsTo(matchers, e, m) && (forall own :: !Occurs(e, own)) && !IsWhole(e)
    requires i < |matchers| && matchers[i](e).Some? && forall j | 0 <= j < i :: matchers[j](e).None?
    ensures m == Some(Mapping(Claimed(matchers[i](e).value), false))
  {
    var k :| 0 <= k < |matchers| && matchers[k](e).Some? && (forall j | 0 <= j < k :: matchers[j](e).None?)
             && m == Some(Mapping(WithStatus(matchers[k](e).value), false));
    assert k == i;
  }

  /** The problem as it was claimed, but for a status of 0. */
  function Claimed(p: Problem): Problem {
    Problem(p.kind, p.title, if p.status == 0 then 500 else p.status, p.detail, p.instance, p.extras)
  }

  lemma MappedStatusIsSet(matchers: seq<Matcher>, e: Err, m: Option<Mapping>)
    requires MapsTo(matchers, e, m) && m.Some?
    ensures m.value.problem.status != 0
  {
    if exists own :: Occurs(e, own) {
      var p, own :| FirstAt(e, p, own) && m == OwnMapping(own);
    } else {
      OtherStatuses(matchers, e, m);
    }
  }

  /** Every own error, however deep it is wrapped, maps to a status whose problems carry the text; the
      panic is for a nil pointer alone. */
  lemma OwnErrorsCarryDetail(matchers: seq<Matcher>, e: Err, own: Own, m: Option<Mapping>)
    requires Occurs(e, own) && MapsTo(matchers, e, m)
    ensures m.Some? ==>
              && m.value.problem.status in DEFAULT_DETAIL && !m.value.whole && m.value.problem.detail == ""
              && exists o :: Occurs(e, o) && StatusOf(o) == Some(m.value.problem.status)
    ensures m.None? ==> exists o :: Occurs(e, o) && o.NilPointer?
  {
    var p, o :| FirstAt(e, p, o) && m == OwnMapping(o);
    assert At(e, p, o);
    assert Occurs(e, o);
  }

  /** No nil pointer anywhere in the tree. */
  predicate NoNil(e: Err) {
    match e
    case OwnErr(own, _) => !own.NilPointer?
    case PointerErr(pointer, _) => pointer.Some?
    case Wrap(_, _, cause) => NoNil(cause)
    case Join(_, _, causes) => forall i | 0 <= i < |causes| :: NoNil(causes[i])
    case _ => true
  }

  lemma {:induction false} NoNilAt(e: Err, p: Path, own: Own)
    requires NoNil(e) && At(e, p, own)
    ensures !own.NilPointer?
  {
    match e
    case Wrap(_, _, cause) => NoNilAt(cause, p[1..], own);
    case Join(_, _, causes) => NoNilAt(causes[p[0]], p[1..], own);
    case _ =>
  }

  lemma {:induction false} NoNilReads(e: Err)
    requires NoNil(e)
    ensures Readable(e)
  {
    match e
    case Wrap(_, _, cause) => NoNilReads(cause);
    case Join(_, _, causes) =>
      forall i | 0 <= i < |causes|
        ensures Readable(causes[i])
      {
        NoNilReads(causes[i]);
      }
    case _ =>
  }

  /** An error built without nil pointers has a text and maps to a problem. */
  lemma NoNilNoPanic(matchers: seq<Matcher>, e: Err, m: Option<Mapping>)
    requires NoNil(e) && MapsTo(matchers, e, m)
    ensures Readable(e) && m.Some?
  {
    NoNilReads(e);
    if m.None? {
      var p, o :| FirstAt(e, p, o) && m == OwnMapping(o);
      NoNilAt(e, p, o);
    }
  }

  // ---------------------------------------------------------------- the document sent

  /** The error text becomes the detail of this mapping, under this detail set. */
  predicate UsesText(m: Mapping, detail: set<int>) {
    !m.whole && m.problem.detail == "" && m.problem.status in detail
  }

  /** Write calls the error's Error method: for the record of a 5xx, or for the detail. */
  predicate WantsText(m: Mapping, detail: set<int>) {
    m.problem.status >= 500 || UsesText(m, detail)
  }

  function SentProblem(m: Mapping, detail: set<int>, text: string): Problem {
    if UsesText(m, detail) then m.problem.(detail := text) else m.problem
  }

  function SentDocument(m: Mapping, detail: set<int>, text: string, r: Request, statusText: StatusText): Document {
    DocumentFor(SentProblem(m, detail, text), r, statusText)
  }

  /** Two errors that map alike send the same document unless their texts differ, the rule lets the
      text out, and no extra member hides it; and then they send different ones. So outside the
      detail set no text ever reaches the wire. */
  lemma TextLeaksIff(m: Mapping, detail: set<int>, a: string, b: string, r: Request, statusText: StatusText)
    ensures SentDocument(m, detail, a, r, statusText) == SentDocument(m, detail, b, r, statusText)
            <==> (a == b || m.whole || m.problem.detail != "" || m.problem.status !in detail
                  || "detail" in Extras(m.problem))
    ensures m.problem.status !in detail ==>
              SentDocument(m, detail, a, r, statusText) == SentDocument(m, detail, b, r, statusText)
  {
    if UsesText(m, detail) {
      DetailInDocument(m.problem, a, r, statusText);
      DetailInDocument(m.problem, b, r, statusText);
      if "detail" in Extras(m.problem) {
        DetailHidden(m.problem, a, b, r, statusText);
      }
    }
  }

  /** The detail member of a written document is the problem's own, unless an extra overrides it. */
  lemma DetailInDocument(p: Problem, text: string, r: Request, statusText: StatusText)
    ensures var doc := DocumentFor(p.(detail := text), r, statusText);
            "detail" !in Extras(p) ==>
              (if text == "" then "detail" !in doc else "detail" in doc && doc["detail"] == Line(text))
  {
    var q := WithDefaults(ForRequest(p.(detail := text), r), statusText);
    assert q.detail == text;
    assert "detail" !in Extras(p) ==> "detail" !in Extras(q);
    MarshalDetail(q);
  }

  lemma MarshalDetail(q: Problem)
    ensures "detail" !in Extras(q) ==>
              if q.detail == "" then "detail" !in Marshal(q)
                else "detail" in Marshal(q) && Marshal(q)["detail"] == Line(q.detail)
  {
    MarshalMembers(q);
  }

  lemma StandardsAgree(x: Problem, y: Problem)
    requires y == x.(detail := y.detail)
    ensures forall key | key != "detail" ::
              (key in Standard(x) <==> key in Standard(y)) &&
              (key in Standard(x) ==> Standard(x)[key] == Standard(y)[key])
  {}

  lemma MergesAlike(a: Document, b: Document, over: Document)
    requires forall key | key !in over :: (key in a <==> key in b) && (key in a ==> a[key] == b[key])
    ensures a + over == b + over
  {}

  lemma HiddenInMarshal(x: Problem, y: Problem)
    requires y == x.(detail := y.detail) && "detail" in Extras(x)
    ensures Marshal(x) == Marshal(y)
  {
    StandardsAgree(x, y);
    MergesAlike(Standard(x), Standard(y), Extras(x));
  }

  lemma RequestKeepsDetail(p: Problem, text: string, r: Request)
    ensures ForRequest(p.(detail := text), r) == ForRequest(p, r).(detail := text)
  {}

  lemma DefaultsAddNoDetail(p: Problem, text: string, statusText: StatusText)
    ensures WithDefaults(p.(detail := text), statusText) == WithDefaults(p, statusText).(detail := text)
  {}

  lemma DefaultsKeepDetail(p: Problem, text: string, r: Request, statusText: StatusText)
    ensures WithDefaults(ForRequest(p.(detail := text), r), statusText)
            == WithDefaults(ForRequest(p, r), statusText).(detail := text)
  {
    RequestKeepsDetail(p, text, r);
    DefaultsAddNoDetail(ForRequest(p, r), text, statusText);
  }

  lemma ExtrasKept(p: Problem, key: string, r: Request, statusText: StatusText)
    requires key in Extras(p)
    ensures key in Extras(WithDefaults(ForRequest(p, r), statusText))
  {}

  lemma DetailHidden(p: Problem, a: string, b: string, r: Request, statusText: StatusText)
    requires "detail" in Extras(p)
    ensures DocumentFor(p.(detail := a), r, statusText) == DocumentFor(p.(detail := b), r, statusText)
  {
    var q := WithDefaults(ForRequest(p, r), statusText);
    DefaultsKeepDetail(p, a, r, statusText);
    DefaultsKeepDetail(p, b, r, statusText);
    ExtrasKept(p, "detail", r, statusText);
    HiddenInMarshal(q.(detail := a), q.(detail := b));
  }

  // ---------------------------------------------------------------- the code

  datatype Level = Debug | Warn | Error

  /** The level of a 5xx's cause; clientGone says that the request's own context has ended. */
  function CauseLevel(e: Err, clientGone: bool, status: int): Level {
    if IsCanceled(e) && clientGone then Debug else if status == 503 then Warn else Error
  }

  /** The error at the end of this path. */
  function Node(e: Err, p: Path): Option<Err>
    decreases |p|
  {
    if p == [] then Some(e)
    else match e
         case Wrap(_, _, cause) => if p[0] == 0 then Node(cause, p[1..]) else None
         case Join(_, _, causes) => if p[0] < |causes| then Node(causes[p[0]], p[1..]) else None
         case _ => None
  }

  /** Every step of this path is into a cause whose text goes into its parent's late. */
  predicate Late(e: Err, p: Path)
    decreases |p|
  {
    if p == [] then true
    else match e
         case Wrap(_, late, cause) => late && p[0] == 0 && Late(cause, p[1..])
         case Join(_, late, causes) => late && p[0] < |causes| && Late(causes[p[0]], p[1..])
         case _ => false
  }

  predicate IsNil(e: Err) {
    (e.PointerErr? && e.pointer.None?) || (e.OwnErr? && e.own.NilPointer?)
  }

  ghost predicate ReachesNil(e: Err) {
    exists p: Path :: Late(e, p) && Node(e, p).Some? && IsNil(Node(e, p).value)
  }

  lemma LateCause(e: Err, i: nat, p: Path)
    requires e.Wrap? ==> i == 0 && e.late
    requires e.Join? ==> i < |e.causes| && e.late
    requires e.Wrap? || e.Join?
    ensures var cause := if e.Wrap? then e.cause else e.causes[i];
            (Late(e, [i] + p) <==> Late(cause, p)) && Node(e, [i] + p) == Node(cause, p)
  {
    assert ([i] + p)[1..] == p;
  }

  /** An error has no text exactly when a nil pointer is reached from it through late texts alone. */
  lemma {:induction false} ReadableIff(e: Err)
    ensures Readable(e) <==> !ReachesNil(e)
  {
    if IsNil(e) {
      assert Late(e, []) && Node(e, []).Some?;
    }
    match e
    case Wrap(_, late, cause) =>
      if late {
        ReadableIff(cause);
        LateCausesReach(e);
      }
    case Join(_, late, causes) =>
      if late {
        forall i | 0 <= i < |causes|
          ensures Readable(causes[i]) <==> !ReachesNil(causes[i])
        {
          ReadableIff(causes[i]);
        }
        LateCausesReach(e);
      }
    case _ =>
  }

  lemma LateCausesReach(e: Err)
    requires (e.Wrap? || e.Join?) && e.late
    ensures e.Wrap? ==> (ReachesNil(e) <==> ReachesNil(e.cause))
    ensures e.Join? ==> (ReachesNil(e) <==> exists i | 0 <= i < |e.causes| :: ReachesNil(e.causes[i]))
  {
    if p: Path :| Late(e, p) && Node(e, p).Some? && IsNil(Node(e, p).value) {
      var cause := if e.Wrap? then e.cause else e.causes[p[0]];
      assert Late(cause, p[1..]) && Node(cause, p[1..]) == Node(e, p);
      assert ReachesNil(cause);
    }
    if e.Wrap? && ReachesNil(e.cause) {
      var p: Path :| Late(e.cause, p) && Node(e.cause, p).Some? && IsNil(Node(e.cause, p).value);
      LateCause(e, 0, p);
    }
    if e.Join? && exists i | 0 <= i < |e.causes| :: ReachesNil(e.causes[i]) {
      var i :| 0 <= i < |e.causes| && ReachesNil(e.causes[i]);
      var p: Path :| Late(e.causes[i], p) && Node(e.causes[i], p).Some? && IsNil(Node(e.causes[i], p).value);
      LateCause(e, i, p);
    }
  }

  ghost predicate HoldsCanceled(e: Err) {
    exists p: Path :: Node(e, p).Some? && Node(e, p).value.Canceled?
  }

  lemma {:induction false} CanceledIsHeld(e: Err)
    ensures IsCanceled(e) <==> HoldsCanceled(e)
  {
    match e
    case Canceled(_) =>
      assert Node(e, []).Some?;
    case Wrap(_, _, cause) =>
      CanceledIsHeld(cause);
      if p: Path :| Node(cause, p).Some? && Node(cause, p).value.Canceled? {
        assert Node(e, [0] + p) == Node(cause, p) by { assert ([0] + p)[1..] == p; }
      }
      if p: Path :| Node(e, p).Some? && Node(e, p).value.Canceled? {
        assert Node(cause, p[1..]) == Node(e, p);
      }
    case Join(_, _, causes) =>
      forall i | 0 <= i < |causes|
        ensures IsCanceled(causes[i]) <==> HoldsCanceled(causes[i])
      {
        CanceledIsHeld(causes[i]);
      }
      if i :| 0 <= i < |causes| && IsCanceled(causes[i]) {
        var p: Path :| Node(causes[i], p).Some? && Node(causes[i], p).value.Canceled?;
        assert Node(e, [i] + p) == Node(causes[i], p) by { assert ([i] + p)[1..] == p; }
      }
      if p: Path :| Node(e, p).Some? && Node(e, p).value.Canceled? {
        assert Node(causes[p[0]], p[1..]) == Node(e, p);
        assert HoldsCanceled(causes[p[0]]);
      }
    case _ =>
  }

  /** A cause is at debug when the client's own cancellation is somewhere in it, at warn when it is a
      503 otherwise, and at error in every other case. */
  lemma CauseLevels(e: Err, clientGone: bool, status: int)
    ensures CauseLevel(e, clientGone, status) == Debug <==> clientGone && HoldsCanceled(e)
    ensures CauseLevel(e, clientGone, status) == Warn <==> status == 503 && !(clientGone && HoldsCanceled(e))
  {
    CanceledIsHeld(e);
  }

  class ErrorWriter {
    const matchers: seq<Matcher>
    var detail: set<int>
    var logged: seq<(Level, int)>

    constructor (ms: seq<Matcher>)
      ensures matchers == ms && detail == DEFAULT_DETAIL && logged == []
    {
      matchers, detail, logged := ms, {400, 411, 413, 415, 428}, [];
    }

    method Detail(statuses: seq<int>)
      modifies this`detail
      ensures detail == old(detail) + set s | s in statuses
    {
      for i := 0 to |statuses|
        invariant detail == old(detail) + set s | s in statuses[..i]
      {
        assert statuses[..i + 1] == statuses[..i] + [statuses[i]];
        detail := detail + {statuses[i]};
      }
      assert statuses[..|statuses|] == statuses;
    }

    method MapError(e: Err) returns (m: Option<Mapping>)
      ensures MapsTo(matchers, e, m)
    {
      ghost var p := FirstOwnIsFirst(e);
      var own := FirstOwn(e);
      if own.Some? {
        assert At(e, p, own.value);
        assert Occurs(e, own.value);
        var status := StatusOf(own.value);
        return if status.None? then None else Some(Mapping(Bare(status.value), false));
      }
      var whole := Whole(e);
      if whole.Some? {
        return Some(Mapping(WithStatus(whole.value), true));
      }
      for i := 0 to |matchers|
        invariant forall j | 0 <= j < i :: matchers[j](e).None?
      {
        var claimed := matchers[i](e);
        if claimed.Some? {
          return Some(Mapping(WithStatus(claimed.value), false));
        }
      }
      return Some(Mapping(Bare(500), false));
    }

    /** Write: one document of the mapped status on the wire and one record for a 5xx. It panics where
        a nil pointer has no status, or no text when the text is wanted: for the record or the detail. */
    method Write(w: Wire, r: Request, e: Err, clientGone: bool, statusText: StatusText)
      returns (panicked: bool, ghost m: Option<Mapping>)
      modifies this`logged, w
      ensures MapsTo(matchers, e, m)
      ensures panicked <==> m.None? || (!Readable(e) && var p, whole := m.value.problem, m.value.whole;
                                        p.status >= 500 || (!whole && p.detail == "" && p.status in detail))
      ensures !panicked ==> w.sent == old(w.sent) + [Response(SentProblem(m.value, detail, e.text), r, statusText)]
      ensures !panicked ==> var status := m.value.problem.status;
              logged == old(logged) + if status >= 500 then [(CauseLevel(e, clientGone, status), status)] else []
      ensures !panicked ==> |w.sent| > 0 && w.sent[|w.sent| - 1].status == m.value.problem.status != 0
      ensures panicked ==> w.sent == old(w.sent) && logged == old(logged)
    {
      var mapped := MapError(e);
      m := mapped;
      if mapped.None? {
        return true, mapped;
      }
      var p;
      panicked, p := Prepare(e, mapped.value, clientGone);
      if !panicked {
        Send(w, p, r, statusText);
        MappedStatusIsSet(matchers, e, mapped);
        StatusIsTheProblems(p, r, statusText);
      }
    }

    /** The record of a 5xx's cause, and the text as detail. */
    method Prepare(e: Err, mapped: Mapping, clientGone: bool) returns (panicked: bool, p: Problem)
      modifies this`logged
      ensures panicked <==> WantsText(mapped, detail) && !Readable(e)
      ensures !panicked ==> p == SentProblem(mapped, detail, e.text)
      ensures var status := mapped.problem.status;
              logged == old(logged) +
                if !panicked && status >= 500 then [(CauseLevel(e, clientGone, status), status)] else []
    {
      p := mapped.problem;
      if p.status >= 500 {
        if !Readable(e) {
          return true, p;
        }
        logged := logged + [(CauseLevel(e, clientGone, p.status), p.status)];
      }
      if !mapped.whole && p.detail == "" {
        if p.status in detail {
          if !Readable(e) {
            return true, p;
          }
          p := p.(detail := e.text);
        }
      }
      panicked := false;
    }
  }

  /** WriteFor on a problem by value, over a map of its own. */
  method Send(w: Wire, p: Problem, r: Request, statusText: StatusText)
    modifies w
    ensures w.sent == old(w.sent) + [Response(p, r, statusText)]
  {
    var extras := null;
    if p.extras.Some? {
      extras := new GoMap(p.extras.value);
    }
    assert ValueOf(ProblemRef(p, extras)) == p;
    WriteFor(ProblemRef(p, extras), w, r, statusText);
  }
}
