/** Problem: an RFC 9457 document, its JSON members, and writing one shared problem for many requests.
    A JSON object is a map of opaque values; its text, a listing of its members in some order. */
module Problems {
  import opened Options
  import opened Decimal

  /** A JSON value. Other stands for every value that is no string, integer or null. */
  datatype Value = Null | Line(text: string) | Integer(n: int) | Other(id: nat)

  type Document = map<string, Value>

  /** Extras is None when nil; an empty one is not nil. */
  datatype Problem = Problem(kind: string, title: string, status: int,
                             detail: string, instance: string, extras: Option<Document>)

  const STANDARD: seq<string> := ["type", "title", "status", "detail", "instance"]

  // ---------------------------------------------------------------- MarshalJSON

  function Optional(name: string, text: string): Document {
    if text == "" then map[] else map[name := Line(text)]
  }

  /** The five standard members, as their json tags say. */
  function Standard(p: Problem): Document {
    map["type" := Line(p.kind)] + Optional("title", p.title) + map["status" := Integer(p.status)]
    + Optional("detail", p.detail) + Optional("instance", p.instance)
  }

  function Extras(p: Problem): Document {
    if p.extras.None? then map[] else p.extras.value
  }

  function Marshal(p: Problem): Document {
    if Extras(p) == map[] then Standard(p) else (Standard(p) + Extras(p))["status" := Integer(p.status)]
  }

  /** Whatever the extras carry, the document's status is the Problem's, and every other extra member
      overrides the standard one of its name. */
  lemma MarshalMembers(p: Problem)
    ensures "status" in Marshal(p) && Marshal(p)["status"] == Integer(p.status)
    ensures forall key | key in Extras(p) && key != "status" :: key in Marshal(p) && Marshal(p)[key] == Extras(p)[key]
    ensures forall key | key !in Extras(p) ::
              (key in Marshal(p) <==> key in Standard(p)) &&
              (key in Standard(p) ==> Marshal(p)[key] == Standard(p)[key])
  {}

  // ---------------------------------------------------------------- UnmarshalJSON

  /** Unicode simple folding onto ASCII lower case, the Kelvin sign and the long s included. */
  function Fold(c: char): char {
    if 'A' <= c <= 'Z' then (c as int + 32) as char
    else if c as int == 0x17F then 's'
    else if c as int == 0x212A then 'k'
    else c
  }

  /** strings.EqualFold(key, name), for a name in ASCII lower case. */
  predicate FoldsTo(key: string, name: string) {
    |key| == |name| && forall i | 0 <= i < |key| :: Fold(key[i]) == name[i]
  }

  predicate IsStandard(key: string) {
    exists i | 0 <= i < |STANDARD| :: FoldsTo(key, STANDARD[i])
  }

  datatype Member = Member(key: string, value: Value)

  /** encoding/json refuses a member that folds to a field of another type; null leaves the field. */
  predicate Refused(m: Member) {
    if FoldsTo(m.key, "status") then !(m.value.Null? || (m.value.Integer? && InRange(m.value.n)))
    else IsStandard(m.key) && !(m.value.Null? || m.value.Line?)
  }

  /** The field of a text member: the last one that folds to its name and is not null. */
  function TextField(ms: seq<Member>, name: string): string {
    if ms == [] then ""
    else
      var m := ms[|ms| - 1];
      if FoldsTo(m.key, name) && m.value.Line? then m.value.text else TextField(ms[..|ms| - 1], name)
  }

  function StatusField(ms: seq<Member>): int {
    if ms == [] then 0
    else
      var m := ms[|ms| - 1];
      if FoldsTo(m.key, "status") && m.value.Integer? then m.value.n else StatusField(ms[..|ms| - 1])
  }

  /** The members as a map, a repeated key's last value counting. */
  function Object(ms: seq<Member>): Document {
    if ms == [] then map[] else Object(ms[..|ms| - 1])[ms[|ms| - 1].key := ms[|ms| - 1].value]
  }

  function Strip(doc: Document): Document {
    map key | key in doc && !IsStandard(key) :: doc[key]
  }

  function Unmarshal(ms: seq<Member>): Option<Problem> {
    if exists m :: m in ms && Refused(m) then None
    else
      var extras := Strip(Object(ms));
      Some(Problem(TextField(ms, "type"), TextField(ms, "title"), StatusField(ms),
                   TextField(ms, "detail"), TextField(ms, "instance"),
                   if extras == map[] then None else Some(extras)))
  }

  /** UnmarshalJSON's strip, deleting as it walks the keys in any order. */
  method StripStandard(doc0: Document, order: seq<string>) returns (doc: Document)
    requires forall key :: key in order <==> key in doc0
    ensures doc == Strip(doc0)
  {
    doc := doc0;
    for i := 0 to |order|
      invariant doc == map key | key in doc0 && !(key in order[..i] && IsStandard(key)) :: doc0[key]
    {
      assert order[..i + 1] == order[..i] + [order[i]];
      var k, j := order[i], 0;
      while j < |STANDARD| && !FoldsTo(k, STANDARD[j])
        invariant 0 <= j <= |STANDARD|
        invariant forall n | 0 <= n < j :: !FoldsTo(k, STANDARD[n])
      {
        j := j + 1;
      }
      if j < |STANDARD| {
        doc := doc - {k};
      }
    }
    assert order[..|order|] == order;
  }

  /** UnmarshalJSON: the receiver is replaced whole, or left alone on an error. */
  method UnmarshalJSON(receiver: Problem, ms: seq<Member>, order: seq<string>) returns (p: Problem, failed: bool)
    requires forall key :: key in order <==> key in Object(ms)
    ensures failed <==> Unmarshal(ms).None?
    ensures p == if failed then receiver else Unmarshal(ms).value
  {
    for i := 0 to |ms|
      invariant forall m | m in ms[..i] :: !Refused(m)
    {
      if Refused(ms[i]) {
        assert ms[i] in ms;
        return receiver, true;
      }
      assert ms[..i + 1] == ms[..i] + [ms[i]];
    }
    assert ms[..|ms|] == ms;
    var doc := StripStandard(Object(ms), order);
    p := Problem(TextField(ms, "type"), TextField(ms, "title"), StatusField(ms),
                 TextField(ms, "detail"), TextField(ms, "instance"), None);
    if doc != map[] {
      p := p.(extras := Some(doc));
    }
    failed := false;
  }

  /** A member's name is a standard one letter by letter, in either case, the long s and the Kelvin sign
      counting as their letters. */
  lemma FoldsLetterwise(key: string, name: string)
    requires forall i | 0 <= i < |name| :: 'a' <= name[i] <= 'z'
    ensures FoldsTo(key, name) <==>
              && |key| == |name|
              && forall i | 0 <= i < |key| ::
                   || key[i] == name[i] || key[i] as int + 32 == name[i] as int
                   || (name[i] == 's' && key[i] as int == 0x17F) || (name[i] == 'k' && key[i] as int == 0x212A)
  {
    forall i | 0 <= i < |key| && |key| == |name|
      ensures Fold(key[i]) == name[i] <==>
                || key[i] == name[i] || key[i] as int + 32 == name[i] as int
                || (name[i] == 's' && key[i] as int == 0x17F) || (name[i] == 'k' && key[i] as int == 0x212A)
    {}
  }

  /** Member i is the last that folds to the name with a text. */
  predicate LastText(ms: seq<Member>, name: string, i: nat) {
    && i < |ms| && FoldsTo(ms[i].key, name) && ms[i].value.Line?
    && forall j | i < j < |ms| :: !(FoldsTo(ms[j].key, name) && ms[j].value.Line?)
  }

  /** A text field is that of the last member that folds to its name, a null changing nothing; the
      other members are the extras. */
  lemma {:induction false} TextFieldIsLast(ms: seq<Member>, name: string)
    ensures if exists i: nat :: LastText(ms, name, i) then
              exists i: nat :: LastText(ms, name, i) && TextField(ms, name) == ms[i].value.text
            else TextField(ms, name) == "" && forall m | m in ms && FoldsTo(m.key, name) :: !m.value.Line?
  {
    if ms != [] {
      var last, front := |ms| - 1, ms[..|ms| - 1];
      if FoldsTo(ms[last].key, name) && ms[last].value.Line? {
        assert LastText(ms, name, last);
      } else {
        TextFieldIsLast(front, name);
        assert forall i :: LastText(front, name, i) ==> LastText(ms, name, i);
        assert forall i :: LastText(ms, name, i) ==> LastText(front, name, i);
        assert ms == front + [ms[last]];
      }
    }
  }

  /** A member that does not fit its field: a status that is no integer of 64 bits, or a text field that
      is no text. A null fits any. */
  predicate Misfit(m: Member) {
    && m.value != Null
    && ((FoldsTo(m.key, "status")
         && !(m.value.Integer? && -0x8000_0000_0000_0000 <= m.value.n <= 0x7FFF_FFFF_FFFF_FFFF))
        || ((FoldsTo(m.key, "type") || FoldsTo(m.key, "title")
             || FoldsTo(m.key, "detail") || FoldsTo(m.key, "instance"))
            && !m.value.Line?))
  }

  lemma StandardNames(key: string)
    ensures IsStandard(key) <==>
              || FoldsTo(key, "type") || FoldsTo(key, "title") || FoldsTo(key, "status")
              || FoldsTo(key, "detail") || FoldsTo(key, "instance")
  {
    assert STANDARD[0] == "type" && STANDARD[1] == "title" && STANDARD[2] == "status";
    assert STANDARD[3] == "detail" && STANDARD[4] == "instance";
  }

  lemma FoldsToOne(key: string)
    ensures FoldsTo(key, "status") ==>
              !FoldsTo(key, "type") && !FoldsTo(key, "title") && !FoldsTo(key, "detail") && !FoldsTo(key, "instance")
  {
    assert "status"[0] == 's' && "detail"[0] == 'd';
    assert |"type"| == 4 && |"title"| == 5 && |"status"| == 6 && |"detail"| == 6 && |"instance"| == 8;
  }

  /** A document is refused exactly when some member does not fit. */
  lemma RefusedIffMisfit(ms: seq<Member>)
    ensures Unmarshal(ms) == None <==> exists m :: m in ms && Misfit(m)
  {
    forall m | m in ms
      ensures Refused(m) <==> Misfit(m)
    {
      StandardNames(m.key);
      FoldsToOne(m.key);
    }
  }

  /** Member i is the last that folds to "status" with a number. */
  predicate LastStatus(ms: seq<Member>, i: nat) {
    && i < |ms| && FoldsTo(ms[i].key, "status") && ms[i].value.Integer?
    && forall j | i < j < |ms| :: !(FoldsTo(ms[j].key, "status") && ms[j].value.Integer?)
  }

  lemma {:induction false} StatusFieldIsLast(ms: seq<Member>)
    ensures if exists i: nat :: LastStatus(ms, i) then
              exists i: nat :: LastStatus(ms, i) && StatusField(ms) == ms[i].value.n
            else StatusField(ms) == 0 && forall m | m in ms && FoldsTo(m.key, "status") :: !m.value.Integer?
  {
    if ms != [] {
      var last, front := |ms| - 1, ms[..|ms| - 1];
      if FoldsTo(ms[last].key, "status") && ms[last].value.Integer? {
        assert LastStatus(ms, last);
      } else {
        StatusFieldIsLast(front);
        assert forall i :: LastStatus(front, i) ==> LastStatus(ms, i);
        assert forall i :: LastStatus(ms, i) ==> LastStatus(front, i);
        assert ms == front + [ms[last]];
      }
    }
  }

  // ---------------------------------------------------------------- the round trip

  /** ms lists the members of doc, each once, in some order. */
  ghost predicate Lists(ms: seq<Member>, doc: Document) {
    && (forall m | m in ms :: m.key in doc && doc[m.key] == m.value)
    && (forall key | key in doc :: Member(key, doc[key]) in ms)
    && (forall i, j | 0 <= i < j < |ms| :: ms[i].key != ms[j].key)
  }

  /** No extra member's name is a standard one, whatever its case. */
  ghost predicate CleanExtras(p: Problem) {
    forall key | key in Extras(p) :: !IsStandard(key)
  }

  /** p with an empty Extras as nil. */
  function Normal(p: Problem): Problem {
    p.(extras := if Extras(p) == map[] then None else p.extras)
  }

  lemma {:induction false} ObjectOfListing(ms: seq<Member>)
    requires forall i, j | 0 <= i < j < |ms| :: ms[i].key != ms[j].key
    ensures forall m | m in ms :: m.key in Object(ms) && Object(ms)[m.key] == m.value
    ensures forall key | key in Object(ms) :: Member(key, Object(ms)[key]) in ms
  {
    if ms != [] {
      var front := ms[..|ms| - 1];
      assert ms == front + [ms[|ms| - 1]];
      ObjectOfListing(front);
    }
  }

  lemma ListingIsObject(ms: seq<Member>, doc: Document)
    requires Lists(ms, doc)
    ensures Object(ms) == doc
  {
    ObjectOfListing(ms);
    forall key | key in doc
      ensures key in Object(ms) && Object(ms)[key] == doc[key]
    {
      assert Member(key, doc[key]) in ms;
    }
    forall key | key in Object(ms)
      ensures key in doc
    {
      assert Member(key, Object(ms)[key]) in ms;
    }
  }

  /** Where one member alone folds to a name, the field is its text; where none does, it is empty. */
  lemma {:induction false} TextFieldIs(ms: seq<Member>, name: string, text: string)
    requires forall m | m in ms && FoldsTo(m.key, name) :: m.value == Line(text)
    requires text == "" || exists m :: m in ms && FoldsTo(m.key, name)
    ensures TextField(ms, name) == text
  {
    if ms != [] {
      var last := ms[|ms| - 1];
      assert ms == ms[..|ms| - 1] + [last];
      if !FoldsTo(last.key, name) {
        TextFieldIs(ms[..|ms| - 1], name, text);
      }
    }
  }

  lemma {:induction false} StatusFieldIs(ms: seq<Member>, n: int)
    requires forall m | m in ms && FoldsTo(m.key, "status") :: m.value == Integer(n)
    requires exists m :: m in ms && FoldsTo(m.key, "status")
    ensures StatusField(ms) == n
  {
    var last := ms[|ms| - 1];
    assert ms == ms[..|ms| - 1] + [last];
    if !FoldsTo(last.key, "status") {
      StatusFieldIs(ms[..|ms| - 1], n);
    }
  }

  /** The standard names fold to themselves and to no other. */
  lemma StandardFolds(i: nat, j: nat)
    requires i < |STANDARD| && j < |STANDARD|
    ensures FoldsTo(STANDARD[i], STANDARD[j]) <==> i == j
  {
    assert STANDARD[0] == "type" && STANDARD[1] == "title" && STANDARD[2] == "status";
    assert STANDARD[3] == "detail" && STANDARD[4] == "instance";
    assert "title"[0] == 't' && "type"[0] == 't' && "status"[0] == 's' && "detail"[0] == 'd' && "instance"[0] == 'i';
  }

  /** A member of a clean problem's document folds to a standard name only by being it. */
  lemma CleanKeyIsExact(p: Problem, key: string, i: nat)
    requires CleanExtras(p) && key in Marshal(p) && i < |STANDARD| && FoldsTo(key, STANDARD[i])
    ensures key == STANDARD[i] && key !in Extras(p)
  {
    assert IsStandard(key);
    MarshalMembers(p);
    var j := StandardKey(p, key);
    StandardFolds(j, i);
  }

  /** The i-th standard member of p, as text; the status is no text member. */
  function StandardText(p: Problem, i: nat): string {
    if i == 0 then p.kind else if i == 1 then p.title else if i == 3 then p.detail else p.instance
  }

  lemma StandardMember(p: Problem, i: nat)
    requires i < |STANDARD|
    ensures i == 2 ==> STANDARD[i] in Standard(p) && Standard(p)[STANDARD[i]] == Integer(p.status)
    ensures i != 2 && StandardText(p, i) != "" ==> STANDARD[i] in Standard(p)
    ensures i != 2 && STANDARD[i] in Standard(p) ==> Standard(p)[STANDARD[i]] == Line(StandardText(p, i))
  {}

  lemma StandardKey(p: Problem, key: string) returns (i: nat)
    requires key in Standard(p)
    ensures i < |STANDARD| && key == STANDARD[i] && IsStandard(key)
  {
    i := if key == "type" then 0 else if key == "title" then 1 else if key == "status" then 2
         else if key == "detail" then 3 else 4;
    assert key == STANDARD[i];
    StandardFolds(i, i);
  }

  lemma TextRoundTrips(p: Problem, ms: seq<Member>, i: nat)
    requires CleanExtras(p) && Lists(ms, Marshal(p)) && i < |STANDARD| && i != 2
    ensures TextField(ms, STANDARD[i]) == StandardText(p, i)
  {
    var name, text := STANDARD[i], StandardText(p, i);
    StandardFolds(i, i);
    assert IsStandard(name);
    assert name !in Extras(p);
    StandardMember(p, i);
    MarshalMembers(p);
    forall m | m in ms && FoldsTo(m.key, name)
      ensures m.value == Line(text)
    {
      CleanKeyIsExact(p, m.key, i);
    }
    if text != "" {
      assert Member(name, Marshal(p)[name]) in ms;
    }
    TextFieldIs(ms, name, text);
  }

  lemma StatusRoundTrips(p: Problem, ms: seq<Member>)
    requires CleanExtras(p) && Lists(ms, Marshal(p))
    ensures StatusField(ms) == p.status
  {
    MarshalMembers(p);
    StandardFolds(2, 2);
    forall m | m in ms && FoldsTo(m.key, "status")
      ensures m.value == Integer(p.status)
    {
      CleanKeyIsExact(p, m.key, 2);
    }
    assert Member("status", Integer(p.status)) in ms;
    StatusFieldIs(ms, p.status);
  }

  lemma CleanMemberAccepted(p: Problem, key: string)
    requires CleanExtras(p) && InRange(p.status) && key in Marshal(p)
    ensures !Refused(Member(key, Marshal(p)[key]))
  {
    MarshalMembers(p);
    StandardFolds(2, 2);
    assert FoldsTo(key, "status") ==> IsStandard(key) by {
      assert STANDARD[2] == "status";
    }
    if IsStandard(key) {
      var i :| 0 <= i < |STANDARD| && FoldsTo(key, STANDARD[i]);
      CleanKeyIsExact(p, key, i);
      StandardFolds(i, 2);
      StandardMember(p, i);
    }
  }

  lemma CleanIsAccepted(p: Problem, ms: seq<Member>)
    requires CleanExtras(p) && InRange(p.status) && Lists(ms, Marshal(p))
    ensures forall m | m in ms :: !Refused(m)
  {
    forall m | m in ms
      ensures !Refused(m)
    {
      CleanMemberAccepted(p, m.key);
    }
  }

  lemma StandardKeysFold(p: Problem)
    ensures forall key | key in Standard(p) :: IsStandard(key)
    ensures "status" in Standard(p)
  {
    forall key | key in Standard(p)
      ensures IsStandard(key)
    {
      var i := StandardKey(p, key);
    }
  }

  lemma StripIsExtras(p: Problem)
    requires CleanExtras(p)
    ensures Strip(Marshal(p)) == Extras(p)
  {
    MarshalMembers(p);
    StandardKeysFold(p);
  }

  lemma Assembles(p: Problem, ms: seq<Member>)
    requires forall m | m in ms :: !Refused(m)
    requires TextField(ms, "type") == p.kind && TextField(ms, "title") == p.title && StatusField(ms) == p.status
    requires TextField(ms, "detail") == p.detail && TextField(ms, "instance") == p.instance &&
             Strip(Object(ms)) == Extras(p)
    ensures Unmarshal(ms) == Some(Normal(p))
  {}

  lemma CleanRoundTrips(p: Problem, ms: seq<Member>)
    requires CleanExtras(p) && InRange(p.status) && Lists(ms, Marshal(p))
    ensures Unmarshal(ms) == Some(Normal(p))
  {
    CleanIsAccepted(p, ms);
    TextRoundTrips(p, ms, 0);
    TextRoundTrips(p, ms, 1);
    StatusRoundTrips(p, ms);
    TextRoundTrips(p, ms, 3);
    TextRoundTrips(p, ms, 4);
    FieldsOf(p, ms);
    ListingIsObject(ms, Marshal(p));
    StripIsExtras(p);
    Assembles(p, ms);
  }

  lemma FieldsOf(p: Problem, ms: seq<Member>)
    ensures TextField(ms, STANDARD[0]) == TextField(ms, "type") && TextField(ms, STANDARD[1]) == TextField(ms, "title")
    ensures TextField(ms, STANDARD[3]) == TextField(ms, "detail") &&
            TextField(ms, STANDARD[4]) == TextField(ms, "instance")
    ensures StandardText(p, 0) == p.kind && StandardText(p, 1) == p.title
    ensures StandardText(p, 3) == p.detail && StandardText(p, 4) == p.instance
  {}

  /** Decoding an encoded problem gives it back, an empty Extras as nil, exactly when no extra member
      has a standard name in any case; whatever order the members were listed in. */
  lemma RoundTripIff(p: Problem, ms: seq<Member>)
    requires InRange(p.status) && Lists(ms, Marshal(p))
    ensures Unmarshal(ms) == Some(Normal(p)) <==> CleanExtras(p)
  {
    if CleanExtras(p) {
      CleanRoundTrips(p, ms);
    } else {
      var key :| key in Extras(p) && IsStandard(key);
      assert key in Extras(Normal(p)) && key !in Strip(Object(ms));
    }
  }

  /** A 404 with one extension member. */
  function WithExtra(key: string, value: Value): Problem {
    Problem("about:blank", "", 404, "", "", Some(map[key := value]))
  }

  lemma CapitalStatus()
    ensures FoldsTo("Status", "status") && "Status" != "status"
  {}

  /** With a text extra named "Status", the problem's own document is refused by UnmarshalJSON. */
  lemma CapitalStatusRefused(text: string, ms: seq<Member>)
    requires Lists(ms, Marshal(WithExtra("Status", Line(text))))
    ensures Unmarshal(ms) == None
  {
    var p := WithExtra("Status", Line(text));
    CapitalStatus();
    MarshalMembers(p);
    assert "Status" in Extras(p);
    assert Member("Status", Line(text)) in ms;
  }

  // ---------------------------------------------------------------- writing for a request

  /** http.StatusText is the standard library's: any naming of statuses. */
  type StatusText = int -> string

  function WithDefaults(p: Problem, statusText: StatusText): Problem {
    var p1 := if p.status == 0 then p.(status := 500) else p;
    var p2 := if p1.kind == "" then p1.(kind := "about:blank") else p1;
    if p2.title == "" then p2.(title := statusText(p2.status)) else p2
  }

  /** A request's path and its correlation id, "" when it carries none. */
  datatype Request = Request(path: string, id: string)

  function ForRequest(p: Problem, r: Request): Problem {
    var p1 := if p.instance == "" then p.(instance := r.path) else p;
    if r.id == "" then p1 else p1.(extras := Some(Extras(p)["request_id" := Line(r.id)]))
  }

  function DocumentFor(p: Problem, r: Request, statusText: StatusText): Document {
    Marshal(WithDefaults(ForRequest(p, r), statusText))
  }

  /** A Go map: a reference that several problems may share. */
  class GoMap {
    var entries: Document

    constructor (m: Document)
      ensures entries == m
    {
      entries := m;
    }
  }

  /** A Problem as a caller holds it: its Extras is a reference. */
  datatype ProblemRef = ProblemRef(fields: Problem, extras: GoMap?)

  function ValueOf(p: ProblemRef): Problem
    reads p.extras
  {
    p.fields.(extras := if p.extras == null then None else Some(p.extras.entries))
  }

  const MEDIA_TYPE: string := "application/problem+json"

  datatype Reply = Reply(status: int, contentType: string, document: Document)

  /** Where responses go. */
  class Wire {
    var sent: seq<Reply>

    constructor ()
      ensures sent == []
    {
      sent := [];
    }
  }

  method MarshalJSON(p: ProblemRef) returns (doc: Document)
    ensures doc == Marshal(ValueOf(p))
  {
    doc := Standard(p.fields);
    if p.extras == null || p.extras.entries == map[] {
      return;
    }
    doc := doc + p.extras.entries;
    doc := doc["status" := Integer(p.fields.status)];
  }

  lemma DefaultsIgnoreExtras(p: Problem, q: Problem, statusText: StatusText)
    requires q == p.(extras := q.extras)
    ensures WithDefaults(q, statusText) == WithDefaults(p, statusText).(extras := q.extras)
  {}

  method ApplyDefaults(p0: Problem, statusText: StatusText) returns (p: Problem)
    ensures p == WithDefaults(p0, statusText)
  {
    p := p0;
    if p.status == 0 {
      p := p.(status := 500);
    }
    if p.kind == "" {
      p := p.(kind := "about:blank");
    }
    if p.title == "" {
      p := p.(title := statusText(p.status));
    }
  }

  /** What a problem written for a request puts on the wire. */
  function Response(p: Problem, r: Request, statusText: StatusText): Reply {
    Reply(WithDefaults(p, statusText).status, MEDIA_TYPE, DocumentFor(p, r, statusText))
  }

  /** WriteFor: the extras are copied before the id goes in, so no map that existed is written. */
  method WriteFor(p0: ProblemRef, w: Wire, r: Request, statusText: StatusText)
    modifies w
    ensures w.sent == old(w.sent) + [Response(old(ValueOf(p0)), r, statusText)]
  {
    var p := p0;
    if p.fields.instance == "" {
      p := p.(fields := p.fields.(instance := r.path));
    }
    if r.id != "" {
      var extras := new GoMap(if p.extras == null then map[] else p.extras.entries);
      extras.entries := extras.entries["request_id" := Line(r.id)];
      p := p.(extras := extras);
    }
    assert ValueOf(p) == ForRequest(old(ValueOf(p0)), r);
    DefaultsIgnoreExtras(p.fields, ValueOf(p), statusText);
    var fields := ApplyDefaults(p.fields, statusText);
    p := p.(fields := fields);
    assert ValueOf(p) == WithDefaults(ForRequest(old(ValueOf(p0)), r), statusText);
    var doc := MarshalJSON(p);
    w.sent := w.sent + [Reply(p.fields.status, MEDIA_TYPE, doc)];
  }

  function Responses(p: Problem, rs: seq<Request>, statusText: StatusText): (sent: seq<Reply>)
    ensures |sent| == |rs| && forall i | 0 <= i < |rs| :: sent[i] == Response(p, rs[i], statusText)
  {
    seq(|rs|, i requires 0 <= i < |rs| => Response(p, rs[i], statusText))
  }

  /** One shared problem written for any sequence of requests: each gets its own response, and the
      caller's map is as it was. */
  method WriteEach(p: ProblemRef, w: Wire, rs: seq<Request>, statusText: StatusText)
    modifies w
    ensures w.sent == old(w.sent) + Responses(old(ValueOf(p)), rs, statusText)
    ensures ValueOf(p) == old(ValueOf(p))
  {
    ghost var all := Responses(ValueOf(p), rs, statusText);
    for k := 0 to |rs|
      invariant w.sent == old(w.sent) + all[..k]
      invariant ValueOf(p) == old(ValueOf(p))
    {
      WriteFor(p, w, rs[k], statusText);
      assert all[..k + 1] == all[..k] + [all[k]];
    }
    assert all[..|rs|] == all;
  }

  /** A response goes out under the problem's status, 500 for none, as a problem document that says the
      same status, whatever the extras carry. */
  lemma StatusIsTheProblems(p: Problem, r: Request, statusText: StatusText)
    ensures var reply := Response(p, r, statusText);
            && reply.status == (if p.status == 0 then 500 else p.status)
            && "status" in reply.document && reply.document["status"] == Integer(reply.status)
            && reply.contentType == "application/problem+json"
  {
    DefaultedFields(p, r, statusText);
    MarshalMembers(WithDefaults(ForRequest(p, r), statusText));
  }

  /** The document has this text member, or none when the text is empty. */
  predicate Says(doc: Document, name: string, text: string) {
    if text == "" then name !in doc else name in doc && doc[name] == Line(text)
  }

  /** A written document, member by member. The standard ones, where no extra takes their place: the
      type, about:blank for none; the title, the status's phrase for none; the detail; the instance, the
      request's path for none. Then the request's own id, whatever the extras say, and the extras. */
  lemma DocumentIsTheRequests(p: Problem, r: Request, statusText: StatusText)
    ensures var doc, status := DocumentFor(p, r, statusText), if p.status == 0 then 500 else p.status;
            && ("type" !in Extras(p) ==>
                  "type" in doc && doc["type"] == Line(if p.kind == "" then "about:blank" else p.kind))
            && ("title" !in Extras(p) ==> Says(doc, "title", if p.title == "" then statusText(status) else p.title))
            && ("detail" !in Extras(p) ==> Says(doc, "detail", p.detail))
            && ("instance" !in Extras(p) ==> Says(doc, "instance", if p.instance == "" then r.path else p.instance))
    ensures var doc := DocumentFor(p, r, statusText);
            && (r.id != "" ==> Says(doc, "request_id", r.id))
            && (r.id == "" ==> ("request_id" in doc <==> "request_id" in Extras(p)))
            && (forall key | key in Extras(p) && key != "status" && (key != "request_id" || r.id == "") ::
                  key in doc && doc[key] == Extras(p)[key])
            && (forall key | key in doc ::
                  key in Extras(p) || key in {"type", "title", "status", "detail", "instance", "request_id"})
  {
    var q := WithDefaults(ForRequest(p, r), statusText);
    DefaultedFields(p, r, statusText);
    IdIsNoStandard(q);
    MarshalMembers(q);
    StandardMembers(q);
  }

  lemma StandardMembers(p: Problem)
    ensures "type" in Standard(p) && Standard(p)["type"] == Line(p.kind)
    ensures Says(Standard(p), "title", p.title) && Says(Standard(p), "detail", p.detail)
    ensures Says(Standard(p), "instance", p.instance)
    ensures forall key | key in Standard(p) :: key in {"type", "title", "status", "detail", "instance"}
  {}

  lemma DefaultedFields(p: Problem, r: Request, statusText: StatusText)
    ensures var q := WithDefaults(ForRequest(p, r), statusText);
            && q.status == (if p.status == 0 then 500 else p.status)
            && q.kind == (if p.kind == "" then "about:blank" else p.kind)
            && q.title == (if p.title == "" then statusText(q.status) else p.title)
            && q.detail == p.detail && q.instance == (if p.instance == "" then r.path else p.instance)
            && Extras(q) == if r.id == "" then Extras(p) else Extras(p)["request_id" := Line(r.id)]
  {}

  lemma IdIsNoStandard(p: Problem)
    ensures "request_id" !in Standard(p)
  {}
}
