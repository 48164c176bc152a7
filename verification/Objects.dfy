/** WriteObject: a stored object as the response to a GET or HEAD, with its conditional requests.
    Times are nanoseconds since the epoch, a formatted date the second it names. */
module Objects {
  import opened Options
  import opened Text
  import EntityTags

  const SECOND: int := 1_000_000_000

  datatype HeaderValue = Line(text: string) | Number(value: int) | Date(second: int)

  type Headers = map<string, HeaderValue>

  /** A negative size omits Content-Length, an empty etag or no modification time omits its header. */
  datatype Object = Object(contentType: string, size: int, etag: string, modifiedAt: Option<int>)

  datatype Since = NoDate | NotADate | At(second: int)

  /** A request's method, its If-None-Match value ("" when absent) and its If-Modified-Since. */
  datatype Request = Request(method_: string, noneMatch: string, since: Since)

  /** What the opener has behind it: an error, or the bytes it yields and whether reading them fails. */
  datatype Source = Unavailable | Available(bytes: seq<int>, breaks: bool)

  /** time.Truncate to the second, in seconds: rounding down, before the epoch too. */
  function WholeSecond(t: int): (s: int)
    ensures s * SECOND <= t < (s + 1) * SECOND
  {
    t / SECOND
  }

  predicate Readable(method_: string) {
    method_ == "GET" || method_ == "HEAD"
  }

  /** notModified, in the order of section 13.2.2 of RFC 9110. */
  function NotModified(r: Request, o: Object): bool {
    if !Readable(r.method_) then false
    else if r.noneMatch != "" then EntityTags.NoneMatches(r.noneMatch, o.etag)
    else if r.since == NoDate || o.modifiedAt == None then false
    else if r.since == NotADate then false
    else !(WholeSecond(o.modifiedAt.value) * SECOND > r.since.second * SECOND)
  }

  function Validators(h: Headers, o: Object): Headers {
    var h1 := if o.etag != "" then h["ETag" := Line(o.etag)] else h;
    if o.modifiedAt.Some? then h1["Last-Modified" := Date(WholeSecond(o.modifiedAt.value))] else h1
  }

  function Described(h: Headers, o: Object): Headers {
    var h1 := h["Content-Type" := Line(if o.contentType == "" then "application/octet-stream" else o.contentType)];
    var h2 := if o.size >= 0 then h1["Content-Length" := Number(o.size)] else h1;
    h2["X-Content-Type-Options" := Line("nosniff")]
  }

  const REPRESENTATION: seq<string> := [
    "Cache-Control", "Content-Disposition", "Content-Encoding", "Content-Length",
    "Content-Range", "ETag", "Expires", "Last-Modified"]

  /** The writer the response goes to; the first WriteHeader wins. */
  class ResponseWriter {
    var headers: Headers
    var status: Option<int>
    var body: seq<int>

    constructor (h: Headers)
      ensures headers == h && status == None && body == []
    {
      headers, status, body := h, None, [];
    }

    method WriteHeader(code: int)
      modifies this`status
      ensures status == if old(status).Some? then old(status) else Some(code)
    {
      if status.None? {
        status := Some(code);
      }
    }
  }

  /** The open function, and the body it returns, counted. */
  class Opener {
    const source: Source
    var opens: nat
    var closes: nat

    constructor (s: Source)
      ensures source == s && opens == 0 && closes == 0
    {
      source, opens, closes := s, 0, 0;
    }

    method Open() returns (ok: bool)
      modifies this`opens
      ensures opens == old(opens) + 1 && ok == source.Available?
    {
      opens := opens + 1;
      ok := source.Available?;
    }

    method Close()
      modifies this`closes
      ensures closes == old(closes) + 1
    {
      closes := closes + 1;
    }
  }

  /** What one call adds to a writer with headers h. */
  datatype Reply = Reply(headers: Headers, status: Option<int>, body: seq<int>, opens: nat, closes: nat, failed: bool)

  function Answer(h: Headers, r: Request, o: Object, source: Source): Reply {
    if NotModified(r, o) then Reply(Validators(h, o), Some(304), [], 0, 0, false)
    else if r.method_ == "HEAD" then Reply(Described(Validators(h, o), o), Some(200), [], 0, 0, false)
    else match source
         case Unavailable => Reply(Cleared(Validators(h, o)), None, [], 1, 0, true)
         case Available(bytes, breaks) => Reply(Described(Validators(h, o), o), Some(200), bytes, 1, 1, breaks)
  }

  function Cleared(h: Headers): Headers {
    (map name | name in h && name !in REPRESENTATION :: h[name])["Cache-Control" := Line("no-store")]
  }

  method ClearRepresentation(w: ResponseWriter)
    modifies w`headers
    ensures w.headers == map name | name in old(w.headers) && name !in REPRESENTATION :: old(w.headers)[name]
  {
    for i := 0 to |REPRESENTATION|
      invariant w.headers == map name | name in old(w.headers) && name !in REPRESENTATION[..i] :: old(w.headers)[name]
    {
      assert REPRESENTATION[..i + 1] == REPRESENTATION[..i] + [REPRESENTATION[i]];
      w.headers := w.headers - {REPRESENTATION[i]};
    }
    assert REPRESENTATION[..|REPRESENTATION|] == REPRESENTATION;
  }

  method WriteObject(w: ResponseWriter, r: Request, o: Object, open: Opener) returns (failed: bool)
    modifies w, open
    ensures var a := Answer(old(w.headers), r, o, open.source);
            && w.headers == a.headers && w.body == old(w.body) + a.body && failed == a.failed
            && w.status == (if old(w.status).Some? then old(w.status) else a.status)
            && open.opens == old(open.opens) + a.opens && open.closes == old(open.closes) + a.closes
  {
    SetValidators(w, o);
    if NotModified(r, o) {
      w.WriteHeader(304);
      return false;
    }
    var isOpen := false;
    if r.method_ != "HEAD" {
      isOpen := open.Open();
      if !isOpen {
        ClearRepresentation(w);
        w.headers := w.headers["Cache-Control" := Line("no-store")];
        return true;
      }
    }
    Describe(w, o);
    w.WriteHeader(200);
    failed := false;
    if isOpen {
      w.body := w.body + open.source.bytes;
      failed := open.source.breaks;
      open.Close();
    }
  }

  method SetValidators(w: ResponseWriter, o: Object)
    modifies w`headers
    ensures w.headers == Validators(old(w.headers), o)
  {
    if o.etag != "" {
      w.headers := w.headers["ETag" := Line(o.etag)];
    }
    if o.modifiedAt.Some? {
      w.headers := w.headers["Last-Modified" := Date(WholeSecond(o.modifiedAt.value))];
    }
  }

  method Describe(w: ResponseWriter, o: Object)
    modifies w`headers
    ensures w.headers == Described(old(w.headers), o)
  {
    var contentType := o.contentType;
    if contentType == "" {
      contentType := "application/octet-stream";
    }
    w.headers := w.headers["Content-Type" := Line(contentType)];
    if o.size >= 0 {
      w.headers := w.headers["Content-Length" := Number(o.size)];
    }
    w.headers := w.headers["X-Content-Type-Options" := Line("nosniff")];
  }

  // ---------------------------------------------------------------- what every run keeps

  /** Open runs at most once, never on a HEAD or a 304, and is closed exactly if it succeeded; its
      failure leaves the response uncommitted and bare of every representation header but
      Cache-Control: no-store, with the caller's other headers kept. */
  lemma OpenDiscipline(h: Headers, r: Request, o: Object, source: Source)
    ensures var a := Answer(h, r, o, source);
            && a.opens <= 1 && (a.opens == 1 <==> r.method_ != "HEAD" && a.status != Some(304))
            && a.closes == (if source.Available? then a.opens else 0)
            && (a.status == None <==> a.opens == 1 && source.Unavailable?)
            && (a.status == None ==>
                  && a.failed && a.body == [] && a.headers["Cache-Control"] == Line("no-store")
                  && (forall name | name in REPRESENTATION && name in a.headers :: name == "Cache-Control")
                  && (forall name | name in h && name !in REPRESENTATION ::
                        name in a.headers && a.headers[name] == h[name]))
  {
    assert "ETag" in REPRESENTATION && "Last-Modified" in REPRESENTATION by {
      assert REPRESENTATION[5] == "ETag" && REPRESENTATION[7] == "Last-Modified";
    }
    assert "Cache-Control" == REPRESENTATION[0];
  }

  /** Nothing but a GET or a HEAD is answered with 304. If-None-Match outranks If-Modified-Since, which
      compares whole seconds. */
  lemma ModifiedSinceBySecond(r: Request, o: Object)
    ensures r.method_ != "GET" && r.method_ != "HEAD" ==> !NotModified(r, o)
    ensures (r.method_ == "GET" || r.method_ == "HEAD") && r.noneMatch != "" ==>
              (NotModified(r, o) <==> EntityTags.NoneMatches(r.noneMatch, o.etag))
    ensures (r.method_ == "GET" || r.method_ == "HEAD") && r.noneMatch == "" ==>
              (NotModified(r, o) <==>
                 r.since.At? && o.modifiedAt.Some? && o.modifiedAt.value < (r.since.second + 1) * 1_000_000_000)
  {}

  /** A header is set to this, or left as the caller had it. */
  predicate SetOrKept(h: Headers, after: Headers, name: string, value: Option<HeaderValue>) {
    if value.Some? then name in after && after[name] == value.value
    else (name in after <==> name in h) && (name in h ==> after[name] == h[name])
  }

  lemma ValidatorsSet(h: Headers, o: Object)
    ensures var v := Validators(h, o);
            && SetOrKept(h, v, "ETag", if o.etag == "" then None else Some(Line(o.etag)))
            && SetOrKept(h, v, "Last-Modified",
                         if o.modifiedAt.None? then None else Some(Date(WholeSecond(o.modifiedAt.value))))
            && forall name | name != "ETag" && name != "Last-Modified" :: SetOrKept(h, v, name, None)
  {}

  lemma DescriptionSet(h: Headers, o: Object)
    ensures var d := Described(h, o);
            && SetOrKept(h, d, "Content-Type",
                         Some(Line(if o.contentType != "" then o.contentType else "application/octet-stream")))
            && SetOrKept(h, d, "Content-Length", if o.size < 0 then None else Some(Number(o.size)))
            && SetOrKept(h, d, "X-Content-Type-Options", Some(Line("nosniff")))
            && forall name | name != "Content-Type" && name != "Content-Length" && name != "X-Content-Type-Options" ::
                 SetOrKept(h, d, name, None)
  {}

  /** What a 200 carries: the object's media type, its length when known, nosniff and its validators,
      with every other header as the caller set it; and the bytes the opener yields, unless a HEAD asks. */
  lemma FullAnswer(h: Headers, r: Request, o: Object, source: Source)
    requires !NotModified(r, o) && (r.method_ == "HEAD" || source.Available?)
    ensures var a := Answer(h, r, o, source);
            && a.status == Some(200)
            && a.body == (if r.method_ == "HEAD" then [] else source.bytes)
            && (a.failed <==> r.method_ != "HEAD" && source.breaks)
    ensures var after := Answer(h, r, o, source).headers;
            && SetOrKept(h, after, "Content-Type",
                         Some(Line(if o.contentType != "" then o.contentType else "application/octet-stream")))
            && SetOrKept(h, after, "Content-Length", if o.size < 0 then None else Some(Number(o.size)))
            && SetOrKept(h, after, "X-Content-Type-Options", Some(Line("nosniff")))
            && SetOrKept(h, after, "ETag", if o.etag == "" then None else Some(Line(o.etag)))
            && SetOrKept(h, after, "Last-Modified",
                         if o.modifiedAt.None? then None else Some(Date(WholeSecond(o.modifiedAt.value))))
            && forall name | name !in
                 {"Content-Type", "Content-Length", "X-Content-Type-Options", "ETag", "Last-Modified"} ::
                 SetOrKept(h, after, name, None)
  {
    ValidatorsSet(h, o);
    DescriptionSet(Validators(h, o), o);
  }

  /** A HEAD carries the headers its GET would, whatever the opener has behind it. */
  lemma HeadCarriesGetsHeaders(h: Headers, r: Request, o: Object, source: Source, behind: Source)
    requires r.method_ == "HEAD" && source.Available? && !NotModified(r, o)
    ensures Answer(h, r, o, behind).headers == Answer(h, r.(method_ := "GET"), o, source).headers
  {}

  /** A 304 carries the validators alone over the caller's headers, and no body. */
  lemma NotModifiedAnswer(h: Headers, r: Request, o: Object, source: Source)
    requires NotModified(r, o)
    ensures var a := Answer(h, r, o, source);
            && a.status == Some(304) && a.body == [] && !a.failed && a.opens == 0 && a.closes == 0
            && SetOrKept(h, a.headers, "ETag", if o.etag == "" then None else Some(Line(o.etag)))
            && SetOrKept(h, a.headers, "Last-Modified",
                         if o.modifiedAt.None? then None else Some(Date(WholeSecond(o.modifiedAt.value))))
            && forall name | name != "ETag" && name != "Last-Modified" :: SetOrKept(h, a.headers, name, None)
  {
    ValidatorsSet(h, o);
  }

  /** A failed open carries Cache-Control: no-store and none of the seven other headers that describe the
      object's bytes or how long to keep them, its own and its caller's; every other one is kept. */
  lemma FailedOpenAnswer(h: Headers, r: Request, o: Object)
    requires !NotModified(r, o) && r.method_ != "HEAD"
    ensures var a := Answer(h, r, o, Unavailable);
            && a.status == None && a.failed && a.body == []
            && SetOrKept(h, a.headers, "Cache-Control", Some(Line("no-store")))
            && "Content-Disposition" !in a.headers && "Content-Encoding" !in a.headers && "Content-Length" !in a.headers
            && "Content-Range" !in a.headers && "ETag" !in a.headers && "Expires" !in a.headers
            && "Last-Modified" !in a.headers
            && forall name | !Representation(name) :: SetOrKept(h, a.headers, name, None)
  {
    ValidatorsSet(h, o);
    RepresentationListed();
  }

  predicate Representation(name: string) {
    || name == "Cache-Control" || name == "Content-Disposition" || name == "Content-Encoding"
    || name == "Content-Length"
    || name == "Content-Range" || name == "ETag" || name == "Expires" || name == "Last-Modified"
  }

  lemma RepresentationListed()
    ensures forall name :: name in REPRESENTATION <==> Representation(name)
  {
    assert REPRESENTATION[0] == "Cache-Control" && REPRESENTATION[1] == "Content-Disposition";
    assert REPRESENTATION[2] == "Content-Encoding" && REPRESENTATION[3] == "Content-Length";
    assert REPRESENTATION[4] == "Content-Range" && REPRESENTATION[5] == "ETag";
    assert REPRESENTATION[6] == "Expires" && REPRESENTATION[7] == "Last-Modified";
  }

  /** A client that echoes the ETag of a 200, as it arrived, gets a 304 while the object is unchanged,
      exactly when that ETag is an entity-tag without line breaks (or arrives as "*"), whatever date it
      sends beside it. One that arrives empty is no echo. */
  lemma EchoedETagIsNotModified(h: Headers, r: Request, o: Object, source: Source,
                                h2: Headers, r2: Request, source2: Source)
    requires Answer(h, r, o, source).status == Some(200) && o.etag != ""
    requires Readable(r2.method_) && r2.noneMatch != ""
    requires var etag := Answer(h, r, o, source).headers["ETag"];
             etag.Line? && r2.noneMatch == EntityTags.OnWire(etag.text)
    ensures Answer(h2, r2, o, source2).status == Some(304) <==>
              || TrimSpace(r2.noneMatch) == "*"
              || (EntityTags.IsEntityTag(o.etag) && '\r' !in o.etag && '\n' !in o.etag)
  {
    SendsETag(h, r, o, source);
    EntityTags.EchoMatchesIff(o.etag);
    AnswersNotModified(h2, r2, o, source2);
  }

  lemma SendsETag(h: Headers, r: Request, o: Object, source: Source)
    requires Answer(h, r, o, source).status == Some(200) && o.etag != ""
    ensures var headers := Answer(h, r, o, source).headers; "ETag" in headers && headers["ETag"] == Line(o.etag)
  {}

  lemma AnswersNotModified(h: Headers, r: Request, o: Object, source: Source)
    requires Readable(r.method_) && r.noneMatch != ""
    ensures Answer(h, r, o, source).status == Some(304) <==> EntityTags.NoneMatches(r.noneMatch, o.etag)
  {}

  /** A client that echoes the Last-Modified a 200 sent, and no ETag, always gets a 304. */
  lemma EchoedDateIsNotModified(h: Headers, r: Request, o: Object, source: Source,
                                h2: Headers, r2: Request, source2: Source)
    requires Answer(h, r, o, source).status == Some(200) && o.modifiedAt.Some?
    requires Readable(r2.method_) && r2.noneMatch == "" && r2.since.At?
    requires Answer(h, r, o, source).headers["Last-Modified"] == Date(r2.since.second)
    ensures Answer(h2, r2, o, source2).status == Some(304)
  {
    assert r2.since.second == WholeSecond(o.modifiedAt.value);
  }
}
