/** If-None-Match: the hand-written scan for section 13.1.2 of RFC 9110, against the list grammar of
    section 8.8.3. An opaque tag is wider here than the etagc of that grammar: as the scan has it, any
    text without a double quote. */
module EntityTags {
  import opened Text

  predicate IsSeparator(c: char) {
    c == ' ' || c == '\t' || c == ','
  }

  /** strings.TrimLeft(s, " \t,"). */
  function TrimSeparators(s: string): (t: string)
    ensures t == [] || !IsSeparator(t[0])
    ensures |t| <= |s|
  {
    if s != [] && IsSeparator(s[0]) then TrimSeparators(s[1..]) else s
  }

  // ---------------------------------------------------------------- the grammar

  /** An entity-tag, and the separators before it. */
  datatype Tag = Tag(before: string, weak: bool, opaqueTag: string)

  function Quoted(opaqueTag: string): string {
    "\"" + opaqueTag + "\""
  }

  function Print(t: Tag): string {
    t.before + (if t.weak then "W/" else "") + Quoted(t.opaqueTag)
  }

  predicate WellFormed(t: Tag) {
    (forall i | 0 <= i < |t.before| :: IsSeparator(t.before[i])) && '"' !in t.opaqueTag
  }

  function PrintAll(tags: seq<Tag>): string {
    if tags == [] then "" else Print(tags[0]) + PrintAll(tags[1..])
  }

  /** What is left of a header past the separators and one W/: where the scan looks for a quote. */
  function Body(header: string): (h: string)
    ensures |h| <= |header|
  {
    TrimPrefix(TrimSeparators(header), "W/")
  }

  /** No further entity-tag starts here: no quoted string opens and closes. */
  predicate Stuck(rest: string) {
    var h := Body(rest);
    h == "" || h[0] != '"' || IndexOf(h[1..], '"') < 0
  }

  /** header is tags, then a remainder in which no further tag starts. */
  ghost predicate Reads(header: string, tags: seq<Tag>, rest: string) {
    (forall t | t in tags :: WellFormed(t)) && Stuck(rest) && header == PrintAll(tags) + rest
  }

  /** An object's ETag value as an entity-tag: a quoted string, optionally weak. */
  ghost predicate IsEntityTag(etag: string) {
    exists weak: bool, opaqueTag: string :: IsTagOf(etag, weak, opaqueTag)
  }

  ghost predicate IsTagOf(etag: string, weak: bool, opaqueTag: string) {
    '"' !in opaqueTag && etag == Print(Tag("", weak, opaqueTag))
  }

  // ---------------------------------------------------------------- the scan

  /** The scan of noneMatch, once the header is trimmed and is not "*". */
  function Scan(header: string, want: string): bool
    decreases |header|, 1
  {
    ScanBody(Body(header), want)
  }

  function ScanBody(h: string, want: string): bool
    decreases |h|, 0
  {
    if h == "" || h[0] != '"' then false
    else
      var end := IndexOf(h[1..], '"');
      if end < 0 then false else h[..end + 2] == want || Scan(h[end + 2..], want)
  }

  function NoneMatches(header: string, etag: string): bool {
    var h := TrimSpace(header);
    h == "*" || (etag != "" && Scan(h, TrimPrefix(etag, "W/")))
  }

  method NoneMatch(header0: string, etag: string) returns (match_: bool)
    ensures match_ == NoneMatches(header0, etag)
  {
    var header := TrimSpace(header0);
    if header == "*" {
      return true;
    }
    if etag == "" {
      return false;
    }
    var want := TrimPrefix(etag, "W/");
    match_ := ScanTags(header, want);
  }

  /** noneMatch's loop over the tags. */
  method ScanTags(header0: string, want: string) returns (match_: bool)
    ensures match_ == Scan(header0, want)
  {
    var header := header0;
    while header != ""
      invariant Scan(header, want) == Scan(header0, want)
      decreases |header|
    {
      header := TrimSeparators(header);
      header := TrimPrefix(header, "W/");
      assert ScanBody(header, want) == Scan(header0, want);
      if header == "" || header[0] != '"' {
        return false;
      }
      var end := IndexOf(header[1..], '"');
      if end < 0 {
        return false;
      }
      if header[..end + 2] == want {
        return true;
      }
      header := header[end + 2..];
    }
    return false;
  }

  // ---------------------------------------------------------------- the scan reads the grammar

  lemma {:induction false} TrimBefore(before: string, s: string)
    requires forall i | 0 <= i < |before| :: IsSeparator(before[i])
    requires s != "" && !IsSeparator(s[0])
    ensures TrimSeparators(before + s) == s
  {
    if before == "" {
      assert before + s == s;
    } else {
      assert (before + s)[1..] == before[1..] + s;
      TrimBefore(before[1..], s);
    }
  }

  lemma BodyOfTag(t: Tag, rest: string)
    requires WellFormed(t)
    ensures Body(Print(t) + rest) == Quoted(t.opaqueTag) + rest
  {
    var prefix := if t.weak then "W/" else "";
    var q := Quoted(t.opaqueTag) + rest;
    assert Print(t) + rest == t.before + (prefix + q);
    TrimBefore(t.before, prefix + q);
    if t.weak {
      assert (prefix + q)[..2] == "W/" && (prefix + q)[2..] == q;
    } else {
      assert prefix + q == q;
    }
  }

  lemma ScanQuoted(opaqueTag: string, rest: string, want: string)
    requires '"' !in opaqueTag
    ensures ScanBody(Quoted(opaqueTag) + rest, want) <==> Quoted(opaqueTag) == want || Scan(rest, want)
  {
    var q := Quoted(opaqueTag) + rest;
    assert q[1..] == opaqueTag + ['"'] + rest;
    IndexOfFirst(opaqueTag, '"', rest);
    assert q[..|opaqueTag| + 2] == Quoted(opaqueTag) && q[|opaqueTag| + 2..] == rest;
  }

  /** One turn of the scan consumes exactly one printed tag. */
  lemma ScanOne(t: Tag, rest: string, want: string)
    requires WellFormed(t)
    ensures Scan(Print(t) + rest, want) <==> Quoted(t.opaqueTag) == want || Scan(rest, want)
  {
    BodyOfTag(t, rest);
    ScanQuoted(t.opaqueTag, rest, want);
  }

  /** The scan decides by the well-formed tags of its header alone, whatever follows them. */
  lemma {:induction false} ScanReadsTags(header: string, tags: seq<Tag>, rest: string, want: string)
    requires Reads(header, tags, rest)
    ensures Scan(header, want) <==> exists t :: t in tags && Quoted(t.opaqueTag) == want
    decreases |tags|
  {
    if tags == [] {
      assert header == rest;
    } else {
      var after := PrintAll(tags[1..]) + rest;
      assert header == Print(tags[0]) + after;
      assert tags == [tags[0]] + tags[1..];
      ScanOne(tags[0], after, want);
      ScanReadsTags(after, tags[1..], rest, want);
    }
  }

  lemma {:induction false} CountSeparators(s: string) returns (n: nat)
    ensures n <= |s| && s[n..] == TrimSeparators(s) && forall i | 0 <= i < n :: IsSeparator(s[i])
  {
    n := 0;
    if s != [] && IsSeparator(s[0]) {
      var tail := s[1..];
      n := CountSeparators(tail);
      assert forall i | 0 <= i < n :: tail[i] == s[i + 1];
      assert s[n + 1..] == tail[n..];
      n := n + 1;
    }
  }

  lemma SplitSeparators(s: string) returns (before: string)
    ensures s == before + TrimSeparators(s)
    ensures forall i | 0 <= i < |before| :: IsSeparator(before[i])
  {
    var n := CountSeparators(s);
    before := s[..n];
  }

  lemma PeelQuoted(h: string) returns (opaqueTag: string, after: string)
    requires h != "" && h[0] == '"' && IndexOf(h[1..], '"') >= 0
    ensures '"' !in opaqueTag && h == Quoted(opaqueTag) + after && |after| < |h|
  {
    var end := IndexOf(h[1..], '"');
    opaqueTag, after := h[1..][..end], h[end + 2..];
    assert h == ['"'] + opaqueTag + ['"'] + after;
  }

  lemma HeaderOfBody(header: string) returns (before: string, weak: bool)
    ensures header == before + (if weak then "W/" else "") + Body(header)
    ensures forall i | 0 <= i < |before| :: IsSeparator(before[i])
  {
    before := SplitSeparators(header);
    var s := TrimSeparators(header);
    weak := "W/" <= s;
    assert s == (if weak then "W/" else "") + Body(header);
  }

  /** Where a tag starts, it can be peeled off. */
  lemma PeelTag(header: string) returns (t: Tag, after: string)
    requires !Stuck(header)
    ensures WellFormed(t) && header == Print(t) + after && |after| < |header|
  {
    var before, weak := HeaderOfBody(header);
    var opaqueTag;
    opaqueTag, after := PeelQuoted(Body(header));
    t := Tag(before, weak, opaqueTag);
    Reassociate(before, if weak then "W/" else "", Quoted(opaqueTag), after);
  }

  lemma Reassociate(a: string, b: string, c: string, d: string)
    ensures a + b + (c + d) == a + b + c + d
  {}

  /** Every string reads as some tags and a remainder, so the scan is decided on every string. */
  lemma {:induction false} EveryHeaderReads(header: string) returns (tags: seq<Tag>, rest: string)
    ensures Reads(header, tags, rest)
    decreases |header|
  {
    if Stuck(header) {
      tags, rest := [], header;
      assert "" + header == header;
    } else {
      var t, after := PeelTag(header);
      var more, r := EveryHeaderReads(after);
      tags, rest := [t] + more, r;
      assert tags[1..] == more;
      assert PrintAll(tags) == Print(t) + PrintAll(more);
      assert header == Print(t) + (PrintAll(more) + r) == (Print(t) + PrintAll(more)) + r;
    }
  }

  /** A quoted string is determined by what it quotes, so the scan compares opaque tags. */
  lemma QuotedInjective(a: string, b: string)
    ensures Quoted(a) == Quoted(b) <==> a == b
  {
    assert Quoted(a)[1..|Quoted(a)| - 1] == a && Quoted(b)[1..|Quoted(b)| - 1] == b;
  }

  lemma ListsQuoted(tags: seq<Tag>, opaqueTag: string)
    ensures (exists t :: t in tags && Quoted(t.opaqueTag) == Quoted(opaqueTag)) <==>
              exists t :: t in tags && t.opaqueTag == opaqueTag
  {
    forall t | t in tags
      ensures Quoted(t.opaqueTag) == Quoted(opaqueTag) <==> t.opaqueTag == opaqueTag
    {
      QuotedInjective(t.opaqueTag, opaqueTag);
    }
  }

  lemma WantIsQuoted(etag: string, weak: bool, opaqueTag: string)
    requires IsTagOf(etag, weak, opaqueTag)
    ensures etag != "" && TrimPrefix(etag, "W/") == Quoted(opaqueTag)
  {
    if weak {
      assert etag == "W/" + Quoted(opaqueTag);
    } else {
      assert etag == Quoted(opaqueTag) && etag[0] == '"';
    }
  }

  lemma QuotedIsTag(etag: string, opaqueTag: string)
    requires TrimPrefix(etag, "W/") == Quoted(opaqueTag) && '"' !in opaqueTag
    ensures IsEntityTag(etag)
  {
    if "W/" <= etag {
      assert etag == "" + "W/" + Quoted(opaqueTag);
      assert IsTagOf(etag, true, opaqueTag);
    } else {
      assert etag == "" + "" + Quoted(opaqueTag);
      assert IsTagOf(etag, false, opaqueTag);
    }
  }

  /** The condition of section 13.1.2: "*", or a listed entity-tag weakly equal (section 8.8.3.2) to
      the object's, for any header, as far as it lists well-formed tags. */
  lemma NoneMatchRefines(header: string, etag: string, weak: bool, opaqueTag: string, tags: seq<Tag>, rest: string)
    requires IsTagOf(etag, weak, opaqueTag) && Reads(TrimSpace(header), tags, rest)
    ensures NoneMatches(header, etag) <==> TrimSpace(header) == "*" || exists t :: t in tags && t.opaqueTag == opaqueTag
  {
    WantIsQuoted(etag, weak, opaqueTag);
    ScanReadsTags(TrimSpace(header), tags, rest, Quoted(opaqueTag));
    ListsQuoted(tags, opaqueTag);
  }

  /** An ETag that is no entity-tag is matched by "*" alone, whatever the header lists. */
  lemma MalformedETagNeverListed(header: string, etag: string)
    requires !IsEntityTag(etag)
    ensures NoneMatches(header, etag) <==> TrimSpace(header) == "*"
  {
    var h, want := TrimSpace(header), TrimPrefix(etag, "W/");
    var tags, rest := EveryHeaderReads(h);
    ScanReadsTags(h, tags, rest, want);
    if t :| t in tags && Quoted(t.opaqueTag) == want {
      assert WellFormed(t);
      QuotedIsTag(etag, t.opaqueTag);
    }
  }

  lemma TagReadsAlone(etag: string, weak: bool, opaqueTag: string)
    requires IsTagOf(etag, weak, opaqueTag)
    ensures TrimSpace(etag) == etag && Reads(etag, [Tag("", weak, opaqueTag)], "")
  {
    var t := Tag("", weak, opaqueTag);
    assert etag[0] == (if weak then 'W' else '"') && etag[|etag| - 1] == '"';
    assert [t][1..] == [] && PrintAll([t]) == Print(t) + "" == Print(t);
    assert etag == PrintAll([t]) + "";
  }

  // ---------------------------------------------------------------- lists of tags

  /** Blanks, tabs and commas, in any mixture. */
  predicate Separates(s: string) {
    forall i | 0 <= i < |s| :: s[i] in {' ', '\t', ','}
  }

  /** A list as clients write one: the tags in order, with separators before any but the first. */
  predicate Listing(tags: seq<Tag>) {
    && tags != [] && tags[0].before == ""
    && forall t | t in tags :: Separates(t.before) && '"' !in t.opaqueTag
  }

  lemma {:induction false} PrintAllEnds(tags: seq<Tag>)
    requires tags != []
    ensures PrintAll(tags) != "" && PrintAll(tags)[|PrintAll(tags)| - 1] == '"'
  {
    if |tags| > 1 {
      PrintAllEnds(tags[1..]);
    } else {
      assert PrintAll(tags[1..]) == "";
      assert PrintAll(tags) == Print(tags[0]);
    }
  }

  /** A list of entity-tags, however they are separated, matches an object's exactly when it lists one
      with the same opaque tag, weak or strong. */
  lemma ListMatchesIff(tags: seq<Tag>, etag: string, weak: bool, opaqueTag: string)
    requires Listing(tags) && IsTagOf(etag, weak, opaqueTag)
    ensures NoneMatches(PrintAll(tags), etag) <==> exists t :: t in tags && t.opaqueTag == opaqueTag
  {
    var header := PrintAll(tags);
    PrintAllEnds(tags);
    assert header[0] == (if tags[0].weak then 'W' else '"');
    assert TrimSpace(header) == header;
    assert header == PrintAll(tags) + "";
    assert Reads(header, tags, "");
    NoneMatchRefines(header, etag, weak, opaqueTag, tags, "");
  }

  /** Nothing but a separator, a quote or a weak prefix carries the scan past a tag. */
  lemma OtherCharacterEndsScan(t: Tag, c: char, rest: string, opaqueTag: string)
    requires WellFormed(t) && c !in {' ', '\t', ',', '"', 'W'}
    ensures Scan(Print(t) + ([c] + rest), Quoted(opaqueTag)) <==> t.opaqueTag == opaqueTag
  {
    ScanOne(t, [c] + rest, Quoted(opaqueTag));
    QuotedInjective(t.opaqueTag, opaqueTag);
    assert TrimSeparators([c] + rest) == [c] + rest;
    assert Body([c] + rest) == [c] + rest;
  }

  // ---------------------------------------------------------------- the echo

  predicate IsBreak(c: char) {
    c == '\r' || c == '\n'
  }

  predicate IsBlank(c: char) {
    c == ' ' || c == '\t' || IsBreak(c)
  }

  /** A header value as net/http writes it: each character of a line break becomes a space. */
  function Unbroken(s: string): (t: string)
    ensures |t| == |s|
    ensures t == s <==> '\r' !in s && '\n' !in s
  {
    seq(|s|, i requires 0 <= i < |s| => if IsBreak(s[i]) then ' ' else s[i])
  }

  /** textproto.TrimString. */
  function TrimBlanks(s: string): (t: string)
    ensures s != "" && !IsBlank(s[0]) && !IsBlank(s[|s| - 1]) ==> t == s
    decreases |s|
  {
    if s == "" then ""
    else if IsBlank(s[0]) then TrimBlanks(s[1..])
    else if IsBlank(s[|s| - 1]) then TrimBlanks(s[..|s| - 1])
    else s
  }

  /** What a client reads of a header value, and sends back. */
  function OnWire(value: string): string {
    TrimBlanks(Unbroken(value))
  }

  lemma UnbrokenConcat(a: string, b: string)
    ensures Unbroken(a + b) == Unbroken(a) + Unbroken(b)
  {}

  lemma UnbrokenQuoted(opaqueTag: string)
    ensures Unbroken(Quoted(opaqueTag)) == Quoted(Unbroken(opaqueTag))
    ensures Unbroken(opaqueTag) == opaqueTag <==> Unbroken(Quoted(opaqueTag)) == Quoted(opaqueTag)
  {
    UnbrokenConcat("\"" + opaqueTag, "\"");
    UnbrokenConcat("\"", opaqueTag);
    QuotedInjective(Unbroken(opaqueTag), opaqueTag);
  }

  lemma UnbrokenTag(prefix: string, opaqueTag: string)
    requires prefix == "" || prefix == "W/"
    ensures OnWire(prefix + Quoted(opaqueTag)) == prefix + Quoted(Unbroken(opaqueTag))
    ensures Unbroken(opaqueTag) == opaqueTag <==> Unbroken(prefix + Quoted(opaqueTag)) == prefix + Quoted(opaqueTag)
  {
    var q := Quoted(opaqueTag);
    UnbrokenQuoted(opaqueTag);
    UnbrokenConcat(prefix, q);
    assert Unbroken(prefix) == prefix;
    CancelPrefix(prefix, Unbroken(q), q);
  }

  lemma CancelPrefix(prefix: string, a: string, b: string)
    ensures prefix + a == prefix + b <==> a == b
  {
    assert (prefix + a)[|prefix|..] == a && (prefix + b)[|prefix|..] == b;
  }

  /** An entity-tag arrives as the entity-tag of its opaque tag without line breaks. */
  lemma TagOnWire(etag: string, weak: bool, opaqueTag: string)
    requires IsTagOf(etag, weak, opaqueTag)
    ensures IsTagOf(OnWire(etag), weak, Unbroken(opaqueTag))
    ensures Unbroken(opaqueTag) == opaqueTag <==> Unbroken(etag) == etag
  {
    var prefix := if weak then "W/" else "";
    assert "" + prefix == prefix;
    UnbrokenTag(prefix, opaqueTag);
  }

  /** A client that echoes an ETag in If-None-Match matches it exactly when the ETag is an entity-tag
      without line breaks (or arrives as "*"). */
  lemma EchoMatchesIff(etag: string)
    ensures NoneMatches(OnWire(etag), etag) <==>
              TrimSpace(OnWire(etag)) == "*" || (IsEntityTag(etag) && '\r' !in etag && '\n' !in etag)
  {
    var wire := OnWire(etag);
    if IsEntityTag(etag) {
      var weak, opaqueTag :| IsTagOf(etag, weak, opaqueTag);
      TagOnWire(etag, weak, opaqueTag);
      var t := Tag("", weak, Unbroken(opaqueTag));
      TagReadsAlone(wire, weak, Unbroken(opaqueTag));
      NoneMatchRefines(wire, etag, weak, opaqueTag, [t], "");
      assert t in [t];
    } else {
      MalformedETagNeverListed(wire, etag);
    }
  }
}
