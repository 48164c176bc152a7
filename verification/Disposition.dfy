/** Attachment: a download's Content-Disposition, and the recipient of section 4.3 of RFC 6266 that
    must recover the name. A byte string is a string of characters below 256. */
module Disposition {
  import opened Options
  import opened Text

  type Bytes = s: string | forall i | 0 <= i < |s| :: s[i] as int < 256

  // ---------------------------------------------------------------- UTF-8

  /** How many bytes an encoding with this lead byte takes; 0 for a byte that leads none. */
  function Length(lead: int): (n: nat)
    ensures n <= 4
  {
    if 0 <= lead <= 0x7F then 1
    else if 0xC2 <= lead <= 0xDF then 2
    else if 0xE0 <= lead <= 0xEF then 3
    else if 0xF0 <= lead <= 0xF4 then 4
    else 0
  }

  /** What the second byte may be: the ranges that exclude overlong forms, surrogates and code points
      past U+10FFFF. */
  predicate SecondByte(lead: int, b: int) {
    (if lead == 0xE0 then 0xA0 else if lead == 0xF0 then 0x90 else 0x80) <= b
    <= (if lead == 0xED then 0x9F else if lead == 0xF4 then 0x8F else 0xBF)
  }

  /** The length of the well-formed encoding s starts with, or 0: the table of utf8.DecodeRune. */
  function Width(s: string): (w: nat)
    ensures w <= |s| && w <= 4
  {
    if s == "" then 0
    else
      var n := Length(s[0] as int);
      if n <= 1 then n
      else if n <= |s| && SecondByte(s[0] as int, s[1] as int)
              && forall i | 2 <= i < n :: 0x80 <= s[i] as int <= 0xBF then n
      else 0
  }

  /** How far one step of a range over s goes: an ill-formed byte is one step. */
  function Advance(s: string): (n: nat)
    requires s != ""
    ensures 1 <= n <= |s|
  {
    if Width(s) == 0 then 1 else Width(s)
  }

  predicate ValidUTF8(s: string)
    decreases |s|
  {
    s == "" || (Width(s) > 0 && ValidUTF8(s[Width(s)..]))
  }

  /** U+FFFD in UTF-8. */
  const REPLACEMENT: string := [0xEF as char, 0xBF as char, 0xBD as char]

  /** strings.ToValidUTF8: each run of ill-formed bytes becomes one U+FFFD. */
  function ToValid(s: Bytes, inRun: bool := false): (t: Bytes)
    decreases |s|
  {
    if s == "" then ""
    else if Width(s) == 0 then (if inRun then "" else REPLACEMENT) + ToValid(s[1..], true)
    else s[..Width(s)] + ToValid(s[Width(s)..])
  }

  lemma WidthOfPrefix(s: string, t: string)
    requires Width(s) > 0
    ensures Width(s[..Width(s)] + t) == Width(s)
  {
    var w := Width(s);
    var u := s[..w] + t;
    assert u[0] == s[0] && (w > 1 ==> u[1] == s[1]);
    assert forall i | 2 <= i < w :: u[i] == s[i];
  }

  lemma {:induction false} ToValidIsValid(s: Bytes, inRun: bool)
    ensures ValidUTF8(ToValid(s, inRun))
    decreases |s|
  {
    if s != "" {
      var w := Width(s);
      if w == 0 {
        ToValidIsValid(s[1..], true);
        if inRun {
          assert "" + ToValid(s[1..], true) == ToValid(s[1..], true);
        } else {
          var r := REPLACEMENT + ToValid(s[1..], true);
          assert Width(r) == 3 && r[3..] == ToValid(s[1..], true);
        }
      } else {
        ToValidIsValid(s[w..], false);
        WidthOfPrefix(s, ToValid(s[w..]));
        assert (s[..w] + ToValid(s[w..]))[w..] == ToValid(s[w..]);
      }
    }
  }

  lemma {:induction false} ValidStays(s: Bytes)
    requires ValidUTF8(s)
    ensures ToValid(s) == s
    decreases |s|
  {
    if s != "" {
      ValidStays(s[Width(s)..]);
    }
  }

  // ---------------------------------------------------------------- the encoder

  predicate AttrChar(b: char) {
    'a' <= b <= 'z' || 'A' <= b <= 'Z' || '0' <= b <= '9' || b in "!#$&+-.^_`|~"
  }

  predicate PlainByte(b: char) {
    ' ' <= b <= '~' && b != '%'
  }

  /** What one step of the range adds to the fallback: the character, escaped where the quoted-string
      needs it, or an underscore. */
  function Piece(s: string): (p: string)
    requires s != ""
  {
    if s[0] == '"' || s[0] == '\\' then ['\\', s[0]] else if PlainByte(s[0]) then [s[0]] else "_"
  }

  function Fallback(s: string): string
    decreases |s|
  {
    if s == "" then "" else Piece(s) + Fallback(s[Advance(s)..])
  }

  predicate Plain(s: string)
    decreases |s|
  {
    s == "" || (PlainByte(s[0]) && Plain(s[Advance(s)..]))
  }

  function HexDigit(n: nat): char
    requires n < 16
  {
    "0123456789ABCDEF"[n]
  }

  function EncodeByte(b: char): string
    requires b as int < 256
  {
    if AttrChar(b) then [b] else ['%', HexDigit(b as int / 16), HexDigit(b as int % 16)]
  }

  function Encode(s: Bytes): string {
    if s == "" then "" else EncodeByte(s[0]) + Encode(s[1..])
  }

  const DISPOSITION := "attachment; filename=\""
  const EXTENDED := "; filename*=UTF-8''"

  function Extension(name: Bytes): string {
    if Plain(name) then "" else EXTENDED + Encode(ToValid(name))
  }

  function Header(name: Bytes): string {
    DISPOSITION + Fallback(name) + "\"" + Extension(name)
  }

  method Attachment(name: Bytes) returns (header: string)
    ensures header == Header(name)
  {
    var fallback, plain := BuildFallback(name);
    header := DISPOSITION + fallback + "\"";
    if plain {
      assert header + "" == header;
      return;
    }
    var encoded := BuildEncoded(ToValid(name));
    header := header + (EXTENDED + encoded);
  }

  /** The range over the name: the fallback, and whether every step of it was plain. */
  method BuildFallback(name: Bytes) returns (fallback: string, plain: bool)
    ensures fallback == Fallback(name) && plain == Plain(name)
  {
    fallback, plain := "", true;
    var rest: string := name;
    while rest != ""
      invariant Fallback(name) == fallback + Fallback(rest)
      invariant Plain(name) == (plain && Plain(rest))
      decreases |rest|
    {
      var piece, plainStep := FallbackStep(rest);
      var tail := rest[Advance(rest)..];
      StepUnfolds(rest, tail, fallback);
      fallback, plain, rest := fallback + piece, plain && plainStep, tail;
    }
  }

  lemma StepUnfolds(rest: string, tail: string, before: string)
    requires rest != "" && tail == rest[Advance(rest)..]
    ensures before + Fallback(rest) == (before + Piece(rest)) + Fallback(tail)
    ensures Plain(rest) == (PlainByte(rest[0]) && Plain(tail))
  {}

  /** The three cases of the range's body. */
  method FallbackStep(rest: string) returns (piece: string, plain: bool)
    requires rest != ""
    ensures piece == Piece(rest) && plain == PlainByte(rest[0])
  {
    var c := rest[0];
    if c == '"' || c == '\\' {
      return ['\\', c], true;
    } else if Width(rest) != 1 || c < ' ' || c > '~' || c == '%' {
      return "_", false;
    } else {
      return [c], true;
    }
  }

  /** The percent-encoding loop over the bytes. */
  method BuildEncoded(name: Bytes) returns (encoded: string)
    ensures encoded == Encode(name)
  {
    encoded := "";
    for i := 0 to |name|
      invariant encoded + Encode(name[i..]) == Encode(name)
    {
      EncodeStep(name, i, encoded);
      var e := EncodeOne(name[i]);
      encoded := encoded + e;
    }
    assert name[|name|..] == "";
  }

  method EncodeOne(b: char) returns (e: string)
    requires b as int < 256
    ensures e == EncodeByte(b)
  {
    if AttrChar(b) {
      return [b];
    }
    return ['%', HexDigit(b as int / 16), HexDigit(b as int % 16)];
  }

  lemma EncodeStep(name: Bytes, i: nat, before: string)
    requires i < |name|
    ensures before + Encode(name[i..]) == (before + EncodeByte(name[i])) + Encode(name[i + 1..])
  {
    assert name[i..][0] == name[i] && name[i..][1..] == name[i + 1..];
  }

  // ---------------------------------------------------------------- the recipient

  datatype Read = Read(text: string, rest: string)

  /** A quoted-string after its opening quote, with quoted pairs undone, and what follows it. */
  function ReadQuoted(s: string): (r: Option<Read>)
    ensures r.Some? ==> |r.value.rest| < |s|
    decreases |s|
  {
    if s == "" then None
    else if s[0] == '"' then Some(Read("", s[1..]))
    else if s[0] == '\\' && |s| == 1 then None
    else
      var (c, tail) := if s[0] == '\\' then (s[1], s[2..]) else (s[0], s[1..]);
      var r := ReadQuoted(tail);
      if r.None? then None else Some(Read([c] + r.value.text, r.value.rest))
  }

  function SkipBlanks(s: string): (t: string)
    ensures |t| <= |s|
  {
    if s != "" && s[0] == ' ' then SkipBlanks(s[1..]) else s
  }

  datatype Param = Param(name: string, value: string)

  /** *( ";" name "=" ( quoted-string / value ) ). */
  function Params(s: string): Option<seq<Param>>
    decreases |s|, 0
  {
    if s == "" then Some([]) else if s[0] != ';' then None else ParamsFrom(SkipBlanks(s[1..]))
  }

  function ParamsFrom(t: string): Option<seq<Param>>
    decreases |t|, 1
  {
    var eq := IndexOf(t, '=');
    if eq < 0 then None
    else
      var read := ReadParam(t[eq + 1..]);
      if read.None? then None
      else
        var more := Params(read.value.rest);
        if more.None? then None else Some([Param(t[..eq], read.value.text)] + more.value)
  }

  /** A parameter's value, quoted or up to the next semicolon. */
  function ReadParam(v: string): (r: Option<Read>)
    ensures r.Some? ==> |r.value.rest| <= |v|
  {
    if v != "" && v[0] == '"' then ReadQuoted(v[1..])
    else
      var end := IndexOf(v, ';');
      Some(if end < 0 then Read(v, "") else Read(v[..end], v[end..]))
  }

  function HexValue(c: char): Option<nat> {
    if '0' <= c <= '9' then Some(c as int - '0' as int)
    else if 'A' <= c <= 'F' then Some(c as int - 'A' as int + 10)
    else if 'a' <= c <= 'f' then Some(c as int - 'a' as int + 10)
    else None
  }

  /** attr-char of section 3.2.1 of RFC 8187, as that grammar lists it. */
  predicate RfcAttrChar(c: char) {
    || 'A' <= c <= 'Z' || 'a' <= c <= 'z' || '0' <= c <= '9'
    || c in {'!', '#', '$', '&', '+', '-', '.', '^', '_', '`', '|', '~'}
  }

  /** value-chars of section 3.2 of RFC 8187: attr-chars and percent-encoded octets. */
  function PercentDecode(s: string): Option<string>
    decreases |s|
  {
    if s == "" then Some("")
    else if RfcAttrChar(s[0]) then
      var r := PercentDecode(s[1..]);
      if r.None? then None else Some([s[0]] + r.value)
    else if s[0] == '%' && |s| >= 3 && HexValue(s[1]).Some? && HexValue(s[2]).Some? then
      var r := PercentDecode(s[3..]);
      if r.None? then None else Some([(16 * HexValue(s[1]).value + HexValue(s[2]).value) as char] + r.value)
    else None
  }

  /** ext-value: a charset, a language, and the encoded text, between single quotes. */
  function ExtValue(v: string): Option<string> {
    var i := IndexOf(v, '\'');
    if i < 0 || v[..i] != "UTF-8" then None
    else
      var j := IndexOf(v[i + 1..], '\'');
      if j < 0 then None else PercentDecode(v[i + 1..][j + 1..])
  }

  function Find(ps: seq<Param>, name: string): Option<string> {
    if ps == [] then None else if ps[0].name == name then Some(ps[0].value) else Find(ps[1..], name)
  }

  /** The name a recipient saves under, of an attachment; filename* is preferred. */
  function Recipient(header: string): Option<string> {
    var end := IndexOf(header, ';');
    if end < 0 || header[..end] != "attachment" then None
    else
      var ps := Params(header[end..]);
      if ps.None? then None
      else if Find(ps.value, "filename*").Some? then ExtValue(Find(ps.value, "filename*").value)
      else Find(ps.value, "filename")
  }

  // ---------------------------------------------------------------- what the recipient sees

  /** The fallback as a recipient reads it. */
  function Shown(s: string): string
    decreases |s|
  {
    if s == "" then "" else [if PlainByte(s[0]) then s[0] else '_'] + Shown(s[Advance(s)..])
  }

  /** The quoted-string closes exactly where the encoder closed it, whatever the name and whatever
      follows, and reads as the name with each step that is not plain replaced. */
  lemma {:induction false} QuotedStringCloses(s: string, rest: string)
    ensures ReadQuoted(Fallback(s) + "\"" + rest) == Some(Read(Shown(s), rest))
    decreases |s|
  {
    if s == "" {
      assert ("" + "\"" + rest)[1..] == rest;
    } else {
      var tail := s[Advance(s)..];
      QuotedStringCloses(tail, rest);
      var all := Fallback(s) + "\"" + rest;
      assert all == Piece(s) + (Fallback(tail) + "\"" + rest);
      assert all[|Piece(s)|..] == Fallback(tail) + "\"" + rest;
    }
  }

  lemma {:induction false} PlainIsShown(s: Bytes)
    requires Plain(s)
    ensures Shown(s) == s && ToValid(s) == s
    decreases |s|
  {
    if s != "" {
      assert Width(s) == 1 == Advance(s);
      PlainIsShown(s[1..]);
      assert s[..1] == [s[0]];
      assert s == [s[0]] + s[1..];
    }
  }

  lemma HexRoundTrip(n: nat)
    requires n < 16
    ensures HexValue(HexDigit(n)) == Some(n)
  {}

  /** One encoded byte is decoded off the front. */
  lemma DecodeOne(b: char, rest: string, text: string)
    requires b as int < 256 && PercentDecode(rest) == Some(text)
    ensures PercentDecode(EncodeByte(b) + rest) == Some([b] + text)
  {
    var s := EncodeByte(b) + rest;
    assert s[|EncodeByte(b)|..] == rest;
    AttrCharsAreRfcs(b);
    if !AttrChar(b) {
      HexRoundTrip(b as int / 16);
      HexRoundTrip(b as int % 16);
      assert s[1] == HexDigit(b as int / 16) && s[2] == HexDigit(b as int % 16);
    }
  }

  lemma {:induction false} PercentRoundTrip(s: Bytes)
    ensures PercentDecode(Encode(s)) == Some(s)
  {
    if s != "" {
      PercentRoundTrip(s[1..]);
      DecodeOne(s[0], Encode(s[1..]), s[1..]);
      assert s == [s[0]] + s[1..];
    }
  }

  lemma AttrCharsAreRfcs(c: char)
    ensures AttrChar(c) <==> RfcAttrChar(c)
  {}

  predicate UpperHex(c: char) {
    '0' <= c <= '9' || 'A' <= c <= 'F'
  }

  /** attr-chars and percent triples in upper case, and nothing else. */
  predicate ValueChars(e: string)
    decreases |e|
  {
    || e == ""
    || (RfcAttrChar(e[0]) && ValueChars(e[1..]))
    || (e[0] == '%' && |e| >= 3 && UpperHex(e[1]) && UpperHex(e[2]) && ValueChars(e[3..]))
  }

  lemma HexIsUpper(n: nat)
    requires n < 16
    ensures UpperHex(HexDigit(n))
  {}

  /** What filename* carries is value-chars, an attr-char always as itself. */
  lemma {:induction false} EncodedIsValueChars(s: Bytes)
    ensures ValueChars(Encode(s))
  {
    if s != "" {
      EncodedIsValueChars(s[1..]);
      ValueCharsCons(s[0], Encode(s[1..]));
    }
  }

  lemma ValueCharsCons(b: char, rest: string)
    requires b as int < 256 && ValueChars(rest)
    ensures ValueChars(EncodeByte(b) + rest) && (RfcAttrChar(b) ==> EncodeByte(b) == [b])
  {
    AttrCharsAreRfcs(b);
    var s := EncodeByte(b) + rest;
    assert s[|EncodeByte(b)|..] == rest;
    if !AttrChar(b) {
      HexIsUpper(b as int / 16);
      HexIsUpper(b as int % 16);
      assert s[1] == HexDigit(b as int / 16) && s[2] == HexDigit(b as int % 16);
    }
  }

  lemma {:induction false} PlainBytes(s: string)
    ensures Plain(s) <==> forall i | 0 <= i < |s| :: 0x20 <= s[i] as int <= 0x7E && s[i] != '%'
    decreases |s|
  {
    if s != "" {
      if PlainByte(s[0]) {
        assert Width(s) == 1 == Advance(s);
        PlainBytes(s[1..]);
        assert forall i | 0 < i < |s| :: s[i] == s[1..][i - 1];
      }
    }
  }

  /** The header carries filename* exactly when some byte of the name is outside printable ASCII, or is a
      percent sign; and then in value-chars alone. */
  lemma ExtendedWhen(name: Bytes)
    ensures Extension(name) == "" <==> forall i | 0 <= i < |name| :: 0x20 <= name[i] as int <= 0x7E && name[i] != '%'
    ensures Extension(name) != "" ==> Extension(name) == "; filename*=UTF-8''" + Encode(ToValid(name))
    ensures ValueChars(Encode(ToValid(name)))
  {
    PlainBytes(name);
    EncodedIsValueChars(ToValid(name));
  }

  predicate Printable(s: string) {
    forall i | 0 <= i < |s| :: ' ' <= s[i] <= '~'
  }

  predicate Safe(c: char) {
    ' ' <= c <= '~' && c != ';' && c != '"' && c != '\''
  }

  lemma EncodedByteIsSafe(b: char)
    requires b as int < 256
    ensures forall i | 0 <= i < |EncodeByte(b)| :: Safe(EncodeByte(b)[i])
  {
    if !AttrChar(b) {
      HexIsSafe(b as int / 16);
      HexIsSafe(b as int % 16);
    }
  }

  lemma HexIsSafe(n: nat)
    requires n < 16
    ensures Safe(HexDigit(n))
  {}

  lemma {:induction false} EncodedIsSafe(s: Bytes)
    ensures forall i | 0 <= i < |Encode(s)| :: Safe(Encode(s)[i])
  {
    if s != "" {
      EncodedIsSafe(s[1..]);
      EncodedByteIsSafe(s[0]);
    }
  }

  lemma {:induction false} FallbackIsPrintable(s: string)
    ensures Printable(Fallback(s))
    decreases |s|
  {
    if s != "" {
      FallbackIsPrintable(s[Advance(s)..]);
    }
  }

  /** For every byte string the header is printable ASCII. */
  lemma HeaderIsPrintable(name: Bytes)
    ensures Printable(Header(name))
  {
    FallbackIsPrintable(name);
    ConstantsArePrintable();
    PrintableConcat(DISPOSITION, Fallback(name));
    PrintableConcat(DISPOSITION + Fallback(name), "\"");
    if !Plain(name) {
      EncodedIsSafe(ToValid(name));
      PrintableConcat(EXTENDED, Encode(ToValid(name)));
    }
    PrintableConcat(DISPOSITION + Fallback(name) + "\"", Extension(name));
  }

  lemma ConstantsArePrintable()
    ensures Printable(DISPOSITION) && Printable(EXTENDED) && Printable("\"") && Printable("")
  {}

  lemma PrintableConcat(a: string, b: string)
    requires Printable(a) && Printable(b)
    ensures Printable(a + b)
  {}

  lemma BlankSkipped(t: string)
    requires t != "" && t[0] != ' '
    ensures SkipBlanks(" " + t) == t
  {
    assert (" " + t)[1..] == t;
  }

  lemma SeparatorCut(t: string)
    ensures ("; " + t)[0] == ';' && ("; " + t)[1..] == " " + t
  {}

  lemma ParamsAfter(s: string, t: string)
    requires s != "" && s[0] == ';' && SkipBlanks(s[1..]) == t
    ensures Params(s) == ParamsFrom(t)
  {}

  lemma ParamsSkip(t: string)
    requires t != "" && t[0] != ' '
    ensures Params("; " + t) == ParamsFrom(t)
  {
    SeparatorCut(t);
    BlankSkipped(t);
    ParamsAfter("; " + t, t);
  }

  lemma ParamStep(name: string, v: string, read: Read, more: seq<Param>)
    requires '=' !in name && ReadParam(v) == Some(read) && Params(read.rest) == Some(more)
    ensures ParamsFrom(name + "=" + v) == Some([Param(name, read.text)] + more)
  {
    var t := name + "=" + v;
    IndexOfFirst(name, '=', v);
    assert t == name + ['='] + v;
    assert t[..|name|] == name && t[|name| + 1..] == v;
  }

  /** One parameter is read off the front. */
  lemma ReadsParam(s: string, name: string, v: string, read: Read, more: seq<Param>)
    requires name != "" && name[0] != ' ' && '=' !in name && s == "; " + (name + "=" + v)
    requires ReadParam(v) == Some(read) && Params(read.rest) == Some(more)
    ensures Params(s) == Some([Param(name, read.text)] + more)
  {
    ParamsSkip(name + "=" + v);
    ParamStep(name, v, read, more);
  }

  lemma ReadsToEnd(v: string)
    requires v != "" && v[0] != '"' && ';' !in v
    ensures ReadParam(v) == Some(Read(v, ""))
  {}

  lemma ExtendedParam(encoded: string)
    requires ';' !in encoded
    ensures Params(EXTENDED + encoded) == Some([Param("filename*", "UTF-8''" + encoded)])
  {
    ExtendedText(encoded);
    ReadsLastParam(EXTENDED + encoded, "filename*", "UTF-8''" + encoded);
  }

  lemma ReadsLastParam(s: string, name: string, v: string)
    requires name != "" && name[0] != ' ' && '=' !in name && s == "; " + (name + "=" + v)
    requires v != "" && v[0] != '"' && ';' !in v
    ensures Params(s) == Some([Param(name, v)])
  {
    ReadsToEnd(v);
    ReadsParam(s, name, v, Read(v, ""), []);
    assert [Param(name, v)] + [] == [Param(name, v)];
  }

  lemma ExtendedText(encoded: string)
    requires ';' !in encoded
    ensures EXTENDED + encoded == "; " + ("filename*" + "=" + ("UTF-8''" + encoded))
    ensures '=' !in "filename*" && ';' !in "UTF-8''" + encoded
  {}

  lemma CharsetCut(rest: string)
    ensures var v := "UTF-8''" + rest; IndexOf(v, '\'') == 5 && v[..5] == "UTF-8" && v[6..] == "'" + rest
  {
    assert "UTF-8''" + rest == "UTF-8" + ['\''] + ("'" + rest);
    IndexOfFirst("UTF-8", '\'', "'" + rest);
    CutAt("UTF-8", '\'', "'" + rest);
  }

  lemma LanguageCut(rest: string)
    ensures IndexOf("'" + rest, '\'') == 0 && ("'" + rest)[1..] == rest
  {}

  lemma ExtendedValue(name: Bytes)
    ensures ExtValue("UTF-8''" + Encode(name)) == Some(name)
  {
    CharsetCut(Encode(name));
    LanguageCut(Encode(name));
    PercentRoundTrip(name);
  }

  lemma FilenameParam(name: string, ext: string, more: seq<Param>)
    requires Params(ext) == Some(more)
    ensures Params("; filename=\"" + (Fallback(name) + "\"" + ext)) == Some([Param("filename", Shown(name))] + more)
  {
    var q := Fallback(name) + "\"" + ext;
    QuotedStringCloses(name, ext);
    ReadsQuotes(q, Read(Shown(name), ext));
    FilenameText(q);
    ReadsParam("; filename=\"" + q, "filename", "\"" + q, Read(Shown(name), ext), more);
  }

  lemma ReadsQuotes(q: string, read: Read)
    requires ReadQuoted(q) == Some(read)
    ensures ReadParam("\"" + q) == Some(read)
  {
    assert ("\"" + q)[1..] == q;
  }

  lemma FilenameText(q: string)
    ensures "; filename=\"" + q == "; " + ("filename" + "=" + ("\"" + q))
  {}

  function ExtensionParams(name: Bytes): seq<Param> {
    if Plain(name) then [] else [Param("filename*", "UTF-8''" + Encode(ToValid(name)))]
  }

  function HeaderParams(name: Bytes): seq<Param> {
    [Param("filename", Shown(name))] + ExtensionParams(name)
  }

  lemma ExtensionReads(name: Bytes)
    ensures Params(Extension(name)) == Some(ExtensionParams(name))
  {
    if !Plain(name) {
      EncodedIsSafe(ToValid(name));
      ExtendedParam(Encode(ToValid(name)));
    }
  }

  lemma HeaderReads(name: Bytes)
    ensures Params(Header(name)[10..]) == Some(HeaderParams(name))
  {
    ExtensionReads(name);
    FilenameParam(name, Extension(name), ExtensionParams(name));
    var tail := Fallback(name) + "\"" + Extension(name);
    HeaderTail(tail);
    HeaderText(name);
  }

  lemma HeaderTail(tail: string)
    ensures (DISPOSITION + tail)[10..] == "; filename=\"" + tail
  {
    assert DISPOSITION[10..] == "; filename=\"";
  }

  lemma HeaderText(name: Bytes)
    ensures Header(name) == DISPOSITION + (Fallback(name) + "\"" + Extension(name))
  {
    Associates(DISPOSITION, Fallback(name), "\"", Extension(name));
  }

  lemma Associates(a: string, b: string, c: string, d: string)
    ensures a + b + c + d == a + (b + c + d)
  {}

  lemma HeaderType(name: Bytes)
    ensures IndexOf(Header(name), ';') == 10 && Header(name)[..10] == "attachment"
  {
    HeaderText(name);
    TypeOf(Fallback(name) + "\"" + Extension(name));
  }

  lemma TypeOf(tail: string)
    ensures IndexOf(DISPOSITION + tail, ';') == 10 && (DISPOSITION + tail)[..10] == "attachment"
  {
    var rest := " filename=\"" + tail;
    assert DISPOSITION + tail == "attachment" + [';'] + rest;
    NoSemicolonInType();
    IndexOfFirst("attachment", ';', rest);
  }

  lemma NoSemicolonInType()
    ensures ';' !in "attachment"
  {}

  /** For every byte string a recipient recovers the name with each ill-formed run as one U+FFFD, so
      a name in valid UTF-8 exactly. */
  lemma RecipientRecovers(name: Bytes)
    ensures Recipient(Header(name)) == Some(ToValid(name))
    ensures ValidUTF8(name) ==> Recipient(Header(name)) == Some(name)
    ensures ValidUTF8(ToValid(name))
  {
    ToValidIsValid(name, false);
    if ValidUTF8(name) {
      ValidStays(name);
    }
    HeaderType(name);
    HeaderReads(name);
    PreferredValue(name);
  }

  lemma PreferredValue(name: Bytes)
    ensures var ps := HeaderParams(name);
            && Find(ps, "filename*").Some? == !Plain(name)
            && (if Plain(name) then Find(ps, "filename") else ExtValue(Find(ps, "filename*").value))
               == Some(ToValid(name))
  {
    if Plain(name) {
      PlainIsShown(name);
      assert HeaderParams(name)[1..] == [];
    } else {
      ExtendedValue(ToValid(name));
      FindSecond(Param("filename", Shown(name)), Param("filename*", "UTF-8''" + Encode(ToValid(name))));
    }
  }

  lemma FindSecond(a: Param, b: Param)
    requires a.name != b.name
    ensures Find([a] + [b], b.name) == Some(b.value)
  {
    assert ([a] + [b])[1..] == [b];
  }

  // ---------------------------------------------------------------- one U+FFFD a byte

  /** The name as the documentation of Attachment words it: each ill-formed byte becomes a U+FFFD. */
  function PerByte(s: Bytes): (t: Bytes)
    decreases |s|
  {
    if s == "" then ""
    else (if Width(s) == 0 then REPLACEMENT else s[..Width(s)]) + PerByte(s[Advance(s)..])
  }

  /** No ill-formed byte directly follows another. */
  predicate NoAdjacent(s: string, inRun: bool := false)
    decreases |s|
  {
    s == "" || (if Width(s) == 0 then !inRun && NoAdjacent(s[1..], true) else NoAdjacent(s[Width(s)..]))
  }

  /** Folding runs loses a U+FFFD exactly where two ill-formed bytes touch. */
  lemma {:induction false} FoldsIff(s: Bytes, inRun: bool)
    ensures |ToValid(s, inRun)| <= |PerByte(s)|
    ensures ToValid(s, inRun) == PerByte(s) <==> NoAdjacent(s, inRun)
    ensures |ToValid(s, inRun)| == |PerByte(s)| <==> NoAdjacent(s, inRun)
    decreases |s|
  {
    if s != "" {
      var w := Width(s);
      if w == 0 {
        FoldsIff(s[1..], true);
      } else {
        FoldsIff(s[w..], false);
      }
    }
  }

  /** The recipient sees one U+FFFD for every ill-formed byte, as documented, if and only if no two of
      them touch. */
  lemma PerByteIff(name: Bytes)
    ensures Recipient(Header(name)) == Some(PerByte(name)) <==> NoAdjacent(name)
  {
    RecipientRecovers(name);
    FoldsIff(name, false);
  }

  /** Two bytes 0xFF, which lead nothing. */
  const TWO_BYTES: Bytes := [0xFF as char, 0xFF as char]

  lemma TwoBytesFold()
    ensures PerByte(TWO_BYTES) == REPLACEMENT + REPLACEMENT && ToValid(TWO_BYTES) == REPLACEMENT
  {
    var last: Bytes := [0xFF as char];
    assert TWO_BYTES[1..] == last && last[1..] == "";
    assert PerByte(last) == REPLACEMENT + "" == REPLACEMENT;
    assert ToValid(last, true) == "" + "" == "";
    assert ToValid(TWO_BYTES) == REPLACEMENT + "" == REPLACEMENT;
  }

  /** For them the documentation promises two U+FFFD, and the recipient sees one. */
  lemma TwoBytesOneReplacement()
    ensures PerByte(TWO_BYTES) == REPLACEMENT + REPLACEMENT
    ensures Recipient(Header(TWO_BYTES)) == Some(REPLACEMENT) != Some(PerByte(TWO_BYTES))
  {
    TwoBytesFold();
    RecipientRecovers(TWO_BYTES);
  }

  // ---------------------------------------------------------------- names as Unicode

  /** A Unicode scalar value. */
  predicate Scalar(c: int) {
    0 <= c < 0xD800 || 0xE000 <= c <= 0x10FFFF
  }

  /** UTF-8, by arithmetic (section 3 of RFC 3629). */
  function Utf8(c: int): (s: Bytes)
    requires Scalar(c)
    ensures 1 <= |s| <= 4
  {
    if c < 0x80 then [c as char]
    else if c < 0x800 then [(0xC0 + c / 64) as char, (0x80 + c % 64) as char]
    else if c < 0x1_0000 then [(0xE0 + c / 4096) as char, (0x80 + c / 64 % 64) as char, (0x80 + c % 64) as char]
    else [(0xF0 + c / 262144) as char, (0x80 + c / 4096 % 64) as char,
          (0x80 + c / 64 % 64) as char, (0x80 + c % 64) as char]
  }

  /** What stands for an ill-formed run is U+FFFD. */
  lemma ReplacementIsFFFD()
    ensures REPLACEMENT == Utf8(0xFFFD)
  {}

  ghost predicate Scalars(cs: seq<int>) {
    forall i | 0 <= i < |cs| :: Scalar(cs[i])
  }

  function Utf8All(cs: seq<int>): Bytes
    requires forall i | 0 <= i < |cs| :: Scalar(cs[i])
  {
    if cs == [] then "" else Utf8(cs[0]) + Utf8All(cs[1..])
  }

  lemma WidthOfScalar(c: int)
    requires Scalar(c)
    ensures Width(Utf8(c)) == |Utf8(c)|
  {}

  lemma WidthLooksAhead(s: string, rest: string)
    requires Width(s) == |s| > 0
    ensures Width(s + rest) == |s| && (s + rest)[..|s|] == s && (s + rest)[|s|..] == rest
  {
    assert (s + rest)[0] == s[0] && (|s| > 1 ==> (s + rest)[1] == s[1]);
    assert forall i | 2 <= i < |s| :: (s + rest)[i] == s[i];
  }

  /** The scalar value an encoding stands for. */
  function Decoded(s: string): int
    requires Width(s) > 0
  {
    if Width(s) == 1 then s[0] as int
    else if Width(s) == 2 then (s[0] as int - 0xC0) * 64 + (s[1] as int - 0x80)
    else if Width(s) == 3 then (s[0] as int - 0xE0) * 4096 + (s[1] as int - 0x80) * 64 + (s[2] as int - 0x80)
    else (s[0] as int - 0xF0) * 262144 + (s[1] as int - 0x80) * 4096 + (s[2] as int - 0x80) * 64 + (s[3] as int - 0x80)
  }

  lemma By64(q: int, r: int)
    requires 0 <= r < 64
    ensures (q * 64 + r) / 64 == q && (q * 64 + r) % 64 == r
  {}

  lemma By4096(q: int, r: int)
    requires 0 <= r < 4096
    ensures (q * 4096 + r) / 4096 == q
  {}

  lemma By262144(q: int, r: int)
    requires 0 <= r < 262144
    ensures (q * 262144 + r) / 262144 == q
  {}

  lemma TwoBytes(a: char, b: char)
    requires 0xC2 <= a as int <= 0xDF && 0x80 <= b as int <= 0xBF
    ensures var c := (a as int - 0xC0) * 64 + (b as int - 0x80); Scalar(c) && Utf8(c) == [a, b]
  {
    By64(a as int - 0xC0, b as int - 0x80);
  }

  lemma ThreeBytes(a: char, b: char, d: char)
    requires 0xE0 <= a as int <= 0xEF && SecondByte(a as int, b as int) && 0x80 <= d as int <= 0xBF
    ensures var c := (a as int - 0xE0) * 4096 + (b as int - 0x80) * 64 + (d as int - 0x80);
            Scalar(c) && Utf8(c) == [a, b, d]
  {
    var h, m, n := a as int - 0xE0, b as int - 0x80, d as int - 0x80;
    By4096(h, m * 64 + n);
    By64(h * 64 + m, n);
    By64(h, m);
  }

  lemma FourBytes(a: char, b: char, d: char, e: char)
    requires 0xF0 <= a as int <= 0xF4 && SecondByte(a as int, b as int)
    requires 0x80 <= d as int <= 0xBF && 0x80 <= e as int <= 0xBF
    ensures var c := (a as int - 0xF0) * 262144 + (b as int - 0x80) * 4096 + (d as int - 0x80) * 64 + (e as int - 0x80);
            Scalar(c) && Utf8(c) == [a, b, d, e]
  {
    var h, m, n, l := a as int - 0xF0, b as int - 0x80, d as int - 0x80, e as int - 0x80;
    By262144(h, m * 4096 + n * 64 + l);
    By4096(h * 64 + m, n * 64 + l);
    By64(h, m);
    By64(h * 4096 + m * 64 + n, l);
    By64(h * 64 + m, n);
  }

  lemma FrontOf(s: string)
    ensures |s| >= 1 ==> s[..1] == [s[0]]
    ensures |s| >= 2 ==> s[..2] == [s[0], s[1]]
    ensures |s| >= 3 ==> s[..3] == [s[0], s[1], s[2]]
    ensures |s| >= 4 ==> s[..4] == [s[0], s[1], s[2], s[3]]
  {}

  lemma ScalarOfWidth(s: string)
    requires Width(s) > 0
    ensures Scalar(Decoded(s)) && Utf8(Decoded(s)) == s[..Width(s)]
  {
    FrontOf(s);
    if Width(s) == 2 {
      TwoBytes(s[0], s[1]);
    } else if Width(s) == 3 {
      ThreeBytes(s[0], s[1], s[2]);
    } else if Width(s) == 4 {
      FourBytes(s[0], s[1], s[2], s[3]);
    }
  }

  lemma {:induction false} EncodedIsValid(cs: seq<int>)
    requires forall i | 0 <= i < |cs| :: Scalar(cs[i])
    ensures ValidUTF8(Utf8All(cs))
  {
    if cs != [] {
      EncodedIsValid(cs[1..]);
      WidthOfScalar(cs[0]);
      WidthLooksAhead(Utf8(cs[0]), Utf8All(cs[1..]));
    }
  }

  lemma {:induction false} ValidIsEncoded(s: Bytes) returns (cs: seq<int>)
    requires ValidUTF8(s)
    ensures Scalars(cs) && Utf8All(cs) == s
    decreases |s|
  {
    cs := [];
    if s != "" {
      var rest := ValidIsEncoded(s[Width(s)..]);
      EncodedAgain(s, rest);
      cs := [Decoded(s)] + rest;
    }
  }

  lemma EncodedAgain(s: Bytes, rest: seq<int>)
    requires Width(s) > 0 && Scalars(rest) && Utf8All(rest) == s[Width(s)..]
    ensures Scalars([Decoded(s)] + rest) && Utf8All([Decoded(s)] + rest) == s
  {
    ScalarOfWidth(s);
    Utf8Cons(Decoded(s), rest);
    Rejoined(s, Width(s));
  }

  lemma Rejoined(s: string, i: nat)
    requires i <= |s|
    ensures s[..i] + s[i..] == s
  {}

  lemma Utf8Cons(c: int, rest: seq<int>)
    requires Scalar(c) && Scalars(rest)
    ensures Scalars([c] + rest) && Utf8All([c] + rest) == Utf8(c) + Utf8All(rest)
  {
    assert ([c] + rest)[1..] == rest;
  }

  /** The valid names are exactly the encodings of sequences of Unicode scalar values. */
  lemma ValidIff(s: Bytes)
    ensures ValidUTF8(s) <==> exists cs :: Scalars(cs) && Utf8All(cs) == s
  {
    if ValidUTF8(s) {
      var cs := ValidIsEncoded(s);
    }
    if cs :| Scalars(cs) && Utf8All(cs) == s {
      EncodedIsValid(cs);
    }
  }

  /** The plain filename of a name of Unicode characters has one character for each of them: itself, or an
      underscore where it is outside printable ASCII or a percent sign. */
  lemma {:induction false} ShownByCharacter(cs: seq<int>)
    requires forall i | 0 <= i < |cs| :: Scalar(cs[i])
    ensures |Shown(Utf8All(cs))| == |cs|
    ensures forall i | 0 <= i < |cs| ::
              Shown(Utf8All(cs))[i] == if 0x20 <= cs[i] <= 0x7E && cs[i] != 0x25 then cs[i] as char else '_'
  {
    if cs != [] {
      ShownByCharacter(cs[1..]);
      ShownCons(cs[0], Utf8All(cs[1..]));
    }
  }

  lemma ShownCons(c: int, rest: string)
    requires Scalar(c)
    ensures Shown(Utf8(c) + rest) == [if 0x20 <= c <= 0x7E && c != 0x25 then c as char else '_'] + Shown(rest)
  {
    WidthOfScalar(c);
    WidthLooksAhead(Utf8(c), rest);
    assert (Utf8(c) + rest)[0] == Utf8(c)[0];
  }

  /** For every name of Unicode characters, the recipient recovers exactly that name. */
  lemma RecoversCharacters(cs: seq<int>)
    requires forall i | 0 <= i < |cs| :: Scalar(cs[i])
    ensures Recipient(Header(Utf8All(cs))) == Some(Utf8All(cs))
  {
    EncodedIsValid(cs);
    RecipientRecovers(Utf8All(cs));
  }
}
