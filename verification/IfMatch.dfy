/** The version precondition: request.go's parser against the header webtest prints. */
module IfMatch {
  import opened Text
  import opened Decimal

  datatype Precondition = Version(version: int) | Missing | Malformed(text: string)

  /** webtest.IfMatch: the version between double quotes. */
  function Header(version: int): string {
    "\"" + Format(version) + "\""
  }

  /** integer: digits with an optional leading minus. */
  predicate IsInteger(s: string) {
    var d := TrimPrefix(s, "-");
    d != "" && Digits(d)
  }

  method Integer(s0: string) returns (ok: bool)
    ensures ok == IsInteger(s0)
  {
    var s := TrimPrefix(s0, "-");
    if s == "" {
      return false;
    }
    for i := 0 to |s|
      invariant Digits(s[..i])
    {
      if s[i] < '0' || s[i] > '9' {
        return false;
      }
    }
    assert s[..|s|] == s;
    return true;
  }

  function JoinLines(lines: seq<string>): string
    requires |lines| > 0
  {
    if |lines| == 1 then lines[0] else lines[0] + ", " + JoinLines(lines[1..])
  }

  /** IfMatch over the request's If-Match lines. */
  method Read(lines: seq<string>) returns (r: Precondition)
    ensures r == Meaning(lines)
  {
    if |lines| > 1 {
      return Malformed(JoinLines(lines));
    }
    var raw := TrimSpace(if lines == [] then "" else lines[0]);
    if raw == "" {
      return Missing;
    }
    if |raw| < 3 || raw[0] != '"' || raw[|raw| - 1] != '"' {
      return Malformed(raw);
    }
    var ok := Integer(raw[1..|raw| - 1]);
    if !ok {
      return Malformed(raw);
    }
    var version := Parse(raw[1..|raw| - 1]);
    if !version.Number? {
      return Malformed(raw);
    }
    return Version(version.value);
  }

  function Meaning(lines: seq<string>): Precondition {
    if |lines| > 1 then Malformed(JoinLines(lines))
    else MeaningOf(TrimSpace(if lines == [] then "" else lines[0]))
  }

  function MeaningOf(raw: string): Precondition {
    if raw == "" then Missing
    else if |raw| < 3 || raw[0] != '"' || raw[|raw| - 1] != '"' || !IsInteger(raw[1..|raw| - 1]) then Malformed(raw)
    else if Parse(raw[1..|raw| - 1]).Number? then Version(Parse(raw[1..|raw| - 1]).value)
    else Malformed(raw)
  }

  /** A quoted run of digits, with or without a minus, that denotes v. */
  ghost predicate Denotes(raw: string, v: int) {
    exists minus: bool, digits: string :: Spells(raw, minus, digits, v)
  }

  ghost predicate Spells(raw: string, minus: bool, digits: string, v: int) {
    && digits != "" && Digits(digits)
    && raw == "\"" + (if minus then "-" else "") + digits + "\""
    && v == if minus then -(Value(digits) as int) else Value(digits)
  }

  lemma SpelledBody(raw: string, minus: bool, digits: string, v: int)
    requires Spells(raw, minus, digits, v)
    ensures var body := raw[1..|raw| - 1];
            |raw| >= 3 && raw[0] == '"' == raw[|raw| - 1] && body == (if minus then "-" else "") + digits
    ensures var body := raw[1..|raw| - 1];
            IsInteger(body) && Parse(body) == if InRange(v) then Number(v) else OutOfRange
  {
    var body := raw[1..|raw| - 1];
    assert body == (if minus then "-" else "") + digits;
    assert '0' <= digits[0] <= '9';
    if minus {
      assert body[1..] == digits;
    } else {
      assert body == digits;
    }
  }

  lemma IntegerBody(body: string) returns (minus: bool, digits: string)
    requires IsInteger(body) && Parse(body).Number?
    ensures Spells("\"" + body + "\"", minus, digits, Parse(body).value)
  {
    minus, digits := "-" <= body, TrimPrefix(body, "-");
    assert '0' <= digits[0] <= '9';
    if minus {
      assert body == "-" + digits && body[1..] == digits;
    } else {
      assert body == "" + digits;
    }
    assert "\"" + body + "\"" == "\"" + (if minus then "-" else "") + digits + "\"";
  }

  lemma SpelledIsAccepted(raw: string, v: int)
    requires Denotes(raw, v) && InRange(v)
    ensures MeaningOf(raw) == Version(v)
  {
    var minus, digits :| Spells(raw, minus, digits, v);
    SpelledBody(raw, minus, digits, v);
  }

  lemma Unquoted(raw: string)
    requires |raw| >= 3 && raw[0] == '"' == raw[|raw| - 1]
    ensures raw == "\"" + raw[1..|raw| - 1] + "\""
  {}

  lemma AcceptedIsSpelled(raw: string, v: int)
    requires MeaningOf(raw) == Version(v)
    ensures Denotes(raw, v) && InRange(v)
  {
    var minus, digits := IntegerBody(raw[1..|raw| - 1]);
    Unquoted(raw);
    assert Spells(raw, minus, digits, v);
  }

  /** On one line, exactly the quoted integers of 64 bits are accepted, each with its value. */
  lemma AcceptsExactly(line: string, v: int)
    ensures Meaning([line]) == Version(v) <==> Denotes(TrimSpace(line), v) && InRange(v)
  {
    var raw := TrimSpace(line);
    if MeaningOf(raw) == Version(v) {
      AcceptedIsSpelled(raw, v);
    }
    if Denotes(raw, v) && InRange(v) {
      SpelledIsAccepted(raw, v);
    }
  }

  /** Every version survives the trip through its header, both extremes included. */
  lemma HeaderRoundTrips(version: int)
    requires InRange(version)
    ensures Meaning([Header(version)]) == Version(version)
  {
    var raw, body := Header(version), Format(version);
    assert raw[0] == '"' && raw[|raw| - 1] == '"' && raw[1..|raw| - 1] == body;
    assert TrimSpace(raw) == raw;
    ParseFormat(version);
    if version < 0 {
      assert body == "-" + FormatNat(-version) && body[1..] == FormatNat(-version);
    } else {
      assert '0' <= body[0] <= '9';
    }
  }

  /** More than one line is malformed, its text all of them in order with ", " between; and one line's
      text is the line without its blanks. */
  lemma RepeatedLinesAreMalformed(lines: seq<string>, last: string)
    ensures lines != [] ==> Meaning(lines + [last]) == Malformed(JoinLines(lines) + ", " + last)
    ensures JoinLines([last]) == last
    ensures Meaning([last]).Malformed? ==> Meaning([last]).text == TrimSpace(last)
  {
    if lines != [] {
      JoinLinesSnoc(lines, last);
    }
  }

  lemma {:induction false} JoinLinesSnoc(lines: seq<string>, last: string)
    requires lines != []
    ensures JoinLines(lines + [last]) == JoinLines(lines) + ", " + last
  {
    assert (lines + [last])[1..] == lines[1..] + [last];
    if |lines| == 1 {
      assert lines[1..] + [last] == [last];
    } else {
      JoinLinesSnoc(lines[1..], last);
    }
  }

  /** Repeated lines, and a value that is no quoted integer, are malformed rather than missing;
      missing is exactly no line or a blank one. */
  lemma MissingExactlyWhenBlank(lines: seq<string>)
    ensures Meaning(lines) == Missing <==> lines == [] || (|lines| == 1 && TrimSpace(lines[0]) == "")
  {
    if |lines| == 1 {
      assert lines == [lines[0]];
    }
  }
}
