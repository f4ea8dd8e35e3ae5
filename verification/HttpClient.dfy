/**
 The HTTP/1.0 client: the batch parser of a whole response, the incremental reader that
 forwards the body as it arrives, and the loop that sends a request.
 */
module HttpClient {
  import opened Outcomes

  const INT_MAX := 0x7FFF_FFFF
  const INT_MIN := -0x8000_0000
  const SEPARATOR := "\r\n\r\n"
  const HTTP_PREFIX := "HTTP/"

  datatype HttpError = NoHeaderBodySplit | MalformedStatusLine | Timeout | SystemError

  datatype HttpResponse = HttpResponse(code: int, reason: string, headers: string, body: string)

  // ----- Finding the blank line -----

  predicate SeparatorAt(s: string, i: nat) {
    i + 4 <= |s| && s[i] == '\r' && s[i + 1] == '\n' && s[i + 2] == '\r' && s[i + 3] == '\n'
  }

  /** `find`, from position `i` on. */
  function FindFrom(s: string, i: nat): (r: Option<nat>)
    ensures r.Some? ==> i <= r.value && SeparatorAt(s, r.value)
    ensures r.Some? ==> forall j: nat :: i <= j < r.value ==> !SeparatorAt(s, j)
    ensures r.None? ==> forall j: nat :: i <= j ==> !SeparatorAt(s, j)
    decreases |s| - i
  {
    if i >= |s| then None
    else if SeparatorAt(s, i) then Some(i)
    else FindFrom(s, i + 1)
  }

  function Find(s: string): Option<nat> {
    FindFrom(s, 0)
  }

  /** The separator overlaps itself, so a header block that ends in CRLF would swallow half of it. */
  ghost predicate NoBlankLine(head: string) {
    && (forall i: nat :: !SeparatorAt(head, i))
    && !(|head| >= 2 && head[|head| - 2] == '\r' && head[|head| - 1] == '\n')
  }

  /** Exactly then is the first blank line of a message the one that was put there. */
  lemma {:induction false} FindSeparator(head: string, body: string)
    ensures Find(head + SEPARATOR + body) == Some(|head|) <==> NoBlankLine(head)
  {
    var s := head + SEPARATOR + body;
    var n := |head|;
    assert s[n] == '\r' && s[n + 1] == '\n' && s[n + 2] == '\r' && s[n + 3] == '\n';
    assert SeparatorAt(s, n);
    assert forall i :: 0 <= i < n ==> s[i] == head[i];
    if NoBlankLine(head) {
      forall j: nat | j < n
        ensures !SeparatorAt(s, j)
      {
        assert !SeparatorAt(head, j);
      }
    } else if i: nat :| SeparatorAt(head, i) {
      assert SeparatorAt(s, i);
    } else {
      assert SeparatorAt(s, n - 2);
    }
  }

  /** More data cannot move a blank line that has already been found. */
  lemma {:induction false} FindStable(s: string, more: string)
    ensures Find(s).Some? ==> Find(s + more) == Find(s)
  {
    if Find(s).Some? {
      var p := Find(s).value;
      assert SeparatorAt(s + more, p);
      forall j: nat | j < p
        ensures !SeparatorAt(s + more, j)
      {
        assert !SeparatorAt(s, j);
      }
    }
  }

  // ----- Reading the status line the way a string stream does -----

  predicate IsSpace(c: char) {
    c == ' ' || c == '\t' || c == '\n' || c == '\r' || c == '\U{0B}' || c == '\U{0C}'
  }

  predicate NotSpace(c: char) {
    !IsSpace(c)
  }

  predicate IsDigit(c: char) {
    '0' <= c <= '9'
  }

  predicate NotNewline(c: char) {
    c != '\n'
  }

  /** The length of the longest prefix all of whose characters satisfy `p`. */
  function Span(p: char -> bool, s: string): (n: nat)
    ensures n <= |s|
    ensures forall i :: 0 <= i < n ==> p(s[i])
    ensures n < |s| ==> !p(s[n])
  {
    if s == "" || !p(s[0]) then 0 else 1 + Span(p, s[1..])
  }

  lemma {:induction false} SpanExact(p: char -> bool, a: string, b: string)
    requires forall i :: 0 <= i < |a| ==> p(a[i])
    requires b == "" || !p(b[0])
    ensures Span(p, a + b) == |a|
  {
    assert forall i :: 0 <= i < |a| ==> (a + b)[i] == a[i];
    assert b != "" ==> (a + b)[|a|] == b[0];
  }

  function SkipSpace(s: string): string {
    s[Span(IsSpace, s)..]
  }

  function DigitValue(c: char): nat
    requires IsDigit(c)
  {
    c as int - '0' as int
  }

  function Number(digits: string): nat
    requires forall i :: 0 <= i < |digits| ==> IsDigit(digits[i])
  {
    if digits == "" then 0
    else 10 * Number(digits[..|digits| - 1]) + DigitValue(digits[|digits| - 1])
  }

  /** An extracted `int`: its value, and what is left of the stream if that is still good. */
  datatype Extracted = Extracted(value: int, rest: Option<string>)

  /** `>> int`: a failed extraction stores 0, an overflow stores the limit; both end the stream. */
  function ExtractInt(s: string): Extracted {
    var text := SkipSpace(s);
    var negative := text != "" && text[0] == '-';
    var unsigned := if text != "" && (text[0] == '-' || text[0] == '+') then text[1..] else text;
    var n := Span(IsDigit, unsigned);
    var magnitude := Number(unsigned[..n]);
    var value: int := if negative then -(magnitude as int) else magnitude;
    if n == 0 then Extracted(0, None)
    else if value > INT_MAX then Extracted(INT_MAX, None)
    else if value < INT_MIN then Extracted(INT_MIN, None)
    else Extracted(value, Some(unsigned[n..]))
  }

  /** The rest of the line after the number, without one leading blank and one trailing CR. */
  function Reason(rest: Option<string>): string {
    if rest.None? then ""
    else
      var line := rest.value[..Span(NotNewline, rest.value)];
      var unpadded := if line != "" && line[0] == ' ' then line[1..] else line;
      if unpadded != "" && unpadded[|unpadded| - 1] == '\r' then unpadded[..|unpadded| - 1] else unpadded
  }

  /** The status line of a header block: code and reason. */
  function ParseStatus(headers: string): Result<(int, string), HttpError> {
    var text := SkipSpace(headers);
    var n := Span(NotSpace, text);
    var version := text[..n];
    var code := ExtractInt(text[n..]);
    if !(HTTP_PREFIX <= version) || code.value <= 0 then Err(MalformedStatusLine)
    else Ok((code.value, Reason(code.rest)))
  }

  /** `parse_response` as a value. */
  function Parsed(raw: string): Result<HttpResponse, HttpError> {
    match Find(raw)
    case None => Err(NoHeaderBodySplit)
    case Some(p) =>
      var status :- ParseStatus(raw[..p]);
      Ok(HttpResponse(status.0, status.1, raw[..p], raw[p + 4..]))
  }

  /** `getline` and the two edits of the reason in place. */
  method ReadReason(rest: Option<string>) returns (reason: string)
    ensures reason == Reason(rest)
  {
    reason := "";
    if rest.Some? {
      reason := rest.value[..Span(NotNewline, rest.value)];
    }
    if reason != "" && reason[0] == ' ' {
      reason := reason[1..];
    }
    if reason != "" && reason[|reason| - 1] == '\r' {
      reason := reason[..|reason| - 1];
    }
  }

  method ReadStatusLine(headers: string) returns (r: Result<(int, string), HttpError>)
    ensures r == ParseStatus(headers)
  {
    var stream := SkipSpace(headers);
    var versionLength := Span(NotSpace, stream);
    var httpVersion := stream[..versionLength];
    var statusCode := ExtractInt(stream[versionLength..]);
    var reason := ReadReason(statusCode.rest);
    if !(HTTP_PREFIX <= httpVersion) || statusCode.value <= 0 {
      return Err(MalformedStatusLine);
    }
    return Ok((statusCode.value, reason));
  }

  method ParseResponse(raw: string) returns (r: Result<HttpResponse, HttpError>)
    ensures r == Parsed(raw)
  {
    var bodyPos := Find(raw);
    if bodyPos.None? {
      return Err(NoHeaderBodySplit);
    }
    var headers, body := raw[..bodyPos.value], raw[bodyPos.value + 4..];
    var status :- ReadStatusLine(headers);
    return Ok(HttpResponse(status.0, status.1, headers, body));
  }

  method ParseHeaderBlock(headers: string) returns (r: Result<HttpResponse, HttpError>)
    ensures r == Parsed(headers + SEPARATOR)
  {
    r := ParseResponse(headers + SEPARATOR);
  }

  // ----- Round trip -----

  function Decimal(n: nat): (d: string)
    ensures d != "" && forall i :: 0 <= i < |d| ==> IsDigit(d[i])
  {
    var last := [(n % 10) as char + '0'];
    if n < 10 then last else Decimal(n / 10) + last
  }

  lemma {:induction false} NumberOfDecimal(n: nat)
    ensures Number(Decimal(n)) == n
  {
    var d := Decimal(n);
    if n >= 10 {
      NumberOfDecimal(n / 10);
      assert d[..|d| - 1] == Decimal(n / 10);
    } else {
      assert d[..|d| - 1] == "";
    }
  }

  /** A header block: the status line, and the header lines after it, if any. */
  function PrintHead(version: string, code: nat, reason: string, lines: string): string {
    version + " " + Decimal(code) + " " + reason + lines
  }

  /** A response that can be printed: a version, a positive code, a one-line reason, no blank line. */
  ghost predicate PrintableHead(version: string, code: nat, reason: string, lines: string) {
    && HTTP_PREFIX <= version
    && (forall i :: 0 <= i < |version| ==> NotSpace(version[i]))
    && 0 < code
    && (forall i :: 0 <= i < |reason| ==> reason[i] != '\r' && reason[i] != '\n')
    && (lines == "" || (|lines| >= 2 && lines[0] == '\r' && lines[1] == '\n'))
    && NoBlankLine(PrintHead(version, code, reason, lines))
  }

  /** One whose code fits the program's `int`. */
  ghost predicate Printable(version: string, code: nat, reason: string, lines: string) {
    PrintableHead(version, code, reason, lines) && code <= INT_MAX
  }

  lemma {:induction false} ExtractPrinted(code: nat, rest: string)
    requires 0 < code <= INT_MAX
    requires rest != "" && rest[0] == ' '
    ensures ExtractInt(" " + Decimal(code) + rest) == Extracted(code, Some(rest))
  {
    var d := Decimal(code);
    assert " " + d + rest == " " + (d + rest);
    assert !IsSpace((d + rest)[0]);
    SpanExact(IsSpace, " ", d + rest);
    assert SkipSpace(" " + d + rest) == d + rest;
    assert (d + rest)[0] == d[0];
    SpanExact(IsDigit, d, rest);
    NumberOfDecimal(code);
    assert (d + rest)[..|d|] == d;
  }

  lemma {:induction false} ReasonPrinted(reason: string, lines: string)
    requires forall i :: 0 <= i < |reason| ==> reason[i] != '\r' && reason[i] != '\n'
    requires lines == "" || (|lines| >= 2 && lines[0] == '\r' && lines[1] == '\n')
    ensures Reason(Some(" " + reason + lines)) == reason
  {
    var rest := " " + reason + lines;
    if lines == "" {
      assert rest == (" " + reason) + "";
      SpanExact(NotNewline, " " + reason, "");
      assert rest[..|reason| + 1] == " " + reason;
      assert (" " + reason)[1..] == reason;
    } else {
      var line := " " + reason + "\r";
      assert rest == line + lines[1..];
      SpanExact(NotNewline, line, lines[1..]);
      assert rest[..|line|] == line;
      assert line[1..] == reason + "\r";
      assert (reason + "\r")[..|reason|] == reason;
    }
  }

  /** A code beyond the range of `int` is stored as the largest `int`, and ends the stream. */
  lemma {:induction false} ExtractHuge(code: nat, rest: string)
    requires code > INT_MAX && rest != "" && rest[0] == ' '
    ensures ExtractInt(" " + Decimal(code) + rest) == Extracted(INT_MAX, None)
  {
    var d := Decimal(code);
    assert " " + d + rest == " " + (d + rest);
    assert !IsSpace((d + rest)[0]);
    SpanExact(IsSpace, " ", d + rest);
    assert SkipSpace(" " + d + rest) == d + rest;
    assert (d + rest)[0] == d[0];
    SpanExact(IsDigit, d, rest);
    NumberOfDecimal(code);
    assert (d + rest)[..|d|] == d;
  }

  lemma {:induction false} StatusPrinted(version: string, code: nat, reason: string, lines: string)
    requires PrintableHead(version, code, reason, lines)
    ensures ParseStatus(PrintHead(version, code, reason, lines)) ==
            Ok(if code <= INT_MAX then (code as int, reason) else (INT_MAX, ""))
  {
    var head := PrintHead(version, code, reason, lines);
    var rest := " " + reason + lines;
    var tail := " " + Decimal(code) + rest;
    assert head == version + tail;
    assert head[0] == version[0];
    assert Span(IsSpace, head) == 0;
    assert SkipSpace(head) == head;
    SpanExact(NotSpace, version, tail);
    assert head[..|version|] == version && head[|version|..] == tail;
    if code <= INT_MAX {
      ExtractPrinted(code, rest);
      ReasonPrinted(reason, lines);
    } else {
      ExtractHuge(code, rest);
    }
  }

  lemma {:induction false} ResponsePrinted(version: string, code: nat, reason: string, lines: string, body: string)
    requires PrintableHead(version, code, reason, lines)
    ensures var head := PrintHead(version, code, reason, lines);
            Parsed(head + SEPARATOR + body) ==
            Ok(if code <= INT_MAX then HttpResponse(code, reason, head, body)
               else HttpResponse(INT_MAX, "", head, body))
  {
    var head := PrintHead(version, code, reason, lines);
    FindSeparator(head, body);
    assert (head + SEPARATOR + body)[..|head|] == head;
    assert (head + SEPARATOR + body)[|head| + 4..] == body;
    StatusPrinted(version, code, reason, lines);
  }

  /**
   The parser recovers code, reason, headers and body of every printed response exactly,
   whatever the body contains.
   */
  lemma {:induction false} ParsePrinted(version: string, code: nat, reason: string, lines: string, body: string)
    requires Printable(version, code, reason, lines)
    ensures var head := PrintHead(version, code, reason, lines);
            Parsed(head + SEPARATOR + body) == Ok(HttpResponse(code, reason, head, body))
  {
    ResponsePrinted(version, code, reason, lines, body);
  }

  /**
   It does so if and only if the code fits an `int`. A larger one is not rejected: the response is
   accepted with the largest `int` for its code and without its reason.
   */
  lemma {:induction false} HugeCodeIsClamped(version: string, code: nat, reason: string, lines: string, body: string)
    requires PrintableHead(version, code, reason, lines)
    ensures var head := PrintHead(version, code, reason, lines);
            var r := Parsed(head + SEPARATOR + body);
            && (r == Ok(HttpResponse(code, reason, head, body)) <==> code <= INT_MAX)
            && (code > INT_MAX ==> r == Ok(HttpResponse(INT_MAX, "", head, body)))
  {
    ResponsePrinted(version, code, reason, lines, body);
  }

  // ----- What is accepted as a status line, told from its characters -----

  /** Decimal digits are read most significant first. */
  lemma {:induction false} NumberPlaces(digits: string, c: char)
    requires (forall i :: 0 <= i < |digits| ==> IsDigit(digits[i])) && IsDigit(c)
    ensures Number("") == 0
    ensures Number(digits + [c]) == 10 * Number(digits) + (c as int - '0' as int)
  {
    assert (digits + [c])[..|digits|] == digits;
  }

  lemma {:induction false} NumberPositive(digits: string)
    requires forall i :: 0 <= i < |digits| ==> IsDigit(digits[i])
    ensures Number(digits) > 0 <==> exists i :: 0 <= i < |digits| && '1' <= digits[i] <= '9'
  {
    if digits != "" {
      var before := digits[..|digits| - 1];
      NumberPositive(before);
      assert forall i :: 0 <= i < |before| ==> before[i] == digits[i];
    }
  }

  lemma DropDrop(s: string, a: nat, n: nat)
    requires a + n <= |s|
    ensures s[a..][n..] == s[a + n..] && s[a..][..n] == s[a..a + n]
  {
  }

  /** One word of a text, from a position on: the longest stretch of characters of one kind. */
  lemma {:induction false} SpanFrom(p: char -> bool, s: string, start: nat) returns (end: nat)
    requires start <= |s|
    ensures end == start + Span(p, s[start..]) && start <= end <= |s|
    ensures forall i :: start <= i < end ==> p(s[i])
    ensures end < |s| ==> !p(s[end])
    ensures s[start..][end - start..] == s[end..] && s[start..][..end - start] == s[start..end]
  {
    var n := Span(p, s[start..]);
    end := start + n;
    DropDrop(s, start, n);
    forall i | start <= i < end
      ensures p(s[i])
    {
      assert s[start..][i - start] == s[i];
    }
    assert end < |s| ==> s[start..][n] == s[end];
  }

  /** The parts in which `>> int` reads a text from position `b` on: white space, a sign, digits. */
  ghost predicate IntAt(s: string, b: nat, c: nat, first: nat, e: nat) {
    && b <= c <= first <= e <= |s|
    && (forall i :: b <= i < c ==> IsSpace(s[i])) && (c < |s| ==> !IsSpace(s[c]))
    && first == (if c < |s| && (s[c] == '-' || s[c] == '+') then c + 1 else c)
    && (forall i :: first <= i < e ==> IsDigit(s[i])) && (e < |s| ==> !IsDigit(s[e]))
  }

  lemma {:induction false} IntParts(s: string, b: nat) returns (c: nat, first: nat, e: nat)
    requires b <= |s|
    ensures IntAt(s, b, c, first, e)
    ensures ExtractInt(s[b..]).value > 0 <==> first < e && s[c] != '-' && Number(s[first..e]) > 0
    ensures ExtractInt(s[b..]).value > 0 ==> ExtractInt(s[b..]).value == Min(Number(s[first..e]), INT_MAX)
  {
    hide Span, Number, IsSpace, IsDigit;
    c := SpanFrom(IsSpace, s, b);
    assert SkipSpace(s[b..]) == s[c..];
    assert c < |s| ==> s[c..][0] == s[c];
    first := if c < |s| && (s[c] == '-' || s[c] == '+') then c + 1 else c;
    assert first == c + 1 ==> s[c..][1..] == s[first..];
    e := SpanFrom(IsDigit, s, first);
  }

  /** The parts in which a status line is read. */
  ghost predicate WordAt(s: string, a: nat, b: nat) {
    && a <= b <= |s|
    && (forall i :: 0 <= i < a ==> IsSpace(s[i])) && (a < |s| ==> !IsSpace(s[a]))
    && (forall i :: a <= i < b ==> !IsSpace(s[i])) && (b < |s| ==> IsSpace(s[b]))
  }

  lemma {:induction false} StatusParts(headers: string)
    returns (a: nat, b: nat, c: nat, first: nat, e: nat)
    ensures WordAt(headers, a, b) && IntAt(headers, b, c, first, e)
    ensures ParseStatus(headers).Ok? <==>
            HTTP_PREFIX <= headers[a..b] && first < e && headers[c] != '-' && Number(headers[first..e]) > 0
    ensures ParseStatus(headers).Ok? ==> ParseStatus(headers).value.0 == Min(Number(headers[first..e]), INT_MAX)
  {
    hide Span, Number, IsSpace, IsDigit, ExtractInt, Reason;
    assert headers[0..] == headers;
    a := SpanFrom(IsSpace, headers, 0);
    assert SkipSpace(headers) == headers[a..];
    b := SpanFrom(NotSpace, headers, a);
    c, first, e := IntParts(headers, b);
  }

  lemma {:induction false} PrefixMeans(s: string, a: nat, b: nat)
    requires a <= b <= |s|
    ensures HTTP_PREFIX <= s[a..b] <==> a + 5 <= b && s[a..a + 5] == ['H', 'T', 'T', 'P', '/']
  {
    if a + 5 <= b {
      assert s[a..b][..5] == s[a..a + 5];
    }
  }

  /**
   A header block with an acceptable status line: white space, a word that begins with HTTP/, white
   space, and digits that are not all zero, possibly after a plus sign.
   */
  lemma {:induction false} StatusShape(headers: string)
    returns (a: nat, b: nat, c: nat, first: nat, e: nat)
    requires ParseStatus(headers).Ok?
    ensures a + 5 <= b < c <= first < e <= |headers|
    ensures first == if headers[c] == '+' then c + 1 else c
    ensures forall i :: 0 <= i < a || b <= i < c ==> headers[i] == ' ' || '\t' <= headers[i] <= '\r'
    ensures headers[a..a + 5] == ['H', 'T', 'T', 'P', '/']
    ensures forall i :: a <= i < b ==> !(headers[i] == ' ' || '\t' <= headers[i] <= '\r')
    ensures forall i :: first <= i < e ==> '0' <= headers[i] <= '9'
    ensures e < |headers| ==> !('0' <= headers[e] <= '9')
    ensures exists i :: first <= i < e && '1' <= headers[i] <= '9'
  {
    hide ParseStatus, Number;
    a, b, c, first, e := StatusParts(headers);
    PrefixMeans(headers, a, b);
    NumberPositive(headers[first..e]);
  }

  /** And every header block of that shape is accepted, with that code. */
  lemma {:induction false} ShapeAccepted(headers: string, a: nat, b: nat, c: nat, first: nat, e: nat)
    requires a + 5 <= b < c < e <= |headers|
    requires forall i :: 0 <= i < a || b <= i < c ==> headers[i] == ' ' || '\t' <= headers[i] <= '\r'
    requires headers[a..a + 5] == ['H', 'T', 'T', 'P', '/']
    requires forall i :: a <= i < b ==> !(headers[i] == ' ' || '\t' <= headers[i] <= '\r')
    requires first == if headers[c] == '+' then c + 1 else c
    requires first < e && forall i :: first <= i < e ==> '0' <= headers[i] <= '9'
    requires e < |headers| ==> !('0' <= headers[e] <= '9')
    requires exists i :: first <= i < e && '1' <= headers[i] <= '9'
    ensures ParseStatus(headers).Ok?
    ensures ParseStatus(headers).value.0 == Min(Number(headers[first..e]), INT_MAX)
  {
    hide ParseStatus, Number;
    var a1, b1, c1, first1, e1 := StatusParts(headers);
    assert headers[a..a + 5][0] == headers[a];
    SameParts(headers, a, b, c, first, e, a1, b1, c1, first1, e1);
    PrefixMeans(headers, a, b);
    var i :| first <= i < e && '1' <= headers[i] <= '9';
    assert headers[first..e][i - first] == headers[i];
    NumberPositive(headers[first..e]);
  }

  lemma {:induction false} SameParts(
    s: string, a: nat, b: nat, c: nat, first: nat, e: nat, a1: nat, b1: nat, c1: nat, first1: nat, e1: nat)
    requires WordAt(s, a, b) && IntAt(s, b, c, first, e) && WordAt(s, a1, b1) && IntAt(s, b1, c1, first1, e1)
    ensures a == a1 && b == b1 && c == c1 && first == first1 && e == e1
  {
    hide IsSpace, IsDigit;
    OneEnd(x => !IsSpace(x), s, 0, a, a1);
    OneEnd(IsSpace, s, a, b, b1);
    OneEnd(x => !IsSpace(x), s, b, c, c1);
    OneEnd(x => !IsDigit(x), s, first, e, e1);
  }

  /** The first character that stops a stretch is the same whoever finds it. */
  lemma OneEnd(stops: char -> bool, s: string, start: nat, x: nat, y: nat)
    requires start <= x <= |s| && start <= y <= |s|
    requires forall i :: start <= i < x || start <= i < y ==> !stops(s[i])
    requires (x < |s| ==> stops(s[x])) && (y < |s| ==> stops(s[y]))
    ensures x == y
  {
  }

  /** The reason is the rest of the line, without one leading blank and one trailing carriage return. */
  lemma {:induction false} ReasonMeans(s: string) returns (e: nat)
    ensures e <= |s| && (forall i :: 0 <= i < e ==> s[i] != '\n') && (e < |s| ==> s[e] == '\n')
    ensures Reason(None) == ""
    ensures var lead := if e > 0 && s[0] == ' ' then 1 else 0;
            var trail := if e > lead && s[e - 1] == '\r' then 1 else 0;
            Reason(Some(s)) == s[lead..e - trail]
  {
    e := Span(NotNewline, s);
    var line := s[..e];
    assert line != "" ==> line[0] == s[0] && line[1..] == s[1..e];
    var lead := if e > 0 && s[0] == ' ' then 1 else 0;
    var rest := s[lead..e];
    assert rest != "" ==> rest[|rest| - 1] == s[e - 1] && rest[..|rest| - 1] == s[lead..e - 1];
  }

  /** Headers and body are what is left and right of the first blank line. */
  lemma {:induction false} ParsedSplits(raw: string)
    requires Parsed(raw).Ok?
    ensures var p := |Parsed(raw).value.headers|;
            && p + 4 <= |raw|
            && raw[p] == '\r' && raw[p + 1] == '\n' && raw[p + 2] == '\r' && raw[p + 3] == '\n'
            && Parsed(raw).value.headers == raw[..p] && Parsed(raw).value.body == raw[p + 4..]
    ensures forall j: nat {:trigger raw[j]} :: j < |Parsed(raw).value.headers| ==>
              !(raw[j] == '\r' && raw[j + 1] == '\n' && raw[j + 2] == '\r' && raw[j + 3] == '\n')
  {
    hide ParseStatus;
    var p := Find(raw).value;
    assert SeparatorAt(raw, p);
    forall j: nat {:trigger raw[j]} | j < p
      ensures !(raw[j] == '\r' && raw[j + 1] == '\n' && raw[j + 2] == '\r' && raw[j + 3] == '\n')
    {
      assert !SeparatorAt(raw, j);
    }
  }

  // ----- Receiving -----

  /** What `recv` returns while the connection is up. */
  datatype Recv = Chunk(data: string) | Interrupted

  /** How the conversation ends. */
  datatype Ending = Closed | TimedOut | Broken

  /** `recv` returns 1..2048 bytes. */
  ghost predicate PlausibleRecv(recvs: seq<Recv>) {
    forall i :: 0 <= i < |recvs| && recvs[i].Chunk? ==> 1 <= |recvs[i].data| <= 2048
  }

  /** All bytes received, in order. */
  function Received(recvs: seq<Recv>): string {
    if recvs == [] then ""
    else Received(recvs[..|recvs| - 1]) + match recvs[|recvs| - 1] { case Chunk(data) => data case Interrupted => "" }
  }

  lemma {:induction false} ReceivedSnoc(recvs: seq<Recv>, i: nat)
    requires i < |recvs|
    ensures Received(recvs[..i + 1]) == Received(recvs[..i]) + if recvs[i].Chunk? then recvs[i].data else ""
  {
    assert recvs[..i + 1][..i] == recvs[..i];
  }

  lemma {:induction false} ReceivedPrefix(recvs: seq<Recv>, i: nat)
    requires i <= |recvs|
    ensures Received(recvs[..i]) <= Received(recvs)
  {
    if i == |recvs| {
      assert recvs[..i] == recvs;
    } else {
      ReceivedPrefix(recvs[..|recvs| - 1], i);
      assert recvs[..|recvs| - 1][..i] == recvs[..i];
    }
  }

  function Failure(ending: Ending): HttpError
    requires !ending.Closed?
  {
    if ending.TimedOut? then Timeout else SystemError
  }

  /** The receive loop of `request`: everything is buffered, then parsed. */
  method Request(recvs: seq<Recv>, ending: Ending) returns (r: Result<HttpResponse, HttpError>)
    requires PlausibleRecv(recvs)
    ensures r == if ending.Closed? then Parsed(Received(recvs)) else Err(Failure(ending))
    ensures ending.TimedOut? ==> r == Err(Timeout)
    ensures ending.Broken? ==> r == Err(SystemError)
  {
    var rawResponse := "";
    var i := 0;
    while i < |recvs|
      invariant 0 <= i <= |recvs|
      invariant rawResponse == Received(recvs[..i])
    {
      ReceivedSnoc(recvs, i);
      if recvs[i].Chunk? {
        rawResponse := rawResponse + recvs[i].data;
      }
      i := i + 1;
    }
    assert recvs[..i] == recvs;
    if !ending.Closed? {
      return Err(Failure(ending));
    }
    r := ParseResponse(rawResponse);
  }

  /** The line written to the status stream. */
  function StatusText(r: HttpResponse): string {
    "HTTP " + Decimal(Max(r.code, 0)) + (if r.reason != "" then " " + r.reason else "") + "\n"
  }

  /** The line that is written: the code in decimal, without leading zeros, and the reason if there is one. */
  lemma {:induction false} StatusLine(r: HttpResponse) returns (d: string)
    requires r.code > 0
    ensures d != "" && (forall i :: 0 <= i < |d| ==> '0' <= d[i] <= '9') && d[0] != '0' && Number(d) == r.code
    ensures StatusText(r) == "HTTP " + d + (if r.reason == "" then "" else " " + r.reason) + "\n"
  {
    d := Decimal(r.code);
    NumberOfDecimal(r.code);
    NoLeadingZero(r.code);
  }

  lemma {:induction false} NoLeadingZero(n: nat)
    requires n > 0
    ensures Decimal(n)[0] != '0'
  {
    if n >= 10 {
      NoLeadingZero(n / 10);
    }
  }

  /** What follows the digits of the line. */
  function StatusTail(reason: string): string {
    (if reason != "" then " " + reason else "") + "\n"
  }

  lemma {:induction false} DigitsDetermine(d: string, u: string, e: string, v: string)
    requires d + u == e + v && u != "" && v != "" && !IsDigit(u[0]) && !IsDigit(v[0])
    requires (forall i :: 0 <= i < |d| ==> IsDigit(d[i])) && (forall i :: 0 <= i < |e| ==> IsDigit(e[i]))
    ensures d == e && u == v
  {
    SpanExact(IsDigit, d, u);
    SpanExact(IsDigit, e, v);
    assert d == (d + u)[..|d|] && e == (e + v)[..|e|];
    assert u == (d + u)[|d|..] && v == (e + v)[|e|..];
  }

  lemma {:induction false} TailDetermines(r: string, q: string)
    requires StatusTail(r) == StatusTail(q)
    ensures r == q
  {
    var u := StatusTail(r);
    assert r == if |u| == 1 then "" else u[1..|u| - 1];
    assert q == if |u| == 1 then "" else u[1..|u| - 1];
  }

  /** Code and reason can be read back from the line. */
  lemma {:induction false} StatusLineDetermines(r: HttpResponse, q: HttpResponse)
    requires r.code > 0 && q.code > 0 && StatusText(r) == StatusText(q)
    ensures r.code == q.code && r.reason == q.reason
  {
    hide Decimal, Number;
    var d, e, u, v := Decimal(r.code), Decimal(q.code), StatusTail(r.reason), StatusTail(q.reason);
    TextParts(r);
    TextParts(q);
    DigitsDetermine(d, u, e, v);
    NumberOfDecimal(r.code);
    NumberOfDecimal(q.code);
    TailDetermines(r.reason, q.reason);
  }

  lemma {:induction false} TextParts(r: HttpResponse)
    requires r.code > 0
    ensures |StatusText(r)| >= 5 && StatusText(r)[5..] == Decimal(r.code) + StatusTail(r.reason)
  {
    hide Decimal;
    assert StatusText(r) == "HTTP " + (Decimal(r.code) + StatusTail(r.reason));
  }

  /** What the streaming reader should have done, told from the batch parser. */
  ghost predicate Streamed(
    raw: string, ending: Ending, r: Result<HttpResponse, HttpError>, body: string, status: string)
  {
    match Parsed(raw)
    case Ok(full) =>
      && body == full.body
      && status == StatusText(full)
      && r == if ending.Closed? then Ok(full.(body := "")) else Err(Failure(ending))
    case Err(MalformedStatusLine) => body == "" && status == "" && r == Err(MalformedStatusLine)
    case Err(_) => body == "" && status == "" && r == Err(if ending.Closed? then NoHeaderBodySplit else Failure(ending))
  }

  /** Parsing only the header block finds the same status and headers as parsing the whole. */
  lemma {:induction false} HeaderBlockSuffices(raw: string)
    requires Find(raw).Some?
    ensures var head := raw[..Find(raw).value];
            Parsed(head + SEPARATOR) ==
            match Parsed(raw) { case Ok(full) => Ok(full.(body := "")) case Err(e) => Err(e) }
  {
    var p := Find(raw).value;
    var head := raw[..p];
    assert NoBlankLine(head) by {
      if i: nat :| SeparatorAt(head, i) {
        assert SeparatorAt(raw, i);
      }
      if |head| >= 2 && head[p - 2] == '\r' && head[p - 1] == '\n' {
        assert SeparatorAt(raw, p - 2);
      }
    }
    FindSeparator(head, "");
    assert head + SEPARATOR + "" == head + SEPARATOR;
    assert (head + SEPARATOR)[..p] == head;
  }

  /** What has been forwarded when the header block is complete. */
  ghost predicate Forwarded(raw: string, response: HttpResponse, body: string, status: string) {
    && Parsed(raw).Ok?
    && response == Parsed(raw).value.(body := "")
    && body == Parsed(raw).value.body
    && status == StatusText(response)
  }

  /** More data goes to the body, or leaves a malformed status line malformed. */
  lemma {:induction false} ParsedExtended(raw: string, more: string)
    requires Find(raw).Some?
    ensures Parsed(raw).Ok? ==> Parsed(raw + more) == Ok(Parsed(raw).value.(body := Parsed(raw).value.body + more))
    ensures Parsed(raw).Err? ==> Parsed(raw + more) == Parsed(raw) == Err(MalformedStatusLine)
  {
    FindStable(raw, more);
    var p := Find(raw).value;
    assert (raw + more)[..p] == raw[..p];
    assert (raw + more)[p + 4..] == raw[p + 4..] + more;
  }

  lemma {:induction false} ForwardMore(raw: string, more: string, response: HttpResponse, body: string, status: string)
    requires Forwarded(raw, response, body, status)
    ensures Forwarded(raw + more, response, body + more, status)
  {
    ParsedExtended(raw, more);
  }

  /** The chunk that completes the header block: status, headers and the first piece of the body. */
  method FinishHeaders(rawHeaders: string, bodyPos: nat)
    returns (r: Result<(HttpResponse, string), HttpError>, status: string)
    requires Find(rawHeaders) == Some(bodyPos)
    ensures r.Ok? ==> Forwarded(rawHeaders, r.value.0, r.value.1, status)
    ensures r.Err? ==> Parsed(rawHeaders) == Err(r.error) && status == ""
  {
    HeaderBlockSuffices(rawHeaders);
    status := "";
    var response :- ParseHeaderBlock(rawHeaders[..bodyPos]);
    status := StatusText(response);
    return Ok((response, rawHeaders[bodyPos + 4..])), status;
  }

  lemma {:induction false} FailedEarly(raw: string, all: string, e: HttpError)
    requires Find(raw).Some? && Parsed(raw) == Err(e) && raw <= all
    ensures forall ending: Ending :: Streamed(all, ending, Err(e), "", "")
  {
    assert all == raw + all[|raw|..];
    ParsedExtended(raw, all[|raw|..]);
  }

  /**
   The receive loop of `stream_get`. However the response is split into chunks, and wherever
   the blank line falls, it forwards the body, prints the status and returns the headers that
   the batch parser finds in the concatenation, and fails exactly when that fails.
   */
  method StreamGet(recvs: seq<Recv>, ending: Ending)
    returns (r: Result<HttpResponse, HttpError>, body: string, status: string)
    requires PlausibleRecv(recvs)
    ensures Streamed(Received(recvs), ending, r, body, status)
    ensures Parsed(Received(recvs)).Ok? ==>
              && body == Parsed(Received(recvs)).value.body
              && status == StatusText(Parsed(Received(recvs)).value)
              && r == match ending {
                        case Closed => Ok(Parsed(Received(recvs)).value.(body := ""))
                        case TimedOut => Err(Timeout)
                        case Broken => Err(SystemError)
                      }
    ensures Parsed(Received(recvs)).Err? ==> body == "" && status == "" && r.Err?
  {
    var rawHeaders, headersComplete := "", false;
    var response := HttpResponse(0, "", "", "");
    body, status := "", "";
    var i := 0;
    while i < |recvs|
      invariant 0 <= i <= |recvs|
      invariant !headersComplete ==> rawHeaders == Received(recvs[..i]) && Find(rawHeaders).None?
      invariant !headersComplete ==> body == "" && status == ""
      invariant headersComplete ==> Forwarded(Received(recvs[..i]), response, body, status)
    {
      ReceivedSnoc(recvs, i);
      if recvs[i].Chunk? {
        if !headersComplete {
          rawHeaders := rawHeaders + recvs[i].data;
          var bodyPos := Find(rawHeaders);
          if bodyPos.Some? {
            headersComplete := true;
            var first;
            first, status := FinishHeaders(rawHeaders, bodyPos.value);
            if first.Err? {
              ReceivedPrefix(recvs, i + 1);
              FailedEarly(rawHeaders, Received(recvs), first.error);
              return Err(first.error), body, status;
            }
            response := first.value.0;
            body := first.value.1;
          }
        } else {
          ForwardMore(Received(recvs[..i]), recvs[i].data, response, body, status);
          body := body + recvs[i].data;
        }
      } else {
        assert Received(recvs[..i]) + "" == Received(recvs[..i]);
      }
      i := i + 1;
    }
    assert recvs[..i] == recvs;
    if !ending.Closed? {
      return Err(Failure(ending)), body, status;
    }
    if !headersComplete {
      return Err(NoHeaderBodySplit), body, status;
    }
    return Ok(response), body, status;
  }

  // ----- Sending -----

  /** What `send` returns: some bytes taken, an interruption, or an error. */
  datatype Send = Sent(n: nat) | Retry | SendFailed

  /** An answer after which sending goes on: `send` may not take nothing. */
  predicate GoesOn(answer: Send) {
    answer.Retry? || (answer.Sent? && answer.n > 0)
  }

  /** The bytes the kernel would take in all, were there enough of them. */
  function Capacity(answers: seq<Send>): nat {
    if answers == [] then 0
    else Capacity(answers[..|answers| - 1]) + match answers[|answers| - 1] { case Sent(n) => n case _ => 0 }
  }

  lemma {:induction false} CapacitySnoc(answers: seq<Send>, answer: Send)
    ensures Capacity([]) == 0
    ensures Capacity(answers + [answer]) == Capacity(answers) + if answer.Sent? then answer.n else 0
  {
    assert (answers + [answer])[..|answers|] == answers;
  }

  lemma {:induction false} CapacityGrows(answers: seq<Send>, i: nat, j: nat)
    requires i <= j <= |answers|
    ensures Capacity(answers[..i]) <= Capacity(answers[..j])
  {
    if i < j {
      CapacityGrows(answers, i, j - 1);
      assert answers[..j][..j - 1] == answers[..j - 1];
    }
  }

  /** Some answers in a row, none of them bad, take `length` bytes. */
  ghost predicate Suffices(answers: seq<Send>, i: nat, length: nat) {
    i <= |answers| && (forall j :: 0 <= j < i ==> GoesOn(answers[j])) && Capacity(answers[..i]) >= length
  }

  lemma SufficesMeans(answers: seq<Send>, i: nat, length: nat)
    ensures Suffices(answers, i, length) <==>
            && i <= |answers| && Capacity(answers[..i]) >= length
            && forall j :: 0 <= j < i ==> answers[j].Retry? || (answers[j].Sent? && answers[j].n > 0)
  {
  }

  /** Once an answer is bad, or the script is over, before enough was taken, nothing suffices. */
  lemma {:induction false} NothingSuffices(answers: seq<Send>, i: nat, length: nat)
    requires i <= |answers| && Capacity(answers[..i]) < length
    requires i < |answers| ==> !GoesOn(answers[i])
    ensures forall k: nat :: !Suffices(answers, k, length)
  {
    forall k: nat
      ensures !Suffices(answers, k, length)
    {
      if k <= i {
        CapacityGrows(answers, k, i);
      }
    }
  }

  /**
   `send_all`: partial sends and interruptions lose, repeat and reorder nothing, and it succeeds
   exactly when the kernel takes everything before its first bad answer. `wire` is what the
   kernel has taken; answers beyond the end of the script are failures.
   */
  method SendAll(data: string, answers: seq<Send>) returns (r: Result<(), HttpError>, wire: string)
    ensures wire <= data
    ensures r.Ok? <==> wire == data
    ensures r.Ok? <==> exists i: nat :: Suffices(answers, i, |data|)
  {
    wire := "";
    var sent := 0;
    var i := 0;
    while sent < |data|
      invariant 0 <= sent <= |data| && 0 <= i <= |answers|
      invariant wire == data[..sent]
      invariant sent == Min(Capacity(answers[..i]), |data|)
      invariant forall j :: 0 <= j < i ==> GoesOn(answers[j])
      decreases |answers| - i
    {
      if i == |answers| || answers[i].SendFailed? {
        NothingSuffices(answers, i, |data|);
        return Err(SystemError), wire;
      }
      assert answers[..i + 1][..i] == answers[..i];
      if answers[i].Sent? {
        // The kernel takes at most what it is offered.
        var n := Min(answers[i].n, |data| - sent);
        if n == 0 {
          NothingSuffices(answers, i, |data|);
          return Err(SystemError), wire;
        }
        wire := wire + data[sent..sent + n];
        sent := sent + n;
      }
      i := i + 1;
    }
    assert Suffices(answers, i, |data|);
    return Ok(()), wire;
  }
}
