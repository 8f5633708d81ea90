/** The scenarios of the parser's unit tests, stated over the model: the
    lines no decomposition can match, and for the test lines the match the
    engine returns (its groups as the tests' lines hold them) and what
    `ParseLog` makes of it. */
module LogParserExamples {
  import opened Wrappers
  import opened JsText
  import opened LogParser

  const Epiphany := "Mozilla/5.0 (X11; U; Linux x86_64; fr-FR) AppleWebKit/534.7 (KHTML, like Gecko) Epiphany/2.30.6 Safari/534.7"
  const Android := "Mozilla/5.0 (Linux; U; Android 2.3.5; en-us; HTC Vision Build/GRI40) AppleWebKit/533.1 (KHTML, like Gecko) Version/4.0 Mobile Safari/533.1"
  const Chrome := "Mozilla/5.0 (Windows NT 6.1; WOW64) AppleWebKit/536.6 (KHTML, like Gecko) Chrome/20.0.1092.0 Safari/536.6"

  /** The match of a test line: single spaces between the fields, an
      unknown field and a referrer of `-`, response `200`, port `3574`, and
      nothing before or after. */
  function TestMatch(clientIp: string, role: string, date: string, request: string, userAgent: string): RegexMatch {
    RegexMatch(
      lead := "",
      clientIp := clientIp, gap1 := " ",
      ident := "-", gap2 := " ",
      role := role, gap3 := " ",
      date := date, gap4 := " ",
      request := request, gap5 := " ",
      response := "200", gap6 := " ",
      port := "3574", gap7 := " ",
      unknown := "-", gap8 := " ",
      userAgent := userAgent,
      trail := "")
  }

  /** The empty line cannot be matched, so it is rejected. */
  lemma EmptyLineRejected(m: Option<RegexMatch>)
    requires EngineResult("", m)
    ensures ParseLog("", m) == None
  {
    if m.Some? {
      BracketInMatch(m.value);
      assert false;
    }
  }

  /** "test string" has no `[`, so it cannot be matched and is rejected. */
  lemma TestStringRejected(m: Option<RegexMatch>)
    requires EngineResult("test string", m)
    ensures ParseLog("test string", m) == None
  {
    if m.Some? {
      BracketInMatch(m.value);
      assert false;
    }
  }

  /** The sample line parses into the fields the tests expect. (The
      request parts are bound by `requires` rather than written in place, so
      that the verifier does not unfold `Split` character by character.) */
  lemma SampleLineFields(line: string, request: Request)
    requires request == Request("GET", "/intranet-analytics/", "HTTP/1.1")
    requires EngineResult(line, Some(TestMatch("177.71.128.21", "-", "10/Jul/2018:22:21:28 +0200", RequestLine(request), Epiphany)))
    ensures ParseLog(line, Some(TestMatch("177.71.128.21", "-", "10/Jul/2018:22:21:28 +0200", RequestLine(request), Epiphany)))
      == Some(LogEntry(
           clientIp := "177.71.128.21",
           date := MomentDate("10/Jul/2018:22:21:28 +0200"),
           role := "-",
           request := Request("GET", "/intranet-analytics/", "HTTP/1.1"),
           responseCode := "200",
           port := "3574",
           userAgent := Epiphany))
  {
    RequestPartsUnique(line, TestMatch("177.71.128.21", "-", "10/Jul/2018:22:21:28 +0200", RequestLine(request), Epiphany), request);
  }

  /** A role of `admin` is taken as it stands. */
  lemma AdminRoleKept(line: string, request: Request)
    requires request == Request("GET", "/asset.js", "HTTP/1.1")
    requires EngineResult(line, Some(TestMatch("50.112.00.11", "admin", "11/Jul/2018:17:31:56 +0200", RequestLine(request), Chrome)))
    ensures var r := ParseLog(line, Some(TestMatch("50.112.00.11", "admin", "11/Jul/2018:17:31:56 +0200", RequestLine(request), Chrome)));
      r.Some? && r.value.role == "admin"
  {
    RequestPartsUnique(line, TestMatch("50.112.00.11", "admin", "11/Jul/2018:17:31:56 +0200", RequestLine(request), Chrome), request);
  }

  /** A fully qualified URI is kept verbatim as the endpoint. */
  lemma QualifiedUriKept(line: string, request: Request)
    requires request == Request("GET", "http://example.net/faq/", "HTTP/1.1")
    requires EngineResult(line, Some(TestMatch("168.41.191.40", "-", "09/Jul/2018:10:11:30 +0200", RequestLine(request), Android)))
    ensures var r := ParseLog(line, Some(TestMatch("168.41.191.40", "-", "09/Jul/2018:10:11:30 +0200", RequestLine(request), Android)));
      r.Some? && r.value.request.endpoint == "http://example.net/faq/"
  {
    RequestPartsUnique(line, TestMatch("168.41.191.40", "-", "09/Jul/2018:10:11:30 +0200", RequestLine(request), Android), request);
  }

  /** A request line holding only a target and a protocol splits into two
      pieces, so the line is rejected although the pattern matched it. */
  lemma MissingMethodRejected(line: string, target: string, protocol: string)
    requires target == "http://example.net/faq/" && protocol == "HTTP/1.1"
    requires EngineResult(line, Some(TestMatch("168.41.191.40", "-", "09/Jul/2018:10:11:30 +0200", target + " " + protocol, Android)))
    ensures ParseLog(line, Some(TestMatch("168.41.191.40", "-", "09/Jul/2018:10:11:30 +0200", target + " " + protocol, Android))) == None
  {
    var pieces := [target, protocol];
    assert Join(pieces, ' ') == target + " " + protocol;
    SplitJoin(pieces, ' ');
    SplitCount(target + " " + protocol, ' ');
  }
}
