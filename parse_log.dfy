/** `parseLog`: one access-log line in the combined style becomes a `LogEntry`,
    or `None` (JavaScript's `null`) when the line is not one.

    The line pattern is matched by the JavaScript regular-expression engine,
    which this model does not reimplement. A match is described by
    `RegexMatch`: the nine capture groups together with the whitespace runs the
    pattern skips between them, the text before the match (the pattern is not
    anchored) and the text after it. `WellFormed` states the character classes
    the pattern imposes on each part, and `Text` puts the parts back together.
    What the engine returned for a line is taken as an input that
    `EngineResult` relates to the line. Everything after the match — the split
    of the request group on single spaces, the three-piece check and the
    assembly of the entry — is modelled exactly. */
module LogParser {
  import opened Wrappers
  import opened JsText

  /** The Date that `moment(text, "DD/MMM/YYYY:HH:mm:ss ZZ").toDate()` makes
      of the timestamp text (capture group 4). The model keeps the text it was
      made from and never looks inside: the parser never rejects a line for
      its timestamp. */
  datatype MomentDate = MomentDate(source: string)

  /** `RequestType`: the three space-separated parts of the quoted request line. */
  datatype Request = Request(httpMethod: string, endpoint: string, protocol: string)

  /** `LogType`: the parsed form of one line. */
  datatype LogEntry = LogEntry(
    clientIp: string,
    date: MomentDate,
    role: string,
    request: Request,
    responseCode: string,
    port: string,
    userAgent: string)

  /** One way in which the line pattern matches a line. The pattern reads,
      in order: three whitespace-free groups (1 to 3), the timestamp group
      (4) in square brackets, the request group (5) in double quotes, a
      group of digits (6), a whitespace-free group (7), and two further
      quoted groups (8 and 9), with a run of whitespace between each two and
      a lazy wildcard at the end. This record holds groups 1 to 9
      (`clientIp` .. `userAgent`), the eight whitespace runs between them
      (`gap1` .. `gap8`), the text before the match (`lead`) and the text
      after it (`trail`; the final lazy wildcard matches the empty string, so
      the match ends at the last quote). */
  datatype RegexMatch = RegexMatch(
    lead: string,
    clientIp: string, gap1: string,
    ident: string, gap2: string,
    role: string, gap3: string,
    date: string, gap4: string,
    request: string, gap5: string,
    response: string, gap6: string,
    port: string, gap7: string,
    unknown: string, gap8: string,
    userAgent: string,
    trail: string)

  /** A non-empty run of `\s`. */
  predicate IsGap(s: string) {
    |s| > 0 && AllWhitespace(s)
  }

  /** The character classes of each group and gap of the pattern. */
  predicate WellFormed(g: RegexMatch) {
    // groups 1 to 3: (\S*)
    && NoWhitespace(g.clientIp) && NoWhitespace(g.ident) && NoWhitespace(g.role)
    // group 4: \[(.*)\]
    && NoLineTerminator(g.date)
    // group 5: "([^"]+)"
    && |g.request| > 0 && '"' !in g.request
    // group 6: (\d+)
    && |g.response| > 0 && AllDigits(g.response)
    // group 7: (\S+)
    && |g.port| > 0 && NoWhitespace(g.port)
    // groups 8 and 9: "(.*)"
    && NoLineTerminator(g.unknown) && NoLineTerminator(g.userAgent)
    && IsGap(g.gap1) && IsGap(g.gap2) && IsGap(g.gap3) && IsGap(g.gap4)
    && IsGap(g.gap5) && IsGap(g.gap6) && IsGap(g.gap7) && IsGap(g.gap8)
  }

  /** The line that the parts of `g` spell out, with the literal brackets and
      quotes of the pattern put back. */
  function Text(g: RegexMatch): string {
    g.lead + g.clientIp + g.gap1 + g.ident + g.gap2 + g.role + g.gap3
    + "[" + g.date + "]" + g.gap4
    + "\"" + g.request + "\"" + g.gap5
    + g.response + g.gap6 + g.port + g.gap7
    + "\"" + g.unknown + "\"" + g.gap8
    + "\"" + g.userAgent + "\""
    + g.trail
  }

  /** What `line.match(logRegex)` may return: some match of the pattern in
      the line, or nothing when there is none. Which of several possible
      matches the engine picks (leftmost, then by greedy priority) is the
      engine's business and is not modelled. */
  ghost predicate EngineResult(line: string, m: Option<RegexMatch>) {
    match m
    case Some(g) => WellFormed(g) && Text(g) == line
    case None => forall g :: WellFormed(g) ==> Text(g) != line
  }

  /** The request line spelled out from its three parts. */
  function RequestLine(r: Request): string {
    r.httpMethod + " " + r.endpoint + " " + r.protocol
  }

  /** `e` is an entry whose fields are the captures of `g`: groups 1, 3, 6,
      7 and 9 unchanged, the date made from group 4, and a request whose
      three parts contain no space and spell out group 5 when joined with
      single spaces. */
  predicate CopiesCaptures(g: RegexMatch, e: LogEntry) {
    && e.clientIp == g.clientIp
    && e.role == g.role
    && e.date == MomentDate(g.date)
    && e.responseCode == g.response
    && e.port == g.port
    && e.userAgent == g.userAgent
    && ' ' !in e.request.httpMethod && ' ' !in e.request.endpoint && ' ' !in e.request.protocol
    && RequestLine(e.request) == g.request
  }

  /** `parseLog(line)`, given what the regular-expression engine returned for
      `line`. The result is `None` exactly when there was no match or the
      request group does not hold exactly two spaces (so that `split(" ")`
      does not give three pieces); otherwise it is an entry built from the
      captures. */
  function ParseLog(line: string, m: Option<RegexMatch>): (r: Option<LogEntry>)
    requires EngineResult(line, m)
    ensures r.Some? <==> m.Some? && Occurrences(m.value.request, ' ') == 2
    ensures r.Some? ==> CopiesCaptures(m.value, r.value)
  {
    match m
    case None => None
    case Some(g) =>
      var splitRequest := Split(g.request, ' ');
      SplitCount(g.request, ' ');
      if |splitRequest| != 3 then None
      else
        var request := Request(splitRequest[0], splitRequest[1], splitRequest[2]);
        SplitPiecesFree(g.request, ' ');
        JoinSplit(g.request, ' ');
        JoinThree(splitRequest, ' ');
        Some(LogEntry(
          clientIp := g.clientIp,
          date := MomentDate(g.date),
          role := g.role,
          request := request,
          responseCode := g.response,
          port := g.port,
          userAgent := g.userAgent))
  }

  /** Joining three pieces puts the separator between each two. */
  lemma JoinThree(pieces: seq<string>, sep: char)
    requires |pieces| == 3
    ensures Join(pieces, sep) == pieces[0] + [sep] + pieces[1] + [sep] + pieces[2]
  {
    assert pieces[1..][1..] == [pieces[2]];
    assert Join(pieces[1..], sep) == pieces[1] + [sep] + pieces[2];
    assert pieces[0] + [sep] + (pieces[1] + [sep] + pieces[2])
        == pieces[0] + [sep] + pieces[1] + [sep] + pieces[2];
  }

  /** The request parts of an accepted line are the only way to cut the
      request group into three space-free words separated by single spaces:
      any such cut is exactly what `parseLog` returns. */
  lemma RequestPartsUnique(line: string, g: RegexMatch, request: Request)
    requires EngineResult(line, Some(g))
    requires ' ' !in request.httpMethod && ' ' !in request.endpoint && ' ' !in request.protocol
    requires RequestLine(request) == g.request
    ensures ParseLog(line, Some(g)).Some?
    ensures ParseLog(line, Some(g)).value.request == request
  {
    var pieces := [request.httpMethod, request.endpoint, request.protocol];
    JoinThree(pieces, ' ');
    assert Join(pieces, ' ') == g.request;
    SplitJoin(pieces, ' ');
  }

  /** Two adjacent spaces in the request group give an empty piece between
      them, as `split(" ")` does: a method and a protocol separated by two
      spaces are accepted, with the empty text as the endpoint. */
  lemma DoubleSpaceGivesEmptyEndpoint(line: string, g: RegexMatch, httpMethod: string, protocol: string)
    requires EngineResult(line, Some(g))
    requires ' ' !in httpMethod && ' ' !in protocol
    requires g.request == httpMethod + "  " + protocol
    ensures ParseLog(line, Some(g)).Some?
    ensures ParseLog(line, Some(g)).value.request == Request(httpMethod, "", protocol)
  {
    assert RequestLine(Request(httpMethod, "", protocol)) == g.request;
    RequestPartsUnique(line, g, Request(httpMethod, "", protocol));
  }

  /** The role is copied and never checked: a match that differs from an
      accepted or rejected one only in group 3 (say `-` against `admin`) is
      accepted or rejected alike and yields that group as its role. */
  lemma RoleNeverDecides(g: RegexMatch, role: string)
    requires WellFormed(g) && NoWhitespace(role)
    ensures var g' := g.(role := role);
      && WellFormed(g')
      && ParseLog(Text(g'), Some(g')).Some? == ParseLog(Text(g), Some(g)).Some?
      && (ParseLog(Text(g'), Some(g')).Some? ==> ParseLog(Text(g'), Some(g')).value.role == role)
  {
  }

  /** A character of a request part is a character of the request group. */
  lemma {:induction false} RequestPartsInside(r: Request, c: char)
    requires c in r.httpMethod || c in r.endpoint || c in r.protocol
    ensures c in RequestLine(r)
  {
    var line := RequestLine(r);
    if c in r.httpMethod {
      var i :| 0 <= i < |r.httpMethod| && r.httpMethod[i] == c;
      assert line[i] == c;
    } else if c in r.endpoint {
      var i :| 0 <= i < |r.endpoint| && r.endpoint[i] == c;
      assert line[|r.httpMethod| + 1 + i] == c;
    } else {
      var i :| 0 <= i < |r.protocol| && r.protocol[i] == c;
      assert line[|r.httpMethod| + 1 + |r.endpoint| + 1 + i] == c;
    }
  }

  /** The fields of a parsed entry keep the character classes of the groups
      they come from: the client address and the role contain no whitespace,
      the response code is a non-empty run of digits, the port a non-empty
      token without whitespace, and no request part contains a quote. */
  lemma ParsedFieldsKeepClasses(line: string, m: Option<RegexMatch>)
    requires EngineResult(line, m)
    requires ParseLog(line, m).Some?
    ensures var e := ParseLog(line, m).value;
      && NoWhitespace(e.clientIp) && NoWhitespace(e.role)
      && |e.responseCode| > 0 && AllDigits(e.responseCode)
      && |e.port| > 0 && NoWhitespace(e.port)
      && '"' !in e.request.httpMethod && '"' !in e.request.endpoint && '"' !in e.request.protocol
  {
    var e := ParseLog(line, m).value;
    if '"' in e.request.httpMethod || '"' in e.request.endpoint || '"' in e.request.protocol {
      RequestPartsInside(e.request, '"');
      assert false;
    }
  }

  /** Every match contains the opening bracket of the timestamp. */
  lemma BracketInMatch(g: RegexMatch)
    ensures '[' in Text(g)
  {
    var before := g.lead + g.clientIp + g.gap1 + g.ident + g.gap2 + g.role + g.gap3;
    assert Text(g)[|before|] == '[';
  }
}
