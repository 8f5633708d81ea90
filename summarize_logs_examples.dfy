/** The scenarios of the analyzer's unit tests, stated over the model: an
    analyzer is created, entries are added, and the summary is stated in
    full. Each scenario is stated for any entry and any client addresses and
    endpoints that are distinct where the test's are. The tests start from
    the fixture `simpleLog`: client address "177.71.128.21", role "-",
    request "GET" "/intranet-analytics/" "HTTP/1.1", response "200", port
    "3574" and an Epiphany user agent; they vary it with the addresses
    "0.0.0.0" and "192.168.2.1" and the endpoint
    "http://example.com/example/". Where two keys have the same count the
    order between them is left open, as the test leaves it open by sorting
    before it compares. */
module LogSummaryExamples {
  import opened LogParser
  import opened Ranking
  import opened LogSummary

  /** `{ ...log, clientIp }` */
  function FromClient(log: LogEntry, clientIp: string): LogEntry {
    log.(clientIp := clientIp)
  }

  /** `{ ...log, request: { ...log.request, endpoint } }` */
  function ForEndpoint(log: LogEntry, endpoint: string): LogEntry {
    log.(request := log.request.(endpoint := endpoint))
  }

  /** The answer for a table of one key. */
  lemma TopOfOne(r: seq<string>, table: map<string, nat>, k: string, limit: nat)
    requires table.Keys == {k}
    requires limit >= 1 && IsTopN(r, table, limit)
    ensures r == [k]
  {
    TopNUnique(r, [k], table, limit);
  }

  /** The answer for a table of two keys of different counts. */
  lemma TopOfTwo(r: seq<string>, table: map<string, nat>, a: string, b: string, limit: nat)
    requires a != b && table.Keys == {a, b} && table[a] > table[b]
    requires limit >= 1 && IsTopN(r, table, limit)
    ensures r == if limit == 1 then [a] else [a, b]
  {
    TopNUnique(r, if limit == 1 then [a] else [a, b], table, limit);
  }

  /** The answer for a table of two keys of equal count: both, in either
      order. */
  lemma TopOfTied(r: seq<string>, table: map<string, nat>, a: string, b: string, limit: nat)
    requires a != b && table.Keys == {a, b} && table[a] == table[b]
    requires limit >= 2 && IsTopN(r, table, limit)
    ensures r == [a, b] || r == [b, a]
  {
    assert |r| == 2 && r[0] != r[1];
    assert r[0] in table && r[1] in table;
  }

  /** The answer for a table of three keys of different counts. */
  lemma TopOfThree(r: seq<string>, table: map<string, nat>, a: string, b: string, c: string)
    requires a != b && b != c && a != c && table.Keys == {a, b, c}
    requires table[a] > table[b] > table[c]
    requires IsTopN(r, table, 3)
    ensures r == [a, b, c]
  {
    TopNUnique(r, [a, b, c], table, 3);
  }

  /** With no entries the summary is empty. */
  method EmptyOnCreation() returns (summary: Summary)
    ensures summary == Summary(0, [], [])
  {
    var analyzer := new LogAnalyzer();
    summary := analyzer.GetSummary();
  }

  /** One entry: one visitor, and its address and endpoint on top. */
  method OneEntry(log: LogEntry) returns (summary: Summary)
    ensures summary == Summary(1, [log.clientIp], [log.request.endpoint])
  {
    var analyzer := new LogAnalyzer();
    analyzer.AddLog(log);
    summary := analyzer.GetSummary();
    TopOfOne(summary.topActiveVisitors, analyzer.ipAddresses, log.clientIp, 3);
    TopOfOne(summary.topVisitedUrls, analyzer.urlVisits, log.request.endpoint, 3);
  }

  /** The same entry twice is still one visitor. */
  method SameClientTwice(log: LogEntry) returns (summary: Summary)
    ensures summary == Summary(1, [log.clientIp], [log.request.endpoint])
  {
    var analyzer := new LogAnalyzer();
    analyzer.AddLog(log);
    analyzer.AddLog(log);
    summary := analyzer.GetSummary();
    TopOfOne(summary.topActiveVisitors, analyzer.ipAddresses, log.clientIp, 3);
    TopOfOne(summary.topVisitedUrls, analyzer.urlVisits, log.request.endpoint, 3);
  }

  /** Two clients with one entry each: two visitors, both listed, in either
      order. */
  method TwoClients(log: LogEntry, a: string, b: string) returns (summary: Summary)
    requires a != b
    ensures summary.uniqueVisitors == 2
    ensures summary.topActiveVisitors == [a, b] || summary.topActiveVisitors == [b, a]
    ensures summary.topVisitedUrls == [log.request.endpoint]
  {
    var analyzer := new LogAnalyzer();
    analyzer.AddLog(FromClient(log, a));
    analyzer.AddLog(FromClient(log, b));
    summary := analyzer.GetSummary();
    TopOfTied(summary.topActiveVisitors, analyzer.ipAddresses, a, b, 3);
    TopOfOne(summary.topVisitedUrls, analyzer.urlVisits, log.request.endpoint, 3);
  }

  /** The client with more entries comes first. */
  method OrderedByVisits(log: LogEntry, a: string, b: string) returns (summary: Summary)
    requires a != b
    ensures summary == Summary(2, [b, a], [log.request.endpoint])
  {
    var analyzer := new LogAnalyzer();
    analyzer.AddLog(FromClient(log, a));
    analyzer.AddLog(FromClient(log, b));
    analyzer.AddLog(FromClient(log, b));
    summary := analyzer.GetSummary();
    TopOfTwo(summary.topActiveVisitors, analyzer.ipAddresses, b, a, 3);
    TopOfOne(summary.topVisitedUrls, analyzer.urlVisits, log.request.endpoint, 3);
  }

  /** A limit of one keeps only the most frequent client. */
  method LimitOne(log: LogEntry, a: string, b: string) returns (summary: Summary)
    requires a != b
    ensures summary == Summary(2, [b], [log.request.endpoint])
  {
    var analyzer := new LogAnalyzer();
    analyzer.AddLog(FromClient(log, a));
    analyzer.AddLog(FromClient(log, b));
    analyzer.AddLog(FromClient(log, b));
    summary := analyzer.GetSummary(1);
    TopOfTwo(summary.topActiveVisitors, analyzer.ipAddresses, b, a, 1);
    TopOfOne(summary.topVisitedUrls, analyzer.urlVisits, log.request.endpoint, 1);
  }

  /** Two hits of the same endpoint count as one endpoint. */
  method SameEndpointTwice(log: LogEntry, u: string) returns (summary: Summary)
    ensures summary == Summary(1, [log.clientIp], [u])
  {
    var analyzer := new LogAnalyzer();
    analyzer.AddLog(ForEndpoint(log, u));
    analyzer.AddLog(ForEndpoint(log, u));
    summary := analyzer.GetSummary();
    TopOfOne(summary.topActiveVisitors, analyzer.ipAddresses, log.clientIp, 3);
    TopOfOne(summary.topVisitedUrls, analyzer.urlVisits, u, 3);
  }

  /** The endpoint with more hits comes first. */
  method EndpointsByHits(log: LogEntry, u: string, v: string) returns (summary: Summary)
    requires u != v
    ensures summary == Summary(1, [log.clientIp], [v, u])
  {
    var analyzer := new LogAnalyzer();
    analyzer.AddLog(ForEndpoint(log, u));
    analyzer.AddLog(ForEndpoint(log, v));
    analyzer.AddLog(ForEndpoint(log, v));
    summary := analyzer.GetSummary();
    TopOfOne(summary.topActiveVisitors, analyzer.ipAddresses, log.clientIp, 3);
    TopOfTwo(summary.topVisitedUrls, analyzer.urlVisits, v, u, 3);
  }

  /** The first five entries of the last test: two from `a`, then three
      from `b`. */
  method AddClientEntries(log: LogEntry, a: string, b: string) returns (analyzer: LogAnalyzer)
    requires a != b
    ensures fresh(analyzer) && analyzer.Valid()
    ensures var ips := analyzer.ipAddresses;
      ips.Keys == {a, b} && ips[a] == 2 && ips[b] == 3
    ensures var urls := analyzer.urlVisits;
      urls.Keys == {log.request.endpoint} && urls[log.request.endpoint] == 5
  {
    analyzer := new LogAnalyzer();
    analyzer.AddLog(FromClient(log, a));
    analyzer.AddLog(FromClient(log, a));
    analyzer.AddLog(FromClient(log, b));
    analyzer.AddLog(FromClient(log, b));
    analyzer.AddLog(FromClient(log, b));
  }

  /** The last three entries of the last test: one as `log` stands, then two
      from `b` for the endpoint `v`. */
  method AddEndpointEntries(analyzer: LogAnalyzer, log: LogEntry, a: string, b: string, v: string)
    requires a != b && a != log.clientIp && b != log.clientIp
    requires v != log.request.endpoint
    requires analyzer.Valid()
    requires var ips := analyzer.ipAddresses;
      ips.Keys == {a, b} && ips[a] == 2 && ips[b] == 3
    requires var urls := analyzer.urlVisits;
      urls.Keys == {log.request.endpoint} && urls[log.request.endpoint] == 5
    modifies analyzer
    ensures analyzer.Valid()
    ensures var ips := analyzer.ipAddresses;
      ips.Keys == {b, a, log.clientIp} && ips[b] == 5 && ips[a] == 2 && ips[log.clientIp] == 1
    ensures var urls := analyzer.urlVisits;
      urls.Keys == {log.request.endpoint, v} && urls[log.request.endpoint] == 6 && urls[v] == 2
  {
    analyzer.AddLog(ForEndpoint(log, log.request.endpoint));
    analyzer.AddLog(FromClient(ForEndpoint(log, v), b));
    analyzer.AddLog(FromClient(ForEndpoint(log, v), b));
  }

  /** Several clients and several endpoints at once. */
  method VisitorsAndEndpoints(log: LogEntry, a: string, b: string, v: string) returns (summary: Summary)
    requires a != b && a != log.clientIp && b != log.clientIp
    requires v != log.request.endpoint
    ensures summary == Summary(3, [b, a, log.clientIp], [log.request.endpoint, v])
  {
    var analyzer := AddClientEntries(log, a, b);
    AddEndpointEntries(analyzer, log, a, b, v);
    summary := analyzer.GetSummary();
    TopOfThree(summary.topActiveVisitors, analyzer.ipAddresses, b, a, log.clientIp);
    TopOfTwo(summary.topVisitedUrls, analyzer.urlVisits, log.request.endpoint, v, 3);
  }
}
