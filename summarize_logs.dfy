/** `createLogAnalyzer`: a rolling summary of parsed log entries. The
    analyzer owns two tables from text to count, one per client address and
    one per endpoint; `AddLog` counts one more entry into both and
    `GetSummary` reads them: the number of distinct client addresses and the
    most frequent addresses and endpoints. */
module LogSummary {
  import opened LogParser
  import opened Ranking

  /** `table.has(key) ? table.get(key) : 0`. */
  function CountOf(table: map<string, nat>, key: string): nat {
    if key in table then table[key] else 0
  }

  /** The frequency table of a sequence of keys, built as `addLog` builds
      it: one key at a time, raising the key's count by one (from 0 when it
      is new). */
  function Frequencies(keys: seq<string>): map<string, nat> {
    if keys == [] then map[]
    else
      var prefix := keys[..|keys| - 1];
      var key := keys[|keys| - 1];
      Frequencies(prefix)[key := CountOf(Frequencies(prefix), key) + 1]
  }

  /** The keys of the table are the texts that occur among the keys. */
  lemma {:induction false} FrequenciesKeys(keys: seq<string>)
    ensures Frequencies(keys).Keys == Elems(keys)
  {
    if keys != [] {
      var prefix := keys[..|keys| - 1];
      FrequenciesKeys(prefix);
      assert keys == prefix + [keys[|keys| - 1]];
      assert Elems(keys) == Elems(prefix) + {keys[|keys| - 1]};
    }
  }

  /** The definition of `Frequencies` unfolded at `keys + [key]`: a helper
      that lets `AddLog` relate its new tables to its extended histories. */
  lemma FrequenciesSnoc(keys: seq<string>, key: string)
    ensures Frequencies(keys + [key]) == Frequencies(keys)[key := CountOf(Frequencies(keys), key) + 1]
  {
    assert (keys + [key])[..|keys|] == keys;
  }

  /** Every count in the table is at least one: a key gets an entry only
      when it occurs. */
  lemma {:induction false} FrequenciesPositive(keys: seq<string>, k: string)
    requires k in Frequencies(keys)
    ensures Frequencies(keys)[k] > 0
  {
    if keys != [] && k != keys[|keys| - 1] {
      FrequenciesPositive(keys[..|keys| - 1], k);
    }
  }

  /** Counting one more key: the count of that text is one more than the
      number of times it occurred before, and every other text's count is
      the number of times it occurred before. */
  lemma FrequenciesAddOne(keys: seq<string>, key: string, k: string)
    ensures CountOf(Frequencies(keys + [key]), k) == multiset(keys)[k] + (if k == key then 1 else 0)
  {
    FrequenciesCount(keys + [key], k);
    assert multiset(keys + [key]) == multiset(keys) + multiset{key};
  }

  /** The table holds, for every text, the number of times it occurs among
      the keys (0 for one that does not occur, which then has no entry). */
  lemma {:induction false} FrequenciesCount(keys: seq<string>, k: string)
    ensures CountOf(Frequencies(keys), k) == multiset(keys)[k]
  {
    if keys != [] {
      var prefix := keys[..|keys| - 1];
      FrequenciesCount(prefix, k);
      assert keys == prefix + [keys[|keys| - 1]];
    }
  }

  /** What `getSummary` returns. */
  datatype Summary = Summary(
    uniqueVisitors: nat,
    topActiveVisitors: seq<string>,
    topVisitedUrls: seq<string>)

  /** The object `createLogAnalyzer` returns, with the two `Map`s its
      closures share as fields. */
  class LogAnalyzer {
    /** Client address to number of entries from it. */
    var ipAddresses: map<string, nat>
    /** Endpoint to number of entries for it. */
    var urlVisits: map<string, nat>
    /** The client address of every entry added so far, oldest first. */
    ghost var clientIps: seq<string>
    /** The endpoint of every entry added so far, oldest first. */
    ghost var endpoints: seq<string>

    /** Each table is the frequency table of what has been added so far. */
    ghost predicate Valid()
      reads this
    {
      && ipAddresses == Frequencies(clientIps)
      && urlVisits == Frequencies(endpoints)
    }

    /** `createLogAnalyzer()`: both tables start empty. */
    constructor ()
      ensures Valid() && clientIps == [] && endpoints == []
      ensures ipAddresses == map[] && urlVisits == map[]
    {
      ipAddresses := map[];
      urlVisits := map[];
      clientIps := [];
      endpoints := [];
    }

    /** `addLog(log)`: the count of the entry's client address and the count
        of its endpoint each go up by one (a new key starting at 1), and no
        other count changes. */
    method AddLog(log: LogEntry)
      requires Valid()
      modifies this
      ensures Valid()
      ensures clientIps == old(clientIps) + [log.clientIp]
      ensures endpoints == old(endpoints) + [log.request.endpoint]
      ensures ipAddresses == old(ipAddresses)[log.clientIp := CountOf(old(ipAddresses), log.clientIp) + 1]
      ensures urlVisits == old(urlVisits)[log.request.endpoint := CountOf(old(urlVisits), log.request.endpoint) + 1]
    {
      FrequenciesSnoc(clientIps, log.clientIp);
      FrequenciesSnoc(endpoints, log.request.endpoint);

      var currentValue := 0;
      if log.clientIp in ipAddresses {
        currentValue := ipAddresses[log.clientIp];
      }
      ipAddresses := ipAddresses[log.clientIp := currentValue + 1];

      var currentUrlVisit := 0;
      if log.request.endpoint in urlVisits {
        currentUrlVisit := urlVisits[log.request.endpoint];
      }
      urlVisits := urlVisits[log.request.endpoint := currentUrlVisit + 1];

      clientIps, endpoints := clientIps + [log.clientIp], endpoints + [log.request.endpoint];
    }

    /** `getSummary(limitResultCount = 3)`: the number of distinct client
        addresses ever added, and the most frequent addresses and endpoints
        as `IsTopN` defines them. It changes nothing. */
    method GetSummary(limitResultCount: nat := 3) returns (summary: Summary)
      requires Valid()
      ensures summary.uniqueVisitors == |Elems(clientIps)| == |ipAddresses|
      ensures IsTopN(summary.topActiveVisitors, ipAddresses, limitResultCount)
      ensures IsTopN(summary.topVisitedUrls, urlVisits, limitResultCount)
    {
      var topActiveVisitors := TopByCount(ipAddresses, limitResultCount);
      var topVisitedUrls := TopByCount(urlVisits, limitResultCount);
      FrequenciesKeys(clientIps);
      assert |ipAddresses| == |ipAddresses.Keys|;
      summary := Summary(
        uniqueVisitors := |ipAddresses|,
        topActiveVisitors := topActiveVisitors,
        topVisitedUrls := topVisitedUrls);
    }
  }
}
