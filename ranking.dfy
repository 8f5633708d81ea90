/** The ranking step of `getSummary`, shared by both of its lists: the
    table's entries are copied into an array, sorted by descending count,
    cut to the first `limit` and reduced to their keys. `IsTopN` says what
    a correct answer is, without fixing the order among keys of equal
    count or, when the limit cuts through a group of equal counts, which
    keys of that group are listed; `TopByCount` computes one. */
module Ranking {

  /** One element of `Array.from(table.entries())`: a key and its count. */
  type Entry = (string, nat)

  function Min(a: nat, b: nat): nat {
    if a <= b then a else b
  }

  predicate Distinct(s: seq<string>) {
    forall i, j :: 0 <= i < j < |s| ==> s[i] != s[j]
  }

  function Elems(s: seq<string>): set<string> {
    set x | x in s
  }

  /** `ranked` is a correct answer to "the `limit` keys of `table` with the
      highest counts": as many keys as the limit allows and the table has,
      all distinct and all in the table, listed by non-increasing count, and
      no count left out is higher than the count of the last key listed (and
      so, by `LeftOutNotHigher`, than that of any key listed). */
  predicate IsTopN(ranked: seq<string>, table: map<string, nat>, limit: nat) {
    && |ranked| == Min(limit, |table|)
    && Distinct(ranked)
    && (forall i :: 0 <= i < |ranked| ==> ranked[i] in table)
    && (forall i, j :: 0 <= i < j < |ranked| ==> table[ranked[i]] >= table[ranked[j]])
    && (|ranked| > 0 ==> forall v :: v in (table - Elems(ranked)).Values ==> v <= table[ranked[|ranked| - 1]])
  }

  /** No key left out of a correct answer has a higher count than any key
      in it. */
  lemma LeftOutNotHigher(ranked: seq<string>, table: map<string, nat>, limit: nat, k: string, i: nat)
    requires IsTopN(ranked, table, limit)
    requires k in table && k !in ranked && i < |ranked|
    ensures table[k] <= table[ranked[i]]
  {
    assert k in table - Elems(ranked);
    assert table[k] in (table - Elems(ranked)).Values;
    assert table[ranked[i]] >= table[ranked[|ranked| - 1]];
  }

  /** The entries are ordered as the comparator `(a, b) => b[1] - a[1]`
      orders them: by non-increasing count. */
  predicate SortedByCount(s: seq<Entry>) {
    forall i, j :: 0 <= i < j < |s| ==> s[i].1 >= s[j].1
  }

  /** `.map(([key]) => key)` */
  function KeysOf(s: seq<Entry>): (keys: seq<string>)
    ensures |keys| == |s| && forall i :: 0 <= i < |s| ==> keys[i] == s[i].0
  {
    if s == [] then [] else [s[0].0] + KeysOf(s[1..])
  }

  /** A sequence has at most as many distinct elements as it is long, and
      exactly as many when no element repeats. */
  lemma {:induction false} ElemsCard(s: seq<string>)
    ensures |Elems(s)| <= |s|
    ensures Distinct(s) <==> |Elems(s)| == |s|
  {
    if s != [] {
      ElemsCard(s[1..]);
      assert Elems(s) == {s[0]} + Elems(s[1..]);
      if s[0] in s[1..] {
        assert Elems(s) == Elems(s[1..]);
        var j :| 0 <= j < |s[1..]| && s[1..][j] == s[0];
        assert s[0] == s[j + 1];
      } else {
        assert Distinct(s) <==> Distinct(s[1..]);
      }
    }
  }

  /** A subset has no more elements than its superset. */
  lemma SubsetCard(a: set<string>, b: set<string>)
    requires a <= b
    ensures |a| <= |b|
  {
    assert b == a + (b - a);
  }

  /** Two correct answers to the same question have the same length and
      the same counts position by position: they can differ only among keys
      of equal count, in their order and, when the limit falls inside a
      group of equal counts, in which keys of that count they list. */
  lemma TopNUpToTies(r1: seq<string>, r2: seq<string>, table: map<string, nat>, limit: nat)
    requires IsTopN(r1, table, limit) && IsTopN(r2, table, limit)
    ensures |r1| == |r2|
    ensures forall i :: 0 <= i < |r1| ==> table[r1[i]] == table[r2[i]]
  {
    forall i | 0 <= i < |r1| ensures table[r1[i]] == table[r2[i]] {
      NotOutranked(r1, r2, table, limit, i);
      NotOutranked(r2, r1, table, limit, i);
    }
  }

  /** No two keys of the table have the same count. */
  predicate CountsDistinct(table: map<string, nat>) {
    forall k1, k2 :: k1 in table && k2 in table && k1 != k2 ==> table[k1] != table[k2]
  }

  /** Without ties the answer is unique. */
  lemma TopNUnique(r1: seq<string>, r2: seq<string>, table: map<string, nat>, limit: nat)
    requires IsTopN(r1, table, limit) && IsTopN(r2, table, limit)
    requires CountsDistinct(table)
    ensures r1 == r2
  {
    TopNUpToTies(r1, r2, table, limit);
    forall i | 0 <= i < |r1| ensures r1[i] == r2[i] {
      assert table[r1[i]] == table[r2[i]];
    }
  }

  /** The key at position `i` of one correct answer has no higher count than
      the key at position `i` of another. If it had, the `i + 1` keys ahead of
      it in the first answer would all have to sit among the `i` keys ahead
      of position `i` in the second. */
  lemma NotOutranked(r1: seq<string>, r2: seq<string>, table: map<string, nat>, limit: nat, i: nat)
    requires IsTopN(r1, table, limit) && IsTopN(r2, table, limit)
    requires i < |r1|
    ensures i < |r2| && table[r1[i]] <= table[r2[i]]
  {
    if table[r1[i]] > table[r2[i]] {
      var ahead1, ahead2 := r1[..i + 1], r2[..i];
      forall k | k in Elems(ahead1) ensures k in Elems(ahead2) {
        var p :| 0 <= p <= i && r1[p] == k;
        if k !in r2 {
          LeftOutNotHigher(r2, table, limit, k, i);
        }
        var q :| 0 <= q < |r2| && r2[q] == k;
        assert q < i;
      }
      SubsetCard(Elems(ahead1), Elems(ahead2));
      assert Distinct(ahead1);
      ElemsCard(ahead1);
      ElemsCard(ahead2);
      assert false;
    }
  }

  /** The first `limit` keys of a by-count ordering of all the table's
      entries are a correct answer. */
  lemma SortedPrefixIsTopN(table: map<string, nat>, s: seq<Entry>, limit: nat)
    requires Enumerates(s, table) && SortedByCount(s)
    ensures IsTopN(KeysOf(s)[..Min(limit, |s|)], table, limit)
  {
    var n := Min(limit, |s|);
    KeysCoverTable(table, s);
    PrefixDistinct(KeysOf(s), n);
    PrefixByCount(table, s, n);
    if n > 0 {
      PrefixNotOutranked(table, s, n);
    }
  }

  /** A prefix of a sequence without repeats has none. */
  lemma PrefixDistinct(s: seq<string>, n: nat)
    requires Distinct(s) && n <= |s|
    ensures Distinct(s[..n])
  {
    forall i, j | 0 <= i < j < n ensures s[..n][i] != s[..n][j] {
      assert s[..n][i] == s[i] && s[..n][j] == s[j];
    }
  }

  /** The keys of a prefix of a by-count ordering of the table's entries
      are keys of the table, listed by non-increasing count. */
  lemma PrefixByCount(table: map<string, nat>, s: seq<Entry>, n: nat)
    requires n <= |s|
    requires forall i :: 0 <= i < |s| ==> s[i].0 in table && s[i].1 == table[s[i].0]
    requires SortedByCount(s)
    ensures forall i :: 0 <= i < n ==> KeysOf(s)[..n][i] in table
    ensures forall i, j :: 0 <= i < j < n ==> table[KeysOf(s)[..n][i]] >= table[KeysOf(s)[..n][j]]
  {
    var ranked := KeysOf(s)[..n];
    forall i | 0 <= i < n ensures ranked[i] in table {
      assert ranked[i] == s[i].0;
    }
    forall i, j | 0 <= i < j < n ensures table[ranked[i]] >= table[ranked[j]] {
      assert ranked[i] == s[i].0 && ranked[j] == s[j].0;
    }
  }

  /** No entry left out of a prefix of a by-count ordering has a higher
      count than the last entry in it. */
  lemma PrefixNotOutranked(table: map<string, nat>, s: seq<Entry>, n: nat)
    requires 0 < n <= |s|
    requires Enumerates(s, table) && SortedByCount(s)
    ensures forall v :: v in (table - Elems(KeysOf(s)[..n])).Values ==> v <= table[KeysOf(s)[..n][n - 1]]
  {
    var ranked := KeysOf(s)[..n];
    forall v | v in (table - Elems(ranked)).Values ensures v <= table[ranked[n - 1]] {
      var k :| k in table - Elems(ranked) && table[k] == v;
      var p :| 0 <= p < |s| && s[p] == (k, table[k]);
      assert p >= n by {
        assert forall q :: 0 <= q < n ==> ranked[q] == s[q].0;
      }
      assert ranked[n - 1] == s[n - 1].0 && s[n - 1].1 >= s[p].1;
    }
  }

  /** The keys of an enumeration of all the table's entries are its keys,
      each of them once. */
  lemma KeysCoverTable(table: map<string, nat>, s: seq<Entry>)
    requires Enumerates(s, table)
    ensures Elems(KeysOf(s)) == table.Keys && Distinct(KeysOf(s))
  {
    var keys := KeysOf(s);
    forall k | k in table ensures k in Elems(keys) {
      var p :| 0 <= p < |s| && s[p] == (k, table[k]);
      assert keys[p] == k;
    }
    assert Elems(keys) == table.Keys;
    ElemsCard(keys);
  }

  /** The keys of `Array.from(table.entries())`: every key of the table
      once, in some order. (A JavaScript `Map` yields its entries in
      insertion order; this model of the table keeps no order, so any order
      may come out.) */
  method TableKeys(table: map<string, nat>) returns (keys: seq<string>)
    ensures Distinct(keys) && Elems(keys) == table.Keys
  {
    keys := [];
    var rest := table.Keys;
    while rest != {}
      invariant Distinct(keys)
      invariant Elems(keys) !! rest
      invariant Elems(keys) + rest == table.Keys
      decreases rest
    {
      var k :| k in rest;
      assert Elems(keys + [k]) == Elems(keys) + {k};
      keys := keys + [k];
      rest := rest - {k};
    }
  }

  /** Exchanges two entries of the array. */
  method Swap(a: array<Entry>, i: nat, j: nat)
    requires i < a.Length && j < a.Length
    modifies a
    ensures a[..] == old(a[..])[i := old(a[j])][j := old(a[i])]
    ensures multiset(a[..]) == multiset(old(a[..]))
  {
    a[i], a[j] := a[j], a[i];
  }

  /** `entries.sort((a, b) => b[1] - a[1])`, in place: an insertion sort,
      which like the engine's sort is stable (an entry moves left only past
      entries of strictly lower count). */
  method SortByCount(a: array<Entry>)
    modifies a
    ensures SortedByCount(a[..])
    ensures multiset(a[..]) == multiset(old(a[..]))
  {
    var i := 0;
    while i < a.Length
      invariant 0 <= i <= a.Length
      invariant forall p, q :: 0 <= p < q < i ==> a[p].1 >= a[q].1
      invariant multiset(a[..]) == multiset(old(a[..]))
    {
      var j := i;
      while j > 0 && a[j - 1].1 < a[j].1
        invariant 0 <= j <= i
        invariant forall p, q :: 0 <= p < q <= i && p != j && q != j ==> a[p].1 >= a[q].1
        invariant forall q :: j < q <= i ==> a[j].1 >= a[q].1
        invariant multiset(a[..]) == multiset(old(a[..]))
      {
        Swap(a, j - 1, j);
        j := j - 1;
      }
      i := i + 1;
    }
  }

  /** `s` lists every entry of the table once: as many entries as keys,
      each one a key of the table with its count, and every key with its
      count among them. */
  predicate Enumerates(s: seq<Entry>, table: map<string, nat>) {
    && |s| == |table|
    && (forall i :: 0 <= i < |s| ==> s[i].0 in table && s[i].1 == table[s[i].0])
    && (forall k :: k in table ==> (k, table[k]) in s)
  }

  /** Pairing each of the table's keys, listed once each, with its count
      lists every entry once. */
  lemma KeysEnumerate(table: map<string, nat>, keys: seq<string>, s: seq<Entry>)
    requires Distinct(keys) && Elems(keys) == table.Keys
    requires |s| == |keys|
    requires forall i :: 0 <= i < |keys| ==> s[i] == (keys[i], table[keys[i]])
    ensures Enumerates(s, table)
  {
    ElemsCard(keys);
    forall k | k in table ensures (k, table[k]) in s {
      assert k in Elems(keys);
      var p :| 0 <= p < |keys| && keys[p] == k;
      assert s[p] == (k, table[k]);
    }
  }

  /** Reordering an enumeration of the table gives an enumeration of it. */
  lemma EnumeratesPermuted(table: map<string, nat>, s: seq<Entry>, t: seq<Entry>)
    requires Enumerates(s, table)
    requires multiset(t) == multiset(s)
    ensures Enumerates(t, table)
  {
    assert |t| == |multiset(t)| == |multiset(s)| == |s|;
    forall i | 0 <= i < |t| ensures t[i].0 in table && t[i].1 == table[t[i].0] {
      assert t[i] in multiset(s);
    }
    forall k | k in table ensures (k, table[k]) in t {
      assert (k, table[k]) in multiset(s);
    }
  }

  /** `Array.from(table.entries())`: every entry of the table once, in some
      order. */
  method TableEntries(table: map<string, nat>) returns (entries: array<Entry>)
    ensures fresh(entries) && Enumerates(entries[..], table)
  {
    var keys := TableKeys(table);
    entries := new Entry[|keys|](i requires 0 <= i < |keys| => (keys[i], table[keys[i]]));
    KeysEnumerate(table, keys, entries[..]);
  }

  /** The `limit` keys of `table` with the highest counts, highest first. */
  method TopByCount(table: map<string, nat>, limit: nat) returns (ranked: seq<string>)
    ensures IsTopN(ranked, table, limit)
  {
    var entries := TableEntries(table);
    ghost var unsorted := entries[..];
    SortByCount(entries);
    var sorted := entries[..];
    EnumeratesPermuted(table, unsorted, sorted);
    SortedPrefixIsTopN(table, sorted, limit);
    ranked := KeysOf(sorted[..Min(limit, entries.Length)]);
    assert ranked == KeysOf(sorted)[..Min(limit, |sorted|)];
  }
}
