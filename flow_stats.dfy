/** The reduction done by `PacketTrace.analyze_statistics` (packet_trace.py):
    every traced packet record is reduced to a seven-field flow key, the keys
    are counted in first-seen order (`collections.Counter`), and the flows are
    listed by decreasing count, ties in first-seen order (`most_common`, a
    stable sort). */
module FlowStats {
  import opened Text

  /** One parsed record of `show platform packet-trace packet all`. */
  type Packet = map<string, string>

  /** The grouping key built by `get_flow_tuple`. */
  datatype FlowKey = FlowKey(
    srcIp: Option<string>,
    srcPort: string,
    dstIp: Option<string>,
    dstPort: string,
    protocol: Option<string>,
    inputInterface: Option<string>,
    dropFeature: string)

  /** A flow and the number of packets that share its key. */
  datatype FlowCount = FlowCount(key: FlowKey, count: nat)

  /** `d.get(k)`. */
  function Get(p: Packet, k: string): Option<string>
  {
    if k in p then Some(p[k]) else None
  }

  /** `d.get(k, default)`. */
  function GetOr(p: Packet, k: string, default: string): string
  {
    if k in p then p[k] else default
  }

  /** `get_flow_tuple`: missing ports read as "0", a missing protocol falls
      back to the protocol number, a missing drop feature reads as the empty
      string, and present fields are taken as they are. */
  function FlowKeyOf(p: Packet): (r: FlowKey)
    ensures r.srcIp == Get(p, "src_ip") && r.dstIp == Get(p, "dst_ip")
    ensures r.inputInterface == Get(p, "input_interface")
    ensures "src_port" !in p ==> r.srcPort == "0"
    ensures "src_port" in p ==> r.srcPort == p["src_port"]
    ensures "dst_port" !in p ==> r.dstPort == "0"
    ensures "dst_port" in p ==> r.dstPort == p["dst_port"]
    ensures "protocol" !in p ==> r.protocol == Get(p, "protocol_num")
    ensures "protocol" in p ==> r.protocol == Some(p["protocol"])
    ensures "drop_feature" !in p ==> r.dropFeature == ""
    ensures "drop_feature" in p ==> r.dropFeature == p["drop_feature"]
  {
    FlowKey(
      Get(p, "src_ip"), GetOr(p, "src_port", "0"),
      Get(p, "dst_ip"), GetOr(p, "dst_port", "0"),
      if "protocol" in p then Some(p["protocol"]) else Get(p, "protocol_num"),
      Get(p, "input_interface"),
      GetOr(p, "drop_feature", ""))
  }

  function KeysOf(packets: seq<Packet>): (r: seq<FlowKey>)
    ensures |r| == |packets|
    ensures forall i :: 0 <= i < |packets| ==> r[i] == FlowKeyOf(packets[i])
  {
    seq(|packets|, i requires 0 <= i < |packets| => FlowKeyOf(packets[i]))
  }

  // ---- the Counter ----------------------------------------------------------------

  /** The keys of the entries, in order. */
  function KeySeq(t: seq<FlowCount>): (r: seq<FlowKey>)
    ensures |r| == |t|
    ensures forall i :: 0 <= i < |t| ==> r[i] == t[i].key
  {
    seq(|t|, i requires 0 <= i < |t| => t[i].key)
  }

  predicate DistinctKeys(t: seq<FlowCount>)
  {
    forall i, j :: 0 <= i < j < |t| ==> t[i].key != t[j].key
  }

  /** Counting one more occurrence of `k` (`counter[k] += 1`): its entry goes
      up by one in place, or a new entry with count 1 goes at the end. */
  function Bump(t: seq<FlowCount>, k: FlowKey): seq<FlowCount>
  {
    var ks := KeySeq(t);
    if k in ks then
      var m := FirstIndex(ks, k);
      t[m := FlowCount(k, t[m].count + 1)]
    else t + [FlowCount(k, 1)]
  }

  function SumCounts(t: seq<FlowCount>): nat
  {
    if t == [] then 0 else t[0].count + SumCounts(t[1..])
  }

  lemma {:induction false} SumCountsSnoc(t: seq<FlowCount>, x: FlowCount)
    ensures SumCounts(t + [x]) == SumCounts(t) + x.count
  {
    if t != [] {
      assert (t + [x])[1..] == t[1..] + [x];
      SumCountsSnoc(t[1..], x);
    }
  }

  lemma {:induction false} SumCountsUpdate(t: seq<FlowCount>, m: nat, x: FlowCount)
    requires m < |t|
    ensures SumCounts(t[m := x]) == SumCounts(t) - t[m].count + x.count
  {
    if m > 0 {
      assert t[m := x][1..] == t[1..][m - 1 := x];
      SumCountsUpdate(t[1..], m - 1, x);
    } else {
      assert t[m := x][1..] == t[1..];
    }
  }

  /** `collections.Counter(keys)`: one entry per distinct key, in first-seen order. */
  function Tally(keys: seq<FlowKey>): (r: seq<FlowCount>)
    ensures |r| <= |keys|
    ensures keys != [] ==> r != []
  {
    if keys == [] then [] else Bump(Tally(keys[..|keys| - 1]), keys[|keys| - 1])
  }

  /** The Counter holds each distinct key of the records exactly once. */
  lemma {:induction false} TallyKeys(keys: seq<FlowKey>)
    ensures DistinctKeys(Tally(keys))
    ensures forall k :: k in KeySeq(Tally(keys)) <==> k in keys
  {
    if keys != [] {
      var init, k := keys[..|keys| - 1], keys[|keys| - 1];
      assert keys == init + [k];
      TallyKeys(init);
      var t := Tally(init);
      if k in KeySeq(t) {
        var m := FirstIndex(KeySeq(t), k);
        assert KeySeq(Tally(keys)) == KeySeq(t);
      } else {
        assert KeySeq(Tally(keys)) == KeySeq(t) + [k];
      }
    }
  }

  /** Each entry of the Counter holds the number of records with its key. */
  lemma {:induction false} TallyCounts(keys: seq<FlowKey>)
    ensures forall i :: 0 <= i < |Tally(keys)| ==>
      Tally(keys)[i].count == multiset(keys)[Tally(keys)[i].key]
  {
    if keys != [] {
      var init, k := keys[..|keys| - 1], keys[|keys| - 1];
      assert keys == init + [k];
      assert multiset(keys) == multiset(init) + multiset{k};
      TallyCounts(init);
      TallyKeys(init);
      var t := Tally(init);
      var r := Tally(keys);
      if k in KeySeq(t) {
        var m := FirstIndex(KeySeq(t), k);
        forall i | 0 <= i < |r| ensures r[i].count == multiset(keys)[r[i].key] {
          if i != m {
            assert r[i] == t[i] && t[i].key != t[m].key;
          }
        }
      } else {
        assert k !in init;
        forall i | 0 <= i < |r| ensures r[i].count == multiset(keys)[r[i].key] {
          if i < |t| {
            assert r[i] == t[i] && t[i].key != k;
          }
        }
      }
    }
  }

  /** Counting a key keeps every existing entry's key in place and adds an
      entry for `k` at the end exactly when `k` was new. */
  lemma BumpKeys(t: seq<FlowCount>, k: FlowKey)
    ensures k in KeySeq(t) ==> |Bump(t, k)| == |t|
    ensures k !in KeySeq(t) ==> |Bump(t, k)| == |t| + 1 && Bump(t, k)[|t|].key == k
    ensures forall i :: 0 <= i < |t| ==> Bump(t, k)[i].key == t[i].key
  {
  }

  /** Every key the Counter lists comes from the records. */
  lemma TallyMembers(keys: seq<FlowKey>)
    ensures forall i :: 0 <= i < |Tally(keys)| ==> Tally(keys)[i].key in keys
  {
    TallyKeys(keys);
    forall i | 0 <= i < |Tally(keys)| ensures Tally(keys)[i].key in keys {
      assert Tally(keys)[i].key == KeySeq(Tally(keys))[i];
    }
  }

  /** The Counter lists its keys in the order of their first occurrence. */
  lemma {:induction false} TallyOrder(keys: seq<FlowKey>)
    ensures forall i :: 0 <= i < |Tally(keys)| ==> Tally(keys)[i].key in keys
    ensures forall i, j :: 0 <= i < j < |Tally(keys)| ==>
      FirstIndex(keys, Tally(keys)[i].key) < FirstIndex(keys, Tally(keys)[j].key)
  {
    TallyMembers(keys);
    if keys != [] {
      var init, k := keys[..|keys| - 1], keys[|keys| - 1];
      assert keys == init + [k];
      TallyOrder(init);
      var t := Tally(init);
      var r := Tally(keys);
      assert r == Bump(t, k);
      BumpKeys(t, k);
      forall i | 0 <= i < |t| ensures FirstIndex(keys, t[i].key) == FirstIndex(init, t[i].key) {
        FirstIndexPrefix(init, k, t[i].key);
      }
      if k !in KeySeq(t) {
        TallyKeys(init);
        FirstIndexLast(init, k);
      }
      forall i, j | 0 <= i < j < |r|
        ensures FirstIndex(keys, r[i].key) < FirstIndex(keys, r[j].key)
      {
        assert r[i].key == t[i].key;
        if j < |t| {
          assert r[j].key == t[j].key;
        }
      }
    }
  }

  /** The counts of the Counter add up to the number of records. */
  lemma {:induction false} TallySum(keys: seq<FlowKey>)
    ensures SumCounts(Tally(keys)) == |keys|
  {
    if keys != [] {
      var init, k := keys[..|keys| - 1], keys[|keys| - 1];
      TallySum(init);
      var t := Tally(init);
      if k in KeySeq(t) {
        var m := FirstIndex(KeySeq(t), k);
        SumCountsUpdate(t, m, FlowCount(k, t[m].count + 1));
      } else {
        SumCountsSnoc(t, FlowCount(k, 1));
      }
    }
  }

  // ---- most_common: a stable sort by decreasing count ---------------------------------

  /** Entry `a` of `t` is listed before entry `b`: a higher count, or the same
      count and an earlier position (the sort is stable). */
  predicate Before(t: seq<FlowCount>, a: nat, b: nat)
    requires a < |t| && b < |t|
  {
    t[a].count > t[b].count || (t[a].count == t[b].count && a < b)
  }

  predicate IndicesBelow(s: seq<nat>, n: nat)
  {
    forall i :: 0 <= i < |s| ==> s[i] < n
  }

  predicate SortedBy(t: seq<FlowCount>, s: seq<nat>)
    requires IndicesBelow(s, |t|)
  {
    forall i, j :: 0 <= i < j < |s| ==> Before(t, s[i], s[j])
  }

  /** One step of insertion sort on positions of `t`. */
  function InsertAt(t: seq<FlowCount>, s: seq<nat>, x: nat): (r: seq<nat>)
    requires IndicesBelow(s, |t|) && x < |t|
    ensures |r| == |s| + 1 && IndicesBelow(r, |t|)
    ensures forall y :: y in r <==> y == x || y in s
  {
    if s == [] then [x]
    else if Before(t, s[|s| - 1], x) then s + [x]
    else
      var init := s[..|s| - 1];
      assert s == init + [s[|s| - 1]];
      InsertAt(t, init, x) + [s[|s| - 1]]
  }

  function SumAt(t: seq<FlowCount>, s: seq<nat>): nat
    requires IndicesBelow(s, |t|)
  {
    if s == [] then 0 else t[s[0]].count + SumAt(t, s[1..])
  }

  lemma {:induction false} SumAtSnoc(t: seq<FlowCount>, s: seq<nat>, x: nat)
    requires IndicesBelow(s, |t|) && x < |t|
    ensures SumAt(t, s + [x]) == SumAt(t, s) + t[x].count
  {
    if s != [] {
      assert (s + [x])[1..] == s[1..] + [x];
      SumAtSnoc(t, s[1..], x);
    }
  }

  /** A sorted list stays sorted when a position ranked after all of it is appended. */
  lemma SortedSnoc(t: seq<FlowCount>, s: seq<nat>, y: nat)
    requires IndicesBelow(s, |t|) && y < |t| && SortedBy(t, s)
    requires forall i :: 0 <= i < |s| ==> Before(t, s[i], y)
    ensures SortedBy(t, s + [y])
  {
    var r := s + [y];
    forall i, j | 0 <= i < j < |r| ensures Before(t, r[i], r[j]) {
      if j < |s| {
        assert r[i] == s[i] && r[j] == s[j];
      }
    }
  }

  /** Inserting a new position into a sorted list keeps it sorted. */
  lemma {:induction false} InsertAtSorted(t: seq<FlowCount>, s: seq<nat>, x: nat)
    requires IndicesBelow(s, |t|) && x < |t|
    requires SortedBy(t, s) && x !in s
    ensures SortedBy(t, InsertAt(t, s, x))
  {
    if s == [] {
    } else if Before(t, s[|s| - 1], x) {
      forall i | 0 <= i < |s| ensures Before(t, s[i], x) {
        if i < |s| - 1 {
          assert Before(t, s[i], s[|s| - 1]);
        }
      }
      SortedSnoc(t, s, x);
    } else {
      var init, last := s[..|s| - 1], s[|s| - 1];
      assert s == init + [last];
      assert SortedBy(t, init) by {
        forall i, j | 0 <= i < j < |init| ensures Before(t, init[i], init[j]) {
          assert init[i] == s[i] && init[j] == s[j];
        }
      }
      InsertAtSorted(t, init, x);
      var ri := InsertAt(t, init, x);
      assert InsertAt(t, s, x) == ri + [last];
      forall i | 0 <= i < |ri| ensures Before(t, ri[i], last) {
        if ri[i] != x {
          assert ri[i] in init;
          var k :| 0 <= k < |init| && init[k] == ri[i];
          assert Before(t, s[k], s[|s| - 1]);
        }
      }
      SortedSnoc(t, ri, last);
    }
  }

  /** Inserting a position adds its count to the total. */
  lemma {:induction false} InsertAtSum(t: seq<FlowCount>, s: seq<nat>, x: nat)
    requires IndicesBelow(s, |t|) && x < |t|
    ensures SumAt(t, InsertAt(t, s, x)) == SumAt(t, s) + t[x].count
  {
    if s == [] {
    } else if Before(t, s[|s| - 1], x) {
      SumAtSnoc(t, s, x);
    } else {
      var init, last := s[..|s| - 1], s[|s| - 1];
      assert s == init + [last];
      InsertAtSum(t, init, x);
      SumAtSnoc(t, InsertAt(t, init, x), last);
      SumAtSnoc(t, init, last);
    }
  }

  /** The positions `0 .. n-1` of `t` in `most_common` order. */
  function RankAt(t: seq<FlowCount>, n: nat): (r: seq<nat>)
    requires n <= |t|
    ensures |r| == n && IndicesBelow(r, |t|)
    ensures forall y :: y in r <==> 0 <= y < n
  {
    if n == 0 then [] else InsertAt(t, RankAt(t, n - 1), n - 1)
  }

  function SumPrefix(t: seq<FlowCount>, n: nat): nat
    requires n <= |t|
  {
    if n == 0 then 0 else SumPrefix(t, n - 1) + t[n - 1].count
  }

  /** The ranking is sorted: highest count first, equal counts in their
      original order. */
  lemma {:induction false} RankAtSorted(t: seq<FlowCount>, n: nat)
    requires n <= |t|
    ensures SortedBy(t, RankAt(t, n))
  {
    if n > 0 {
      RankAtSorted(t, n - 1);
      InsertAtSorted(t, RankAt(t, n - 1), n - 1);
    }
  }

  /** The ranking keeps the total count. */
  lemma {:induction false} RankAtSum(t: seq<FlowCount>, n: nat)
    requires n <= |t|
    ensures SumAt(t, RankAt(t, n)) == SumPrefix(t, n)
  {
    if n > 0 {
      RankAtSum(t, n - 1);
      InsertAtSum(t, RankAt(t, n - 1), n - 1);
    }
  }

  lemma {:induction false} SumPrefixIsSum(t: seq<FlowCount>)
    ensures SumPrefix(t, |t|) == SumCounts(t)
  {
    if t != [] {
      SumPrefixIsSum(t[1..]);
      SumPrefixShift(t, |t|);
    }
  }

  lemma {:induction false} SumPrefixShift(t: seq<FlowCount>, n: nat)
    requires 1 <= n <= |t|
    ensures SumPrefix(t, n) == t[0].count + SumPrefix(t[1..], n - 1)
  {
    if n > 1 {
      SumPrefixShift(t, n - 1);
    }
  }

  function Pick(t: seq<FlowCount>, s: seq<nat>): (r: seq<FlowCount>)
    requires IndicesBelow(s, |t|)
    ensures |r| == |s|
    ensures forall i :: 0 <= i < |s| ==> r[i] == t[s[i]]
  {
    seq(|s|, i requires 0 <= i < |s| => t[s[i]])
  }

  lemma {:induction false} SumCountsPick(t: seq<FlowCount>, s: seq<nat>)
    requires IndicesBelow(s, |t|)
    ensures SumCounts(Pick(t, s)) == SumAt(t, s)
  {
    if s != [] {
      SumCountsPick(t, s[1..]);
      assert Pick(t, s)[1..] == Pick(t, s[1..]);
    }
  }

  /** `Counter(keys).most_common()`. */
  function MostCommon(keys: seq<FlowKey>): (r: seq<FlowCount>)
    ensures |r| == |Tally(keys)|
    ensures forall i :: 0 <= i < |r| ==> r[i] in Tally(keys)
  {
    var t := Tally(keys);
    Pick(t, RankAt(t, |t|))
  }

  /** Every listed flow occurs in the input, with its number of packets. */
  lemma MostCommonCounts(keys: seq<FlowKey>)
    ensures forall i :: 0 <= i < |MostCommon(keys)| ==>
      MostCommon(keys)[i].key in keys
      && MostCommon(keys)[i].count == multiset(keys)[MostCommon(keys)[i].key]
  {
    var t := Tally(keys);
    var order := RankAt(t, |t|);
    var r := MostCommon(keys);
    TallyCounts(keys);
    TallyOrder(keys);
    forall i | 0 <= i < |r| ensures r[i].key in keys && r[i].count == multiset(keys)[r[i].key] {
      assert r[i] == t[order[i]];
    }
  }

  /** Every flow of the input is listed. */
  lemma MostCommonCovers(keys: seq<FlowKey>)
    ensures forall k :: k in keys ==> k in KeySeq(MostCommon(keys))
  {
    var t := Tally(keys);
    var order := RankAt(t, |t|);
    var r := MostCommon(keys);
    TallyKeys(keys);
    forall k | k in keys ensures k in KeySeq(r) {
      assert k in KeySeq(t);
      var a :| 0 <= a < |t| && KeySeq(t)[a] == k;
      assert a in order;
      var i :| 0 <= i < |order| && order[i] == a;
      assert KeySeq(r)[i] == k;
    }
  }

  /** No flow is listed twice. */
  lemma MostCommonDistinct(keys: seq<FlowKey>)
    ensures DistinctKeys(MostCommon(keys))
  {
    var t := Tally(keys);
    var order := RankAt(t, |t|);
    var r := MostCommon(keys);
    TallyKeys(keys);
    RankAtSorted(t, |t|);
    forall i, j | 0 <= i < j < |r| ensures r[i].key != r[j].key {
      assert Before(t, order[i], order[j]);
      assert order[i] != order[j];
      assert r[i] == t[order[i]] && r[j] == t[order[j]];
    }
  }

  /** Every flow is listed once, with its number of packets. */
  lemma MostCommonEntries(keys: seq<FlowKey>)
    ensures forall i :: 0 <= i < |MostCommon(keys)| ==>
      MostCommon(keys)[i].key in keys
      && MostCommon(keys)[i].count == multiset(keys)[MostCommon(keys)[i].key]
    ensures forall k :: k in keys ==> k in KeySeq(MostCommon(keys))
    ensures DistinctKeys(MostCommon(keys))
  {
    MostCommonCounts(keys);
    MostCommonCovers(keys);
    MostCommonDistinct(keys);
  }

  /** Counts never increase down the list, equal counts keep first-seen
      order, and the counts add up to the number of packets. */
  lemma MostCommonOrder(keys: seq<FlowKey>)
    ensures forall i, j :: 0 <= i < j < |MostCommon(keys)| ==>
      MostCommon(keys)[i].count >= MostCommon(keys)[j].count
    ensures forall i, j :: 0 <= i < j < |MostCommon(keys)| && MostCommon(keys)[i].count == MostCommon(keys)[j].count ==>
      MostCommon(keys)[i].key in keys && MostCommon(keys)[j].key in keys
      && FirstIndex(keys, MostCommon(keys)[i].key) < FirstIndex(keys, MostCommon(keys)[j].key)
    ensures SumCounts(MostCommon(keys)) == |keys|
  {
    var t := Tally(keys);
    var order := RankAt(t, |t|);
    var r := MostCommon(keys);
    TallyOrder(keys);
    TallySum(keys);
    RankAtSorted(t, |t|);
    RankAtSum(t, |t|);
    forall i, j | 0 <= i < j < |r|
      ensures r[i].count >= r[j].count
      ensures r[i].count == r[j].count ==>
        r[i].key in keys && r[j].key in keys && FirstIndex(keys, r[i].key) < FirstIndex(keys, r[j].key)
    {
      assert Before(t, order[i], order[j]);
    }
    SumCountsPick(t, order);
    SumPrefixIsSum(t);
  }

  // ---- the rendered listing -------------------------------------------------------------

  const HEADER := "\n---------- Drop statistics ----------"

  /** `format_flow_tuple`: the source, destination, protocol, interface and
      drop reason of a flow, each behind its label. */
  function FormatFlow(k: FlowKey): (r: string)
    ensures "Source: " <= r
    ensures |r| >= 15 + |k.dropFeature| && r[|r| - 15 - |k.dropFeature|..] == ", Drop reason: " + k.dropFeature
  {
    var front := "Source: " + Show(k.srcIp) + "." + k.srcPort
      + ", Destination: " + Show(k.dstIp) + "." + k.dstPort
      + ", Protocol: " + Show(k.protocol)
      + ", Interface: " + Show(k.inputInterface);
    assert front[..8] == "Source: ";
    front + (", Drop reason: " + k.dropFeature)
  }

  /** One line of the listing; `percent(count, total)` renders the share of the
      flow with one decimal, as `'{:.1%}'` does. */
  function FlowLine(f: FlowCount, total: nat, percent: (nat, nat) -> string): string
  {
    FormatFlow(f.key) + ", " + NatToString(f.count) + " out of " + NatToString(total)
    + " packets (" + percent(f.count, total) + ")\n"
  }

  function FlowLines(flows: seq<FlowCount>, total: nat, percent: (nat, nat) -> string): (r: seq<string>)
    ensures |r| == |flows|
    ensures forall i :: 0 <= i < |flows| ==> r[i] == FlowLine(flows[i], total, percent)
  {
    seq(|flows|, i requires 0 <= i < |flows| => FlowLine(flows[i], total, percent))
  }

  /** The text returned by `analyze_statistics` for the parsed packet
      records: empty exactly when no packet was traced, and otherwise headed
      by the banner. */
  function AnalyzeStatistics(packets: seq<Packet>, percent: (nat, nat) -> string): (r: string)
    ensures r == "" <==> packets == []
    ensures packets != [] ==> HEADER <= r
  {
    if |packets| == 0 then ""
    else Join([HEADER] + FlowLines(MostCommon(KeysOf(packets)), |packets|, percent), "\n")
  }

  /** The distinct flows among the records. */
  function Flows(packets: seq<Packet>): set<FlowKey>
  {
    set k | k in KeysOf(packets)
  }

  /** A list without repeats has as many distinct elements as entries. */
  lemma {:induction false} DistinctCard(s: seq<FlowKey>)
    requires forall i, j :: 0 <= i < j < |s| ==> s[i] != s[j]
    ensures |(set x | x in s)| == |s|
  {
    if s != [] {
      var rest := s[1..];
      DistinctCard(rest);
      assert s == [s[0]] + rest;
      assert (set x | x in s) == (set x | x in rest) + {s[0]};
      assert s[0] !in rest;
    }
  }

  /** The ranked flows are exactly the distinct flows of the records. */
  lemma RankedFlows(packets: seq<Packet>)
    ensures var flows := MostCommon(KeysOf(packets));
      (set k | k in KeySeq(flows)) == Flows(packets) && |flows| == |Flows(packets)|
  {
    var keys := KeysOf(packets);
    var ranked := KeySeq(MostCommon(keys));
    MostCommonEntries(keys);
    assert (set k | k in ranked) == (set k | k in keys);
    DistinctCard(ranked);
  }

  /** With at least one packet, the text is the banner followed by one line
      per distinct flow, in ranking order: line `i` shows flow `i` of
      `most_common`, with its number of packets out of the total. */
  lemma AnalyzeStatisticsLines(packets: seq<Packet>, percent: (nat, nat) -> string)
    requires packets != []
    ensures var flows := MostCommon(KeysOf(packets));
      var lines := FlowLines(flows, |packets|, percent);
      && AnalyzeStatistics(packets, percent) == Join([HEADER] + lines, "\n")
      && |lines| == |Flows(packets)|
      && forall i :: 0 <= i < |lines| ==>
           lines[i] == FlowLine(flows[i], |packets|, percent)
           && flows[i].key in Flows(packets)
           && flows[i].count == multiset(KeysOf(packets))[flows[i].key]
  {
    RankedFlows(packets);
    MostCommonEntries(KeysOf(packets));
  }
}
