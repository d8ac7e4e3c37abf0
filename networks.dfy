/**
 * Which networks get a tab in the account window, and in what order: only
 * networks where the account holds AE or tokens are shown, the known
 * networks come first in a fixed order, and the sort is stable.
 */
module Networks {
  import opened Wrappers
  import opened PyStr

  /**
   * What the assets service reports for one network: the AE balance (absent
   * when the entry or the value is missing or `null`) and how many tokens
   * are listed.
   */
  datatype NetworkData = NetworkData(balance: Option<real>, tokenCount: nat)

  /** One item of the per-network dictionary, in the dictionary's order. */
  datatype Network = Network(id: string, data: NetworkData)

  /** `balance_ae`, with a missing or `null` value read as 0. */
  function Balance(d: NetworkData): real {
    if d.balance.Some? then d.balance.value else 0.0
  }

  /** A network is shown when it has a positive balance or at least one token. */
  predicate Kept(n: Network) {
    Balance(n.data) > 0.0 || n.data.tokenCount > 0
  }

  /** The shown networks, in the order they were reported. */
  function KeptNetworks(ns: seq<Network>): (r: seq<Network>)
    ensures |r| <= |ns|
    ensures forall i :: 0 <= i < |r| ==> Kept(r[i])
    ensures forall n :: n in r <==> n in ns && Kept(n)
  {
    if ns == [] then []
    else
      var last := ns[|ns| - 1];
      KeptNetworks(ns[..|ns| - 1]) + (if Kept(last) then [last] else [])
  }

  /** Filtering keeps the reported order: the kept networks of two reports in a row are those of each, in a row. */
  lemma {:induction false} KeptNetworksAppend(a: seq<Network>, b: seq<Network>)
    ensures KeptNetworks(a + b) == KeptNetworks(a) + KeptNetworks(b)
    decreases |b|
  {
    if b == [] {
      assert a + b == a;
    } else {
      var last := b[|b| - 1];
      var init := b[..|b| - 1];
      assert (a + b)[..|a + b| - 1] == a + init;
      assert (a + b)[|a + b| - 1] == last;
      KeptNetworksAppend(a, init);
      AppendAssoc(KeptNetworks(a), KeptNetworks(init), if Kept(last) then [last] else []);
    }
  }

  /** The position of a known network in the tab order; every other network ranks 999. */
  function Rank(id: string): (r: nat)
    ensures r == 0 || r == 1 || r == 2 || r == 999
  {
    if id == "mainnet" then 0
    else if id == "testnet" then 1
    else if id == "hc_liu" then 2
    else 999
  }

  /** The networks of rank `k`, in their original order. */
  function WithRank(ns: seq<Network>, k: nat): (r: seq<Network>)
    ensures |r| <= |ns|
    ensures forall i :: 0 <= i < |r| ==> Rank(r[i].id) == k
  {
    if ns == [] then []
    else (if Rank(ns[0].id) == k then [ns[0]] else []) + WithRank(ns[1..], k)
  }

  /** A network is among those of rank `k` exactly when it is reported and has that rank. */
  lemma {:induction false} WithRankMember(ns: seq<Network>, k: nat, n: Network)
    ensures n in WithRank(ns, k) <==> n in ns && Rank(n.id) == k
  {
    if ns != [] {
      WithRankMember(ns[1..], k, n);
      assert ns == [ns[0]] + ns[1..];
    }
  }

  /**
   * `sort(key=sort_key)`: a stable sort on four key values, written as the
   * networks of each rank in turn, each group in its original order.
   */
  function SortByRank(ns: seq<Network>): seq<Network> {
    WithRank(ns, 0) + WithRank(ns, 1) + WithRank(ns, 2) + WithRank(ns, 999)
  }

  predicate SortedByRank(ns: seq<Network>) {
    forall i, j :: 0 <= i < j < |ns| ==> Rank(ns[i].id) <= Rank(ns[j].id)
  }

  predicate RanksAtMost(ns: seq<Network>, m: nat) {
    forall i :: 0 <= i < |ns| ==> Rank(ns[i].id) <= m
  }

  predicate RanksAtLeast(ns: seq<Network>, m: nat) {
    forall i :: 0 <= i < |ns| ==> m <= Rank(ns[i].id)
  }

  /** Two sorted runs joined where the first one's ranks end and the second one's begin. */
  lemma SortedAppend(a: seq<Network>, b: seq<Network>, m: nat)
    requires SortedByRank(a) && SortedByRank(b)
    requires RanksAtMost(a, m) && RanksAtLeast(b, m)
    ensures SortedByRank(a + b)
  {
    forall i, j | 0 <= i < j < |a + b|
      ensures Rank((a + b)[i].id) <= Rank((a + b)[j].id)
    {
      if j < |a| {
        assert (a + b)[i] == a[i] && (a + b)[j] == a[j];
      } else if i < |a| {
        assert (a + b)[i] == a[i] && (a + b)[j] == b[j - |a|];
      } else {
        assert (a + b)[i] == b[i - |a|] && (a + b)[j] == b[j - |a|];
      }
    }
  }

  /** The tabs come in rank order: mainnet, testnet, hc_liu, then the rest. */
  lemma SortByRankSorted(ns: seq<Network>)
    ensures SortedByRank(SortByRank(ns))
  {
    var b0, b1, b2, b3 := WithRank(ns, 0), WithRank(ns, 1), WithRank(ns, 2), WithRank(ns, 999);
    SortedAppend(b0, b1, 0);
    assert RanksAtMost(b0 + b1, 1) by {
      forall i | 0 <= i < |b0 + b1| ensures Rank((b0 + b1)[i].id) <= 1 {
        if i < |b0| { assert (b0 + b1)[i] == b0[i]; } else { assert (b0 + b1)[i] == b1[i - |b0|]; }
      }
    }
    SortedAppend(b0 + b1, b2, 1);
    assert RanksAtMost(b0 + b1 + b2, 2) by {
      forall i | 0 <= i < |b0 + b1 + b2| ensures Rank((b0 + b1 + b2)[i].id) <= 2 {
        if i < |b0 + b1| { assert (b0 + b1 + b2)[i] == (b0 + b1)[i]; } else { assert (b0 + b1 + b2)[i] == b2[i - |b0 + b1|]; }
      }
    }
    SortedAppend(b0 + b1 + b2, b3, 2);
  }

  /** Selecting a rank distributes over concatenation. */
  lemma {:induction false} WithRankAppend(a: seq<Network>, b: seq<Network>, k: nat)
    ensures WithRank(a + b, k) == WithRank(a, k) + WithRank(b, k)
    decreases |a|
  {
    if a == [] {
      assert a + b == b;
    } else {
      assert (a + b)[1..] == a[1..] + b;
      WithRankAppend(a[1..], b, k);
    }
  }

  /** Networks all of rank `j` keep only themselves when rank `j` is selected, and none otherwise. */
  lemma {:induction false} WithRankOfRun(ns: seq<Network>, j: nat, k: nat)
    requires forall i :: 0 <= i < |ns| ==> Rank(ns[i].id) == j
    ensures WithRank(ns, k) == if j == k then ns else []
    decreases |ns|
  {
    if ns != [] {
      WithRankOfRun(ns[1..], j, k);
      assert ns == [ns[0]] + ns[1..];
    }
  }

  /** Selecting rank `k` from the group of rank `j` gives the group again when `j == k`, and nothing otherwise. */
  lemma WithRankOfGroup(ns: seq<Network>, j: nat, k: nat)
    ensures WithRank(WithRank(ns, j), k) == if j == k then WithRank(ns, j) else []
  {
    WithRankOfRun(WithRank(ns, j), j, k);
  }

  /** A group is empty when every network ranks above it. */
  lemma {:induction false} GroupBelowEmpty(ns: seq<Network>, m: nat, k: nat)
    requires RanksAtLeast(ns, m) && k < m
    ensures WithRank(ns, k) == []
  {
    if ns != [] {
      assert RanksAtLeast(ns[1..], m) by {
        forall i | 0 <= i < |ns[1..]| ensures m <= Rank(ns[1..][i].id) {
          assert ns[1..][i] == ns[i + 1];
        }
      }
      GroupBelowEmpty(ns[1..], m, k);
    }
  }

  /** No network has a rank outside 0, 1, 2 and 999. */
  lemma {:induction false} NoOtherRank(ns: seq<Network>, k: nat)
    requires k != 0 && k != 1 && k != 2 && k != 999
    ensures WithRank(ns, k) == []
  {
    if ns != [] {
      NoOtherRank(ns[1..], k);
    }
  }

  /** Selecting a rank from the four groups laid end to end selects it from each group. */
  lemma WithRankOfGroups(ns: seq<Network>, k: nat)
    ensures WithRank(SortByRank(ns), k)
      == WithRank(WithRank(ns, 0), k) + WithRank(WithRank(ns, 1), k) + WithRank(WithRank(ns, 2), k) + WithRank(WithRank(ns, 999), k)
  {
    var b0, b1, b2, b3 := WithRank(ns, 0), WithRank(ns, 1), WithRank(ns, 2), WithRank(ns, 999);
    WithRankAppend(b0 + b1 + b2, b3, k);
    WithRankAppend(b0 + b1, b2, k);
    WithRankAppend(b0, b1, k);
  }

  /** Sorting keeps the networks of each rank in their original relative order: the sort is stable. */
  lemma SortByRankStable(ns: seq<Network>, k: nat)
    ensures WithRank(SortByRank(ns), k) == WithRank(ns, k)
  {
    var g0, g1, g2, g3 := WithRank(WithRank(ns, 0), k), WithRank(WithRank(ns, 1), k), WithRank(WithRank(ns, 2), k), WithRank(WithRank(ns, 999), k);
    WithRankOfGroups(ns, k);
    assert WithRank(SortByRank(ns), k) == g0 + g1 + g2 + g3;
    WithRankOfGroup(ns, 0, k);
    WithRankOfGroup(ns, 1, k);
    WithRankOfGroup(ns, 2, k);
    WithRankOfGroup(ns, 999, k);
    var g, e := WithRank(ns, k), [];
    if k == 0 {
      assert g0 == g && g1 == e && g2 == e && g3 == e;
      assert g + e + e + e == g;
    } else if k == 1 {
      assert g0 == e && g1 == g && g2 == e && g3 == e;
      assert e + g + e + e == g;
    } else if k == 2 {
      assert g0 == e && g1 == e && g2 == g && g3 == e;
      assert e + e + g + e == g;
    } else if k == 999 {
      assert g0 == e && g1 == e && g2 == e && g3 == g;
      assert e + e + e + g == g;
    } else {
      NoOtherRank(ns, k);
      assert g0 == e && g1 == e && g2 == e && g3 == e;
      assert e + e + e + e == g;
    }
  }

  /** The first network goes to the group of its own rank and to no other. */
  lemma WithRankCons(x: Network, rest: seq<Network>, k: nat)
    ensures WithRank([x] + rest, k) == (if Rank(x.id) == k then [x] else []) + WithRank(rest, k)
  {
    assert ([x] + rest)[0] == x && ([x] + rest)[1..] == rest;
  }

  /** The first network is counted once in its own rank group, besides the rest's count. */
  lemma CountCons(x: Network, rest: seq<Network>, k: nat, y: Network)
    ensures multiset(WithRank([x] + rest, k))[y] == (if Rank(x.id) == k && x == y then 1 else 0) + multiset(WithRank(rest, k))[y]
  {
    WithRankCons(x, rest, k);
  }

  /** Each network is counted in the four rank groups together as often as in the whole sequence. */
  lemma {:induction false} RankGroupsPartition(ns: seq<Network>, y: Network)
    ensures multiset(ns)[y] == multiset(WithRank(ns, 0))[y] + multiset(WithRank(ns, 1))[y]
      + multiset(WithRank(ns, 2))[y] + multiset(WithRank(ns, 999))[y]
  {
    if ns != [] {
      var x, rest := ns[0], ns[1..];
      assert ns == [x] + rest;
      RankGroupsPartition(rest, y);
      CountCons(x, rest, 0, y);
      CountCons(x, rest, 1, y);
      CountCons(x, rest, 2, y);
      CountCons(x, rest, 999, y);
      assert multiset(ns)[y] == (if x == y then 1 else 0) + multiset(rest)[y];
    }
  }

  /** Sorting drops and adds no network. */
  lemma SortByRankPermutes(ns: seq<Network>)
    ensures multiset(SortByRank(ns)) == multiset(ns)
  {
    var b0, b1, b2, b3 := WithRank(ns, 0), WithRank(ns, 1), WithRank(ns, 2), WithRank(ns, 999);
    assert multiset(SortByRank(ns)) == multiset(b0) + multiset(b1) + multiset(b2) + multiset(b3);
    forall y
      ensures multiset(SortByRank(ns))[y] == multiset(ns)[y]
    {
      RankGroupsPartition(ns, y);
    }
  }

  /** A network ranked no higher than all that follow it comes first in the sorted list, before the sorted rest. */
  lemma SortCons(x: Network, rest: seq<Network>)
    requires RanksAtLeast(rest, Rank(x.id))
    ensures SortByRank([x] + rest) == [x] + SortByRank(rest)
  {
    var r := Rank(x.id);
    if r == 0 {
      SortConsRank0(x, rest);
    } else if r == 1 {
      SortConsRank1(x, rest);
    } else if r == 2 {
      SortConsRank2(x, rest);
    } else {
      SortConsRank999(x, rest);
    }
  }

  /** SortCons for rank 0: the network heads the first group. */
  lemma SortConsRank0(x: Network, rest: seq<Network>)
    requires Rank(x.id) == 0 && RanksAtLeast(rest, 0)
    ensures SortByRank([x] + rest) == [x] + SortByRank(rest)
  {
    var r := Rank(x.id);
    var c0, c1, c2, c3 := WithRank(rest, 0), WithRank(rest, 1), WithRank(rest, 2), WithRank(rest, 999);
    var e: seq<Network> := [];
    WithRankCons(x, rest, 0);
    WithRankCons(x, rest, 1);
    WithRankCons(x, rest, 2);
    WithRankCons(x, rest, 999);
    calc {
      SortByRank([x] + rest);
      ([x] + c0) + (e + c1) + (e + c2) + (e + c3);
      { assert e + c1 == c1 && e + c2 == c2 && e + c3 == c3; }
      ([x] + c0) + c1 + c2 + c3;
      { AppendAssoc([x], c0, c1); }
      ([x] + (c0 + c1)) + c2 + c3;
      { AppendAssoc([x], c0 + c1, c2); }
      ([x] + (c0 + c1 + c2)) + c3;
      { AppendAssoc([x], c0 + c1 + c2, c3); }
      [x] + (c0 + c1 + c2 + c3);
    }
  }

  /** SortCons for rank 1: no rank-0 network follows, so the first group is empty. */
  lemma SortConsRank1(x: Network, rest: seq<Network>)
    requires Rank(x.id) == 1 && RanksAtLeast(rest, 1)
    ensures SortByRank([x] + rest) == [x] + SortByRank(rest)
  {
    var r := Rank(x.id);
    var c0, c1, c2, c3 := WithRank(rest, 0), WithRank(rest, 1), WithRank(rest, 2), WithRank(rest, 999);
    var e: seq<Network> := [];
    WithRankCons(x, rest, 0);
    WithRankCons(x, rest, 1);
    WithRankCons(x, rest, 2);
    WithRankCons(x, rest, 999);
    GroupBelowEmpty(rest, r, 0);
    calc {
      SortByRank([x] + rest);
      (e + c0) + ([x] + c1) + (e + c2) + (e + c3);
      { assert e + c0 == e && e + ([x] + c1) == [x] + c1 && e + c2 == c2 && e + c3 == c3; }
      ([x] + c1) + c2 + c3;
      { AppendAssoc([x], c1, c2); }
      ([x] + (c1 + c2)) + c3;
      { AppendAssoc([x], c1 + c2, c3); }
      [x] + (c1 + c2 + c3);
      { assert c1 == c0 + c1; }
      [x] + (c0 + c1 + c2 + c3);
    }
  }

  /** SortCons for rank 2: the two lower groups are empty. */
  lemma SortConsRank2(x: Network, rest: seq<Network>)
    requires Rank(x.id) == 2 && RanksAtLeast(rest, 2)
    ensures SortByRank([x] + rest) == [x] + SortByRank(rest)
  {
    var r := Rank(x.id);
    var c0, c1, c2, c3 := WithRank(rest, 0), WithRank(rest, 1), WithRank(rest, 2), WithRank(rest, 999);
    var e: seq<Network> := [];
    WithRankCons(x, rest, 0);
    WithRankCons(x, rest, 1);
    WithRankCons(x, rest, 2);
    WithRankCons(x, rest, 999);
    GroupBelowEmpty(rest, r, 0);
    GroupBelowEmpty(rest, r, 1);
    calc {
      SortByRank([x] + rest);
      (e + c0) + (e + c1) + ([x] + c2) + (e + c3);
      { assert (e + c0) + (e + c1) == e && e + ([x] + c2) == [x] + c2 && e + c3 == c3; }
      ([x] + c2) + c3;
      { AppendAssoc([x], c2, c3); }
      [x] + (c2 + c3);
      { assert c2 == c0 + c1 + c2; }
      [x] + (c0 + c1 + c2 + c3);
    }
  }

  /** SortCons for the last rank: the three lower groups are empty. */
  lemma SortConsRank999(x: Network, rest: seq<Network>)
    requires Rank(x.id) == 999 && RanksAtLeast(rest, 999)
    ensures SortByRank([x] + rest) == [x] + SortByRank(rest)
  {
    var r := Rank(x.id);
    var c0, c1, c2, c3 := WithRank(rest, 0), WithRank(rest, 1), WithRank(rest, 2), WithRank(rest, 999);
    var e: seq<Network> := [];
    WithRankCons(x, rest, 0);
    WithRankCons(x, rest, 1);
    WithRankCons(x, rest, 2);
    WithRankCons(x, rest, 999);
    GroupBelowEmpty(rest, r, 0);
    GroupBelowEmpty(rest, r, 1);
    GroupBelowEmpty(rest, r, 2);
    calc {
      SortByRank([x] + rest);
      (e + c0) + (e + c1) + (e + c2) + ([x] + c3);
      { assert (e + c0) + (e + c1) + (e + c2) == e && e + ([x] + c3) == [x] + c3; }
      [x] + c3;
      { assert c3 == c0 + c1 + c2 + c3; }
      [x] + (c0 + c1 + c2 + c3);
    }
  }

  /** A sequence already in rank order is its own rank groups laid end to end. */
  lemma {:induction false} SortedIsGrouped(ns: seq<Network>)
    requires SortedByRank(ns)
    ensures SortByRank(ns) == ns
  {
    if ns != [] {
      var x, rest := ns[0], ns[1..];
      assert SortedByRank(rest) by {
        forall i, j | 0 <= i < j < |rest| ensures Rank(rest[i].id) <= Rank(rest[j].id) {
          assert rest[i] == ns[i + 1] && rest[j] == ns[j + 1];
        }
      }
      assert RanksAtLeast(rest, Rank(x.id)) by {
        forall i | 0 <= i < |rest| ensures Rank(x.id) <= Rank(rest[i].id) {
          assert rest[i] == ns[i + 1];
        }
      }
      SortedIsGrouped(rest);
      SortCons(x, rest);
      assert ns == [x] + rest;
    }
  }

  /**
   * The sort is the only stable one: any arrangement in rank order that
   * keeps each rank's networks in their original order is the sorted list.
   */
  lemma StableSortUnique(ns: seq<Network>, ms: seq<Network>)
    requires SortedByRank(ms)
    requires forall k: nat :: WithRank(ms, k) == WithRank(ns, k)
    ensures ms == SortByRank(ns)
  {
    SortedIsGrouped(ms);
    assert WithRank(ms, 0) == WithRank(ns, 0) && WithRank(ms, 1) == WithRank(ns, 1);
    assert WithRank(ms, 2) == WithRank(ns, 2) && WithRank(ms, 999) == WithRank(ns, 999);
  }

  /**
   * `_rebuild_network_tabs`: keep the networks with assets, in the reported
   * order; with none the window shows that the account holds nothing;
   * otherwise the tabs are created in rank order.
   */
  method RebuildNetworkTabs(networks: seq<Network>) returns (tabs: Option<seq<Network>>)
    ensures tabs.None? <==> KeptNetworks(networks) == []
    ensures tabs.Some? ==> tabs.value == SortByRank(KeptNetworks(networks))
  {
    var valid: seq<Network> := [];
    for i := 0 to |networks|
      invariant valid == KeptNetworks(networks[..i])
    {
      var n := networks[i];
      if Balance(n.data) > 0.0 || n.data.tokenCount > 0 {
        valid := valid + [n];
      }
      assert networks[..i + 1][..i] == networks[..i];
    }
    assert networks[..|networks|] == networks;
    if valid == [] {
      return None;
    }
    valid := SortByRank(valid);
    return Some(valid);
  }

  /** The tabs are exactly the networks with assets, each once as often as reported, in rank order. */
  lemma TabsAreKeptNetworksSorted(networks: seq<Network>)
    ensures var tabs := SortByRank(KeptNetworks(networks));
      && SortedByRank(tabs)
      && multiset(tabs) == multiset(KeptNetworks(networks))
      && forall n :: n in tabs <==> n in networks && Kept(n)
  {
    var kept := KeptNetworks(networks);
    SortByRankSorted(kept);
    SortByRankPermutes(kept);
    forall n
      ensures n in SortByRank(kept) <==> n in kept
    {
      assert n in SortByRank(kept) <==> n in multiset(SortByRank(kept));
      assert n in kept <==> n in multiset(kept);
    }
  }
}
