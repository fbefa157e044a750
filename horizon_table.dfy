/**
 * The fixed-table filter both providers apply to a snapshot's
 * `forward_curve` map: walk the provider's horizon table in order and keep
 * the labels the snapshot has. Labels outside the table are never looked
 * at, so they are dropped; the table fixes the output order.
 */
module HorizonTable {

  ghost predicate Distinct(s: seq<string>) {
    forall i, j :: 0 <= i < j < |s| ==> s[i] != s[j]
  }

  /** Position of the first occurrence of `x` in `s`, or `|s|` when absent. */
  function IndexOf(s: seq<string>, x: string): (i: nat)
    ensures i <= |s|
    ensures i < |s| <==> x in s
    ensures i < |s| ==> s[i] == x
    ensures forall j :: 0 <= j < i ==> s[j] != x
  {
    if s == [] then 0
    else if s[0] == x then 0
    else 1 + IndexOf(s[1..], x)
  }

  /** The labels of `table` that are keys of the snapshot, in table order. */
  function PresentLabels(table: seq<string>, keys: set<string>): seq<string> {
    if table == [] then []
    else
      var n := |table| - 1;
      PresentLabels(table[..n], keys) + (if table[n] in keys then [table[n]] else [])
  }

  /**
   * Exactly the table's labels that the snapshot has; no more of them than
   * the table holds.
   */
  lemma {:induction false} PresentLabelsMembers(table: seq<string>, keys: set<string>)
    ensures forall l :: l in PresentLabels(table, keys) <==> l in table && l in keys
    ensures |PresentLabels(table, keys)| <= |table|
  {
    if table != [] {
      var n := |table| - 1;
      PresentLabelsMembers(table[..n], keys);
      assert table == table[..n] + [table[n]];
    }
  }

  lemma IndexOfPrefix(s: seq<string>, n: nat, x: string)
    requires n <= |s| && x in s[..n]
    ensures IndexOf(s, x) == IndexOf(s[..n], x)
  {
  }

  /**
   * With a table free of repeats, the kept labels appear in table order
   * (strictly increasing table positions), hence without duplicates.
   */
  lemma {:induction false} PresentLabelsInTableOrder(table: seq<string>, keys: set<string>)
    requires Distinct(table)
    ensures var r := PresentLabels(table, keys);
      forall i, j :: 0 <= i < j < |r| ==> IndexOf(table, r[i]) < IndexOf(table, r[j])
  {
    if table != [] {
      var n := |table| - 1;
      var init := table[..n];
      var r0 := PresentLabels(init, keys);
      var r := PresentLabels(table, keys);
      PresentLabelsInTableOrder(init, keys);
      PresentLabelsMembers(init, keys);
      assert r == r0 + (if table[n] in keys then [table[n]] else []);
      forall i, j | 0 <= i < j < |r|
        ensures IndexOf(table, r[i]) < IndexOf(table, r[j])
      {
        assert r[i] == r0[i] && r0[i] in init;
        IndexOfPrefix(table, n, r[i]);
        if j < |r0| {
          assert r[j] == r0[j] && r0[j] in init;
          IndexOfPrefix(table, n, r[j]);
        } else {
          assert r[j] == table[n];
        }
      }
    }
  }
}
