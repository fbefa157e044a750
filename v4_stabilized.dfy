/**
 * The "stabilized" rule of the V4 provider (`_extract_stabilized_from_history`):
 * for a horizon that has turned actual, the stabilized price is the last
 * prediction recorded for it before the flip, found by scanning the
 * history sorted by timestamp; for a horizon still pending, it is the
 * current price.
 */
module V4Stabilized {
  import opened Json
  import opened TimestampOrder
  import opened V4Types

  // ---------------------------------------------------------------------
  // Sorting the history: `sorted(history, key=lambda x: x.get("timestamp", ""))`
  // ---------------------------------------------------------------------

  /** The sort key of a history entry. */
  function Key(e: HistoryEntry): string {
    e.timestamp.GetOr("")
  }

  ghost predicate Sorted(s: seq<HistoryEntry>) {
    forall i, j :: 0 <= i < j < |s| ==> StrLe(Key(s[i]), Key(s[j]))
  }

  /** Inserts `x` after every entry whose key is not greater than its own. */
  function Insert(x: HistoryEntry, s: seq<HistoryEntry>): seq<HistoryEntry> {
    if s == [] then [x]
    else if !StrLe(Key(s[0]), Key(x)) then [x] + s
    else [s[0]] + Insert(x, s[1..])
  }

  /**
   * Insertion sort, each entry inserted after the equal keys already
   * placed: a stable sort, as Python's `sorted` is.
   */
  function SortByTimestamp(s: seq<HistoryEntry>): seq<HistoryEntry> {
    if s == [] then []
    else Insert(s[|s| - 1], SortByTimestamp(s[..|s| - 1]))
  }

  /** The entries of `s` whose key is `k`, in their order in `s`. */
  function WithKey(s: seq<HistoryEntry>, k: string): seq<HistoryEntry> {
    if s == [] then []
    else
      var n := |s| - 1;
      WithKey(s[..n], k) + (if Key(s[n]) == k then [s[n]] else [])
  }

  lemma {:induction false} InsertSorted(x: HistoryEntry, s: seq<HistoryEntry>)
    requires Sorted(s)
    ensures Sorted(Insert(x, s))
    ensures multiset(Insert(x, s)) == multiset(s) + multiset{x}
    decreases |s|
  {
    if s == [] {
    } else if !StrLe(Key(s[0]), Key(x)) {
      StrLeTotal(Key(s[0]), Key(x));
      var r := [x] + s;
      forall i, j | 0 <= i < j < |r| ensures StrLe(Key(r[i]), Key(r[j])) {
        if i == 0 && j > 1 {
          StrLeTransitive(Key(x), Key(s[0]), Key(s[j - 1]));
        }
      }
    } else {
      var t := s[1..];
      InsertSorted(x, t);
      var rest := Insert(x, t);
      var r := [s[0]] + rest;
      assert s == [s[0]] + t;
      forall i, j | 0 <= i < j < |r| ensures StrLe(Key(r[i]), Key(r[j])) {
        if i == 0 {
          assert r[j] in multiset(t) + multiset{x} by {
            assert r[j] == rest[j - 1];
            assert rest[j - 1] in multiset(rest);
          }
          if r[j] != x {
            var k :| 0 <= k < |t| && t[k] == r[j];
            assert s[k + 1] == r[j];
          }
        }
      }
    }
  }

  /** The sort orders by timestamp and keeps every entry exactly once. */
  lemma {:induction false} SortByTimestampSorted(s: seq<HistoryEntry>)
    ensures Sorted(SortByTimestamp(s))
    ensures multiset(SortByTimestamp(s)) == multiset(s)
  {
    if s != [] {
      var n := |s| - 1;
      SortByTimestampSorted(s[..n]);
      InsertSorted(s[n], SortByTimestamp(s[..n]));
      assert s == s[..n] + [s[n]];
    }
  }

  lemma {:induction false} WithKeyConcat(a: seq<HistoryEntry>, b: seq<HistoryEntry>, k: string)
    ensures WithKey(a + b, k) == WithKey(a, k) + WithKey(b, k)
    decreases |b|
  {
    if b == [] {
      assert a + b == a;
    } else {
      var n := |b| - 1;
      assert (a + b)[..|a| + n] == a + b[..n];
      WithKeyConcat(a, b[..n], k);
    }
  }

  lemma {:induction false} WithKeyAbsent(s: seq<HistoryEntry>, k: string)
    requires forall i :: 0 <= i < |s| ==> Key(s[i]) != k
    ensures WithKey(s, k) == []
  {
    if s != [] {
      WithKeyAbsent(s[..|s| - 1], k);
    }
  }

  lemma WithKeySingleton(x: HistoryEntry, k: string)
    ensures WithKey([x], k) == if Key(x) == k then [x] else []
  {
  }

  /** Inserting in front of larger keys adds `x` after every entry with its key. */
  lemma InsertWithKeyFront(x: HistoryEntry, s: seq<HistoryEntry>, k: string)
    requires Sorted(s) && s != [] && !StrLe(Key(s[0]), Key(x))
    ensures WithKey([x] + s, k) == WithKey(s, k) + (if Key(x) == k then [x] else [])
  {
    WithKeyConcat([x], s, k);
    WithKeySingleton(x, k);
    if Key(x) == k {
      forall i | 0 <= i < |s| ensures Key(s[i]) != k {
        if i == 0 {
          StrLeReflexive(Key(x));
        } else {
          assert StrLe(Key(s[0]), Key(s[i]));
        }
      }
      WithKeyAbsent(s, k);
    }
  }

  lemma {:induction false} InsertWithKey(x: HistoryEntry, s: seq<HistoryEntry>, k: string)
    requires Sorted(s)
    ensures WithKey(Insert(x, s), k) == WithKey(s, k) + (if Key(x) == k then [x] else [])
    decreases |s|
  {
    if s == [] {
      WithKeySingleton(x, k);
    } else if !StrLe(Key(s[0]), Key(x)) {
      InsertWithKeyFront(x, s, k);
    } else {
      var t := s[1..];
      var tail := if Key(x) == k then [x] else [];
      InsertWithKey(x, t, k);
      WithKeyConcat([s[0]], Insert(x, t), k);
      WithKeyConcat([s[0]], t, k);
      assert s == [s[0]] + t;
      calc {
        WithKey(Insert(x, s), k);
        WithKey([s[0]] + Insert(x, t), k);
        WithKey([s[0]], k) + (WithKey(t, k) + tail);
        (WithKey([s[0]], k) + WithKey(t, k)) + tail;
        WithKey(s, k) + tail;
      }
    }
  }

  /**
   * Stability: for every timestamp, the entries carrying it keep their
   * relative order through the sort.
   */
  lemma {:induction false} SortByTimestampStable(s: seq<HistoryEntry>, k: string)
    ensures WithKey(SortByTimestamp(s), k) == WithKey(s, k)
  {
    if s != [] {
      var n := |s| - 1;
      SortByTimestampStable(s[..n], k);
      SortByTimestampSorted(s[..n]);
      InsertWithKey(s[n], SortByTimestamp(s[..n]), k);
    }
  }

  // ---------------------------------------------------------------------
  // The last prediction before a horizon turned actual
  // ---------------------------------------------------------------------

  /** `h_data and not h_data.get("is_actual", False)` for `entry`'s value at `h`. */
  predicate IsPrediction(e: HistoryEntry, h: string) {
    var d := PointAt(e.forwardCurve, h);
    !d.IsEmpty() && !d.Actual()
  }

  /** The last entry of `s`, in list order, that still predicts `h`. */
  function LastPrediction(s: seq<HistoryEntry>, h: string): (r: Option<HistoryEntry>)
    ensures r.Some? ==> r.value in s && IsPrediction(r.value, h)
    ensures r.None? ==> forall i :: 0 <= i < |s| ==> !IsPrediction(s[i], h)
  {
    if s == [] then None
    else if IsPrediction(s[|s| - 1], h) then Some(s[|s| - 1])
    else LastPrediction(s[..|s| - 1], h)
  }

  /**
   * Reference definition, independent of sorting: scanning in list order,
   * keep the prediction with the greatest timestamp, a later entry
   * replacing an equal one.
   */
  function Newest(s: seq<HistoryEntry>, h: string): Option<HistoryEntry> {
    if s == [] then None
    else
      var best := Newest(s[..|s| - 1], h);
      var e := s[|s| - 1];
      if IsPrediction(e, h) && (best.None? || StrLe(Key(best.value), Key(e))) then Some(e) else best
  }

  /**
   * Entry `i` is the newest prediction for `h`: no prediction has a later
   * timestamp, and every prediction after it in the list has an earlier one.
   */
  ghost predicate NewestAt(s: seq<HistoryEntry>, h: string, i: int) {
    && 0 <= i < |s|
    && IsPrediction(s[i], h)
    && (forall j :: 0 <= j < |s| && IsPrediction(s[j], h) ==> StrLe(Key(s[j]), Key(s[i])))
    && (forall j :: i < j < |s| && IsPrediction(s[j], h) ==> !StrLe(Key(s[i]), Key(s[j])))
  }

  lemma {:induction false} NewestNone(s: seq<HistoryEntry>, h: string)
    ensures Newest(s, h).None? <==> forall i :: 0 <= i < |s| ==> !IsPrediction(s[i], h)
  {
    if s != [] {
      var n := |s| - 1;
      NewestNone(s[..n], h);
      if Newest(s, h).None? {
        forall i | 0 <= i < |s| ensures !IsPrediction(s[i], h) {
          if i < n {
            assert s[..n][i] == s[i];
          }
        }
      }
    }
  }

  lemma {:induction false} NewestIsNewestAt(s: seq<HistoryEntry>, h: string)
    ensures Newest(s, h).Some? ==> exists i :: NewestAt(s, h, i) && s[i] == Newest(s, h).value
  {
    if s != [] {
      var n := |s| - 1;
      var init := s[..n];
      var e := s[n];
      var best := Newest(init, h);
      NewestIsNewestAt(init, h);
      if IsPrediction(e, h) && (best.None? || StrLe(Key(best.value), Key(e))) {
        if best.None? {
          NewestAfterNone(s, h);
        } else {
          var i0 :| NewestAt(init, h, i0) && init[i0] == best.value;
          NewestAfterReplace(s, h, i0);
        }
      } else if best.Some? {
        var i0 :| NewestAt(init, h, i0) && init[i0] == best.value;
        if IsPrediction(e, h) {
          StrLeTotal(Key(best.value), Key(e));
        }
        NewestAfterKeep(s, h, i0);
      }
    }
  }

  lemma NewestAfterNone(s: seq<HistoryEntry>, h: string)
    requires s != [] && IsPrediction(s[|s| - 1], h)
    requires Newest(s[..|s| - 1], h).None?
    ensures NewestAt(s, h, |s| - 1)
  {
    var n := |s| - 1;
    NewestNone(s[..n], h);
    forall i | 0 <= i < n ensures !IsPrediction(s[i], h) {
      assert s[..n][i] == s[i];
    }
    StrLeReflexive(Key(s[n]));
  }

  lemma NewestAfterReplace(s: seq<HistoryEntry>, h: string, i0: int)
    requires s != [] && IsPrediction(s[|s| - 1], h)
    requires NewestAt(s[..|s| - 1], h, i0)
    requires StrLe(Key(s[i0]), Key(s[|s| - 1]))
    ensures NewestAt(s, h, |s| - 1)
  {
    var n := |s| - 1;
    var init := s[..n];
    StrLeReflexive(Key(s[n]));
    forall j | 0 <= j < |s| && IsPrediction(s[j], h) ensures StrLe(Key(s[j]), Key(s[n])) {
      if j < n {
        assert init[j] == s[j];
        StrLeTransitive(Key(s[j]), Key(s[i0]), Key(s[n]));
      }
    }
  }

  lemma NewestAfterKeep(s: seq<HistoryEntry>, h: string, i0: int)
    requires s != []
    requires NewestAt(s[..|s| - 1], h, i0)
    requires IsPrediction(s[|s| - 1], h) ==>
      StrLe(Key(s[|s| - 1]), Key(s[i0])) && !StrLe(Key(s[i0]), Key(s[|s| - 1]))
    ensures NewestAt(s, h, i0)
  {
  }

  lemma {:induction false} LastPredictionCons(a: HistoryEntry, u: seq<HistoryEntry>, h: string)
    ensures LastPrediction([a] + u, h) ==
      if LastPrediction(u, h).Some? then LastPrediction(u, h)
      else if IsPrediction(a, h) then Some(a) else None
    decreases |u|
  {
    var s := [a] + u;
    if u == [] {
      assert s[..0] == [];
    } else if !IsPrediction(u[|u| - 1], h) {
      assert s[..|s| - 1] == [a] + u[..|u| - 1];
      LastPredictionCons(a, u[..|u| - 1], h);
    }
  }

  /** How inserting one entry into a sorted history moves its last prediction. */
  lemma {:induction false} LastPredictionInsert(x: HistoryEntry, t: seq<HistoryEntry>, h: string)
    requires Sorted(t)
    ensures LastPrediction(Insert(x, t), h) ==
      var last := LastPrediction(t, h);
      if IsPrediction(x, h) && (last.None? || StrLe(Key(last.value), Key(x))) then Some(x) else last
    decreases |t|
  {
    if t == [] {
      assert [x][..0] == [];
    } else if !StrLe(Key(t[0]), Key(x)) {
      LastPredictionCons(x, t, h);
      var last := LastPrediction(t, h);
      if last.Some? && StrLe(Key(last.value), Key(x)) {
        var k :| 0 <= k < |t| && t[k] == last.value;
        if k == 0 {
        } else {
          assert StrLe(Key(t[0]), Key(t[k]));
          StrLeTransitive(Key(t[0]), Key(t[k]), Key(x));
        }
      }
    } else {
      var u := t[1..];
      assert t == [t[0]] + u;
      LastPredictionInsert(x, u, h);
      LastPredictionCons(t[0], Insert(x, u), h);
      LastPredictionCons(t[0], u, h);
    }
  }

  /**
   * Scanning the sorted history for the last prediction finds the entry
   * the reference definition picks.
   */
  lemma {:induction false} LastPredictionOfSorted(s: seq<HistoryEntry>, h: string)
    ensures LastPrediction(SortByTimestamp(s), h) == Newest(s, h)
  {
    if s != [] {
      var n := |s| - 1;
      LastPredictionOfSorted(s[..n], h);
      SortByTimestampSorted(s[..n]);
      LastPredictionInsert(s[n], SortByTimestamp(s[..n]), h);
    }
  }

  // ---------------------------------------------------------------------
  // The stabilized map
  // ---------------------------------------------------------------------

  /**
   * `(last_prediction, last_timestamp)` after the scan: the price and
   * timestamp of the last matching entry, both None when there is none.
   */
  function Reading(found: Option<HistoryEntry>, h: string): (Option<real>, Option<string>) {
    match found
    case None => (None, None)
    case Some(e) => (PointAt(e.forwardCurve, h).price, e.timestamp)
  }

  /** The stabilized entry for one horizon, or None when none is written. */
  function StabilizedFor(h: string, sorted: seq<HistoryEntry>, current: map<string, RawPoint>): Option<Stabilized> {
    var cur := PointAt(current, h);
    if cur.Actual() then
      var (price, timestamp) := Reading(LastPrediction(sorted, h), h);
      if price.Some? then Some(Stabilized(price, timestamp)) else None
    else
      Some(Stabilized(cur.price, None))
  }

  function StabilizedOver(labels: seq<string>, sorted: seq<HistoryEntry>, current: map<string, RawPoint>): map<string, Stabilized> {
    if labels == [] then map[]
    else
      var n := |labels| - 1;
      var m := StabilizedOver(labels[..n], sorted, current);
      match StabilizedFor(labels[n], sorted, current)
      case None => m
      case Some(st) => m[labels[n] := st]
  }

  /** The map `_extract_stabilized_from_history` returns. */
  function StabilizedPredictions(history: Option<seq<HistoryEntry>>, current: map<string, RawPoint>): map<string, Stabilized> {
    if history.None? || history.value == [] then map[]
    else StabilizedOver(Horizons, SortByTimestamp(history.value), current)
  }

  method ExtractStabilized(history: Option<seq<HistoryEntry>>, current: map<string, RawPoint>)
    returns (stabilized: map<string, Stabilized>)
    ensures history.None? || history.value == [] ==> stabilized == map[]
    ensures stabilized == StabilizedPredictions(history, current)
  {
    stabilized := map[];
    if history.None? || history.value == [] {
      return;
    }
    var sorted := SortByTimestamp(history.value);
    for k := 0 to |Horizons|
      invariant stabilized == StabilizedOver(Horizons[..k], sorted, current)
    {
      var horizon := Horizons[k];
      var currentPoint := PointAt(current, horizon);
      assert Horizons[..k + 1][..k] == Horizons[..k];
      if currentPoint.Actual() {
        var lastPrediction: Option<real> := None;
        var lastTimestamp: Option<string> := None;
        for i := 0 to |sorted|
          invariant (lastPrediction, lastTimestamp) == Reading(LastPrediction(sorted[..i], horizon), horizon)
        {
          var entry := sorted[i];
          var hData := PointAt(entry.forwardCurve, horizon);
          assert sorted[..i + 1][..i] == sorted[..i];
          if !hData.IsEmpty() && !hData.Actual() {
            lastPrediction := hData.price;
            lastTimestamp := entry.timestamp;
          }
        }
        assert sorted[..|sorted|] == sorted;
        if lastPrediction.Some? {
          stabilized := stabilized[horizon := Stabilized(lastPrediction, lastTimestamp)];
        }
      } else {
        stabilized := stabilized[horizon := Stabilized(currentPoint.price, None)];
      }
    }
    assert Horizons[..|Horizons|] == Horizons;
  }

  lemma {:induction false} StabilizedOverAt(labels: seq<string>, sorted: seq<HistoryEntry>, current: map<string, RawPoint>, l: string)
    ensures l in StabilizedOver(labels, sorted, current) <==> l in labels && StabilizedFor(l, sorted, current).Some?
    ensures l in StabilizedOver(labels, sorted, current) ==>
      StabilizedOver(labels, sorted, current)[l] == StabilizedFor(l, sorted, current).value
  {
    if labels != [] {
      var n := |labels| - 1;
      StabilizedOverAt(labels[..n], sorted, current, l);
      assert labels == labels[..n] + [labels[n]];
    }
  }

  /**
   * The stabilized rule, stated against the unsorted history. With a
   * non-empty history: only table horizons get an entry; a horizon not
   * currently actual (or missing) gets its current price with no
   * timestamp; an actual horizon gets the price and timestamp of its
   * newest prediction (greatest timestamp, the later of equal ones) when
   * that prediction has a price, and no entry otherwise.
   */
  lemma StabilizedRule(history: seq<HistoryEntry>, current: map<string, RawPoint>, l: string)
    requires history != []
    ensures l in StabilizedPredictions(Some(history), current) ==> l in Horizons
    ensures l in Horizons && !PointAt(current, l).Actual() ==>
      l in StabilizedPredictions(Some(history), current) &&
      StabilizedPredictions(Some(history), current)[l] == Stabilized(PointAt(current, l).price, None)
    ensures l in Horizons && PointAt(current, l).Actual() ==>
      var newest := Newest(history, l);
      && (l in StabilizedPredictions(Some(history), current) <==>
            newest.Some? && PointAt(newest.value.forwardCurve, l).price.Some?)
      && (l in StabilizedPredictions(Some(history), current) ==>
            StabilizedPredictions(Some(history), current)[l]
              == Stabilized(PointAt(newest.value.forwardCurve, l).price, newest.value.timestamp))
  {
    StabilizedOverAt(Horizons, SortByTimestamp(history), current, l);
    LastPredictionOfSorted(history, l);
  }
}
