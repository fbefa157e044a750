# Forward-curve server bookkeeping, modelled in Dafny

The Forward_curves server polls two prediction APIs and republishes their
forward curves to the UI. This project models the server code that shapes
and records those snapshots:

- **V4 provider** (`server/v4_curve_provider.py`). `_transform_response`
  normalises the `/prediction/tracking` response over the fixed 8-horizon
  table `+1H … +24H`. Missing values default to 0 or `False`. Each point
  gets its original, yesterday's and stabilized prediction.
  `_extract_stabilized_from_history` sorts the `/history` entries by
  timestamp (a stable sort). For a horizon that is now actual, it picks
  the price of the last entry that still predicted that horizon. For a
  pending horizon, it uses the current price.
- **V4 history** (same file). `_store_curve_snapshot` appends a snapshot of
  the still-pending predictions and trims the list to the newest 300.
  `_add_history_to_curve` annotates each point with an evolution count and
  a last stabilized price.
- **Poll timing**. Both poll loops sleep until the next wall-clock minute
  that is a multiple of five, plus a buffer: 5 s for V4, 2 s for V5.
- **V5 provider** (`server/v5_curve_provider.py`). `_transform_response`
  normalises `/prediction` over a 10-horizon table, with five keys per
  point.
- **Accuracy store** (`server/accuracy_storage.py`, `store_v4_data`). The
  three SQLite tables are maps keyed by `anchor_date` and by
  `(anchor_date, horizon)`. `INSERT OR REPLACE` is a map update. The class
  method applies the upserts one at a time. When a point raises, the
  method restores the saved tables, which models the rollback. Two inputs
  raise, both for a point with a truthy horizon and a truthy original
  price: a None `original_pct`, which violates its NOT NULL column, and an
  actual point whose `target_price` is None, where `None > 0` raises. The
  `forward_curve` conversion writes None for a missing `price`; a missing
  `target_price` key defaults to 0 and raises nothing.

Python value semantics are explicit. `dict.get` with a default is `Json.Get`
over a missing/null/present field. Truthiness is `TruthyReal`,
`TruthyBool` and `TruthyString` (0, `None`, `""` and `{}` are false).
`sorted` is a stable insertion sort on Python's code-point string order.
`datetime.now()` is a `now` parameter.

Each loop is a method proved equal to a specification function. The
function's properties are then proved as lemmas: `ExtractStabilized`,
`TransformResponse` (V4 and V5), `BuildSnapshot`, `AddHistoryToCurve` and
`StoreV4Data`.

The server code does no interpolation, smoothing or hover lookup. It only
shapes and records snapshots, and the V4 history keeps up to 300 of them.
"Stabilized" means the newest history entry, by timestamp, whose value for
the horizon is non-empty and not actual.

## Model

| member | source | states |
|---|---|---|
| HorizonTable.PresentLabelsMembers | server/v4_curve_provider.py:116-118 | The horizon filter keeps exactly the table labels that are keys of `forward_curve`, and never more labels than the table has |
| HorizonTable.PresentLabelsInTableOrder | server/v4_curve_provider.py:22 | With a repeat-free table, the kept labels appear in strictly increasing table position, so there are no duplicates |
| PollAlignment.WaitForNextMark | server/v4_curve_provider.py:245-253 | The wait ends on the first multiple-of-5 minute strictly after the current one, wrapping to :00 from minutes 55–59 after `60 - minute` minutes. It lasts 1–5 minutes, and `seconds_to_wait = minutes*60 - second + buffer` lies in `[buffer+1, buffer+300]` |
| V4History.NextPollWait | server/v4_curve_provider.py:245-253 | The V4 sleep is 6–305 s, ends on a multiple-of-5 minute with no mark skipped, and wraps to :00 for minutes 55–59 |
| V5CurveProvider.NextPollWait | server/v5_curve_provider.py:144-153 | The V5 sleep is 3–302 s, ends on a multiple-of-5 minute with no mark skipped, and wraps to :00 after `60 - minute` minutes for minutes 55–59 |
| V4Stabilized.SortByTimestampSorted | server/v4_curve_provider.py:175 | The history sort orders entries by their timestamp (`""` when missing) and is a permutation of the input |
| V4Stabilized.SortByTimestampStable | server/v4_curve_provider.py:175 | The sort is stable: for every timestamp, the entries that carry it keep their input order |
| V4Stabilized.LastPrediction | server/v4_curve_provider.py:186-194 | The scan returns an entry of the list whose value for the horizon is non-empty and not actual, and returns none exactly when no such entry exists |
| V4Stabilized.LastPredictionOfSorted | server/v4_curve_provider.py:175-194 | Scanning the sorted history for the last prediction yields the reference pick, independent of sorting: the prediction with the greatest timestamp, the later entry among equal timestamps |
| V4Stabilized.NewestNone | server/v4_curve_provider.py:195-199 | The reference pick is absent exactly when no history entry predicts the horizon, so the horizon gets no stabilized entry |
| V4Stabilized.ExtractStabilized | server/v4_curve_provider.py:161-207 | Returns an empty map for missing or empty history. Otherwise the nested loops compute the stabilized map of the sorted history |
| V4Stabilized.StabilizedOverAt | server/v4_curve_provider.py:177-205 | A label is in the map built over the table exactly when it is a table label and its per-horizon rule writes an entry, and then it holds that entry |
| V4Stabilized.StabilizedRule | server/v4_curve_provider.py:169-207 | With non-empty history: only table horizons get entries. A non-actual horizon gets its current price with no timestamp. An actual horizon gets the price and timestamp of its newest prediction when that has a price, and no entry otherwise |
| V4Transform.TransformResponse | server/v4_curve_provider.py:101-159 | The loop builds the normalised curve defined by `Transform`, using the stabilized map from `ExtractStabilized` |
| V4Transform.CurvePointsLabels | server/v4_curve_provider.py:115-142 | The emitted labels are the kept table labels in order. Each point carries its raw values, with 0 for missing numbers and `False` for a missing `is_actual`, its original price and its stabilized price |
| V4Transform.TransformShape | server/v4_curve_provider.py:116-158 | The V4 curve lists exactly the table horizons present in `forward_curve`, in table order, without repeats, at most 8, each filled from its raw point. `type` is `v4_forward_curve`, `anchor_price == current_price` (default 0), and `has_history` holds iff history is present and non-empty |
| V4History.SnapshotPredictionsRule | server/v4_curve_provider.py:273-280 | A horizon is in a snapshot's `predictions` iff some point of that horizon is not actual. Its price and original price come from the last such point |
| V4History.BuildSnapshot | server/v4_curve_provider.py:264-280 | The loop builds the snapshot of the curve: the clock reading, `hours_elapsed`, `anchor_timestamp` and the pending predictions |
| V4History.Retain | server/v4_curve_provider.py:282-286 | Trimming keeps `min(len, 300)` entries, and they are the newest ones in order, a suffix of the list |
| V4History.EvolutionCount | server/v4_curve_provider.py:296-305 | A horizon's evolution has one entry per stored snapshot that predicts it, so `evolution_count` is the number of such snapshots and at most the history length |
| V4History.EvolutionEntries | server/v4_curve_provider.py:296-305 | The evolution holds exactly the (timestamp, hours_elapsed, price) entries of the snapshots that predict the horizon |
| V4History.EvolutionLast | server/v4_curve_provider.py:308-310 | The last evolution entry comes from the latest snapshot that predicts the horizon |
| V4History.AnnotateRule | server/v4_curve_provider.py:288-319 | The annotation keeps the header and every point in order and sets `history_size` to the history length. `evolution_count` counts the predicting snapshots. `last_stabilized_price` is absent with no evolution. It is the target price for a pending point, and for an actual point it is the price in the latest snapshot that predicted the horizon |
| V4History.StoreThenAnnotatePending | server/v4_curve_provider.py:233-238 | After a poll stores its snapshot, the history holds at most 300 entries and ends with that snapshot. Every pending point of the broadcast curve then has `evolution_count >= 1` and its own target price as last stabilized price |
| V4History.CurveHistory.constructor | server/v4_curve_provider.py:37-38 | The provider starts with no last curve and an empty history |
| V4History.CurveHistory.StoreCurveSnapshot | server/v4_curve_provider.py:264-286 | Appends the snapshot of the curve, then trims to the newest 300. From a history within 300, the history stays within 300, and the last curve is unchanged |
| V4History.CurveHistory.AddHistoryToCurve | server/v4_curve_provider.py:288-319 | The nested loops compute the annotated curve for the stored history and change nothing |
| V4History.CurveHistory.PollStep | server/v4_curve_provider.py:233-239 | A fetched curve with a registered callback is remembered, stored, and broadcast annotated with the updated history. Otherwise nothing changes and nothing is broadcast. The history stays within 300 |
| V5CurveProvider.TransformResponse | server/v5_curve_provider.py:66-93 | The loop builds the normalised V5 curve defined by `Transform` |
| V5CurveProvider.CurvePointsLabels | server/v5_curve_provider.py:71-81 | The emitted labels are the kept table labels in order. Each five-key point carries its raw values, with 0 for missing ones |
| V5CurveProvider.TransformShape | server/v5_curve_provider.py:66-93 | The V5 curve lists exactly the table horizons present in `forward_curve`, in table order, without repeats, at most 10. `type` is `forward_curve`, the timestamp is the fetch time, `model` is `V5 Flash (LSTM+TFT)`, and the header values are the response's with the `dict.get` defaults `current_price` 0, `direction` `NEUTRAL`, `confidence_level` `LOW` and `confidence_score` 0 |
| AccuracyStorage.AnchorDate | server/accuracy_storage.py:87 | `anchor_date` is the prefix of the timestamp before the first `T`, or the whole string when there is none |
| AccuracyStorage.AnchorDateOfTimestamp | server/accuracy_storage.py:87 | For a date with no `T`, splitting `date + "T" + time` gives back the date |
| AccuracyStorage.ErrorPct | server/accuracy_storage.py:163-164 | The error percentage is `|target - predicted| / target * 100`: non-negative, zero exactly when prediction equals target, and at most 100 for predictions in `[0, 2*target]` |
| AccuracyStorage.Accuracy | server/accuracy_storage.py:165 | Accuracy is at most 100, exactly 100 for a perfect prediction, and non-negative for predictions in `[0, 2*target]` |
| AccuracyStorage.Convert | server/accuracy_storage.py:112-122 | The converted `forward_curve` items keep their order and horizon, and carry `price`/`pct_change` as given, `None` when absent. `is_actual` defaults to `False` |
| AccuracyStorage.MetricsRowOf | server/accuracy_storage.py:162-187 | The original columns are `ErrorPct` and `Accuracy` of the original price against the target, with error + accuracy = 100, a non-negative error, and error 0 iff the original equals the target. The stabilized columns are set iff the stabilized price is truthy, and then hold its `ErrorPct` and `Accuracy`. `calculated_at` is the store time |
| AccuracyStorage.EffectRule | server/accuracy_storage.py:126-187 | A point is skipped without a truthy horizon or a truthy original price. It fails on a None `original_pct`, or on an actual point whose `target_price` is present and None; a missing `target_price` key defaults to 0 and does not fail. Otherwise it writes under `(anchor_date, horizon)`, with actual columns and `became_actual_at` set iff `is_actual`, and a metrics row iff actual with target > 0. The written `original_pct`, `stabilized_price` and `stabilized_pct` are those of the horizon's original prediction, `actual_pct` is `pct_change` (default 0) for an actual point, and the metrics row is `MetricsRowOf` of the target, the original price and the stabilized price |
| AccuracyStorage.ApplyAt | server/accuracy_storage.py:144-187 | One upsert replaces the row under its own key and leaves every other key and the anchors unchanged |
| AccuracyStorage.ApplyAllFails | server/accuracy_storage.py:191-194 | The batch raises iff one of its points does, whatever the tables hold |
| AccuracyStorage.ApplyAllKeepsPrediction | server/accuracy_storage.py:144-159 | A predictions key that no point writes keeps its old row, or stays absent |
| AccuracyStorage.ApplyAllLastPrediction | server/accuracy_storage.py:144-159 | The last point that writes a predictions key decides its row (`INSERT OR REPLACE` on `UNIQUE(anchor_date, horizon)`) |
| AccuracyStorage.ApplyAllKeepsMetrics | server/accuracy_storage.py:174-187 | A metrics key that no point writes keeps its old row, or stays absent |
| AccuracyStorage.ApplyAllLastMetrics | server/accuracy_storage.py:174-187 | The last point that writes a metrics key decides its row |
| AccuracyStorage.ApplyAllKeys | server/accuracy_storage.py:126-187 | The walk removes no row, leaves the anchors alone, and adds rows only under the batch's anchor date |
| AccuracyStorage.StoreV4Rule | server/accuracy_storage.py:77-196 | Nothing happens without data or a truthy `anchor_timestamp`. Otherwise the batch rolls back, leaving the tables unchanged, iff some point raises. A commit replaces the date's anchor row (defaults 0 and `UNKNOWN`), keeps the other anchors, removes no row and adds rows only under that date |
| AccuracyStorage.AccuracyStore.constructor | server/accuracy_storage.py:17-19 | Opening the database gives a store with the file's existing contents |
| AccuracyStorage.AccuracyStore.StoreV4Data | server/accuracy_storage.py:77-196 | The step-by-step upserts reach the outcome of `StoreV4` from the old tables. The tables end as the committed ones, or unchanged after a skip or a rollback |

## Left out

- `server/ipc_ui_server.py` is not part of this model. It is websocket and HTTP plumbing with no algorithm.
- `fetch_curve` and `fetch_summary` of both providers, including the HTTP/SSL setup. Responses are inputs, and a failed fetch is `None`.
- The asyncio loops: `start_polling`, `stop_polling`, sleeping, cancellation and the 60 s error back-off. The V4 poll step and the wait arithmetic are modelled. The V5 `_last_curve` is only set in that loop, and `get_last_curve` just returns it, so neither is modelled.
- `poll_interval`: both constructors accept it, but the loops never read it (they align to 5-minute marks). It is not modelled.
- `get_last_curve` and `get_curve_history` of the V4 provider return the `lastCurve` and `history` fields of `CurveHistory` as they are.
- `get_accuracy_summary` and `print_summary`. They are SQL aggregates with SQLite date functions, rounding and printing.
- `init_database` and the SQLite connection. The tables are maps, so the autoincrement `id` columns and the never-enforced foreign keys do not appear.
- Log and print calls, including the accuracy message printed after each metrics row.
- `datetime.now(UTC)` is the `now` parameter. It is a single value per call, whereas the source reads the clock at every row.
- Floating point: prices and percentages are mathematical reals, with no rounding or NaN.
- Explicit JSON `null` in the API payloads and in `curve_data`'s scalar keys is not modelled. A key is either missing or holds a value of the expected type. The exception is the accuracy points, where the `forward_curve` conversion creates `None` values, and `dict.get` semantics are modelled in full.
- Values of an unexpected JSON type, such as a non-dict history entry or a non-string horizon, which make the source raise `AttributeError`.
- V4Types.RawPoint: keys the provider never reads are a single `otherKeys` flag, which only decides whether the object is the empty dict.
- AccuracyStorage.CurveData: `curve` is either missing or a list, and `forward_curve` is its item list in dict order. Any other value is not modelled.
