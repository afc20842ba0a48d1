# checkupdates Prometheus exporter: the gauge reconciliation

The exporter exposes the host's pending package updates as the labelled gauge
`checkupdates_available`. The gauge has two labels, `name` and `level`, and one
series per pending update, always with value 1. `MetricsService` keeps the
gauge in line with the update checker's snapshot:

- `SetGauges` deletes every series whose decoded update is not in the snapshot.
  It then sets the series of every update in the snapshot to 1.
- `ExecuteAsync` runs `SetGauges` once on the current snapshot. Only after that
  does it start the scrape server.
- `OnUpdatesChanged` runs `SetGauges` on every new snapshot.

The Dafny project models this in six modules:

- `Updates` (`updates.dfy`): an update as a `(name, level)` value. It also holds
  the gauge's label names, the label encoding `ToArray`/`FromArray` and the
  encoding of a whole snapshot.
- `Gauges` (`gauge.dfy`): the gauge as a finite map from label-value sequences
  to values. The three library calls used by the service become a key-set read,
  a key deletion and a key update.
- `Reconciliation` (`reconcile.dfy`): the pass as a function (`Reconcile`) and
  as the two-loop method `SetGauges`. It also defines the target gauge for a
  snapshot (`Target`) and the lemmas relating them: convergence, idempotence,
  the empty snapshot and churn between snapshots.
- `MetricsService` (`service.dfy`): the service as a state machine over
  `State(registry, serverStarted)`. It covers the startup order, the
  notification handler and any sequence of notifications.
- `RemovalLog` (`removal_log.dfy`): the logged count of removed series (see
  Findings).
- `Scenarios` (`scenarios.dfy`): literal runs of the pass and of startup.

The `Update` class is not part of this model. It is modelled as a value whose
identity is exactly its name and level. `ToArray` gives `[name, level]`, and
`FromArray` reverses it on two-element sequences. Under that reading, both
round trips are proved rather than assumed. The registry invariant
`WellLabelled` says that every stored label sequence has one value per label
name. It is a precondition of the pass because the metrics library refuses
label sequences of any other length, so no gauge can break it. Every operation
preserves it.

## Model

| member | source | states |
|---|---|---|
| Updates.ToArray | src/Services/MetricsService.cs:62 | the labels written for an update have one value per label name of the gauge |
| Updates.FromArray | src/Services/MetricsService.cs:56 | decoding a stored two-value label sequence gives an update whose encoding is that same sequence |
| Updates.DecodeEncode | src/Services/MetricsService.cs:62 | decoding the labels written for an update gives that update back |
| Updates.EncodeInjective | src/Services/MetricsService.cs:61-62 | two updates are exposed under the same labels if and only if they are the same update |
| Updates.EncodeCardinality | src/Services/MetricsService.cs:61-63 | a snapshot of n updates is exposed as exactly n distinct series |
| Updates.EncodeDifference | src/Services/MetricsService.cs:56-62 | the series of the updates in one snapshot and not another are the first's series minus the second's |
| Gauges.AllLabelValues | src/Services/MetricsService.cs:56 | the enumeration holds exactly the label sequences that have a series |
| Gauges.Remove | src/Services/MetricsService.cs:58 | removing a series deletes it and leaves every other series and its value in place |
| Gauges.Set | src/Services/MetricsService.cs:62 | setting a series creates or overwrites it with the value and leaves every other series in place |
| Reconciliation.Target | src/Services/MetricsService.cs:11-29 | the intended gauge has the two-label series of every update in the snapshot at value 1, and every series decodes to an update in the snapshot |
| Reconciliation.Obsolete | src/Services/MetricsService.cs:56 | the series the removal step selects are exactly the stored series that are not the encoding of any update in the snapshot |
| Reconciliation.RemoveObsolete | src/Services/MetricsService.cs:56-58 | the removal step only deletes: its series are exactly the stored ones minus the obsolete selection, each with its old value. So every remaining series decodes into the snapshot, and a series whose update is in the snapshot survives with its value |
| Reconciliation.Reconcile | src/Services/MetricsService.cs:54-64 | after the pass, every snapshot update has its series at 1 and no series decodes outside the snapshot. Stored series of updates outside the snapshot are gone, and those of updates inside it remain |
| Reconciliation.RemoveAll | src/Services/MetricsService.cs:57-58 | the removal loop deletes exactly the given series and leaves the values of the others unchanged |
| Reconciliation.SetAll | src/Services/MetricsService.cs:61-62 | the set loop adds exactly the snapshot's series at value 1 and leaves every other series as it was |
| Reconciliation.SetGauges | src/Services/MetricsService.cs:54-64 | the gauge between the two loops has lost exactly the obsolete series, and every series of an update still in the snapshot is kept with its value. After the set loop every snapshot update has its series at 1 and no series decodes outside the snapshot. Obsolete series are deleted, not zeroed |
| Reconciliation.Convergence | src/Services/MetricsService.cs:56-62 | whatever the gauge held before, after the pass it equals the target of the snapshot |
| Reconciliation.ConvergedKeys | src/Services/MetricsService.cs:56-63 | after the pass the series are exactly the encoded snapshot, one per update |
| Reconciliation.Idempotence | src/Services/MetricsService.cs:54-64 | running the pass twice with the same snapshot leaves the same gauge as running it once |
| Reconciliation.EmptySnapshot | src/Services/MetricsService.cs:56-63 | an empty snapshot leaves the gauge with no series |
| Reconciliation.ChurnBetweenSnapshots | src/Services/MetricsService.cs:56-62 | after a pass for one snapshot, the next pass's removal step selects exactly the series of updates that left. Over that pass the gauge loses exactly those series and gains exactly the series of new updates. Series in both snapshots keep value 1 |
| MetricsService.OnUpdatesChanged | src/Services/MetricsService.cs:49-52 | a notification leaves the gauge at the target of its snapshot and does not change whether the server runs |
| MetricsService.ExecuteSteps | src/Services/MetricsService.cs:37-47 | startup ends with the server running, and in every startup state where it runs, the gauge already equals the target of the current snapshot |
| MetricsService.Execute | src/Services/MetricsService.cs:37-47 | after startup the server runs and the gauge reflects the startup snapshot |
| MetricsService.Run | src/Services/MetricsService.cs:49-52 | delivering notifications keeps the gauge well labelled and never starts or stops the server |
| MetricsService.RunConverges | src/Services/MetricsService.cs:49-64 | after any non-empty sequence of notifications the gauge equals the target of the last snapshot |
| MetricsService.Lifetime | src/Services/MetricsService.cs:31-52 | after construction the server stays stopped through any notifications that arrive before startup. After startup and any later notifications, the server runs and the gauge reflects the most recent snapshot |
| RemovalLog.LoggedRemovedCount | src/Services/MetricsService.cs:56-59 | the count as written: the obsolete query run over the gauge after removal, so it counts at most the series that survived removal |
| RemovalLog.RemovedCount | src/Services/MetricsService.cs:56-59 | the obsolete query counted once, before removal: the number of stored series that encode no update of the snapshot |
| RemovalLog.LoggedCountIsZero | src/Services/MetricsService.cs:56-59 | the logged number of removed series, as written, is 0 on every input |
| RemovalLog.LoggedCountMissesRemoval | src/Services/MetricsService.cs:56-59 | a gauge holding one obsolete series loses it while the count as written says none |
| RemovalLog.RemovedCountIsChurn | src/Services/MetricsService.cs:56-59 | the count taken before removal equals the number of series the pass deletes |
| Scenarios.TargetOfPair | src/Services/MetricsService.cs:61-62 | the target of a two-update snapshot is exactly those two series at value 1 |
| Scenarios.SingleUpdate | src/Services/MetricsService.cs:54-64 | one update on an empty gauge gives the single series name=vim, level=security at 1 |
| Scenarios.UpdateWithdrawn | src/Services/MetricsService.cs:54-64 | when that update is withdrawn the gauge has no series |
| Scenarios.PartialReplacement | src/Services/MetricsService.cs:54-64 | going from {vim, curl} to {curl, openssl} deletes vim, keeps curl at 1 and adds openssl at 1 |
| Scenarios.PopulatedBeforeFirstScrape | src/Services/MetricsService.cs:37-44 | with one known update, the gauge holds its series in every startup state where the server runs |

## Left out

- The scrape server (`MetricServer`, construction and `Start`) serves HTTP. Only the moment it starts is modelled, as the `serverStarted` flag.
- Hosting and configuration are not modelled: the `BackgroundService` lifecycle, the cancellation token, options injection and the port lookup. `ExecuteAsync` is taken to run once, on a state whose server has not been started. Notifications may arrive before it, since the constructor subscribes the handler.
- Event subscription and delivery are left out. Notifications are modelled as sequential calls, one at a time. No lock appears in the service, and concurrent delivery is not modelled.
- The metrics library's internals are abstracted. `GetAllLabelValues`, `WithLabels(...).Remove()` and `WithLabels(...).Set(v)` become a key-set read, a key deletion and a key update.
- Metrics.CreateGauge's process-wide registry is left out. If that registry already held a gauge of the same name, the library would return the existing one. The model starts from an empty gauge.
- Gauge values are doubles in the source. They are modelled as `real`, and only the value 1 is ever written.
- Log output is left out, apart from the removal count discussed under Findings. The pass returns no report of what it did.
- The `Update` class is not part of this model. Its value equality is assumed to cover exactly name and level. Its behaviour on label arrays of the wrong length is not modelled, because the gauge never stores such arrays. So no recovery path for malformed labels is modelled.
- The obsolete series are computed by a deferred query, which is enumerated while the removal loop deletes from the same gauge. The model evaluates that query once, up front. The set of series it deletes is the same either way.
- Updates.FromArray: only defined on two-element sequences, since the gauge holds no others. What it does on other lengths is not modelled.

## Findings

| source | as written | input that shows it | evidently intended | confidence | as-written member | corrected member |
|---|---|---|---|---|---|---|
| src/Services/MetricsService.cs:56-59 | the log line counts the deferred obsolete query after the removal loop has deleted every series it selects, so with a live enumeration it logs 0 | a gauge holding the series vim/security, reconciled against an empty snapshot: one series is deleted and "Removed 0 obsolete gauge values" is logged | count the obsolete series once, before removing them | medium, not executed; depends on the library's label enumeration being live | RemovalLog.LoggedCountIsZero | RemovalLog.RemovedCountIsChurn |
