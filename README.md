# Kafka Connect exporter: the scrape cycle

A Prometheus exporter for Kafka Connect handles each scrape in `Collect`. `Collect` asks the Kafka Connect REST API for the list of connectors, then asks for each connector's status. For every connector it pushes one `kafka_connect_connector_state` sample onto the metric channel, followed by one `kafka_connect_connector_task_state` sample per task. It also sends the `kafka_connect_up` gauge.

The repository holds two variants of `Collect`:

- **strict** (`main.go`, module `StrictCollector`). The first status request that fails sends `up = 0` and ends the cycle. Samples already sent for earlier connectors stay sent. When nothing fails, `up = 1` is sent last.
- **tolerant** (`kafka_connect_exporter.go`, module `TolerantExporter`). `up = 1` is sent as soon as the connector list decodes, before any connector sample. A connector whose status GET, body read or JSON decode fails is skipped with `continue`.

How the model is set up:

- **Backend.** The REST backend is replaced by two inputs:
  - `list`, a `Result<seq<string>>` standing for the connector-list request;
  - `fetch`, of type `string -> Result<Status>`, standing for the status request of each name.

  A `FetchError` says which step failed: the GET, reading the body, or decoding it.
- **Channel.** The channel is the sequence of samples `Collect` returns, built by appending in the order the Go code sends.
- **Gauge.** The gauge is an `int` field of the `Collector` / `Exporter` class.
- **Ghost state.**
  - The names whose status was requested are a ghost out-parameter.
  - The tolerant exporter carries ghost counters of response bodies obtained and closed.
- **Shared material.** Module `Metrics` holds the status documents, the samples, ASCII lower-casing (`strings.ToLower`) and decimal rendering (`fmt.Sprintf("%d", …)`). It also holds the block of samples one decoded status gives rise to. `SendStatus` is the nested loop over the tasks.
- **Reference functions.** Each `Collect` method is proved equal to a function of its inputs: `StrictCycle` and `TolerantCycle`. The lemmas state what those functions mean. Module `Variants` compares the two policies.

Three behaviours of the code that are easy to miss:

- The tolerant exporter sends `up` first, not last. It reports `up = 1` whenever the list decodes, even if every status request fails (`TolerantAllFail`).
- The tolerant exporter does not release a status response body whose read or decode failed (`BodiesLeakOnlyOnStatusReadOrDecodeFailure`).
- The strict collector publishes the samples of connectors before a failure, then `up = 0` (`StrictFailsAt`).

## Model

| member | source | states |
|---|---|---|
| Metrics.LowerSpec | main.go:76 | ASCII lower-casing keeps the length, leaves no capital, maps each capital to its lower-case letter (code + 32) and leaves every other character unchanged |
| Metrics.LowerKeepsLowerCase | kafka_connect_exporter.go:133 | a state that is already lower-case is emitted unchanged |
| Metrics.LowerIdempotent | kafka_connect_exporter.go:143 | lower-casing twice gives the same label as lower-casing once |
| Metrics.NatDigitsSpec | main.go:88 | the digits of a natural number form a non-empty digit string with no leading zero except for 0 itself |
| Metrics.DecimalSpec | main.go:88 | the task id label starts with '-' exactly when the id is negative; every other character is a digit |
| Metrics.NatDigitsRoundTrip | main.go:88 | reading the digit string back gives the number |
| Metrics.DecimalRoundTrip | kafka_connect_exporter.go:145 | reading the task id label back as a signed decimal gives the task id |
| Metrics.DecimalInjective | main.go:88 | different task ids give different task id labels |
| Metrics.TaskSamplesAt | main.go:80-90 | one task sample per task, and the j-th sample is built from the j-th task |
| Metrics.TaskSamplesSnoc | kafka_connect_exporter.go:137-147 | one more task appends exactly its own task sample |
| Metrics.BlockLabels | main.go:71-90 | a decoded status gives 1 + (number of tasks) samples and no up sample. The first is the connector sample: the document's own name, the lower-cased connector state, the worker id as given. The (1+j)-th is task j's sample: same name, lower-cased state, its worker id, its id in decimal. Every sample has the document's name as connector label and a lower-case state |
| Metrics.BlocksAppend | main.go:62-91 | the samples of a concatenation of connectors are the concatenation of their samples (list order is kept) |
| Metrics.BlocksShape | kafka_connect_exporter.go:108-153 | the connector samples number Σ(1 + tasks) and contain no up sample |
| Metrics.DecodedAppend | kafka_connect_exporter.go:108-126 | the decoded statuses of a concatenation of names are the concatenation of the decoded statuses |
| Metrics.DecodedAllOk | main.go:62-69 | when every status request succeeds, the decoded statuses are the answers, one per name, in order |
| Metrics.NothingDecoded | kafka_connect_exporter.go:110-126 | when every status request fails, nothing is decoded |
| Metrics.SendStatus | main.go:71-90 | pushing one decoded status appends exactly its block (connector sample, then task samples in task order) to the channel |
| StrictCollector.SupportedScheme | main.go:113-116 | the scheme table accepts a scrape URI scheme exactly when it is "http" or "https"; a missing key reads as false |
| StrictCollector.FirstFailure | main.go:62-69 | the position where the strict loop stops: every earlier status request succeeded, and the one at that position failed unless it is the end of the list |
| StrictCollector.FirstFailureAt | main.go:63-69 | the stopping position is the unique one with that property |
| StrictCollector.BlocksDecodedCons | main.go:62-90 | a decoded connector in front of a list puts its block in front of the list's samples |
| StrictCollector.StrictRunShape | main.go:62-94 | over a decoded list the strict cycle sends the blocks of the connectors before the first failure, in order, then one up sample that is 1 exactly when no request failed |
| StrictCollector.StrictCycleEndsWithUp | main.go:54-94 | on every path exactly one up sample is sent, and it is the last sample |
| StrictCollector.StrictUpValue | main.go:56-57 | the up sample is 1 exactly when the list and every status request succeeded, else 0 |
| StrictCollector.StrictAllSucceed | main.go:62-94 | when every status request succeeds, the output is the blocks of all connectors in list order, then Up(1). Its length is 1 + Σ(1 + tasks), and the status of every listed name is requested. An empty list gives just [Up(1)] |
| StrictCollector.StrictFailsAt | main.go:63-69 | when the k-th request is the first to fail, the output is the blocks of connectors 0..k-1, then Up(0), and no status after the k-th is requested |
| StrictCollector.StrictListFails | main.go:54-60 | a failed connector-list request gives exactly [Up(0)], and no status is requested |
| StrictCollector.StrictStep | main.go:71-90 | a successful iteration appends that connector's block to what was sent so far |
| StrictCollector.StrictStop | main.go:64-68 | at the first failing request, the samples sent so far plus Up(0) are the whole cycle, and the requests made are the names up to and including that one |
| StrictCollector.StrictFinish | main.go:93-94 | after the last connector, the samples sent so far plus Up(1) are the whole cycle, and every name was requested |
| StrictCollector.Collector.constructor | main.go:99-111 | a new collector keeps its URI and its gauge reads 0 |
| StrictCollector.Collector.Collect | main.go:49-97 | one strict cycle sends exactly StrictCycle(list, fetch) and leaves the gauge at the value of the up sample it sent last. It requests the statuses of the names up to and including the first failure |
| TolerantExporter.TolerantRunIsBlocks | kafka_connect_exporter.go:108-153 | the loop sends exactly the blocks of the connectors whose status decoded, in list order |
| TolerantExporter.TolerantCycleStartsWithUp | kafka_connect_exporter.go:75-106 | every tolerant cycle sends exactly one up sample, first. It reads 1 exactly when the connector list was fetched, read and decoded; otherwise the output is exactly [Up(0)] |
| TolerantExporter.TolerantListFails | kafka_connect_exporter.go:77-103 | a connector list whose GET, read or decode fails gives exactly [Up(0)] |
| TolerantExporter.TolerantLength | kafka_connect_exporter.go:105-147 | once the list decodes, Up(1) comes first and the output has 1 + Σ over decoded connectors of (1 + tasks) samples |
| TolerantExporter.TolerantRunAppend | kafka_connect_exporter.go:108-153 | connectors are processed independently and in list order (the output for a + b is the output for a then for b) |
| TolerantExporter.TolerantSkip | kafka_connect_exporter.go:110-126 | a connector whose status request fails contributes no sample, and every later connector is still processed |
| TolerantExporter.TolerantAllFail | kafka_connect_exporter.go:105-126 | when every status request fails, a decoded list still gives exactly [Up(1)] |
| TolerantExporter.StatusBodiesBalance | kafka_connect_exporter.go:116-149 | status bodies obtained = bodies closed + bodies left open by a failed read or decode |
| TolerantExporter.BodiesLeakOnlyOnStatusReadOrDecodeFailure | kafka_connect_exporter.go:83-149 | over a cycle every body is closed except the status bodies whose read or decode failed; the list body is closed by the deferred call on every path that obtained it |
| TolerantExporter.NoLeakWithoutReadOrDecodeFailure | kafka_connect_exporter.go:116-126 | with no read or decode failure, no status body stays open |
| TolerantExporter.ClosedBodiesAreDecoded | kafka_connect_exporter.go:122-149 | a status body is closed exactly once for each connector whose status decoded and whose samples were sent |
| TolerantExporter.TolerantStep | kafka_connect_exporter.go:110-147 | one iteration appends the connector's block when its status decoded and nothing otherwise |
| TolerantExporter.BodiesStep | kafka_connect_exporter.go:110-149 | one iteration obtains a body unless the GET failed, and closes it only when the status decoded |
| TolerantExporter.Exporter.constructor | kafka_connect_exporter.go:158-170 | a new exporter keeps its URI, its gauge reads 0, and no body has been obtained |
| TolerantExporter.Exporter.Collect | kafka_connect_exporter.go:71-156 | one tolerant cycle sends exactly TolerantCycle(list, fetch), leaves the gauge at the value of the up sample it sent first, and requests the status of every listed name. It adds to the body counters exactly the bodies obtained and closed in that cycle |
| Variants.AgreeWhenAllSucceed | main.go:62-94 | when every status request succeeds, both variants send the same connector samples and up = 1, the strict one last and the tolerant one first |
| Variants.StrictSamplesOk | main.go:62-90 | over a decoded list, the strict connector samples are the blocks of the connectors before the first failing request |
| Variants.TolerantRunSplit | kafka_connect_exporter.go:108-153 | the tolerant loop's output starts with the blocks of the decoded connectors among the first k names, followed by the output for the rest |
| Variants.StrictIsPrefixOfTolerant | kafka_connect_exporter.go:108-153 | for any inputs the strict connector samples are a prefix of the tolerant ones: both walk the list in order, and only the strict one stops at a failure |
| Variants.StrictUpImpliesTolerantUp | main.go:93-94 | a strict up = 1 implies a tolerant up = 1 |
| Variants.UpDisagreesOnFailedFetch | main.go:64-66 | a decoded list with a failing status request gives strict up = 0 and tolerant up = 1 |

## Left out

- `connect_client.go` is not modelled as code. Its HTTP requests, 3-second timeout, body reads and JSON decoding are the `list` and `fetch` inputs. The URL is built by string concatenation. The errors it wraps become a `FetchError`.
- JSON decoding in both variants. Decoded `Status` values are taken as given.
- The `float64` to `int` conversion of task ids. `Task.id` is already an integer, so the non-integral ids that conversion truncates are outside the model.
- `strings.ToLower` is modelled on ASCII only. Unicode case mapping is not modelled.
- Prometheus plumbing:
  - metric descriptors and `MustNewConstMetric`;
  - registration;
  - HTTP exposition.

  A sample records the labels and, for `up`, the gauge value at the time it is sent.
- The channel itself and any concurrency around it. The channel is the returned sequence.
- The gauge is a shared object sent by reference. Only its value when sent is modelled.
- `main` / `main()` startup: flags, `-version`, `url.Parse`, registration and the HTTP listener. Only the scheme lookup `supportedSchema` is kept. It is the same table in both files. `SupportedScheme` takes the scheme as `url.Parse` leaves it, already lower-cased, so `HTTPS://host` is accepted by the program although `SupportedScheme("HTTPS")` is false.
- Logging. It has no effect on what is sent.
- `fetch` is a function of the name. Two requests for the same name within one cycle are taken to get the same answer.
- The strict variant's resource handling inside `connect_client.go` is left out, since that file is not part of this model. Only the tolerant exporter's bodies are counted.
- Which status requests a cycle makes is recorded in a ghost out-parameter of `Collect`, not in a field. Nothing in the source stores it.
