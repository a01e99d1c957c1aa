# EventCollector: event filter and retention buffer

This project models the core of `EventCollector` from the `egui_tracing` crate
(`src/tracing/collector.rs`). An `EventCollector` is a tracing layer. It keeps
a policy with two parts: a severity threshold `level` and a target scope
`AllowedTargets`, which is `All` or `Selected(set of target names)`. It also
keeps an ordered buffer of collected events that only grows until it is
cleared.

- `collect` keeps an event when the event's level is at least as severe as the
  threshold and the scope allows the event's target. Both gates must pass. A
  kept event goes at the end of the buffer.
- `clear` empties the buffer.
- `events` returns a copy of the buffer.
- `with_level` and `allowed_targets` are builders. Each replaces one policy
  field.
- `new` / `default` give the policy `All` / `TRACE` with an empty buffer.

Files:

- `level.dfy`, module `TracingLevel`: the five `tracing::Level` values and their
  ordering, ERROR < WARN < INFO < DEBUG < TRACE. The source's test
  `event.level <= self.level` is `Le(e.level, level)`.
- `collector.dfy`, module `Collector`: the `AllowedTargets`, `CollectedEvent`
  and `Policy` values, and the class `EventCollector`. The class has three
  fields: `level`, `allowedTargets` and `events: seq<CollectedEvent>`.
  `Collect` and `Clear` reassign the `events` field in place, as the source
  pushes onto and clears its `Vec`. The builders take `self` by value and
  return it with one field replaced. Because `self` is moved, this is modelled
  as an in-place update of that one field.

There are three specification layers:

- `Policy.Admits` is the filter decision.
- `Filter(p, es)` is the reference definition: the admitted events in their
  original order.
- `AfterCollect(p, buf, e)` is one `collect` step. `CollectMany` is a series of
  such steps under a fixed policy.

`Collect` is proved equal to `AfterCollect`. A series of steps is proved equal
to appending `Filter`.

## Model

| member | source | states |
|---|---|---|
| `Collector.DefaultPolicy` | src/tracing/collector.rs:72-79 | the default policy (`All`, `TRACE`) admits every event of every level and target |
| `Collector.AdmitsIff` | src/tracing/collector.rs:59-63 | an event is admitted iff its level is at least as severe as the threshold AND (the scope is `All` or its target is in the selection) |
| `Collector.Filter` | src/tracing/collector.rs:58-69 | the reference filter keeps no more events than it is given, and every event it keeps passes the policy |
| `Collector.FilterMembers` | src/tracing/collector.rs:59-67 | an event is in the filtered sequence iff it is in the input and the policy admits it |
| `Collector.AfterCollect` | src/tracing/collector.rs:58-69 | one collect grows the buffer by one exactly when the policy admits the event, otherwise not at all; earlier elements are untouched and the new last element is the event |
| `Collector.AfterCollectIsFilter` | src/tracing/collector.rs:65-67 | one collect appends what the reference filter keeps of the single event |
| `Collector.TooVerboseIsDropped` | src/tracing/collector.rs:59 | an event more verbose than the threshold leaves the buffer unchanged |
| `Collector.SelectedKeepsIffMember` | src/tracing/collector.rs:60-66 | under `Selected(s)`, an event that passes the level gate is appended iff its target is in `s`, and otherwise the buffer is unchanged |
| `Collector.FilterAppend` | src/tracing/collector.rs:66 | filtering two sequences of calls one after the other filters each in turn, so accepted events keep call order |
| `Collector.DefaultKeepsEverything` | src/tracing/collector.rs:72-79 | under the default policy the filter keeps every event, in order |
| `Collector.EmptySelectionKeepsNothing` | src/tracing/collector.rs:62 | `Selected({})` keeps nothing, whatever the threshold |
| `Collector.SelectedFilterMembers` | src/tracing/collector.rs:59-66 | under `Selected(s)` and threshold `l`, the kept events are exactly the input events at least as severe as `l` whose target is in `s` |
| `Collector.CollectManyIsFilter` | src/tracing/collector.rs:58-69 | a series of collect calls under a fixed policy leaves the old buffer followed by exactly the admitted events, in call order |
| `Collector.CollectManyKeepsPrefix` | src/tracing/collector.rs:66 | a series of collects never disturbs the events already buffered and adds at most one event per call |
| `Collector.CollectManyConforms` | src/tracing/collector.rs:58-69 | under a fixed policy, a buffer whose every element passes the filter still has that property after any series of collects |
| `Collector.DefaultCollectsEverything` | src/tracing/collector.rs:72-79 | a default collector fed any series of events retains exactly that series |
| `Collector.BuildersAreIndependent` | src/tracing/collector.rs:32-41 | each builder replaces only its own field, the two builders commute, and a repeated builder call keeps only the last value |
| `Collector.EventCollector.constructor` | src/tracing/collector.rs:72-79 | a new collector has the default policy and an empty buffer, and the buffer conforms to the policy |
| `Collector.EventCollector.WithLevel` | src/tracing/collector.rs:32-34 | `with_level` replaces the threshold only; the scope and the buffer are as before |
| `Collector.EventCollector.WithAllowedTargets` | src/tracing/collector.rs:36-41 | `allowed_targets` replaces the scope only; the threshold and the buffer are as before |
| `Collector.EventCollector.Events` | src/tracing/collector.rs:43-45 | `events` returns a value equal to the buffer and, being a function, changes no state |
| `Collector.EventCollector.Clear` | src/tracing/collector.rs:54-56 | `clear` leaves the buffer empty (so clearing an empty buffer changes nothing) and the policy untouched, and the buffer then conforms |
| `Collector.EventCollector.Collect` | src/tracing/collector.rs:58-69 | `collect` performs exactly the step `AfterCollect` under the policy in force, leaves the policy unchanged, and preserves conformance of the buffer |
| `Collector.DefaultCollectorKeepsAnyEvent` | src/tracing/collector.rs:72-79 | a fresh default collector keeps one event of any level, target and message |
| `Collector.SnapshotIsolation` | src/tracing/collector.rs:43-45 | a snapshot taken before a collect still reads empty afterwards, and a later snapshot holds the event |
| `Collector.ClearThenCollect` | src/tracing/collector.rs:54-56 | after one collect and two clears, a collector behaves like a fresh one with the same policy |
| `Collector.FilteringExamples` | src/tracing/collector.rs:59-66 | threshold WARN drops an INFO event; scope `{"a"}` keeps target `"a"` and drops target `"b"` |
| `TracingLevel.LeIsTotalOrder` | src/tracing/collector.rs:59 | the level comparison used by the filter is reflexive, antisymmetric, transitive and total |
| `TracingLevel.ErrorLeastTraceGreatest` | src/tracing/collector.rs:77 | TRACE is the most verbose level, so a TRACE threshold lets every level through; ERROR is the least verbose |

## Left out

- `Layer::on_event` and the `log`-feature metadata normalisation (src/tracing/collector.rs:82-96): these are glue to the external `tracing` and `tracing_log` frameworks. The model starts at the event handed to `collect`.
- `CollectedEvent::new`: `src/tracing/event.rs` is not part of this model. An event is the value `(level, target, message)`, with `message` standing for its rendered fields.
- `Arc<RwLock<...>>` sharing and locking: each operation is one atomic step on the `events` sequence. Concurrent interleavings are not modelled.
- The derived `Clone`: a clone shares the same buffer between collectors that may have different policies. That aliasing is not modelled, so neither is the way it can break conformance.
- `get_events` (src/tracing/collector.rs:47-52): it returns a read guard into the live buffer. This is a borrow and lock-lifetime device with no content beyond `events`.
- `HashSet` hashing: the selection is a mathematical `set<string>`.
- The ordering of `tracing::Level` comes from the external `tracing` crate. It is restated, not derived from that crate's source.
- Conformance is an invariant only under a fixed policy. `WithLevel` and `WithAllowedTargets` do not filter events already stored, as in the source, so the class does not keep it as a class invariant.
