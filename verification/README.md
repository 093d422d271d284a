# alerter — a verified model of the `Alerter` facade

`alerter` is a backend-agnostic structured-alerting facade for Go. Applications hold
an `Alerter`, a small value made of a possibly nil `Sink` and an accumulated
verbosity `level`. Each operation either forwards to the sink (`Enabled`, `Info`,
`Error`) or returns a modified copy of the handle (`V`, `WithValues`, `WithName`,
`WithSink`).

This project models that facade in Dafny and proves how it gates and keeps its
bookkeeping:

- `wrappers.dfy`: `Option`, which stands for Go's nil sink and nil `error`.
- `sinks.dfy`: a concrete reference implementation of the `Sink` interface. It is
  an immutable value made of name segments, accumulated key/value context and an
  enablement threshold (enabled for every V-level up to the threshold). `Info` and
  `Error` append a record to an `Output` and do not change the sink. The `Output`
  is the append-only stream of records that every handle bound to the sink writes
  into. Each record carries the sink's names and context at the moment of emission.
- `alerting.dfy`: the `Alerter` handle, with one function per Go method.
- `derivations.dfy`: chains of derivation steps (`V`, `WithValues`, `WithName`,
  `WithSink`) applied in call order, with lemmas about what they preserve, and the
  lemmas that gate `Info` and `Error`.

Go methods with side effects (`Info`, `Error`) take the current `Output` and
return the extended one. Handle operations return a new `Alerter`, which matches
Go's value receivers.

## Model

| member | source | states |
|---|---|---|
| Sinks.Info | alerter.go:132-136 | callable only when the sink is enabled at the given level; appends exactly one info record with that level, message, key/values and the sink's current context, leaving earlier output untouched |
| Sinks.Error | alerter.go:138-140 | appends exactly one error record, a nil error included, with no level condition; earlier output untouched |
| Sinks.Enabled | alerter.go:127-130 | the reference sink is enabled exactly for the levels up to its threshold, so it only switches off as the level rises |
| Sinks.EnabledOnlySwitchesOff | alerter.go:127-130 | whatever the reference sink enables at some level it enables at every lower level, and whatever it disables at some level it disables at every higher one |
| Sinks.WithValues | alerter.go:142-144 | the new sink's context is the old context followed by the new pairs, with nothing dropped and duplicates kept; name and threshold unchanged |
| Sinks.WithName | alerter.go:146-148 | the new sink's name is the old name with the segment appended last; context and threshold unchanged |
| Alerting.SetSink | alerter.go:27-32 | only the sink field changes; the level is kept |
| Alerting.New | alerter.go:19-25 | a handle bound to the given sink (possibly nil) at level 0 |
| Alerting.GetSink | alerter.go:34-37 | returns the stored sink: storing the returned sink back into the handle gives the same handle |
| Alerting.WithSink | alerter.go:39-43 | the returned handle's `GetSink` is the new sink and its level is the old level |
| Alerting.Enabled | alerter.go:59-63 | false for a nil sink, which is never consulted; otherwise exactly the sink's verdict at the handle's level |
| Alerting.Info | alerter.go:65-75 | when enabled, appends exactly the record `(names, context, level, msg, kvs)`; when not enabled, the output is unchanged |
| Alerting.Error | alerter.go:77-89 | with a bound sink, appends exactly the record `(names, context, err, msg, kvs)` whatever the level; with a nil sink, output unchanged |
| Alerting.V | alerter.go:91-103 | same sink and a level that never decreases; a nil sink or a non-positive request returns the handle unchanged; on a bound handle a non-negative request adds exactly that much |
| Alerting.WithValues | alerter.go:105-112 | same level; nil sink is a no-op; otherwise the sink's context gains the pairs at its end, with name and threshold kept |
| Alerting.WithName | alerter.go:114-124 | same level; nil sink is a no-op; otherwise the sink's name gains the segment at its end, with context and threshold kept |
| Derivations.LevelNeverDecreases | alerter.go:91-124 | along any chain of `V`, `WithValues`, `WithName` and `WithSink`, the level never drops below the start level |
| Derivations.LevelIsSumOfIncrements | alerter.go:91-103 | on a bound handle never rebound to nil, the final level is the start level plus the sum of the chain's clamped V-levels |
| Derivations.StepContext | alerter.go:105-124 | one derivation step that keeps the sink extends its name and context by exactly that step's contribution |
| Derivations.ContextAccumulatesInOrder | alerter.go:105-124 | along a chain that keeps the sink, all name segments and key/value pairs follow the sink's own, in call order; the threshold is unchanged |
| Derivations.NilHandleInert | alerter.go:95-124 | a nil-sink handle comes out of any chain that binds no sink equal to itself: still nil, same level |
| Derivations.DerivationNeverEnables | alerter.go:91-103 | for a sink whose enablement only switches off as the level rises (the threshold reference sink), a handle derived without rebinding is enabled only if its parent is |
| Derivations.StagedDerivation | alerter.go:105-124 | deriving in two stages equals deriving along the joined chain; the level never drops, and the first stage's names and values come before the second's, after the root sink's own |
| Derivations.VAdditive | alerter.go:91-103 | `V(V(h, a), b)` has level `h.level + a + b` and equals `V(h, a + b)` for non-negative `a`, `b` on a bound handle |
| Derivations.InfoIffEnabled | alerter.go:71-75 | `Info` changes the output if and only if the handle is enabled, and then by exactly one record |
| Derivations.ErrorIgnoresLevel | alerter.go:85-89 | `Error` changes the output if and only if a sink is bound, and raising the verbosity leaves its emission unchanged |
| Derivations.DerivedValuesStayLocal | alerter.go:105-112 | after deriving a child with more values, the parent's info records still carry only the parent's context, while the child's carry both |
| Derivations.ChainedNames | alerter.go:114-124 | `WithName("a")` then `WithName("b")` on a fresh sink gives the name sequence `["a", "b"]` |
| Derivations.ThresholdScenario | alerter.go:59-89 | with a sink enabled up to level 1: `V(1).Info` emits, `V(2).Info` does not, and `V(2).Error` with a nil error still emits |
| Derivations.SinkAccessorsRoundTrip | alerter.go:34-43 | `GetSink(WithSink(h, s)) == s` at the same level, `WithSink(h, GetSink(h)) == h`, and `GetSink(New(s)) == s` |

## Left out

- The `Marshaler` interface (alerter.go:151-167): it declares one method and has no behaviour in this repository. Substitution happens inside concrete sinks, which are not part of this model.
- Concrete sink implementations, output formatting and I/O: the reference sink in `sinks.dfy` stands in for all of them. Its enablement is a threshold on the V-level, one instance of the interface's `Enabled(level)`.
- Concurrency, and the caveat that `setSink` mutates through a pointer receiver: `SetSink` is a pure field update on a copied value, which is how `New`, `WithSink`, `WithValues` and `WithName` use it.
- Derivations.DerivationNeverEnables: holds only for sinks whose enablement switches off as the level rises, as the threshold reference sink's does (`Sinks.EnabledOnlySwitchesOff`). The Go `Sink.Enabled(level)` may be any predicate, and for a sink enabled only at level 1, `New(s)` is disabled while `New(s).V(1)` is enabled.
- Alerting.V: does not model Go's bounded `int` overflow on `a.level += level`; levels are unbounded naturals.
- Validation of key/value parity and key types: the facade does none, so key/value lists are opaque sequences of `Value` passed through untouched.
- The content of Go `error` values: an error is an `Option<ErrVal>` that is only carried into the error record.
- A panic raised inside a sink: the reference sink never fails, so there is nothing to propagate.
