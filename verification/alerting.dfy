/** The `Alerter` handle: a value holding a possibly nil sink and an
    accumulated verbosity level. Every operation either forwards to the sink
    or returns a modified copy; no handle is ever changed in place. */
module Alerting {
  import opened Wrappers
  import Sinks

  /** `level` only ever grows by clamped (non-negative) increments from 0,
      so it is a natural number. */
  datatype Alerter = Alerter(sink: Option<Sinks.Sink>, level: nat)

  /** The zero value of the Go struct: nil sink, level 0. */
  const Zero: Alerter := Alerter(None, 0)

  /** The increment a V-level request contributes: a request below zero contributes nothing. */
  function Clamp(n: int): nat
  {
    if n < 0 then 0 else n
  }

  /** Stores the sink in a copy; the level is left alone. */
  function SetSink(a: Alerter, s: Option<Sinks.Sink>): (r: Alerter)
    ensures r.sink == s && r.level == a.level
  {
    a.(sink := s)
  }

  /** A handle bound to `s` at level 0. */
  function New(s: Option<Sinks.Sink>): (r: Alerter)
    ensures r.sink == s && r.level == 0
  {
    SetSink(Zero, s)
  }

  /** The stored sink; storing it back changes nothing. */
  function GetSink(a: Alerter): (s: Option<Sinks.Sink>)
    ensures SetSink(a, s) == a
  {
    a.sink
  }

  /** A copy of `a` bound to `s`, at the same level. */
  function WithSink(a: Alerter, s: Option<Sinks.Sink>): (r: Alerter)
    ensures GetSink(r) == s && r.level == a.level
  {
    SetSink(a, s)
  }

  /** A nil sink is never consulted; otherwise the sink alone decides. */
  function Enabled(a: Alerter): (b: bool)
    ensures a.sink.None? ==> !b
    ensures a.sink.Some? ==> (b <==> Sinks.Enabled(a.sink.value, a.level))
  {
    a.sink != None && Sinks.Enabled(a.sink.value, a.level)
  }

  /** Forwards `(level, msg, kvs)` to the sink exactly when the gate passes. */
  function Info(a: Alerter, msg: string, kvs: seq<Sinks.Value>, out: Sinks.Output): (out': Sinks.Output)
    ensures Enabled(a) ==> out' == out + [Sinks.InfoRecord(a.sink.value.names, a.sink.value.values, a.level, msg, kvs)]
    ensures !Enabled(a) ==> out' == out
  {
    if a.sink != None && Enabled(a) then Sinks.Info(a.sink.value, a.level, msg, kvs, out) else out
  }

  /** Forwards `(err, msg, kvs)` whenever a sink is bound, whatever the level. */
  function Error(a: Alerter, err: Option<Sinks.ErrVal>, msg: string, kvs: seq<Sinks.Value>, out: Sinks.Output): (out': Sinks.Output)
    ensures a.sink.Some? ==> out' == out + [Sinks.ErrorRecord(a.sink.value.names, a.sink.value.values, err, msg, kvs)]
    ensures a.sink.None? ==> out' == out
  {
    if a.sink != None then Sinks.Error(a.sink.value, err, msg, kvs, out) else out
  }

  /** A handle `n` V-levels less important than `a`; V-levels add up and a
      negative request changes nothing. A nil-sink handle is returned as is. */
  function V(a: Alerter, n: int): (r: Alerter)
    ensures r.sink == a.sink && r.level >= a.level
    ensures a.sink.None? || n <= 0 ==> r == a
    ensures a.sink.Some? && n >= 0 ==> r.level == a.level + n
  {
    if a.sink != None then a.(level := a.level + Clamp(n)) else a
  }

  /** The same level, and a sink whose context is extended by `kvs`. */
  function WithValues(a: Alerter, kvs: seq<Sinks.Value>): (r: Alerter)
    ensures r.level == a.level
    ensures a.sink.None? ==> r == a
    ensures a.sink.Some? ==> r.sink.Some? && r.sink.value.values == a.sink.value.values + kvs
    ensures a.sink.Some? ==> r.sink.value.names == a.sink.value.names && r.sink.value.threshold == a.sink.value.threshold
  {
    if a.sink != None then SetSink(a, Some(Sinks.WithValues(a.sink.value, kvs))) else a
  }

  /** The same level, and a sink whose name gains `name` as its last segment. */
  function WithName(a: Alerter, name: string): (r: Alerter)
    ensures r.level == a.level
    ensures a.sink.None? ==> r == a
    ensures a.sink.Some? ==> r.sink.Some? && r.sink.value.names == a.sink.value.names + [name]
    ensures a.sink.Some? ==> r.sink.value.values == a.sink.value.values && r.sink.value.threshold == a.sink.value.threshold
  {
    if a.sink != None then SetSink(a, Some(Sinks.WithName(a.sink.value, name))) else a
  }
}
