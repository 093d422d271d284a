/** A concrete reference implementation of the `Sink` interface.

    A sink carries its own accumulated context (the name segments added by
    `WithName` and the key/value pairs added by `WithValues`) and an
    enablement threshold. Emission does not change the sink: what `Info` and
    `Error` produce is appended to an `Output`, the append-only stream of
    records that every handle bound to this sink (or to a sink derived from
    it) writes into. */
module Sinks {
  import opened Wrappers

  /** An alerted value: keys and values of the variadic key/value list are
      passed through untouched, so any small closed set of shapes will do. */
  datatype Value = Str(s: string) | Num(n: int) | Flag(b: bool) | Nil

  /** The content of a non-nil Go `error`; it is only carried, never inspected. */
  datatype ErrVal = ErrVal(text: string)

  /** One emitted alert line, with the sink's context at the moment of emission. */
  datatype Record =
    | InfoRecord(names: seq<string>, context: seq<Value>, level: int, msg: string, kvs: seq<Value>)
    | ErrorRecord(names: seq<string>, context: seq<Value>, err: Option<ErrVal>, msg: string, kvs: seq<Value>)

  type Output = seq<Record>

  /** The reference sink: enabled for every V-level up to `threshold`. */
  datatype Sink = Sink(names: seq<string>, values: seq<Value>, threshold: int)

  /** A sink with no name and no context, as a backend constructor would return. */
  function Root(threshold: int): (s: Sink)
    ensures s.names == [] && s.values == []
    ensures forall level :: Enabled(s, level) <==> level <= threshold
  {
    Sink([], [], threshold)
  }

  /** Pure and side-effect free: a function of the configured threshold only. */
  function Enabled(s: Sink, level: int): (b: bool)
    ensures b <==> level <= s.threshold
  {
    s.threshold - level >= 0
  }

  /** The reference sink's enablement only switches off as the level rises:
      what is enabled at some level is enabled at every lower one. Go's
      interface does not demand this of every sink. */
  lemma EnabledOnlySwitchesOff(s: Sink, lower: int, higher: int)
    requires lower <= higher
    ensures Enabled(s, higher) ==> Enabled(s, lower)
    ensures !Enabled(s, lower) ==> !Enabled(s, higher)
  {
  }

  /** The interface promises that `Info` is only called when `Enabled(level)` holds. */
  function Info(s: Sink, level: int, msg: string, kvs: seq<Value>, out: Output): (out': Output)
    requires Enabled(s, level)
    ensures |out'| == |out| + 1 && out'[..|out|] == out
    ensures out'[|out|].InfoRecord? && out'[|out|].level == level && out'[|out|].msg == msg
    ensures out'[|out|].names == s.names && out'[|out|].context == s.values && out'[|out|].kvs == kvs
  {
    out + [InfoRecord(s.names, s.values, level, msg, kvs)]
  }

  /** `Error` emits regardless of the threshold, and a nil error is still emitted. */
  function Error(s: Sink, err: Option<ErrVal>, msg: string, kvs: seq<Value>, out: Output): (out': Output)
    ensures |out'| == |out| + 1 && out'[..|out|] == out
    ensures out'[|out|].ErrorRecord? && out'[|out|].err == err && out'[|out|].msg == msg
    ensures out'[|out|].names == s.names && out'[|out|].context == s.values && out'[|out|].kvs == kvs
  {
    out + [ErrorRecord(s.names, s.values, err, msg, kvs)]
  }

  /** A new sink whose context is the old one followed by `kvs`: nothing is
      dropped and duplicates are kept. The receiver is a value and stays as it was. */
  function WithValues(s: Sink, kvs: seq<Value>): (r: Sink)
    ensures |r.values| == |s.values| + |kvs|
    ensures r.values[..|s.values|] == s.values && r.values[|s.values|..] == kvs
    ensures r.names == s.names && r.threshold == s.threshold
  {
    s.(values := s.values + kvs)
  }

  /** A new sink whose name has `name` appended as its last segment. */
  function WithName(s: Sink, name: string): (r: Sink)
    ensures |r.names| == |s.names| + 1
    ensures r.names[..|s.names|] == s.names && r.names[|s.names|] == name
    ensures r.values == s.values && r.threshold == s.threshold
  {
    s.(names := s.names + [name])
  }
}
