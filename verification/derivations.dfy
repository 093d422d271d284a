/** Chains of derivations applied to a handle, and what they preserve:
    the level never decreases, names and values accumulate in call order,
    a nil-sink handle stays inert, and no derivation re-enables a handle
    its parent filtered out. Also the gating of `Info` and `Error`. */
module Derivations {
  import opened Wrappers
  import Sinks
  import opened Alerting

  /** One handle-to-handle operation of the facade. */
  datatype Step =
    | Verbosity(n: int)
    | AddValues(kvs: seq<Sinks.Value>)
    | AddName(name: string)
    | Rebind(sink: Option<Sinks.Sink>)

  function Apply(a: Alerter, st: Step): (r: Alerter)
  {
    match st
    case Verbosity(n) => V(a, n)
    case AddValues(kvs) => WithValues(a, kvs)
    case AddName(name) => WithName(a, name)
    case Rebind(s) => WithSink(a, s)
  }

  /** The steps applied left to right, in call order. */
  function ApplyAll(a: Alerter, steps: seq<Step>): (r: Alerter)
    decreases |steps|
  {
    if |steps| == 0 then a else ApplyAll(Apply(a, steps[0]), steps[1..])
  }

  /** No step replaces the sink. */
  predicate KeepsSink(steps: seq<Step>)
  {
    forall i :: 0 <= i < |steps| ==> !steps[i].Rebind?
  }

  /** No step binds a sink: a rebinding, if any, is to nil. */
  predicate NeverBinds(steps: seq<Step>)
  {
    forall i :: 0 <= i < |steps| ==> steps[i].Rebind? ==> steps[i].sink.None?
  }

  /** No step rebinds to a nil sink. */
  predicate NeverUnbinds(steps: seq<Step>)
  {
    forall i :: 0 <= i < |steps| ==> steps[i].Rebind? ==> steps[i].sink.Some?
  }

  /** Reference definition of the level a chain adds: its clamped V-levels summed. */
  function AddedLevel(steps: seq<Step>): (n: nat)
  {
    if |steps| == 0 then 0
    else (if steps[0].Verbosity? then Clamp(steps[0].n) else 0) + AddedLevel(steps[1..])
  }

  /** The name segments of a chain, in call order. */
  function AddedNames(steps: seq<Step>): (names: seq<string>)
  {
    if |steps| == 0 then []
    else (if steps[0].AddName? then [steps[0].name] else []) + AddedNames(steps[1..])
  }

  /** The key/value pairs of a chain, in call order. */
  function AddedValues(steps: seq<Step>): (kvs: seq<Sinks.Value>)
  {
    if |steps| == 0 then []
    else (if steps[0].AddValues? then steps[0].kvs else []) + AddedValues(steps[1..])
  }

  /** Derivation chains compose: running two chains one after the other is
      running their concatenation. */
  lemma {:induction false} ApplyAllAppend(a: Alerter, s1: seq<Step>, s2: seq<Step>)
    ensures ApplyAll(a, s1 + s2) == ApplyAll(ApplyAll(a, s1), s2)
    decreases |s1|
  {
    if |s1| > 0 {
      assert (s1 + s2)[1..] == s1[1..] + s2;
      ApplyAllAppend(Apply(a, s1[0]), s1[1..], s2);
    } else {
      assert s1 + s2 == s2;
    }
  }

  /** The level never decreases along any chain, rebinding included. */
  lemma {:induction false} LevelNeverDecreases(a: Alerter, steps: seq<Step>)
    ensures ApplyAll(a, steps).level >= a.level
    decreases |steps|
  {
    if |steps| > 0 {
      LevelNeverDecreases(Apply(a, steps[0]), steps[1..]);
    }
  }

  /** On a bound handle that is never rebound to nil, the level a chain
      reaches is the start level plus every clamped V-level of the chain. */
  lemma {:induction false} LevelIsSumOfIncrements(a: Alerter, steps: seq<Step>)
    requires a.sink.Some? && NeverUnbinds(steps)
    ensures ApplyAll(a, steps).sink.Some?
    ensures ApplyAll(a, steps).level == a.level + AddedLevel(steps)
    decreases |steps|
  {
    if |steps| > 0 {
      assert NeverUnbinds(steps[1..]) by {
        forall i | 0 <= i < |steps[1..]| ensures steps[1..][i].Rebind? ==> steps[1..][i].sink.Some? {
          assert steps[1..][i] == steps[i + 1];
        }
      }
      LevelIsSumOfIncrements(Apply(a, steps[0]), steps[1..]);
    }
  }

  /** One step that keeps the sink extends its name and context by that
      step's own contribution. */
  lemma StepContext(a: Alerter, st: Step)
    requires a.sink.Some? && !st.Rebind?
    ensures Apply(a, st).sink.Some?
    ensures Apply(a, st).sink.value.names == a.sink.value.names + AddedNames([st])
    ensures Apply(a, st).sink.value.values == a.sink.value.values + AddedValues([st])
    ensures Apply(a, st).sink.value.threshold == a.sink.value.threshold
  {
  }

  /** Dropping the first step of a chain that keeps the sink leaves one that keeps it. */
  lemma KeepsSinkTail(steps: seq<Step>)
    requires |steps| > 0 && KeepsSink(steps)
    ensures !steps[0].Rebind? && KeepsSink(steps[1..])
  {
  }

  /** On a bound handle, names and values added along a chain that keeps the
      sink end up after the sink's own, in call order; the threshold is untouched. */
  lemma {:induction false} ContextAccumulatesInOrder(a: Alerter, steps: seq<Step>)
    requires a.sink.Some? && KeepsSink(steps)
    ensures ApplyAll(a, steps).sink.Some?
    ensures ApplyAll(a, steps).sink.value.names == a.sink.value.names + AddedNames(steps)
    ensures ApplyAll(a, steps).sink.value.values == a.sink.value.values + AddedValues(steps)
    ensures ApplyAll(a, steps).sink.value.threshold == a.sink.value.threshold
    decreases |steps|
  {
    if |steps| > 0 {
      KeepsSinkTail(steps);
      var b := Apply(a, steps[0]);
      StepContext(a, steps[0]);
      ContextAccumulatesInOrder(b, steps[1..]);
      var n0, v0 := AddedNames([steps[0]]), AddedValues([steps[0]]);
      assert AddedNames(steps) == n0 + AddedNames(steps[1..]);
      assert AddedValues(steps) == v0 + AddedValues(steps[1..]);
      assert a.sink.value.names + n0 + AddedNames(steps[1..]) == a.sink.value.names + (n0 + AddedNames(steps[1..]));
      assert a.sink.value.values + v0 + AddedValues(steps[1..]) == a.sink.value.values + (v0 + AddedValues(steps[1..]));
    }
  }

  /** A nil-sink handle is inert: a chain that binds no sink returns it unchanged. */
  lemma {:induction false} NilHandleInert(a: Alerter, steps: seq<Step>)
    requires a.sink.None? && NeverBinds(steps)
    ensures ApplyAll(a, steps) == a
    decreases |steps|
  {
    if |steps| > 0 {
      assert NeverBinds(steps[1..]) by {
        forall i | 0 <= i < |steps[1..]| ensures steps[1..][i].Rebind? ==> steps[1..][i].sink.None? {
          assert steps[1..][i] == steps[i + 1];
        }
      }
      NilHandleInert(Apply(a, steps[0]), steps[1..]);
    }
  }

  /** For a sink whose enablement only switches off as the level rises (the
      threshold reference sink), a handle derived without rebinding is never
      more eager to emit than its parent. */
  lemma DerivationNeverEnables(a: Alerter, steps: seq<Step>)
    requires KeepsSink(steps)
    ensures Enabled(ApplyAll(a, steps)) ==> Enabled(a)
  {
    if a.sink.None? {
      assert NeverBinds(steps);
      NilHandleInert(a, steps);
    } else {
      ContextAccumulatesInOrder(a, steps);
      LevelNeverDecreases(a, steps);
      var b := ApplyAll(a, steps);
      Sinks.EnabledOnlySwitchesOff(a.sink.value, a.level, b.level);
    }
  }

  /** Deriving in two stages is the same as deriving along the joined chain:
      the level never drops, and the names and values of the first stage come
      before those of the second, all after the root sink's own. */
  lemma StagedDerivation(a: Alerter, s1: seq<Step>, s2: seq<Step>)
    requires a.sink.Some? && KeepsSink(s1) && KeepsSink(s2)
    ensures ApplyAll(ApplyAll(a, s1), s2) == ApplyAll(a, s1 + s2)
    ensures ApplyAll(a, s1 + s2).level >= ApplyAll(a, s1).level >= a.level
    ensures ApplyAll(a, s1 + s2).sink.Some?
    ensures ApplyAll(a, s1 + s2).sink.value.names == a.sink.value.names + AddedNames(s1) + AddedNames(s2)
    ensures ApplyAll(a, s1 + s2).sink.value.values == a.sink.value.values + AddedValues(s1) + AddedValues(s2)
  {
    ApplyAllAppend(a, s1, s2);
    var b := ApplyAll(a, s1);
    ContextAccumulatesInOrder(a, s1);
    ContextAccumulatesInOrder(b, s2);
    LevelNeverDecreases(a, s1);
    LevelNeverDecreases(b, s2);
  }

  /** V-levels are additive for non-negative arguments. */
  lemma VAdditive(a: Alerter, x: int, y: int)
    requires a.sink.Some? && x >= 0 && y >= 0
    ensures V(V(a, x), y).level == a.level + x + y
    ensures V(V(a, x), y) == V(a, x + y)
  {
  }

  /** `Info` emits one record if and only if the handle is enabled. */
  lemma InfoIffEnabled(a: Alerter, msg: string, kvs: seq<Sinks.Value>, out: Sinks.Output)
    ensures Info(a, msg, kvs, out) != out <==> Enabled(a)
    ensures |Info(a, msg, kvs, out)| == |out| + (if Enabled(a) then 1 else 0)
  {
  }

  /** `Error` emits if and only if a sink is bound, and the level plays no part:
      raising the verbosity changes nothing about what `Error` emits. */
  lemma ErrorIgnoresLevel(a: Alerter, n: int, err: Option<Sinks.ErrVal>, msg: string, kvs: seq<Sinks.Value>, out: Sinks.Output)
    ensures Error(a, err, msg, kvs, out) != out <==> a.sink.Some?
    ensures Error(V(a, n), err, msg, kvs, out) == Error(a, err, msg, kvs, out)
  {
  }

  /** Deriving a handle with more values leaves the parent's emissions as
      they were: the parent's records carry only its own context. */
  lemma DerivedValuesStayLocal(a: Alerter, kvs: seq<Sinks.Value>, msg: string, ikvs: seq<Sinks.Value>, out: Sinks.Output)
    requires Enabled(a)
    ensures var child := WithValues(a, kvs);
      && Info(a, msg, ikvs, out)[|out|].context == a.sink.value.values
      && Info(child, msg, ikvs, out)[|out|].context == a.sink.value.values + kvs
  {
  }

  /** Successive `WithName` calls record the segments in call order. */
  lemma ChainedNames(t: int)
    ensures WithName(WithName(New(Some(Sinks.Root(t))), "a"), "b").sink.value.names == ["a", "b"]
  {
  }

  /** Against a sink enabled up to V-level 1: V(1) info emits, V(2) info does
      not, and V(2) error with a nil error still emits. */
  lemma ThresholdScenario(out: Sinks.Output)
    ensures var root := New(Some(Sinks.Root(1)));
      && |Info(V(root, 1), "x", [], out)| == |out| + 1
      && Info(V(root, 2), "x", [], out) == out
      && |Error(V(root, 2), None, "y", [], out)| == |out| + 1
  {
  }

  /** `WithSink` and `GetSink` are inverse accessors that leave the level alone. */
  lemma SinkAccessorsRoundTrip(a: Alerter, s: Option<Sinks.Sink>)
    ensures GetSink(WithSink(a, s)) == s && WithSink(a, s).level == a.level
    ensures WithSink(a, GetSink(a)) == a
    ensures GetSink(New(s)) == s
  {
  }
}
