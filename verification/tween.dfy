/** The tween engine built by `generateTweenAnimation`: one master progress
    value, one output per key of `from` interpolated affinely from it, and
    play / playBackward / stop commands that keep at most one timed
    transition running on the master value.

    The timing driver is abstracted to two actions: `Tick` moves the
    progress of the running transition to any value (easing curves may
    overshoot), and `Complete` ends it at its target. */
module Tween {
  import opened Results
  import opened Js

  /** The configuration record handed to the engine. The easing function is
      opaque to the engine and only shapes how `Tick` moves progress, so it
      is not represented. */
  datatype TweenSpec = TweenSpec(
    duration: real,
    initiallyActive: JsValue,
    from: Object,
    to: Object)

  /** The error thrown for a key whose endpoints are not both numbers; it
      carries the key and both offending values, as the message does. */
  datatype ConfigError = UnsupportedValue(key: string, from: JsValue, to: JsValue)

  /** The output range `[from, to]` of one interpolated output, over the
      input range `[0, 1]`. */
  datatype Range = Range(from: real, to: real)

  /** One `Animated.timing` transition of the master value. */
  datatype Timing = Timing(toValue: real, duration: real, running: bool)

  /** A built engine. `animations` is every transition created so far, in
      order; its last element is the one the `animation` variable holds. */
  datatype Engine = Engine(
    keys: seq<string>,
    ranges: map<string, Range>,
    duration: real,
    progress: real,
    animations: seq<Timing>)

  /** The resting position of a fresh engine: 1 when initially active, 0 otherwise. */
  function RestingProgress(spec: TweenSpec): (p: real)
    ensures p == 1.0 || p == 0.0
    ensures p == 1.0 <==> Truthy(spec.initiallyActive)
  {
    if Truthy(spec.initiallyActive) then 1.0 else 0.0
  }

  /** The value of an interpolation of `[0, 1]` onto `r` at progress `p`,
      extrapolated linearly outside `[0, 1]`. */
  function Lerp(r: Range, p: real): (v: real)
    ensures p == 0.0 ==> v == r.from
    ensures p == 1.0 ==> v == r.to
    ensures r.from != r.to ==> (v - r.from) / (r.to - r.from) == p
    ensures r.from == r.to ==> v == r.from
  {
    r.from + p * (r.to - r.from)
  }

  /** Both endpoints of key `k` pass the `isNumber` test. */
  predicate Supported(spec: TweenSpec, k: string) {
    IsNumber(Get(spec.from, k)) && IsNumber(Get(spec.to, k))
  }

  /** The range of a supported key. */
  function RangeOf(spec: TweenSpec, k: string): Range
    requires Supported(spec, k)
  {
    Range(Get(spec.from, k).n, Get(spec.to, k).n)
  }

  /** The error the reduce throws on key `k`. */
  function ErrorAt(spec: TweenSpec, k: string): ConfigError {
    UnsupportedValue(k, Get(spec.from, k), Get(spec.to, k))
  }

  /** `keys[i]` is the first key the reduce rejects. */
  predicate FirstUnsupported(spec: TweenSpec, keys: seq<string>, i: int) {
    && 0 <= i < |keys|
    && !Supported(spec, keys[i])
    && forall j | 0 <= j < i :: Supported(spec, keys[j])
  }

  predicate AllSupported(spec: TweenSpec, keys: seq<string>) {
    forall i | 0 <= i < |keys| :: Supported(spec, keys[i])
  }

  /** The reduce over the keys of `from`: visits the keys in order, adds one
      interpolation per key whose endpoints are both numbers, and throws on
      the first key that has a non-number endpoint. */
  function BuildRanges(spec: TweenSpec, keys: seq<string>): (r: Result<map<string, Range>, ConfigError>)
    ensures r.Success? <==> AllSupported(spec, keys)
    ensures r.Success? ==> r.value.Keys == set k | k in keys
    ensures r.Success? ==> forall k | k in r.value :: Supported(spec, k) && r.value[k] == RangeOf(spec, k)
    ensures r.Failure? ==> exists i :: FirstUnsupported(spec, keys, i) && r.error == ErrorAt(spec, keys[i])
    decreases |keys|
  {
    if keys == [] then Success(map[])
    else
      var k := keys[0];
      var from := Get(spec.from, k);
      var to := Get(spec.to, k);
      if IsNumber(from) && IsNumber(to) then
        match BuildRanges(spec, keys[1..])
        case Success(rest) =>
          assert forall i | 1 <= i < |keys| :: keys[i] == keys[1..][i - 1];
          assert forall k' :: k' in keys <==> k' == k || k' in keys[1..];
          Success(rest[k := Range(from.n, to.n)])
        case Failure(e) =>
          ghost var i :| FirstUnsupported(spec, keys[1..], i) && e == ErrorAt(spec, keys[1..][i]);
          assert FirstUnsupported(spec, keys, i + 1);
          Failure(e)
      else
        assert FirstUnsupported(spec, keys, 0);
        Failure(UnsupportedValue(k, from, to))
  }

  /** The current value of output `k`, or `None` when the engine has no such output. */
  function Output(e: Engine, k: string): (o: Option<real>)
    ensures o.Some? <==> k in e.ranges
    ensures o.Some? && e.progress == 0.0 ==> o.value == e.ranges[k].from
    ensures o.Some? && e.progress == 1.0 ==> o.value == e.ranges[k].to
    ensures o.Some? && e.ranges[k].from != e.ranges[k].to ==>
      (o.value - e.ranges[k].from) / (e.ranges[k].to - e.ranges[k].from) == e.progress
    ensures o.Some? && e.ranges[k].from == e.ranges[k].to ==> o.value == e.ranges[k].from
  {
    if k in e.ranges then Some(Lerp(e.ranges[k], e.progress)) else None
  }

  /** `generateTweenAnimation`: validates the endpoints of every key of
      `from`, sets the master value to the resting position and derives one
      output per key of `from`. Keys present only in `to` are ignored. */
  function Build(spec: TweenSpec): (r: Result<Engine, ConfigError>)
    ensures r.Success? <==> AllSupported(spec, spec.from.keys)
    ensures r.Failure? ==>
      exists i :: FirstUnsupported(spec, spec.from.keys, i) && r.error == ErrorAt(spec, spec.from.keys[i])
    ensures r.Success? ==>
      && r.value.keys == spec.from.keys
      && r.value.duration == spec.duration
      && r.value.progress == RestingProgress(spec)
      && r.value.animations == []
    ensures r.Success? ==> forall k :: Output(r.value, k).Some? <==> k in spec.from.keys
    ensures r.Success? ==> forall k | k in spec.from.keys ::
      k in r.value.ranges && r.value.ranges[k] == Range(Get(spec.from, k).n, Get(spec.to, k).n)
    ensures r.Success? ==> forall k | k in spec.from.keys ::
      Output(r.value, k) == Some(if Truthy(spec.initiallyActive) then Get(spec.to, k).n else Get(spec.from, k).n)
  {
    match BuildRanges(spec, spec.from.keys)
    case Failure(err) => Failure(err)
    case Success(ranges) =>
      Success(Engine(spec.from.keys, ranges, spec.duration, RestingProgress(spec), []))
  }

  /** At most one transition runs, and only the last one created. */
  predicate NoRace(e: Engine) {
    forall i | 0 <= i < |e.animations| - 1 :: !e.animations[i].running
  }

  /** No transition runs. */
  predicate Idle(e: Engine) {
    forall i | 0 <= i < |e.animations| :: !e.animations[i].running
  }

  /** The running transition, if any: under `NoRace` only the last can run. */
  function Active(e: Engine): Option<Timing> {
    if |e.animations| > 0 && e.animations[|e.animations| - 1].running
    then Some(e.animations[|e.animations| - 1])
    else None
  }

  /** `masterValue.stopAnimation()`: halts every transition of the master value. */
  function StopAll(anims: seq<Timing>): (r: seq<Timing>)
    ensures |r| == |anims|
    ensures forall i | 0 <= i < |r| :: !r[i].running
    ensures forall i | 0 <= i < |r| :: r[i].toValue == anims[i].toValue && r[i].duration == anims[i].duration
  {
    seq(|anims|, i requires 0 <= i < |anims| => anims[i].(running := false))
  }

  /** Stops the master value, then creates and starts a transition to `target`
      with the configured duration. Progress is left where it is: the new
      transition starts from the current value. */
  function Start(e: Engine, target: real): (r: Engine)
    ensures NoRace(r)
    ensures Active(r) == Some(Timing(target, e.duration, true))
    ensures |r.animations| == |e.animations| + 1
    ensures forall i | 0 <= i < |e.animations| ::
      r.animations[i] == e.animations[i].(running := false)
    ensures r.(animations := e.animations) == e
  {
    e.(animations := StopAll(e.animations) + [Timing(target, e.duration, true)])
  }

  /** `play`: one running transition, toward 1. */
  function Play(e: Engine): (r: Engine)
    ensures NoRace(r)
    ensures Active(r) == Some(Timing(1.0, e.duration, true))
    ensures r.progress == e.progress && r.ranges == e.ranges
    ensures |r.animations| == |e.animations| + 1
    ensures forall i | 0 <= i < |e.animations| :: r.animations[i] == e.animations[i].(running := false)
    ensures r.(animations := e.animations) == e
  {
    Start(e, 1.0)
  }

  /** `playBackward`: one running transition, toward 0. */
  function PlayBackward(e: Engine): (r: Engine)
    ensures NoRace(r)
    ensures Active(r) == Some(Timing(0.0, e.duration, true))
    ensures r.progress == e.progress && r.ranges == e.ranges
    ensures |r.animations| == |e.animations| + 1
    ensures forall i | 0 <= i < |e.animations| :: r.animations[i] == e.animations[i].(running := false)
    ensures r.(animations := e.animations) == e
  {
    Start(e, 0.0)
  }

  /** `stop`: `animation?.stop()` halts the last created transition, if any,
      and leaves progress at its current value. */
  function Stop(e: Engine): (r: Engine)
    ensures |e.animations| == 0 ==> r == e
    ensures NoRace(e) ==> Idle(r)
    ensures Active(r) == None
    ensures r.progress == e.progress && r.ranges == e.ranges
    ensures forall k :: Output(r, k) == Output(e, k)
    ensures r.(animations := e.animations) == e
    ensures |r.animations| == |e.animations|
    ensures forall i | 0 <= i < |e.animations| - 1 :: r.animations[i] == e.animations[i]
    ensures |e.animations| > 0 ==>
      r.animations[|e.animations| - 1] == e.animations[|e.animations| - 1].(running := false)
  {
    if |e.animations| == 0 then e
    else
      var last := |e.animations| - 1;
      e.(animations := e.animations[last := e.animations[last].(running := false)])
  }

  /** The driver samples the running transition: progress moves to `v`.
      Without a running transition nothing moves. */
  function Tick(e: Engine, v: real): (r: Engine)
    ensures Active(e).Some? ==> r.progress == v
    ensures Active(e).None? ==> r == e
    ensures r.(progress := e.progress) == e
    ensures Active(r) == Active(e)
  {
    if Active(e).Some? then e.(progress := v) else e
  }

  /** The driver finishes the running transition: progress reaches its target. */
  function Complete(e: Engine): (r: Engine)
    ensures Active(e).Some? ==> r.progress == Active(e).value.toValue
    ensures Active(e).None? ==> r == e
    ensures Active(r) == None
    ensures NoRace(e) ==> Idle(r)
    ensures r.ranges == e.ranges && |r.animations| == |e.animations|
    ensures r.(progress := e.progress, animations := e.animations) == e
    ensures forall i | 0 <= i < |e.animations| - 1 :: r.animations[i] == e.animations[i]
    ensures Active(e).Some? ==>
      r.animations[|e.animations| - 1] == Active(e).value.(running := false)
  {
    match Active(e)
    case None => e
    case Some(t) =>
      var last := |e.animations| - 1;
      e.(progress := t.toValue, animations := e.animations[last := t.(running := false)])
  }

  /** A run of driver samples, in order. */
  function Drive(e: Engine, samples: seq<real>): Engine
    decreases |samples|
  {
    if samples == [] then e else Drive(Tick(e, samples[0]), samples[1..])
  }

  /** Sampling never starts, ends or alters a transition and never touches the outputs' ranges. */
  lemma {:induction false} DriveKeepsTransition(e: Engine, samples: seq<real>)
    ensures Drive(e, samples).(progress := e.progress) == e
    ensures Active(Drive(e, samples)) == Active(e)
    ensures Active(e).None? ==> Drive(e, samples) == e
    ensures Active(e).Some? && samples != [] ==> Drive(e, samples).progress == samples[|samples| - 1]
    decreases |samples|
  {
    if samples != [] {
      var e' := Tick(e, samples[0]);
      DriveKeepsTransition(e', samples[1..]);
      if |samples| > 1 {
        assert samples[1..][|samples[1..]| - 1] == samples[|samples| - 1];
      }
    }
  }

  /** However the driver samples, a transition run to completion leaves every
      output at the endpoint it targets. */
  lemma PlayToCompletion(e: Engine, samples: seq<real>, k: string)
    requires k in e.ranges
    ensures Output(Complete(Drive(Play(e), samples)), k) == Some(e.ranges[k].to)
    ensures Output(Complete(Drive(PlayBackward(e), samples)), k) == Some(e.ranges[k].from)
  {
    DriveKeepsTransition(Play(e), samples);
    DriveKeepsTransition(PlayBackward(e), samples);
  }

  /** `play` run to completion and then `playBackward` run to completion
      restores every output to its `from` value, whatever the driver's samples. */
  lemma RoundTrip(e: Engine, forward: seq<real>, backward: seq<real>)
    ensures var back := Complete(Drive(PlayBackward(Complete(Drive(Play(e), forward))), backward));
      && back.progress == 0.0
      && Idle(back)
      && forall k | k in e.ranges :: Output(back, k) == Some(e.ranges[k].from)
  {
    var there := Complete(Drive(Play(e), forward));
    DriveKeepsTransition(Play(e), forward);
    assert there.ranges == e.ranges;
    DriveKeepsTransition(PlayBackward(there), backward);
  }

  /** From a built engine, `play` run to completion leaves every output at
      the configuration's `to` value, and `playBackward` run to completion at
      its `from` value, whatever the driver's samples. */
  lemma {:induction false} BuiltPlayToCompletion(spec: TweenSpec, samples: seq<real>, k: string)
    requires Build(spec).Success?
    requires k in spec.from.keys
    ensures Output(Complete(Drive(Play(Build(spec).value), samples)), k) == Some(Get(spec.to, k).n)
    ensures Output(Complete(Drive(PlayBackward(Build(spec).value), samples)), k) == Some(Get(spec.from, k).n)
  {
    PlayToCompletion(Build(spec).value, samples, k);
  }

  /** Issuing `play` and then `playBackward` before the first completes
      leaves exactly one running transition, the backward one. */
  lemma {:induction false} PlayThenBackward(e: Engine, samples: seq<real>)
    ensures var r := PlayBackward(Drive(Play(e), samples));
      && NoRace(r)
      && Active(r) == Some(Timing(0.0, e.duration, true))
      && |r.animations| == |e.animations| + 2
      && !r.animations[|e.animations|].running
      && r.animations[|e.animations|].toValue == 1.0
  {
    DriveKeepsTransition(Play(e), samples);
  }

  /** `stop` mid-transition freezes progress at the last sample, later
      samples move nothing, and a following `play` resumes from the frozen
      value rather than from 0. */
  lemma {:induction false} StopFreezes(e: Engine, samples: seq<real>, later: seq<real>)
    requires samples != []
    ensures var stopped := Stop(Drive(Play(e), samples));
      && stopped.progress == samples[|samples| - 1]
      && Idle(stopped)
      && Drive(stopped, later) == stopped
      && Play(stopped).progress == samples[|samples| - 1]
  {
    DriveKeepsTransition(Play(e), samples);
    var stopped := Stop(Drive(Play(e), samples));
    DriveKeepsTransition(stopped, later);
  }

  /** A key of `from` that `to` lacks reads as `undefined` there, so the build throws. */
  lemma MissingKeyFails(spec: TweenSpec, k: string)
    requires k in spec.from.keys
    requires k !in spec.to.props
    ensures Build(spec).Failure?
  {
  }

  /** Keys present only in `to` are neither checked nor given an output:
      `{x: 0}` to `{x: 1, y: 2}` builds, with an output for `x` only. */
  lemma ExtraKeyInToIgnored()
    ensures var spec := TweenSpec(1.0, Undefined,
        Object(["x"], map["x" := Num(0.0)]),
        Object(["x", "y"], map["x" := Num(1.0), "y" := Num(2.0)]));
      && Build(spec).Success?
      && Output(Build(spec).value, "x") == Some(0.0)
      && Output(Build(spec).value, "y") == None
  {
    var spec := TweenSpec(1.0, Undefined,
        Object(["x"], map["x" := Num(0.0)]),
        Object(["x", "y"], map["x" := Num(1.0), "y" := Num(2.0)]));
    assert "x" != "y" by { assert "x"[0] != "y"[0]; }
    assert ["x"][1..] == [];
    assert BuildRanges(spec, ["x"]) == Success(map["x" := Range(0.0, 1.0)]);
    assert Build(spec) == Success(Engine(["x"], map["x" := Range(0.0, 1.0)], 1.0, 0.0, []));
  }
}
