/** `useReset` and `useTween`: the hook state that decides, on each
    evaluation, whether to reuse the memoised engine or to call the
    configuration factory and build a fresh one.

    The memo key is `deps ++ [count]`, compared as a whole sequence. The
    handle's `stop` is not the engine's `stop`: it is the `useReset`
    counter bump, whose effect is that the next evaluation rebuilds. */
module UseTween {
  import opened Results
  import opened Js
  import Tween

  /** The memoised engine, the key it was built under, and which build made it. */
  datatype Memo = Memo(deps: seq<JsValue>, id: nat, engine: Tween.Engine)

  /** Hook state: the `useReset` counter, how many times the configuration
      factory has been called, and the memo slot. */
  datatype Session = Session(count: nat, builds: nat, memo: Option<Memo>)

  /** One evaluation: the state afterwards and the handle returned, or the
      error the build threw. */
  datatype Render = Render(session: Session, bag: Result<Memo, Tween.ConfigError>)

  /** The hook state before the first evaluation: `useState(0)` and an empty memo. */
  function Mount(): (s: Session)
    ensures s.count == 0 && s.builds == 0 && s.memo.None?
    ensures Valid(s)
  {
    Session(0, 0, None)
  }

  /** `[...deps, count]`. */
  function DepsToUse(deps: seq<JsValue>, count: nat): (key: seq<JsValue>)
    ensures |key| == |deps| + 1 && key[..|deps|] == deps
    ensures key[|deps|] == Num(count as real)
  {
    deps + [Num(count as real)]
  }

  /** The memo already holds an engine built under `deps ++ [count]`. */
  predicate Hit(s: Session, deps: seq<JsValue>) {
    s.memo.Some? && s.memo.value.deps == DepsToUse(deps, s.count)
  }

  /** The memo's key ends in a counter value no larger than the current
      count, its build number has been issued, and its engine runs at most
      one transition. */
  predicate Valid(s: Session) {
    s.memo.Some? ==>
      var m := s.memo.value;
      && |m.deps| > 0
      && m.deps[|m.deps| - 1].Num?
      && m.deps[|m.deps| - 1].n <= s.count as real
      && 1 <= m.id <= s.builds
      && Tween.NoRace(m.engine)
  }

  /** `useTween(config, deps)`. On a memo hit the factory is not called and
      the same engine is returned unchanged. Otherwise the factory is called
      once and the spec it yields is built; a successful build replaces the
      memo, a failed build throws and leaves the memo as it was. The dropped
      engine is not stopped. */
  function Evaluate(s: Session, config: Tween.TweenSpec, deps: seq<JsValue>): (r: Render)
    ensures Hit(s, deps) ==> r.session == s && r.bag == Success(s.memo.value)
    ensures !Hit(s, deps) ==> r.session.builds == s.builds + 1
    ensures r.session.count == s.count
    ensures !Hit(s, deps) && r.bag.Success? ==>
      && Tween.Build(config) == Success(r.bag.value.engine)
      && r.bag.value.id == r.session.builds
      && r.bag.value.deps == DepsToUse(deps, s.count)
      && r.session.memo == Some(r.bag.value)
    ensures !Hit(s, deps) && r.bag.Failure? ==>
      Tween.Build(config) == Failure(r.bag.error) && r.session.memo == s.memo
    ensures r.bag.Success? ==> r.session.memo == Some(r.bag.value)
    ensures r.bag.Failure? <==> !Hit(s, deps) && Tween.Build(config).Failure?
    ensures Valid(s) ==> Valid(r.session)
  {
    if Hit(s, deps) then Render(s, Success(s.memo.value))
    else
      var builds := s.builds + 1;
      match Tween.Build(config)
      case Failure(err) => Render(s.(builds := builds), Failure(err))
      case Success(engine) =>
        var m := Memo(DepsToUse(deps, s.count), builds, engine);
        Render(Session(s.count, builds, Some(m)), Success(m))
  }

  /** `useReset`'s `reset`, returned by `useTween` as `stop`: the counter
      goes up by one, which makes every memo key stale. */
  function Reset(s: Session): (r: Session)
    ensures r.count == s.count + 1
    ensures r.builds == s.builds && r.memo == s.memo
    ensures Valid(s) ==> Valid(r)
    ensures Valid(s) ==> forall deps :: !Hit(r, deps)
  {
    s.(count := s.count + 1)
  }

  /** Applies an engine command to the memoised engine. */
  function WithEngine(s: Session, e: Tween.Engine): (r: Session)
    requires s.memo.Some?
    ensures r.memo.Some? && r.memo.value.engine == e
  {
    s.(memo := Some(s.memo.value.(engine := e)))
  }

  /** The handle's `play`. */
  function Play(s: Session): (r: Session)
    requires s.memo.Some?
    ensures r.count == s.count && r.builds == s.builds
    ensures r.memo.Some? && r.memo.value.deps == s.memo.value.deps && r.memo.value.id == s.memo.value.id
    ensures Tween.NoRace(r.memo.value.engine)
    ensures Tween.Active(r.memo.value.engine) == Some(Tween.Timing(1.0, s.memo.value.engine.duration, true))
    ensures r.memo.value.engine.progress == s.memo.value.engine.progress
    ensures r.memo.value.engine.ranges == s.memo.value.engine.ranges
    ensures r.memo.value.engine.keys == s.memo.value.engine.keys
    ensures r.memo.value.engine.duration == s.memo.value.engine.duration
    ensures Valid(s) ==> Valid(r)
  {
    WithEngine(s, Tween.Play(s.memo.value.engine))
  }

  /** The handle's `playBackward`. */
  function PlayBackward(s: Session): (r: Session)
    requires s.memo.Some?
    ensures r.count == s.count && r.builds == s.builds
    ensures r.memo.Some? && r.memo.value.deps == s.memo.value.deps && r.memo.value.id == s.memo.value.id
    ensures Tween.NoRace(r.memo.value.engine)
    ensures Tween.Active(r.memo.value.engine) == Some(Tween.Timing(0.0, s.memo.value.engine.duration, true))
    ensures r.memo.value.engine.progress == s.memo.value.engine.progress
    ensures r.memo.value.engine.ranges == s.memo.value.engine.ranges
    ensures r.memo.value.engine.keys == s.memo.value.engine.keys
    ensures r.memo.value.engine.duration == s.memo.value.engine.duration
    ensures Valid(s) ==> Valid(r)
  {
    WithEngine(s, Tween.PlayBackward(s.memo.value.engine))
  }

  /** The driver samples the memoised engine's transition. */
  function Tick(s: Session, v: real): (r: Session)
    requires s.memo.Some?
    ensures r.count == s.count && r.builds == s.builds
    ensures r.memo.Some? && r.memo.value.deps == s.memo.value.deps && r.memo.value.id == s.memo.value.id
    ensures Tween.Active(r.memo.value.engine) == Tween.Active(s.memo.value.engine)
    ensures Tween.Active(s.memo.value.engine).Some? ==> r.memo.value.engine.progress == v
    ensures Tween.Active(s.memo.value.engine).None? ==> r.memo.value.engine == s.memo.value.engine
    ensures r.memo.value.engine.ranges == s.memo.value.engine.ranges
    ensures r.memo.value.engine.keys == s.memo.value.engine.keys
    ensures r.memo.value.engine.duration == s.memo.value.engine.duration
    ensures r.memo.value.engine.animations == s.memo.value.engine.animations
    ensures Valid(s) ==> Valid(r)
  {
    WithEngine(s, Tween.Tick(s.memo.value.engine, v))
  }

  /** The driver finishes the memoised engine's transition. */
  function Complete(s: Session): (r: Session)
    requires s.memo.Some?
    ensures r.count == s.count && r.builds == s.builds
    ensures r.memo.Some? && r.memo.value.deps == s.memo.value.deps && r.memo.value.id == s.memo.value.id
    ensures Tween.Active(r.memo.value.engine) == None
    ensures Tween.Active(s.memo.value.engine).Some? ==>
      r.memo.value.engine.progress == Tween.Active(s.memo.value.engine).value.toValue
    ensures Tween.Active(s.memo.value.engine).None? ==> r.memo.value.engine == s.memo.value.engine
    ensures r.memo.value.engine.ranges == s.memo.value.engine.ranges
    ensures r.memo.value.engine.keys == s.memo.value.engine.keys
    ensures r.memo.value.engine.duration == s.memo.value.engine.duration
    ensures |r.memo.value.engine.animations| == |s.memo.value.engine.animations|
    ensures forall i | 0 <= i < |s.memo.value.engine.animations| - 1 ::
      r.memo.value.engine.animations[i] == s.memo.value.engine.animations[i]
    ensures Valid(s) ==> Valid(r)
  {
    WithEngine(s, Tween.Complete(s.memo.value.engine))
  }

  /** Evaluating again with the same `deps` reuses the engine just returned,
      including any state commands gave it, and does not call the factory,
      whatever it would now produce. */
  lemma SameDepsReuse(s: Session, config: Tween.TweenSpec, later: Tween.TweenSpec, deps: seq<JsValue>)
    requires Evaluate(s, config, deps).bag.Success?
    ensures var first := Evaluate(s, config, deps);
      Evaluate(first.session, later, deps) == first
    ensures var first := Evaluate(s, config, deps);
      var played := Play(first.session);
      Evaluate(played, later, deps) == Render(played, Success(played.memo.value))
  {
  }

  /** After an evaluation, changing any one element of `deps` (or its length)
      makes the next evaluation call the factory again. */
  lemma ChangedDepRebuilds(s: Session, config: Tween.TweenSpec, deps: seq<JsValue>, deps': seq<JsValue>)
    requires Evaluate(s, config, deps).bag.Success?
    requires deps' != deps
    ensures !Hit(Evaluate(s, config, deps).session, deps')
    ensures Evaluate(Evaluate(s, config, deps).session, config, deps').session.builds
         == Evaluate(s, config, deps).session.builds + 1
  {
  }

  /** Two distinct objects are different dependencies, as under `Object.is`:
      replacing one by another calls the factory again. */
  lemma DistinctObjectsRebuild(s: Session, config: Tween.TweenSpec, a: nat, b: nat)
    requires Evaluate(s, config, [Other(a)]).bag.Success?
    requires a != b
    ensures var s1 := Evaluate(s, config, [Other(a)]).session;
      Evaluate(s1, config, [Other(b)]).session.builds == s1.builds + 1
  {
    ChangedDepRebuilds(s, config, [Other(a)], [Other(b)]);
  }

  /** The handle's `stop` forces a rebuild on the next evaluation even with
      unchanged `deps`, and the rebuilt engine sits at its resting position
      with no transition, under a new build number. */
  lemma ResetRebuildsAtRest(s: Session, config: Tween.TweenSpec, deps: seq<JsValue>)
    requires Valid(s)
    requires Tween.Build(config).Success?
    ensures var r := Evaluate(Reset(s), config, deps);
      && r.bag.Success?
      && r.session.builds == s.builds + 1
      && r.bag.value.id == s.builds + 1
      && (s.memo.Some? ==> r.bag.value.id != s.memo.value.id)
      && r.bag.value.engine.progress == Tween.RestingProgress(config)
      && r.bag.value.engine.animations == []
      && r.session.count == s.count + 1
  {
  }
}
