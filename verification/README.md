# Tween engine and search-header animation, modelled in Dafny

This project models the animation core of a React Native search-header demo:
the `useTween` hook and the engine `generateTweenAnimation` builds
(`example/src/useTween.ts`), and the search header's concrete use of it
(`example/src/CupertinoHeader.tsx`).

- **Engine** (`tween.dfy`, module `Tween`). A configuration holds a `from` and a
  `to` record of numbers, a duration and an `initiallyActive` flag. Building
  checks, key by key in `Object.keys(from)` order, that both endpoints pass the
  `isNumber` test (`Js.IsNumber`). The build throws on the first key that
  fails. A key missing from `to` reads as `undefined` and so fails too. On
  success the master progress starts at 1 when `initiallyActive` is truthy and
  at 0 otherwise. There is one output per key of `from`, equal to
  `from[k] + p * (to[k] - from[k])`. `play` and `playBackward` stop every
  transition of the master value, then start one towards 1 or 0. `stop` halts
  the last transition created, if there is one. The timing driver is reduced to
  two actions: `Tick` (the running transition's progress moves to any value,
  overshoot included) and `Complete` (progress reaches the target and the
  transition ends).
- **Session** (`use_tween.dfy`, module `UseTween`). The hook state is the
  `useReset` counter, the number of calls to the configuration factory, and the
  memo slot. The memo is keyed on `deps ++ [count]` and compared as a whole
  sequence. On a hit the factory is not called and the same engine comes back.
  On a miss the factory is called and a new engine is built. The handle's
  `stop` is the counter bump (`Reset`), not the engine's `stop`. It makes every
  memo key stale, so the next evaluation builds a fresh engine at its resting
  position.
- **Search header** (`cupertino_header.dfy`, module `CupertinoHeader`). It
  holds the layout constants, the three-key configuration keyed on the cancel
  button's width, the header and button opacity curves, and the focus → `play`
  and blur → `playBackward` wiring.

JavaScript values are modelled in `js.dfy`: numbers as `real`, truthiness, and
objects as an ordered key list plus a property map. `results.dfy` holds
`Option` and `Result`.

Three things a tween engine might be expected to do, the code does not do, and neither does the model:

- It does not reject a key present only in `to`; that key is ignored (`Tween.ExtraKeyInToIgnored`).
- It does not reject a duration ≤ 0.
- It does not stop the old engine on rebuild; the memo simply drops it.

The comment at `example/src/CupertinoHeader.tsx:45` gives the inactive search
header height as 72. Its own addends, and the code, give 116, and the model
uses 116.

## Model

| member | source | states |
|---|---|---|
| Tween.RestingProgress | example/src/useTween.ts:50-51 | the master value starts at 1 exactly when `initiallyActive` is truthy, and at 0 otherwise |
| Js.IsNumber | example/src/useTween.ts:42-44 | `isNumber` holds exactly for numeric values; `undefined`, which a missing key reads as, is not a number |
| Js.Truthy | example/src/useTween.ts:50 | the `?:` test on `initiallyActive`: `undefined`, `null`, `0`, `''` and `false` select the inactive position; `true`, any non-zero number, any non-empty string and any object select the active one |
| Tween.Lerp | example/src/useTween.ts:59-62 | an output equals `from` at progress 0 and `to` at progress 1; when the endpoints differ, progress is recovered from the output as `(v - from) / (to - from)`, so the map is affine and invertible |
| Tween.BuildRanges | example/src/useTween.ts:54-70 | the reduce succeeds iff every key has numeric `from` and `to`; on success it has exactly the visited keys, each with its own endpoints; on failure the error names the first rejected key and both of its values |
| Tween.Build | example/src/useTween.ts:46-70 | build fails iff some key of `from` has a non-number endpoint, with the first such key's error; a built engine has the keys of `from` (keys only in `to` get no output), each interpolating from `from[k]` to `to[k]`, the configured duration and no transition, and its outputs equal `to` when initially active and `from` otherwise |
| Tween.Output | example/src/useTween.ts:59-62 | an output exists exactly for the keys that have an interpolation range; it reads `from` at progress 0 and `to` at progress 1, and at every other progress the affine value: progress is recovered as `(v - from) / (to - from)`, and the output is constant when `from == to` |
| Tween.MissingKeyFails | example/src/useTween.ts:55-66 | a key of `from` that `to` lacks makes the build throw |
| Tween.ExtraKeyInToIgnored | example/src/useTween.ts:49-70 | `{x: 0}` to `{x: 1, y: 2}` builds, with an output for `x` only |
| Tween.StopAll | example/src/useTween.ts:84 | `stopAnimation` halts every transition of the master value and keeps their targets |
| Tween.Start | example/src/useTween.ts:74-88 | after stopping the master value and starting a new timing, exactly one transition runs, the new one, with the given target and the configured duration; every earlier one is stopped; progress and outputs are untouched |
| Tween.Play | example/src/useTween.ts:83-89 | after `play` exactly one transition runs, its target is 1, no earlier transition runs, and progress is unchanged |
| Tween.PlayBackward | example/src/useTween.ts:91-97 | after `playBackward` exactly one transition runs, its target is 0, no earlier transition runs, and progress is unchanged |
| Tween.Stop | example/src/useTween.ts:99-101 | on a never-played engine `stop` changes nothing; otherwise nothing runs afterwards and progress and every output keep their current values |
| Tween.Tick | example/src/useTween.ts:75-80 | a driver sample moves progress only while a transition runs, and never starts or ends one |
| Tween.Complete | example/src/useTween.ts:75-80 | completion sets progress to the running transition's target and leaves nothing running; with nothing running it changes nothing |
| Tween.DriveKeepsTransition | example/src/useTween.ts:75-80 | any run of samples keeps the running transition and the ranges, and leaves progress at the last sample (or untouched when nothing runs) |
| Tween.PlayToCompletion | example/src/useTween.ts:83-97 | `play` run to completion leaves every output at `to[k]`, and `playBackward` at `from[k]`, for any samples in between |
| Tween.BuiltPlayToCompletion | example/src/useTween.ts:46-97 | from a freshly built engine, `play` to completion leaves each output at the configuration's `to[k]` and `playBackward` to completion at its `from[k]`, for any samples |
| Tween.RoundTrip | example/src/useTween.ts:52-97 | `play` to completion then `playBackward` to completion returns progress to 0 and every output to exactly `from[k]`, with nothing running |
| Tween.PlayThenBackward | example/src/useTween.ts:83-97 | `playBackward` issued while `play` runs leaves one running transition (target 0); the forward one is stopped |
| Tween.StopFreezes | example/src/useTween.ts:99-101 | `stop` mid-transition freezes progress at its last sample; later samples move nothing; a new `play` starts from the frozen value |
| UseTween.Mount | example/src/useTween.ts:112-113 | the counter starts at 0, with no engine and no factory call |
| UseTween.DepsToUse | example/src/useTween.ts:129 | the memo key is `deps` followed by the counter |
| UseTween.Evaluate | example/src/useTween.ts:129-137 | on an unchanged key the factory is not called and the same engine is returned; otherwise the factory is called once and a successful build becomes the memo under the new key, while a failed build throws and leaves the memo; the counter is unchanged |
| UseTween.Reset | example/src/useTween.ts:115-117 | the counter goes up by exactly 1 and, for every `deps`, the memo no longer matches |
| UseTween.Play | example/src/useTween.ts:140 | the handle's `play` drives the memoised engine: one transition, toward 1, on the same memo, with the engine's progress, keys, ranges and duration unchanged |
| UseTween.PlayBackward | example/src/useTween.ts:141 | the handle's `playBackward` drives the memoised engine: one transition, toward 0, on the same memo, with the engine's progress, keys, ranges and duration unchanged |
| UseTween.Tick | example/src/useTween.ts:144-145 | a driver sample on the memoised engine moves its progress to the sample while a transition runs and changes nothing otherwise, keeping the memo's identity and the engine's keys, ranges, duration, transitions and running transition |
| UseTween.Complete | example/src/useTween.ts:144-145 | completion on the memoised engine sets its progress to the running transition's target (changing nothing when none runs), keeps the memo's identity, the engine's keys, ranges, duration and earlier transitions, and leaves nothing running |
| UseTween.SameDepsReuse | example/src/useTween.ts:131-137 | re-evaluating with the same `deps` does not call the factory and returns the same engine, including state that commands gave it |
| UseTween.ChangedDepRebuilds | example/src/useTween.ts:129-137 | after an evaluation, any change in `deps` makes the next evaluation call the factory |
| UseTween.DistinctObjectsRebuild | example/src/useTween.ts:129-137 | replacing one object dependency by a distinct object calls the factory again, as identity comparison demands |
| UseTween.ResetRebuildsAtRest | example/src/useTween.ts:127-137 | after the handle's `stop` the next evaluation with the same `deps` builds a new engine under a new build number, at its resting position, with no transition |
| CupertinoHeader.HeaderHeights | example/src/CupertinoHeader.tsx:29-45 | full header 20 + 44 = 64, active search header 20 + 8 + 36 + 8 = 72, inactive search header 64 + 36 + 16 = 116 |
| CupertinoHeader.Config | example/src/CupertinoHeader.tsx:137-151 | the factory's spec has duration 250, the route's `initiallyActive`, the same three keys in `from` and `to`, numeric endpoints for each, and `-width` as the button's starting margin |
| CupertinoHeader.ConfigBuilds | example/src/CupertinoHeader.tsx:136-151 | the header's configuration builds for every button width; at progress 0 the outputs are 0, 16 and minus the width, at progress 1 they are -36, 8 and 16 |
| CupertinoHeader.Interpolate3 | example/src/CupertinoHeader.tsx:155-162 | the three-point interpolation hits each output point at its input point and stays between neighbouring outputs on each segment |
| CupertinoHeader.HeaderOpacity | example/src/CupertinoHeader.tsx:155-158 | the header is opaque at progress 0, transparent from 0.3 on, and within [0, 1] for progress in [0, 1] |
| CupertinoHeader.ButtonOpacity | example/src/CupertinoHeader.tsx:159-162 | the button is transparent up to progress 0.3, opaque at 1, and within [0, 1] for progress in [0, 1] |
| CupertinoHeader.CrossFade | example/src/CupertinoHeader.tsx:155-162 | header and button are never both visible; the header fades out and the button fades in as progress grows |
| CupertinoHeader.Render | example/src/CupertinoHeader.tsx:136-153 | the header's `useTween` evaluation never throws |
| CupertinoHeader.RebuildOnWidthChangeOrReset | example/src/CupertinoHeader.tsx:152 | after a render the next one rebuilds exactly when the button width changed, and always after a reset; both rebuilds give an engine at its resting position with no transition |
| CupertinoHeader.OnFocus | example/src/CupertinoHeader.tsx:164-166 | focus starts a transition toward 1 |
| CupertinoHeader.OnBlur | example/src/CupertinoHeader.tsx:168-171 | blur starts a transition toward 0 |
| CupertinoHeader.FocusThenBlur | example/src/CupertinoHeader.tsx:164-171 | focus, any samples, then blur leaves exactly one running transition, toward 0, on the same engine |

## Left out

- The `Animated.timing` driver, easing curves, `useNativeDriver` and per-frame sampling: these are library and floating-point behaviour. `Tick` accepts any value and `Complete` snaps to the target.
- `onFinish`: the code only forwards it to the library's `start`. Whether a cancelled transition calls it is library behaviour that the source does not show.
- NaN and the infinities: JavaScript numbers are modelled as reals.
- Tween.Build: the outputs of an initially active engine equal `to[k]` only over reals. The value at progress 1 is exact only over reals: in IEEE doubles `from + 1 * (to - from)` can differ from `to` by rounding (from = -57.333333333333336, to = 16 gives 16.000000000000007), so this promise does not cover rounding.
- Tween.Output: the value at progress 1 equals `to` only over reals. The value at progress 1 is exact only over reals: in IEEE doubles `from + 1 * (to - from)` can differ from `to` by rounding (from = -57.333333333333336, to = 16 gives 16.000000000000007), so this promise does not cover rounding.
- Tween.Lerp: the value at progress 1 equals `to` only over reals. The value at progress 1 is exact only over reals: in IEEE doubles `from + 1 * (to - from)` can differ from `to` by rounding (from = -57.333333333333336, to = 16 gives 16.000000000000007), so this promise does not cover rounding.
- Tween.PlayToCompletion: outputs after `play` completes equal `to[k]` only over reals. The value at progress 1 is exact only over reals: in IEEE doubles `from + 1 * (to - from)` can differ from `to` by rounding (from = -57.333333333333336, to = 16 gives 16.000000000000007), so this promise does not cover rounding.
- Tween.BuiltPlayToCompletion: outputs after `play` completes equal the configuration's `to[k]` only over reals. The value at progress 1 is exact only over reals: in IEEE doubles `from + 1 * (to - from)` can differ from `to` by rounding (from = -57.333333333333336, to = 16 gives 16.000000000000007), so this promise does not cover rounding.
- CupertinoHeader.ConfigBuilds: the progress-1 value 16 of `buttonMarginRight` is exact only over reals. The value at progress 1 is exact only over reals: in IEEE doubles `from + 1 * (to - from)` can differ from `to` by rounding (from = -57.333333333333336, to = 16 gives 16.000000000000007), so this promise does not cover rounding.
- Progress 0 gives `from` exactly in doubles for finite endpoints whose difference is finite, so the return to `from` after a round trip holds there too. When `to - from` overflows (from = -1e308, to = 1e308), `0 * (to - from) + from` is NaN; overflow is not modelled.
- Objects, arrays and functions are `Other(ref)`, an identity without contents. Two distinct objects in `deps` therefore differ, as under `Object.is`, but the thrown error for an object-valued endpoint does not carry its contents. Records are not required to have distinct keys; a JavaScript object always has, and nothing in the model depends on it.
- React hook internals: the asynchronous `setCount`, `Object.is` comparison, and `useMemo` on keys of different lengths. The model uses an explicit cached key compared by sequence equality, and `Reset` takes effect at the next evaluation.
- Handles from earlier renders: the model's handle commands act on the current memo. A handle kept from an older render would drive its dropped engine, which nothing reads.
- The interpolation with input range `[0, 0.3, 1]` is the library's piecewise-linear `interpolate` with its default extension. The model states that semantics; it is not code of this repository.
- Blurring the native text input in `onBlur`, JSX rendering, styles, the `useLayout` plumbing, navigation, and the gesture screen: these are UI and device I/O.
- CupertinoHeader.FocusThenBlur: states the blur transition's duration as the engine's configured duration rather than the literal 250, because a memo reused from an earlier render is not tied to this header's configuration in the model.
