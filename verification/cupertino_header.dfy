/** The search header's use of the tween engine: its layout constants, the
    configuration it hands to `useTween`, the two opacity curves it derives
    from the master progress, and the focus / blur wiring. */
module CupertinoHeader {
  import opened Results
  import opened Js
  import Tween
  import UseTween

  const LandscapeHeaderHeight: int := 32
  const Duration: int := 250
  const StatusBar: int := 20
  const AppBarHeight: int := 44
  const FullHeader: int := StatusBar + AppBarHeight
  const SearchBarHeight: int := 36
  const PaddingHorizontal: int := 16
  const InactivePaddingBottom: int := 16
  const ActiveVerticalPadding: int := 8
  const ActiveSearchHeader: int := StatusBar + ActiveVerticalPadding + SearchBarHeight + ActiveVerticalPadding
  const InactiveSearchHeader: int := FullHeader + SearchBarHeight + InactivePaddingBottom

  /** The derived heights. The inactive search header is 116, the sum of its
      own addends, not the 72 its comment states. */
  lemma HeaderHeights()
    ensures FullHeader == 64
    ensures ActiveSearchHeader == 72
    ensures InactiveSearchHeader == 116
  {
  }

  const SearchBoxMarginTop: string := "searchBoxMarginTop"
  const SearchBoxMarginBottom: string := "searchBoxMarginBottom"
  const ButtonMarginRight: string := "buttonMarginRight"

  /** The configuration factory's result for a measured cancel-button width.
      `initiallyActive` is the route parameter, which may be absent. */
  function Config(buttonWidth: real, initiallyActive: JsValue): (spec: Tween.TweenSpec)
    ensures spec.duration == 250.0 && spec.initiallyActive == initiallyActive
    ensures spec.from.keys == spec.to.keys == [SearchBoxMarginTop, SearchBoxMarginBottom, ButtonMarginRight]
    ensures forall i | 0 <= i < |spec.from.keys| :: Tween.Supported(spec, spec.from.keys[i])
    ensures Get(spec.from, ButtonMarginRight) == Num(-buttonWidth)
  {
    var keys := [SearchBoxMarginTop, SearchBoxMarginBottom, ButtonMarginRight];
    Tween.TweenSpec(
      Duration as real,
      initiallyActive,
      Object(keys, map[
        SearchBoxMarginTop := Num(0.0),
        SearchBoxMarginBottom := Num(16.0),
        ButtonMarginRight := Num(-buttonWidth)]),
      Object(keys, map[
        SearchBoxMarginTop := Num((-AppBarHeight + ActiveVerticalPadding) as real),
        SearchBoxMarginBottom := Num(ActiveVerticalPadding as real),
        ButtonMarginRight := Num(16.0)]))
  }

  /** The header's configuration builds for every button width, and its
      three outputs run between these endpoints. */
  lemma ConfigBuilds(buttonWidth: real, initiallyActive: JsValue)
    ensures Tween.Build(Config(buttonWidth, initiallyActive)).Success?
    ensures var e := Tween.Build(Config(buttonWidth, initiallyActive)).value;
      var atRest := e.(progress := 0.0);
      var atActive := e.(progress := 1.0);
      && e.duration == 250.0
      && e.keys == [SearchBoxMarginTop, SearchBoxMarginBottom, ButtonMarginRight]
      && Tween.Output(atRest, SearchBoxMarginTop) == Some(0.0)
      && Tween.Output(atRest, SearchBoxMarginBottom) == Some(16.0)
      && Tween.Output(atRest, ButtonMarginRight) == Some(-buttonWidth)
      && Tween.Output(atActive, SearchBoxMarginTop) == Some(-36.0)
      && Tween.Output(atActive, SearchBoxMarginBottom) == Some(8.0)
      && Tween.Output(atActive, ButtonMarginRight) == Some(16.0)
  {
  }

  /** Piecewise-linear interpolation over the input range `[x0, x1, x2]`
      onto `[y0, y1, y2]`: the segment is the first one whose upper input
      bound reaches `p`, and values outside the range extend the end segments. */
  function Interpolate3(x0: real, x1: real, x2: real, y0: real, y1: real, y2: real, p: real): (v: real)
    requires x0 < x1 < x2
    ensures p == x0 ==> v == y0
    ensures p == x1 ==> v == y1
    ensures p == x2 ==> v == y2
    ensures x0 <= p <= x1 ==> (y0 <= v <= y1 || y1 <= v <= y0)
    ensures x1 <= p <= x2 ==> (y1 <= v <= y2 || y2 <= v <= y1)
  {
    if p <= x1 then y0 + (p - x0) / (x1 - x0) * (y1 - y0)
    else y1 + (p - x1) / (x2 - x1) * (y2 - y1)
  }

  /** The navigation bar's opacity: fully visible at rest, gone from 0.3 on. */
  function HeaderOpacity(p: real): (o: real)
    ensures p == 0.0 ==> o == 1.0
    ensures 0.3 <= p ==> o == 0.0
    ensures 0.0 <= p <= 1.0 ==> 0.0 <= o <= 1.0
  {
    Interpolate3(0.0, 0.3, 1.0, 1.0, 0.0, 0.0, p)
  }

  /** The cancel button's opacity: hidden up to 0.3, fully visible when active. */
  function ButtonOpacity(p: real): (o: real)
    ensures p <= 0.3 ==> o == 0.0
    ensures p == 1.0 ==> o == 1.0
    ensures 0.0 <= p <= 1.0 ==> 0.0 <= o <= 1.0
  {
    Interpolate3(0.0, 0.3, 1.0, 0.0, 0.0, 1.0, p)
  }

  /** The two never show together, and as progress grows the header fades
      out while the button fades in. */
  lemma CrossFade(p: real, q: real)
    ensures HeaderOpacity(p) == 0.0 || ButtonOpacity(p) == 0.0
    ensures 0.0 <= p <= q ==> HeaderOpacity(q) <= HeaderOpacity(p)
    ensures p <= q ==> ButtonOpacity(p) <= ButtonOpacity(q)
  {
  }

  /** One evaluation of the header's `useTween` call, keyed on the button width. */
  function Render(s: UseTween.Session, buttonWidth: real, initiallyActive: JsValue): (r: UseTween.Render)
    ensures r.bag.Success?
    ensures UseTween.Valid(s) ==> UseTween.Valid(r.session)
  {
    ConfigBuilds(buttonWidth, initiallyActive);
    UseTween.Evaluate(s, Config(buttonWidth, initiallyActive), [Num(buttonWidth)])
  }

  /** After a render, the next render rebuilds the engine exactly when the
      button width has changed, and always after the handle's `stop`. */
  lemma RebuildOnWidthChangeOrReset(s: UseTween.Session, w0: real, w1: real, ia0: JsValue, ia1: JsValue)
    requires UseTween.Valid(s)
    ensures var s1 := Render(s, w0, ia0).session;
      Render(s1, w1, ia1).session.builds == s1.builds + 1 <==> w1 != w0
    ensures var s1 := Render(s, w0, ia0).session;
      && Render(UseTween.Reset(s1), w0, ia1).session.builds == s1.builds + 1
      && Render(UseTween.Reset(s1), w0, ia1).bag.value.engine.animations == []
      && Render(UseTween.Reset(s1), w0, ia1).bag.value.engine.progress == Tween.RestingProgress(Config(w0, ia1))
    ensures var s1 := Render(s, w0, ia0).session;
      w1 != w0 ==>
        && Render(s1, w1, ia1).bag.value.engine.animations == []
        && Render(s1, w1, ia1).bag.value.engine.progress == Tween.RestingProgress(Config(w1, ia1))
  {
  }

  /** Focus on the search box plays the tween forward. */
  function OnFocus(s: UseTween.Session): (r: UseTween.Session)
    requires s.memo.Some?
    ensures r.memo.Some?
    ensures Tween.Active(r.memo.value.engine) == Some(Tween.Timing(1.0, s.memo.value.engine.duration, true))
  {
    UseTween.Play(s)
  }

  /** Blur (also pressing cancel) plays the tween backward. Blurring the
      native text input is a side effect outside the model. */
  function OnBlur(s: UseTween.Session): (r: UseTween.Session)
    requires s.memo.Some?
    ensures r.memo.Some?
    ensures Tween.Active(r.memo.value.engine) == Some(Tween.Timing(0.0, s.memo.value.engine.duration, true))
  {
    UseTween.PlayBackward(s)
  }

  /** Focus then blur, with any driver samples in between, leaves exactly one
      running transition, toward 0, on the same engine. */
  lemma FocusThenBlur(s: UseTween.Session, w: real, ia: JsValue, samples: seq<real>)
    ensures var s1 := Render(s, w, ia).session;
      var e := Tween.Drive(OnFocus(s1).memo.value.engine, samples);
      var blurred := OnBlur(UseTween.WithEngine(OnFocus(s1), e));
      && Tween.NoRace(blurred.memo.value.engine)
      && Tween.Active(blurred.memo.value.engine) == Some(Tween.Timing(0.0, s1.memo.value.engine.duration, true))
      && blurred.memo.value.id == s1.memo.value.id
  {
    var s1 := Render(s, w, ia).session;
    Tween.DriveKeepsTransition(OnFocus(s1).memo.value.engine, samples);
  }
}
