/**
 * The input controller of RNPinEntry: the handlers the hidden text input
 * drives (`_inputCode`, `_keyPress`, `_onFocused`, `_onBlurred`), the mask
 * timer discipline, unmounting, and the animation entry points.
 *
 * The widget is a controlled component: the code itself lives with the owner
 * and comes in as the `value` prop. Handlers take the current props as a
 * parameter and return the owner callbacks they invoke, in order.
 */
module PinEntry {
  import opened Wrappers
  import opened DigitFilter
  import opened CellView

  /** An owner callback invocation. */
  datatype Event = TextChange(code: string) | Fulfill(code: string) | Backspace | Focus | Blur

  /** Which optional owner callbacks are supplied. */
  datatype Handlers = Handlers(onTextChange: bool, onFulfill: bool, onBackspace: bool, onFocus: bool, onBlur: bool)

  /** The props the controller reads. */
  datatype Props = Props(
    value: string,
    view: Config,
    maskDelayMs: int,
    restrictToNumbers: bool,
    handlers: Handlers)

  /** The component's `defaultProps` (no callbacks are supplied by default). */
  const DefaultProps: Props := Props(
    "",
    Config(4, false, TextV("*"), TextV(""), true, "pulse"),
    200,
    false,
    Handlers(false, false, false, false, false))

  /** A timer handle as stored in the `maskTimeout` field. */
  datatype Timer = Timer(id: nat, delayMs: int)

  /** The text `_inputCode` passes on: the digits alone under `restrictToNumbers`, else the raw text. */
  function Filtered(restrictToNumbers: bool, raw: string): (code: string)
    ensures restrictToNumbers ==> code == Digits(raw)
    ensures !restrictToNumbers ==> code == raw
    ensures |code| <= |raw|
  {
    if restrictToNumbers then Digits(raw) else raw
  }

  /** The callbacks `_inputCode` invokes for raw text `raw`. */
  function InputEvents(p: Props, raw: string): (events: seq<Event>)
    ensures var code := Filtered(p.restrictToNumbers, raw);
      && (forall i :: 0 <= i < |events| ==> events[i] == TextChange(code) || events[i] == Fulfill(code))
      && (TextChange(code) in events <==> p.handlers.onTextChange)
      && (Fulfill(code) in events <==> p.handlers.onFulfill && |code| == p.view.codeLength)
      && (p.handlers.onTextChange ==> events[0] == TextChange(code))
      && |events| == (if p.handlers.onTextChange then 1 else 0)
                      + (if p.handlers.onFulfill && |code| == p.view.codeLength then 1 else 0)
  {
    var code := Filtered(p.restrictToNumbers, raw);
    (if p.handlers.onTextChange then [TextChange(code)] else [])
      + (if |code| == p.view.codeLength && p.handlers.onFulfill then [Fulfill(code)] else [])
  }

  /** The reveal flag `_inputCode` sets: a password edit that made the code longer than `value`. */
  function RevealsAfter(p: Props, raw: string): bool {
    p.view.password && |Filtered(p.restrictToNumbers, raw)| > |p.value|
  }

  /** The reveal window opens only in password mode, and only on an edit whose raw text grew. */
  lemma RevealNeedsGrowth(p: Props, raw: string)
    ensures RevealsAfter(p, raw) ==> p.view.password && |raw| > |p.value|
    ensures !p.view.password ==> !RevealsAfter(p, raw)
    ensures |raw| <= |p.value| ==> !RevealsAfter(p, raw)
  {
  }

  /**
   * With the default props (whatever callbacks are supplied) the raw text
   * passes unfiltered, the code is fulfilled at exactly four characters, and
   * the reveal window never opens; the timer delay is 200 ms; once password
   * mode is switched on, filled cells outside the reveal window show "*";
   * unfilled cells show the empty placeholder text.
   */
  lemma DefaultPropsBehaviour(value: string, h: Handlers, raw: string)
    ensures var p := DefaultProps.(value := value, handlers := h);
      && (Fulfill(raw) in InputEvents(p, raw) <==> h.onFulfill && |raw| == 4)
      && (TextChange(raw) in InputEvents(p, raw) <==> h.onTextChange)
      && !RevealsAfter(p, raw)
      && p.maskDelayMs == 200
      && (forall i: nat :: i < |value| ==> Intended(value, i, p.view.(password := true), false) == Text("*"))
      && (forall i: nat :: |value| <= i ==> Intended(value, i, p.view, false) == Text(""))
  {
  }

  /**
   * Typing one more digit onto a code of digits (as an owner that echoes the
   * filtered text holds), with the digit filter on, opens the reveal window in
   * password mode; typing a non-digit does not.
   */
  lemma {:induction false} AppendedCharReveals(p: Props, c: char)
    requires p.view.password && p.restrictToNumbers
    requires forall i :: 0 <= i < |p.value| ==> IsDigit(p.value[i])
    ensures RevealsAfter(p, p.value + [c]) <==> IsDigit(c)
  {
    DigitsConcat(p.value, [c]);
    DigitsIdentity(p.value);
    assert Digits([c]) == if IsDigit(c) then [c] else [];
  }

  /** The outcome of an animation request. */
  datatype AnimationResult =
    | Rejected(message: string)   // a rejected promise
    | Started(animation: string, durationMs: int)  // delegated to the animatable view
    | NoResult                    // `undefined`: no view, or it lacks that animation

  /**
   * `animate`: rejected when animations are off; otherwise delegated to the
   * mounted view when it offers the named animation. `available` is the set
   * of animation names the mounted view offers (empty when it is not mounted).
   */
  function Animate(animated: bool, available: set<string>, animation: string := "shake", durationMs: int := 650): (r: AnimationResult)
    ensures !animated <==> r == Rejected("Animations are disabled")
    ensures r.Started? <==> animated && animation in available
    ensures r.Started? ==> r == Started(animation, durationMs)
    ensures animated && animation !in available ==> r == NoResult
  {
    if !animated then Rejected("Animations are disabled")
    else if animation in available then Started(animation, durationMs)
    else NoResult
  }

  /** `shake`: the default animation with the given duration. */
  function Shake(animated: bool, available: set<string>, durationMs: int := 650): (r: AnimationResult)
    ensures !animated ==> r == Rejected("Animations are disabled")
    ensures animated && "shake" in available ==> r == Started("shake", durationMs)
    ensures animated && "shake" !in available ==> r == NoResult
    ensures r == Animate(animated, available, "shake", durationMs)
  {
    Animate(animated, available, durationMs := durationMs)
  }

  class RNPinEntry {
    var focused: bool
    var maskDelay: bool
    /** The `maskTimeout` field: the handle of the timer armed last, if any. */
    var maskTimeout: Option<Timer>
    /** The runtime's pending timers (ids that have neither fired nor been cleared). */
    var scheduled: set<nat>
    /** The next handle id the runtime hands out. */
    var nextTimerId: nat
    var mounted: bool

    /** The handle ids `clearTimeout(this.maskTimeout)` can reach. */
    function Handle(): set<nat>
      reads this
    {
      if maskTimeout.Some? then {maskTimeout.value.id} else {}
    }

    /**
     * Only the stored handle can be pending, so at most one timer is pending;
     * none after unmounting; and while mounted the reveal flag is on only
     * while its timer is still pending.
     */
    ghost predicate Valid()
      reads this
    {
      && scheduled <= Handle()
      && (maskTimeout.Some? ==> maskTimeout.value.id < nextTimerId)
      && (!mounted ==> scheduled == {})
      && (mounted && maskDelay ==> maskTimeout.Some? && maskTimeout.value.id in scheduled)
    }

    lemma AtMostOnePending()
      requires Valid()
      ensures |scheduled| <= 1
    {
      if scheduled != {} {
        assert scheduled == Handle();
      }
    }

    constructor ()
      ensures Valid() && mounted
      ensures !focused && !maskDelay && maskTimeout == None && scheduled == {}
    {
      focused, maskDelay := false, false;
      maskTimeout := None;
      scheduled := {};
      nextTimerId := 0;
      mounted := true;
    }

    /** `clearTimeout(this.maskTimeout)`: cancels the stored timer if it is still pending. */
    method ClearTimeout()
      modifies this
      ensures scheduled == old(scheduled) - Handle()
      ensures focused == old(focused) && maskDelay == old(maskDelay) && maskTimeout == old(maskTimeout)
      ensures nextTimerId == old(nextTimerId) && mounted == old(mounted)
    {
      scheduled := scheduled - Handle();
    }

    /** `this.maskTimeout = setTimeout(..., delayMs)`: arms a fresh timer and stores its handle. */
    method SetTimeout(delayMs: int)
      modifies this
      ensures maskTimeout == Some(Timer(old(nextTimerId), delayMs))
      ensures scheduled == old(scheduled) + {old(nextTimerId)}
      ensures nextTimerId == old(nextTimerId) + 1
      ensures focused == old(focused) && maskDelay == old(maskDelay) && mounted == old(mounted)
    {
      maskTimeout := Some(Timer(nextTimerId, delayMs));
      scheduled := scheduled + {nextTimerId};
      nextTimerId := nextTimerId + 1;
    }

    /** `_inputCode`: the hidden input reports new raw text. */
    method InputCode(p: Props, raw: string) returns (events: seq<Event>)
      requires Valid() && mounted
      modifies this
      ensures Valid() && mounted
      ensures events == InputEvents(p, raw)
      ensures maskDelay == RevealsAfter(p, raw)
      ensures focused == old(focused)
      ensures maskDelay ==>
        && maskTimeout == Some(Timer(old(nextTimerId), p.maskDelayMs))
        && scheduled == {old(nextTimerId)}
        && nextTimerId == old(nextTimerId) + 1
      ensures !maskDelay ==>
        maskTimeout == old(maskTimeout) && scheduled == old(scheduled) && nextTimerId == old(nextTimerId)
    {
      var code := Filtered(p.restrictToNumbers, raw);
      events := [];
      if p.handlers.onTextChange {
        events := events + [TextChange(code)];
      }
      if |code| == p.view.codeLength && p.handlers.onFulfill {
        events := events + [Fulfill(code)];
      }
      var grew := p.view.password && |code| > |p.value|;
      maskDelay := grew;
      if grew {
        ClearTimeout();
        assert scheduled == {};
        SetTimeout(p.maskDelayMs);
      }
    }

    /** The pending timer `id` fires: the reveal window closes. A cleared or spent id never fires. */
    method TimerFires(id: nat) returns (fired: bool)
      requires Valid()
      modifies this
      ensures Valid()
      ensures fired == (id in old(scheduled))
      ensures scheduled == old(scheduled) - {id}
      ensures maskDelay == (if fired then false else old(maskDelay))
      ensures focused == old(focused) && maskTimeout == old(maskTimeout)
      ensures nextTimerId == old(nextTimerId) && mounted == old(mounted)
    {
      fired := id in scheduled;
      if fired {
        scheduled := scheduled - {id};
        maskDelay := false;
      }
    }

    /** `_keyPress`: Backspace on an empty code is reported to the owner; nothing else happens. */
    method KeyPress(p: Props, key: string) returns (events: seq<Event>)
      ensures events == [] || events == [Backspace]
      ensures events == [Backspace] <==> key == "Backspace" && p.value == "" && p.handlers.onBackspace
    {
      events := [];
      if key == "Backspace" {
        if p.value == "" && p.handlers.onBackspace {
          events := [Backspace];
        }
      }
    }

    /** `_onFocused`. */
    method OnFocused(p: Props) returns (events: seq<Event>)
      requires Valid()
      modifies this
      ensures Valid() && focused
      ensures events == if p.handlers.onFocus then [Focus] else []
      ensures maskDelay == old(maskDelay) && maskTimeout == old(maskTimeout) && scheduled == old(scheduled)
      ensures nextTimerId == old(nextTimerId) && mounted == old(mounted)
    {
      focused := true;
      events := [];
      if p.handlers.onFocus {
        events := [Focus];
      }
    }

    /** `_onBlurred`. */
    method OnBlurred(p: Props) returns (events: seq<Event>)
      requires Valid()
      modifies this
      ensures Valid() && !focused
      ensures events == if p.handlers.onBlur then [Blur] else []
      ensures maskDelay == old(maskDelay) && maskTimeout == old(maskTimeout) && scheduled == old(scheduled)
      ensures nextTimerId == old(nextTimerId) && mounted == old(mounted)
    {
      focused := false;
      events := [];
      if p.handlers.onBlur {
        events := [Blur];
      }
    }

    /** `componentWillUnmount`: the stored timer is cleared, so nothing is pending any more. */
    method Unmount()
      requires Valid() && mounted
      modifies this
      ensures Valid() && !mounted && scheduled == {}
      ensures focused == old(focused) && maskDelay == old(maskDelay) && maskTimeout == old(maskTimeout)
      ensures nextTimerId == old(nextTimerId)
    {
      ClearTimeout();
      mounted := false;
    }

    /**
     * The cells of a render pass with the current state. Once no timer is
     * pending, no character of a password code stays revealed; an unfocused
     * widget shows no focused cell.
     */
    function Cells(p: Props): (cells: seq<Cell>)
      requires Valid() && mounted
      reads this
      ensures |cells| == p.view.codeLength
      ensures scheduled == {} && p.view.password && p.view.mask != Null ==>
        forall i :: 0 <= i < |cells| && i < |p.value| ==> Displayed(cells[i]) == MaskContent(p.view.mask)
      ensures !focused ==> forall i :: 0 <= i < |cells| ==> !cells[i].focused
    {
      var cells := Render(p.value, p.view, focused, maskDelay);
      if p.view.password && p.view.mask != Null then
        PasswordCellsMasked(p.value, p.view, focused, maskDelay);
        cells
      else
        cells
    }
  }
}
