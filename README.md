# rn-pin-entry, modelled in Dafny

`RNPinEntry` is a React Native PIN-entry widget: a row of `codeLength` cells
drawn over a hidden single-line text input. It is a controlled component: the
owner keeps the code and passes it back in as the `value` prop; the widget
only reports edits through callbacks (`onTextChange`, `onFulfill`,
`onBackspace`, `onFocus`, `onBlur`). The widget's own state is a `focused`
flag, a `maskDelay` flag (the reveal window in password mode: the newest
character shows before the mask covers it) and one timer handle,
`maskTimeout`, that closes the reveal window.

This project models:

- `digit_filter.dfy` (module `DigitFilter`): the `restrictToNumbers` filter, the
  matches of `[0-9]` joined together. It is proved to keep exactly the digits,
  with their counts and in their original order. It is also proved to
  distribute over concatenation and to be idempotent.
- `cell_view.dfy` (module `CellView`): the per-cell derivation of the render
  pass. It computes the flags `filled`, `cellFocused`, `last` and `showMask`,
  the focus animation name, the local `cellText` if-chain, and the three child
  slots (Text, placeholder component, mask component). `mask` and
  `placeholder` are a `Visual`: a string, a custom element, or `null`. The
  derived content is proved equal to a case-by-case reference definition,
  `Intended`. At most one child renders. At most one cell is focused.
- `pin_entry.dfy` (module `PinEntry`): the controller class `RNPinEntry` with
  fields `focused`, `maskDelay` and `maskTimeout`, plus the runtime's set of
  pending timers. Each handler returns the list of callbacks it invokes, in
  order. Timer expiry is an explicit `TimerFires(id)` event. `animate` and
  `shake` are functions returning rejected / delegated / `undefined`.
  `defaultProps` is the constant `DefaultProps`.
- `echo_owner.dfy` (module `EchoOwner`): an owner that echoes every
  `onTextChange` back into `value`, as the demo screen does. It drives a
  typing session of "1", "12", "123", "1234" in password mode through it.

Behaviour of the code worth knowing, which the model keeps:

- `_inputCode` invokes `onTextChange` on every call, and `onFulfill` on every
  call whose filtered text has length `codeLength`. Repeating the same text
  reports it again; only the reveal flag stays off.
- An edit that does not grow the code switches `maskDelay` off but leaves an
  earlier timer pending. Its later firing sets `maskDelay` to false again,
  which changes nothing.
- In password mode a filled cell shows its literal character when it is the
  last filled cell during the reveal window. It also shows it when `mask` is
  `null`, because then neither the mask text nor the mask component applies.
  The prop type excludes `null`, but the code handles it.
- `onFulfill` and the other callbacks fire only when the owner supplied them.

## Model

| member | source | states |
|---|---|---|
| DigitFilter.Digits | src/index.tsx:137-139 | the filtered text is no longer than the input and holds only digits |
| DigitFilter.DigitsIsSubsequence | src/index.tsx:137-139 | the filtered text is a subsequence of the raw text (original order kept) |
| DigitFilter.DigitsCounts | src/index.tsx:137-139 | every digit occurs in the output as often as in the input; no other character occurs |
| DigitFilter.DigitsConcat | src/index.tsx:137-139 | filtering a concatenation is concatenating the filtered parts |
| DigitFilter.DigitsIdentity | src/index.tsx:137-139 | the filter leaves a text unchanged exactly when it holds only digits |
| DigitFilter.DigitsIdempotent | src/index.tsx:137-139 | filtering twice equals filtering once |
| DigitFilter.DigitsOfMixedInput | src/index.tsx:137-139 | "1a2b3c4d" filters to "1234" |
| CellView.Derive | src/index.tsx:234-302 | covers the helper CellText (the `cellText` if-chain, lines 243-253) and the component choice; filled iff index < code length; last iff index is code length - 1; focused iff widget focused and index = code length; mask shown iff filled, password, and not the last cell during the reveal window |
| CellView.Render | src/index.tsx:234 | one cell per index below codeLength, each derived for its index |
| CellView.AtMostOneChild | src/index.tsx:255-302 | of the Text, placeholder component and mask component at most one renders, and none exactly when the intended content is nothing |
| CellView.ContentResolution | src/index.tsx:238-302 | the displayed content equals the reference resolution: mask for filled password cells outside the reveal window, else the literal character, and the placeholder (text, element or nothing) for unfilled cells |
| CellView.FocusedCell | src/index.tsx:235-282 | at most one focused cell, none when unfocused, the cell at the code length when focused and in range; the focus animation only on the focused cell of an animated widget |
| CellView.PlainCellsShowCharacters | src/index.tsx:236-252 | without password mode no mask is shown and every filled cell shows its own character |
| CellView.PasswordCellsMasked | src/index.tsx:238-259 | in password mode with a non-null mask every filled cell shows the mask, except the last one during the reveal window, which shows its character |
| CellView.UnfilledCellsShowPlaceholder | src/index.tsx:245-257 | every cell past the code shows the placeholder content |
| PinEntry.Filtered | src/index.tsx:137-139 | the digits of the raw text under restrictToNumbers, the raw text unchanged otherwise; never longer than the raw text |
| PinEntry.InputEvents | src/index.tsx:141-147 | only TextChange and Fulfill of the filtered text, each at most once; TextChange present iff supplied, and first; Fulfill present iff supplied and the length equals codeLength |
| PinEntry.RevealNeedsGrowth | src/index.tsx:149 | the reveal flag needs password mode and a raw text longer than value; it is off without password and after a shrinking or same-length edit |
| PinEntry.AppendedCharReveals | src/index.tsx:137-149 | with the digit filter on and a digit-only value, appending a character opens the reveal window iff the character is a digit |
| PinEntry.DefaultPropsBehaviour | src/index.tsx:336-353 | under defaultProps the code is fulfilled at exactly four characters, text passes unfiltered, the reveal window never opens, the mask delay is 200; with password switched on and outside the reveal window filled cells show "*", and unfilled cells show the empty placeholder text |
| PinEntry.Animate | src/index.tsx:102-117 | rejected with "Animations are disabled" exactly when animations are off; delegated with the given name and duration exactly when on and the view offers the animation; otherwise no result (`undefined`) |
| PinEntry.Shake | src/index.tsx:119-120 | equals `animate` with the name "shake" and the given duration (default 650): rejected when animations are off, "shake" started when the view offers it, otherwise no result |
| PinEntry.RNPinEntry.AtMostOnePending | src/index.tsx:153-158 | under the class invariant at most one timer is pending |
| PinEntry.RNPinEntry.constructor | src/index.tsx:92-100 | unfocused, no reveal, no timer stored or pending |
| PinEntry.RNPinEntry.ClearTimeout | src/index.tsx:154 | cancels the stored timer if still pending, nothing else changes |
| PinEntry.RNPinEntry.SetTimeout | src/index.tsx:155-157 | arms a fresh timer with the mask delay and stores its handle |
| PinEntry.RNPinEntry.InputCode | src/index.tsx:134-159 | returns the input events (InputEvents); maskDelay becomes the reveal flag RevealsAfter, computed from the filtered text against the previous value; when it is on the old timer is cleared and exactly one fresh timer is pending; otherwise the timer state is untouched; focus unchanged; invariant kept |
| PinEntry.RNPinEntry.TimerFires | src/index.tsx:155-157 | a pending timer fires once and switches maskDelay off, changing nothing else; a cleared or spent timer does nothing |
| PinEntry.RNPinEntry.KeyPress | src/index.tsx:161-168 | emits Backspace exactly when the key is Backspace, value is empty and onBackspace is supplied; otherwise nothing; no state changes |
| PinEntry.RNPinEntry.OnFocused | src/index.tsx:170-175 | focused becomes true, Focus emitted iff onFocus supplied, nothing else changes |
| PinEntry.RNPinEntry.OnBlurred | src/index.tsx:177-182 | focused becomes false, Blur emitted iff onBlur supplied, nothing else changes |
| PinEntry.RNPinEntry.Unmount | src/index.tsx:188-190 | no timer is pending afterwards, the flags are unchanged |
| PinEntry.RNPinEntry.Cells | src/index.tsx:217-237 | one cell per index below codeLength; with a valid mounted widget in password mode with a non-null mask, once no timer is pending every filled cell shows the mask (no character stays revealed); an unfocused widget has no focused cell |
| EchoOwner.Echo | example/src/App.tsx:34 | the owner's new value is the text of the last reported TextChange, or the old value when none was reported |
| EchoOwner.EchoTakesFilteredText | example/src/App.tsx:34 | an echoing owner takes on exactly the filtered text of the edit |
| EchoOwner.TypeAndWait | src/index.tsx:134-158 | typing a character in password mode reports the grown value (and Fulfill at codeLength); before the timer fires the new cell shows the typed character, after it fires the cell shows the mask and nothing is pending |
| EchoOwner.TypePin | src/index.tsx:134-158 | typing 1, 2, 3, 4 reports the four texts in order and fulfils "1234" once |

## Left out

- Styling and layout: `StyleSheet`, style arrays, right-to-left layout and the container and cell size arithmetic. These are presentation only.
- The animation itself runs in `react-native-animatable`, a foreign component. Only the choice between rejected, delegated and `undefined` is modelled. The set of animations the mounted view offers is a parameter.
- `focus`, `blur`, `clear` and `_forceFocus` only forward to the text input's own methods, which are foreign.
- The text input's props (`maxLength`, `selection`, `keyboardType`, `editable`) belong to the text-input component. `_inputCode` does not truncate to `codeLength`, so the model does not bound the raw text either.
- Real timer delays and React's `setState` batching. State updates apply at once, and timer expiry is an explicit event.
- InputCode requires a mounted widget: React does not call handlers after unmounting, and a growing edit after unmount would arm a timer that nothing clears. Unmount also requires it, since `componentWillUnmount` runs once. The other handlers do not need the requirement, since they arm no timer.
- Text styles chosen for the focused cell (`textStyleFocused`) are presentation and are not modelled.
- JavaScript strings are UTF-16: in the source, `value.length`, the `code.length === codeLength` test and `charAt` count code units, so a character outside the Basic Multilingual Plane fills two cells and counts twice toward `codeLength`. The model works on Dafny characters, where such a character fills one cell and counts once.
- Animate: the Dafny default arguments model `animate({})`. Calling `animate()` with no argument at all throws a TypeError while destructuring `undefined`, before the `animated` test; the prop type forbids that call, so it is not modelled.
