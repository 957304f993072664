/**
 * The per-cell view derivation done inside RNPinEntry's render pass: for every
 * cell index below `codeLength` it decides the flags `filled`, `cellFocused`,
 * `last` and `showMask`, the focus animation name, and which of the cell's
 * three children (a Text, the placeholder component, the mask component)
 * is rendered, with what content.
 */
module CellView {
  import opened Wrappers

  /** A `mask` or `placeholder` prop: a string, a custom element, or an explicit `null`. */
  datatype Visual = TextV(s: string) | Element(id: nat) | Null

  /** The render-relevant props. */
  datatype Config = Config(
    codeLength: nat,
    password: bool,
    mask: Visual,
    placeholder: Visual,
    animated: bool,
    animationFocused: string)

  /**
   * The three child slots of a cell, in render order: the styled Text with its
   * string, the placeholder component, the mask component. `None` means the
   * slot renders nothing.
   */
  datatype Children = Children(text: Option<string>, placeholder: Option<nat>, mask: Option<nat>)

  datatype Cell = Cell(
    filled: bool,
    focused: bool,
    last: bool,
    showMask: bool,
    animation: string,
    children: Children)

  /** What a cell finally shows. */
  datatype Content = Text(s: string) | PlaceholderElement(id: nat) | MaskElement(id: nat) | Nothing

  /** JavaScript's `charAt`: the one-character string at `idx`, or "" past the end. */
  function CharAt(value: string, idx: nat): string {
    if idx < |value| then [value[idx]] else ""
  }

  /** The local `cellText`: the string the Text child would show, if any. */
  function CellText(value: string, idx: nat, cfg: Config, showMask: bool): Option<string> {
    var filled := idx < |value|;
    var pinCodeChar := CharAt(value, idx);
    if filled || cfg.placeholder != Null then
      if showMask && cfg.mask.TextV? then Some(cfg.mask.s)
      else if !filled && cfg.placeholder.TextV? then Some(cfg.placeholder.s)
      else if pinCodeChar != "" then Some(pinCodeChar)
      else None
    else None
  }

  /** A non-string visual as a component (an element, or nothing for `null`). */
  function Component(v: Visual): Option<nat> {
    if v.Element? then Some(v.id) else None
  }

  /** The cell at index `idx` for the current value, props and widget state. */
  function Derive(value: string, idx: nat, cfg: Config, focused: bool, maskDelay: bool): (c: Cell)
    ensures c.filled <==> idx < |value|
    ensures c.last <==> idx + 1 == |value|
    ensures c.focused <==> focused && idx == |value|
    ensures c.showMask <==> idx < |value| && cfg.password && !(maskDelay && idx + 1 == |value|)
  {
    var valLen := |value|;
    var cellFocused := focused && idx == valLen;
    var filled := idx < valLen;
    var last := idx == valLen - 1;
    var showMask := filled && cfg.password && (!maskDelay || !last);
    var cellText := CellText(value, idx, cfg, showMask);
    var placeholderComponent := if !cfg.placeholder.TextV? then Component(cfg.placeholder) else None;
    var maskComponent := if showMask && !cfg.mask.TextV? then Component(cfg.mask) else None;
    var isCellText := cellText.Some?;
    var children := Children(
      if isCellText && maskComponent.None? then cellText else None,
      if !isCellText && maskComponent.None? then placeholderComponent else None,
      if isCellText then maskComponent else None);
    var animation := if idx == valLen && focused && cfg.animated then cfg.animationFocused else "";
    Cell(filled, cellFocused, last, showMask, animation, children)
  }

  /** The cells of one render pass: one per index below `codeLength`. */
  function Render(value: string, cfg: Config, focused: bool, maskDelay: bool): (cells: seq<Cell>)
    ensures |cells| == cfg.codeLength
    ensures forall i :: 0 <= i < |cells| ==> cells[i] == Derive(value, i, cfg, focused, maskDelay)
  {
    seq(cfg.codeLength, i requires 0 <= i => Derive(value, i, cfg, focused, maskDelay))
  }

  /** Number of child slots that render something. */
  function RenderedChildren(ch: Children): nat {
    (if ch.text.Some? then 1 else 0) + (if ch.placeholder.Some? then 1 else 0) + (if ch.mask.Some? then 1 else 0)
  }

  /** What the cell displays, read off its child slots. */
  function Displayed(c: Cell): Content {
    var ch := c.children;
    if ch.text.Some? then Text(ch.text.value)
    else if ch.placeholder.Some? then PlaceholderElement(ch.placeholder.value)
    else if ch.mask.Some? then MaskElement(ch.mask.value)
    else Nothing
  }

  /** The content a visual stands for when it is shown as a mask. */
  function MaskContent(v: Visual): Content {
    match v
    case TextV(s) => Text(s)
    case Element(e) => MaskElement(e)
    case Null => Nothing
  }

  /** The content a visual stands for when it is shown as a placeholder. */
  function PlaceholderContent(v: Visual): Content {
    match v
    case TextV(s) => Text(s)
    case Element(e) => PlaceholderElement(e)
    case Null => Nothing
  }

  /**
   * The resolution of a cell's content, stated case by case: a filled cell in
   * password mode shows the mask unless it is the last filled cell during the
   * reveal window (or the mask is `null`), otherwise its own character; an
   * unfilled cell shows the placeholder.
   */
  function Intended(value: string, idx: nat, cfg: Config, maskDelay: bool): Content {
    if idx < |value| then
      if cfg.password && !(maskDelay && idx + 1 == |value|) && cfg.mask != Null then MaskContent(cfg.mask)
      else Text([value[idx]])
    else PlaceholderContent(cfg.placeholder)
  }

  /** At most one of the three children of a cell renders. */
  lemma AtMostOneChild(value: string, idx: nat, cfg: Config, focused: bool, maskDelay: bool)
    ensures RenderedChildren(Derive(value, idx, cfg, focused, maskDelay).children) <= 1
    ensures RenderedChildren(Derive(value, idx, cfg, focused, maskDelay).children) == 0
        <==> Intended(value, idx, cfg, maskDelay) == Nothing
  {
  }

  /** The if-chain of the render pass resolves to the intended content. */
  lemma ContentResolution(value: string, idx: nat, cfg: Config, focused: bool, maskDelay: bool)
    ensures Displayed(Derive(value, idx, cfg, focused, maskDelay)) == Intended(value, idx, cfg, maskDelay)
  {
  }

  /**
   * Focus is shown on the cell just past the entered code and on no other;
   * with the widget unfocused no cell is focused, and the focus animation
   * runs only on the focused cell of an animated widget.
   */
  lemma FocusedCell(value: string, cfg: Config, focused: bool, maskDelay: bool)
    ensures var cells := Render(value, cfg, focused, maskDelay);
      (forall i, j :: 0 <= i < j < |cells| ==> !(cells[i].focused && cells[j].focused))
      && (!focused ==> forall i :: 0 <= i < |cells| ==> !cells[i].focused)
      && (focused && |value| < cfg.codeLength ==> cells[|value|].focused)
      && (forall i :: 0 <= i < |cells| && cells[i].animation != "" ==> cells[i].focused && cfg.animated)
  {
  }

  /** Without password mode every filled cell shows its own character and no mask is shown. */
  lemma PlainCellsShowCharacters(value: string, cfg: Config, focused: bool, maskDelay: bool)
    requires !cfg.password
    ensures var cells := Render(value, cfg, focused, maskDelay);
      forall i :: 0 <= i < |cells| && i < |value| ==>
        !cells[i].showMask && Displayed(cells[i]) == Text([value[i]])
  {
  }

  /**
   * In password mode with a mask configured, every filled cell shows the mask,
   * except during the reveal window, when the last filled cell alone shows its
   * own character.
   */
  lemma PasswordCellsMasked(value: string, cfg: Config, focused: bool, maskDelay: bool)
    requires cfg.password && cfg.mask != Null
    ensures var cells := Render(value, cfg, focused, maskDelay);
      forall i :: 0 <= i < |cells| && i < |value| ==>
        Displayed(cells[i]) == if maskDelay && i == |value| - 1 then Text([value[i]]) else MaskContent(cfg.mask)
  {
  }

  /** Every cell past the entered code shows the placeholder. */
  lemma UnfilledCellsShowPlaceholder(value: string, cfg: Config, focused: bool, maskDelay: bool)
    ensures var cells := Render(value, cfg, focused, maskDelay);
      forall i :: |value| <= i < |cells| ==> Displayed(cells[i]) == PlaceholderContent(cfg.placeholder)
  {
  }
}
