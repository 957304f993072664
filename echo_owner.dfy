/**
 * An owner of the widget that echoes every text change back into the `value`
 * prop, as the demo screen does, and a typing session driven through it.
 */
module EchoOwner {
  import opened CellView
  import opened PinEntry

  /** No TextChange follows position `i`. */
  predicate LastTextChange(events: seq<Event>, i: nat) {
    forall j :: i < j < |events| ==> !events[j].TextChange?
  }

  /** The owner's next `value`: the text of the last TextChange among `events`, else the old value. */
  function Echo(value: string, events: seq<Event>): (v: string)
    ensures v == value || TextChange(v) in events
    ensures (forall i :: 0 <= i < |events| ==> !events[i].TextChange?) ==> v == value
    ensures forall i :: 0 <= i < |events| && events[i].TextChange? && LastTextChange(events, i) ==> v == events[i].code
  {
    if events == [] then value
    else if events[|events| - 1].TextChange? then events[|events| - 1].code
    else Echo(value, events[..|events| - 1])
  }

  /** An echoing owner always takes on the filtered text of the edit. */
  lemma EchoTakesFilteredText(p: Props, raw: string)
    requires p.handlers.onTextChange
    ensures Echo(p.value, InputEvents(p, raw)) == Filtered(p.restrictToNumbers, raw)
  {
  }

  /** Typing one character into an echoing owner's widget, then letting its reveal timer run out. */
  method TypeAndWait(w: RNPinEntry, p: Props, c: char) returns (events: seq<Event>, value: string, revealed: Content)
    requires w.Valid() && w.mounted
    requires p.handlers.onTextChange && !p.restrictToNumbers && p.view.password
    requires |p.value| < p.view.codeLength && p.view.mask == TextV("*")
    modifies w
    ensures w.Valid() && w.mounted && !w.maskDelay && w.scheduled == {}
    ensures value == p.value + [c]
    ensures events == [TextChange(value)] + if |value| == p.view.codeLength && p.handlers.onFulfill then [Fulfill(value)] else []
    ensures revealed == Text([c])
    ensures Displayed(Derive(value, |p.value|, p.view, w.focused, w.maskDelay)) == Text("*")
  {
    events := w.InputCode(p, p.value + [c]);
    value := Echo(p.value, events);
    EchoTakesFilteredText(p, p.value + [c]);
    var q := p.(value := value);
    assert w.maskDelay;
    ContentResolution(value, |p.value|, p.view, w.focused, w.maskDelay);
    revealed := Displayed(w.Cells(q)[|p.value|]);
    assert events == InputEvents(p, value);
    var fired := w.TimerFires(w.maskTimeout.value.id);
    assert fired;
    ContentResolution(value, |p.value|, p.view, w.focused, w.maskDelay);
  }

  /** Typing 1, 2, 3, 4 into a password widget of length 4: every edit reports its text, the last one fulfils. */
  method TypePin() returns (log: seq<Event>)
    ensures log == [TextChange("1"), TextChange("12"), TextChange("123"), TextChange("1234"), Fulfill("1234")]
  {
    var w := new RNPinEntry();
    var owner := Handlers(true, true, false, false, false);
    var cfg := Config(4, true, TextV("*"), TextV(""), true, "pulse");
    var value := "";
    var events, revealed;
    log := [];
    events, value, revealed := TypeAndWait(w, Props(value, cfg, 200, false, owner), '1');
    assert value == "" + ['1'] == "1";
    assert events == [TextChange("1")];
    log := log + events;
    events, value, revealed := TypeAndWait(w, Props(value, cfg, 200, false, owner), '2');
    assert value == "1" + ['2'] == "12";
    assert events == [TextChange("12")];
    log := log + events;
    events, value, revealed := TypeAndWait(w, Props(value, cfg, 200, false, owner), '3');
    assert value == "12" + ['3'] == "123";
    assert events == [TextChange("123")];
    log := log + events;
    events, value, revealed := TypeAndWait(w, Props(value, cfg, 200, false, owner), '4');
    assert value == "123" + ['4'] == "1234";
    assert events == [TextChange("1234"), Fulfill("1234")];
    log := log + events;
    assert value == "1234";
    w.Unmount();
    var late := w.TimerFires(0);
    assert !late;
  }
}
