/** Message submission as the list of input events the scraper dispatches,
    and an editor that gives those events a meaning: what ends up in the
    input box and what gets submitted. */
module Keyboard {
  import opened Text

  /** The keys the scraper presses. Selenium's `Keys.LEFT_SHIFT` and
      `Keys.SHIFT` are the same key code, so both are `Shift` here. */
  datatype Key = Enter | Shift | Control

  datatype Target = InputArea | SendButton

  datatype Action =
    | MoveTo(target: Target)
    | Click(target: Target)
    | Delay(low: real, high: real)   // `random_sleep(low, high)`: the duration itself is left open
    | SendKeys(keys: string)         // keys typed as text
    | KeyDown(key: Key)
    | KeyUp(key: Key)
    | SetContent(content: string)    // a script assigns the input box's text in one step

  /** `__send_newline` of the humanised scraper: Shift is held over the whole Enter stroke. */
  function ShiftEnterChord(): seq<Action> {
    [ KeyDown(Shift), Delay(0.001, 0.2), KeyDown(Enter), Delay(0.001, 0.2),
      KeyUp(Enter), Delay(0.001, 0.2), KeyUp(Shift), Delay(0.001, 0.2) ]
  }

  /** One character of the typing loop: the chord for a newline, the character otherwise. */
  function CharActions(c: char): seq<Action> {
    if c == '\n' then ShiftEnterChord() else [SendKeys([c])]
  }

  /** The per-character loop: a delay, then the character's actions. */
  function TypeChars(text: string, maxDelay: real): seq<Action> {
    if text == [] then []
    else [Delay(0.001, maxDelay)] + CharActions(text[0]) + TypeChars(text[1..], maxDelay)
  }

  /** `send_message` of the humanised scraper, after the input box has been found. */
  function HumanisedSend(text: string, maxDelay: real): seq<Action> {
    HumanisedFrame(TypeChars(text, maxDelay))
  }

  /** Move to the input box and click it, run `body`, then press and release Enter. */
  function HumanisedFrame(body: seq<Action>): seq<Action> {
    [MoveTo(InputArea), Click(InputArea)] + body + [KeyDown(Enter), KeyUp(Enter)]
  }

  /** `send_message` of the direct scraper: the text is set by script, then Ctrl+Enter.
      The second Control event is a key-down, so Control is never released. */
  function DirectSend(text: string): seq<Action> {
    [ SetContent(text), Delay(1.0, 2.0), MoveTo(InputArea),
      KeyDown(Control), KeyDown(Enter), KeyUp(Enter), KeyDown(Control) ]
  }

  /** How many times `k` goes down in `acts`. */
  function Presses(acts: seq<Action>, k: Key): nat {
    multiset(acts)[KeyDown(k)]
  }

  /** How many times `k` comes up in `acts`. */
  function Releases(acts: seq<Action>, k: Key): nat {
    multiset(acts)[KeyUp(k)]
  }

  /** Everything sent as typed keys, in order. */
  function Typed(acts: seq<Action>): string {
    if acts == [] then [] else (if acts[0].SendKeys? then acts[0].keys else []) + Typed(acts[1..])
  }

  lemma {:induction false} TypedConcat(a: seq<Action>, b: seq<Action>)
    ensures Typed(a + b) == Typed(a) + Typed(b)
    decreases |a|
  {
    if a == [] {
      assert a + b == b;
    } else {
      assert (a + b)[1..] == a[1..] + b;
      TypedConcat(a[1..], b);
    }
  }

  /** The input box as the remote page treats it. Enter while a Shift key is
      held inserts a line break; Enter without Shift, or a click on the send
      button, submits the box's text and empties it. */
  datatype Editor = Editor(content: string, held: set<Key>, submitted: seq<string>)

  function Submit(e: Editor): Editor {
    e.(content := [], submitted := e.submitted + [e.content])
  }

  function Apply(e: Editor, a: Action): Editor {
    match a
    case SetContent(t) => e.(content := t)
    case SendKeys(t) => e.(content := e.content + t)
    case KeyDown(k) =>
      var pressed := e.(held := e.held + {k});
      if k != Enter then pressed
      else if Shift in e.held then pressed.(content := e.content + "\n")
      else Submit(pressed)
    case KeyUp(k) => e.(held := e.held - {k})
    case Click(SendButton) => Submit(e)
    case _ => e
  }

  function Run(e: Editor, acts: seq<Action>): Editor
    decreases |acts|
  {
    if acts == [] then e else Run(Apply(e, acts[0]), acts[1..])
  }

  lemma {:induction false} RunConcat(e: Editor, a: seq<Action>, b: seq<Action>)
    ensures Run(e, a + b) == Run(Run(e, a), b)
    decreases |a|
  {
    if a == [] {
      assert a + b == b;
    } else {
      assert (a + b)[1..] == a[1..] + b;
      RunConcat(Apply(e, a[0]), a[1..], b);
    }
  }

  /** The chord of the humanised scraper adds a line break and leaves the
      held keys as they were. */
  lemma ShiftEnterChordBreaksLine(c: string, h: set<Key>, s: seq<string>)
    requires Shift !in h && Enter !in h
    ensures Run(Editor(c, h, s), ShiftEnterChord()) == Editor(c + "\n", h, s)
  {
  }

  /** One character's input appends that character and leaves the held keys as they were. */
  lemma CharActionsAppend(c: string, ch: char, h: set<Key>, s: seq<string>)
    requires Shift !in h && Enter !in h
    ensures Run(Editor(c, h, s), CharActions(ch)) == Editor(c + [ch], h, s)
  {
  }

  /** Typing `text` character by character appends exactly `text` to the box,
      newlines included, submits nothing and leaves the held keys as they were. */
  lemma {:induction false} TypeCharsAppends(c: string, text: string, maxDelay: real, h: set<Key>, s: seq<string>)
    requires Shift !in h && Enter !in h
    ensures Run(Editor(c, h, s), TypeChars(text, maxDelay)) == Editor(c + text, h, s)
    decreases |text|
  {
    if text == [] {
      assert c + text == c;
    } else {
      var d := [Delay(0.001, maxDelay)];
      var step := CharActions(text[0]);
      var e := Editor(c, h, s);
      assert TypeChars(text, maxDelay) == d + step + TypeChars(text[1..], maxDelay);
      RunConcat(e, d + step, TypeChars(text[1..], maxDelay));
      RunConcat(e, d, step);
      assert Run(e, d) == e;
      CharActionsAppend(c, text[0], h, s);
      TypeCharsAppends(c + [text[0]], text[1..], maxDelay, h, s);
      assert c + [text[0]] + text[1..] == c + text;
    }
  }

  /** Humanised sending submits the box's earlier text followed by `text`,
      exactly once and only at the final Enter, and releases every key it presses. */
  lemma HumanisedSubmitsText(c: string, text: string, maxDelay: real, h: set<Key>, s: seq<string>)
    requires Shift !in h && Enter !in h
    ensures Run(Editor(c, h, s), HumanisedSend(text, maxDelay)) == Editor([], h, s + [c + text])
  {
    var e := Editor(c, h, s);
    var head := [MoveTo(InputArea), Click(InputArea)];
    var tail := [KeyDown(Enter), KeyUp(Enter)];
    var body := TypeChars(text, maxDelay);
    RunConcat(e, head + body, tail);
    RunConcat(e, head, body);
    assert Run(e, head) == e;
    TypeCharsAppends(c, text, maxDelay, h, s);
    var typed := Editor(c + text, h, s);
    assert Run(typed, tail) == Run(Editor([], h + {Enter}, s + [c + text]), tail[1..]);
    assert (h + {Enter}) - {Enter} == h;
  }

  lemma {:induction false} NothingTyped(acts: seq<Action>)
    requires forall i :: 0 <= i < |acts| ==> !acts[i].SendKeys?
    ensures Typed(acts) == []
    decreases |acts|
  {
    if acts != [] {
      NothingTyped(acts[1..]);
    }
  }

  lemma ChordCounts()
    ensures Presses(ShiftEnterChord(), Shift) == 1 && Releases(ShiftEnterChord(), Shift) == 1
    ensures Presses(ShiftEnterChord(), Enter) == 1 && Releases(ShiftEnterChord(), Control) == 0
  {
  }

  lemma CharActionsCounts(c: char)
    ensures var n := if c == '\n' then 1 else 0;
      && Presses(CharActions(c), Shift) == n && Releases(CharActions(c), Shift) == n
      && Presses(CharActions(c), Enter) == n && Releases(CharActions(c), Control) == 0
  {
    if c == '\n' {
      ChordCounts();
    }
  }

  lemma CharActionsTyped(c: char)
    ensures Typed(CharActions(c)) == if c == '\n' then [] else [c]
  {
    if c == '\n' {
      NothingTyped(ShiftEnterChord());
    } else {
      assert Typed(CharActions(c)) == [c] + Typed([]);
    }
  }

  lemma DelayThenCounts(d: Action, step: seq<Action>, rest: seq<Action>)
    requires d.Delay?
    ensures forall k :: Presses([d] + step + rest, k) == Presses(step, k) + Presses(rest, k)
    ensures forall k :: Releases([d] + step + rest, k) == Releases(step, k) + Releases(rest, k)
  {
    assert multiset([d] + step + rest) == multiset([d]) + multiset(step) + multiset(rest);
  }

  lemma {:induction false} TypeCharsKeyCounts(text: string, maxDelay: real)
    ensures Presses(TypeChars(text, maxDelay), Shift) == Count(text, '\n')
    ensures Releases(TypeChars(text, maxDelay), Shift) == Count(text, '\n')
    ensures Presses(TypeChars(text, maxDelay), Enter) == Count(text, '\n')
    ensures Releases(TypeChars(text, maxDelay), Control) == 0
    decreases |text|
  {
    if text != [] {
      DelayThenCounts(Delay(0.001, maxDelay), CharActions(text[0]), TypeChars(text[1..], maxDelay));
      TypeCharsKeyCounts(text[1..], maxDelay);
      CharActionsCounts(text[0]);
    }
  }

  /** The characters sent as keys are the text with its newlines taken out. */
  lemma {:induction false} TypeCharsTyped(text: string, maxDelay: real)
    ensures Typed(TypeChars(text, maxDelay)) == Without(text, '\n')
    decreases |text|
  {
    if text != [] {
      var d := [Delay(0.001, maxDelay)];
      var step := CharActions(text[0]);
      var rest := TypeChars(text[1..], maxDelay);
      assert TypeChars(text, maxDelay) == d + step + rest;
      TypedConcat(d + step, rest);
      TypedConcat(d, step);
      NothingTyped(d);
      CharActionsTyped(text[0]);
      TypeCharsTyped(text[1..], maxDelay);
    }
  }

  /** The click before typing and the final Enter add one Enter stroke and nothing else. */
  lemma FramedCounts(body: seq<Action>)
    ensures forall k :: Presses(HumanisedFrame(body), k) == Presses(body, k) + (if k == Enter then 1 else 0)
    ensures forall k :: Releases(HumanisedFrame(body), k) == Releases(body, k) + (if k == Enter then 1 else 0)
  {
    var head := [MoveTo(InputArea), Click(InputArea)];
    var tail := [KeyDown(Enter), KeyUp(Enter)];
    assert multiset(head + body + tail) == multiset(head) + multiset(body) + multiset(tail);
  }

  /** Humanised sending: one Shift chord per newline and one more Enter to submit. */
  lemma HumanisedKeyCounts(text: string, maxDelay: real)
    ensures Presses(HumanisedSend(text, maxDelay), Shift) == Count(text, '\n')
    ensures Releases(HumanisedSend(text, maxDelay), Shift) == Count(text, '\n')
    ensures Presses(HumanisedSend(text, maxDelay), Enter) == Count(text, '\n') + 1
  {
    FramedCounts(TypeChars(text, maxDelay));
    TypeCharsKeyCounts(text, maxDelay);
  }

  /** Humanised sending: the characters other than newlines are sent as keys, in order. */
  lemma HumanisedTyped(text: string, maxDelay: real)
    ensures Typed(HumanisedSend(text, maxDelay)) == Without(text, '\n')
  {
    var head := [MoveTo(InputArea), Click(InputArea)];
    var tail := [KeyDown(Enter), KeyUp(Enter)];
    var body := TypeChars(text, maxDelay);
    TypedConcat(head + body, tail);
    TypedConcat(head, body);
    NothingTyped(head);
    NothingTyped(tail);
    TypeCharsTyped(text, maxDelay);
  }

  /** Direct sending replaces whatever the box held by `text`, submits it once
      with Ctrl+Enter, and leaves Control held. The editor takes every key
      event as aimed at the box: this strategy never clicks it, so the box is
      taken to have the keyboard focus already. Control may already be held
      from an earlier send, which left it down. */
  lemma DirectSubmitsText(c: string, text: string, h: set<Key>, s: seq<string>)
    requires Shift !in h && Enter !in h
    ensures Run(Editor(c, h, s), DirectSend(text)) == Editor([], h + {Control}, s + [text])
  {
    var acts := DirectSend(text);
    var e1 := Editor(text, h, s);
    var e3 := Editor(text, h + {Control}, s);
    var e4 := Editor([], h + {Control, Enter}, s + [text]);
    var e5 := Editor([], h + {Control}, s + [text]);
    assert (h + {Control, Enter}) - {Enter} == h + {Control};
    assert Run(Editor(c, h, s), acts) == Run(e1, acts[1..]);
    assert Run(e1, acts[1..]) == Run(e1, acts[2..]);
    assert Run(e1, acts[2..]) == Run(e1, acts[3..]);
    assert Apply(e1, KeyDown(Control)) == e3;
    assert Run(e1, acts[3..]) == Run(e3, acts[4..]);
    assert Apply(e3, KeyDown(Enter)) == e4;
    assert Apply(e4, KeyUp(Enter)) == e5;
    assert Apply(e5, KeyDown(Control)) == e5;
    assert Run(e3, acts[4..]) == Run(e4, acts[5..]);
    assert Run(e4, acts[5..]) == Run(e5, acts[6..]);
    assert Run(e5, acts[6..]) == Run(e5, []);
  }

  /** Direct sending presses Control twice and never releases it. */
  lemma DirectControlCounts(text: string)
    ensures Presses(DirectSend(text), Control) == 2 && Releases(DirectSend(text), Control) == 0
  {
  }
}
