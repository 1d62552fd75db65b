/** The single-file script gptauto.py: how `ask_chatgpt` cuts a prompt into
    batches and types them, and the button labels it watches. */
module Legacy {
  import opened Wrappers
  import opened Text
  import opened Keyboard

  /** Texts longer than this are cut by `textwrap.wrap`. */
  const MaxTextBatchWidth := 20000

  /** `textwrap.wrap(text, fix_sentence_endings=True, width=MAX_TEXT_BATCH_WIDTH)`, left abstract. */
  type Wrapper = string -> seq<string>

  /** The text batches before any prompt is added. */
  function Chunks(text: string, wrap: Wrapper): seq<string> {
    if |text| > MaxTextBatchWidth then wrap(text) else [text]
  }

  /** A later batch between its prompts: each prompt, when non-empty, is
      joined to the batch by a newline. */
  function Decorate(b: string, startBatch: string, endBatch: string): (d: string)
    ensures startBatch != [] ==> StartsWith(d, startBatch + "\n")
    ensures |d| == |b| + (if startBatch != [] then |startBatch| + 1 else 0) + (if endBatch != [] then |endBatch| + 1 else 0)
  {
    var withStart := if startBatch != [] then startBatch + "\n" + b else b;
    if endBatch != [] then withStart + "\n" + endBatch else withStart
  }

  predicate EndsWith(s: string, suffix: string) {
    |suffix| <= |s| && s[|s| - |suffix|..] == suffix
  }

  /** Removes the prompts `Decorate` adds. */
  function Undecorate(d: string, startBatch: string, endBatch: string): string {
    var a := if startBatch != [] && StartsWith(d, startBatch + "\n") then d[|startBatch| + 1..] else d;
    if endBatch != [] && EndsWith(a, "\n" + endBatch) then a[..|a| - |endBatch| - 1] else a
  }

  /** The prompts can always be taken off again: no batch text is lost. */
  lemma UndecorateDecorate(b: string, startBatch: string, endBatch: string)
    ensures Undecorate(Decorate(b, startBatch, endBatch), startBatch, endBatch) == b
  {
    var d := Decorate(b, startBatch, endBatch);
    var tail := if endBatch != [] then b + "\n" + endBatch else b;
    if startBatch != [] {
      assert d == (startBatch + "\n") + tail;
      assert d[|startBatch| + 1..] == tail;
    } else {
      assert d == tail;
    }
    if endBatch != [] {
      assert tail[|tail| - |endBatch| - 1..] == "\n" + endBatch;
      assert tail[..|b|] == b;
    }
  }

  /** `__batch_text`: the optional start prompt is batch 0 and stays as it
      is; every later batch is decorated with the batch prompts. */
  function BatchText(text: string, startPrompt: string, startBatch: string, endBatch: string, wrap: Wrapper): (r: seq<string>)
    ensures text == [] ==> r == []
    ensures text != [] ==> |r| == |Chunks(text, wrap)| + (if startPrompt != [] then 1 else 0)
    ensures text != [] && startPrompt != [] ==> r[0] == startPrompt
    ensures text != [] && startPrompt == [] && r != [] ==> r[0] == Chunks(text, wrap)[0]
    ensures text != [] ==> forall i :: 1 <= i < |r| ==>
      r[i] == Decorate(Chunks(text, wrap)[if startPrompt != [] then i - 1 else i], startBatch, endBatch)
    ensures text != [] ==> forall i :: 1 <= i < |r| ==>
      Undecorate(r[i], startBatch, endBatch) == Chunks(text, wrap)[if startPrompt != [] then i - 1 else i]
  {
    if text == [] then []
    else
      var chunks := Chunks(text, wrap);
      var batches := if startPrompt != [] then [startPrompt] + chunks else chunks;
      var r := seq(|batches|, i requires 0 <= i < |batches| => if i == 0 then batches[0] else Decorate(batches[i], startBatch, endBatch));
      assert forall i :: 1 <= i < |r| ==> Undecorate(r[i], startBatch, endBatch) == batches[i] by {
        forall i | 1 <= i < |r| ensures Undecorate(r[i], startBatch, endBatch) == batches[i] {
          UndecorateDecorate(batches[i], startBatch, endBatch);
        }
      }
      r
  }

  /** A text that needs no wrapping comes back whole: alone, or decorated
      after the start prompt. */
  lemma ShortTextBatches(text: string, startPrompt: string, startBatch: string, endBatch: string, wrap: Wrapper)
    requires 0 < |text| <= MaxTextBatchWidth
    ensures BatchText(text, startPrompt, startBatch, endBatch, wrap)
      == if startPrompt == [] then [text] else [startPrompt, Decorate(text, startBatch, endBatch)]
  {
  }

  // ---------------------------------------------------------------------------
  // Typing a batch

  /** `__send_newline`: Shift is released before Enter. */
  function LegacyNewline(): seq<Action> {
    [KeyDown(Shift), KeyDown(Enter), KeyUp(Shift), KeyUp(Enter)]
  }

  /** One `send_keys(line)` and one newline chord per line. */
  function LinesKeys(lines: seq<string>): seq<Action> {
    if lines == [] then [] else [SendKeys(lines[0])] + LegacyNewline() + LinesKeys(lines[1..])
  }

  /** The per-line loop for one batch, then the click on the send button. */
  function BatchKeys(batch: string): seq<Action> {
    LinesKeys(Split(batch, '\n')) + [Click(SendButton)]
  }

  lemma LegacyNewlineBreaksLine(c: string, s: seq<string>)
    ensures Run(Editor(c, {}, s), LegacyNewline()) == Editor(c + "\n", {}, s)
  {
  }

  /** The lines end up in the box joined by newlines, with one more newline
      after the last. */
  lemma {:induction false} LinesKeysTyped(c: string, lines: seq<string>, s: seq<string>)
    requires lines != []
    ensures Run(Editor(c, {}, s), LinesKeys(lines)) == Editor(c + Join(lines, '\n') + "\n", {}, s)
    decreases |lines|
  {
    var e := Editor(c, {}, s);
    var first := [SendKeys(lines[0])] + LegacyNewline();
    assert LinesKeys(lines) == first + LinesKeys(lines[1..]);
    RunConcat(e, first, LinesKeys(lines[1..]));
    RunConcat(e, [SendKeys(lines[0])], LegacyNewline());
    assert Run(e, [SendKeys(lines[0])]) == Editor(c + lines[0], {}, s);
    LegacyNewlineBreaksLine(c + lines[0], s);
    var c' := c + lines[0] + "\n";
    if |lines| == 1 {
      assert LinesKeys(lines[1..]) == [];
    } else {
      LinesKeysTyped(c', lines[1..], s);
      JoinCons(lines[0], lines[1..], '\n');
      assert [lines[0]] + lines[1..] == lines;
      assert c' + Join(lines[1..], '\n') + "\n" == c + Join(lines, '\n') + "\n";
    }
  }

  /** Typing a batch submits it once, with a newline added at its end. */
  lemma BatchSubmits(c: string, batch: string, s: seq<string>)
    ensures Run(Editor(c, {}, s), BatchKeys(batch)) == Editor([], {}, s + [c + batch + "\n"])
  {
    var lines := Split(batch, '\n');
    LinesKeysTyped(c, lines, s);
    JoinSplit(batch, '\n');
    RunConcat(Editor(c, {}, s), LinesKeys(lines), [Click(SendButton)]);
  }

  lemma {:induction false} LinesKeysChords(lines: seq<string>)
    ensures Presses(LinesKeys(lines), Shift) == |lines|
    ensures Releases(LinesKeys(lines), Shift) == |lines|
    ensures Presses(LinesKeys(lines), Enter) == |lines|
    decreases |lines|
  {
    if lines != [] {
      LinesKeysChords(lines[1..]);
      LineCounts(lines[0], LinesKeys(lines[1..]));
    }
  }

  /** One line's input adds one press and one release of Shift and of Enter. */
  lemma LineCounts(line: string, rest: seq<Action>)
    ensures forall k :: Presses([SendKeys(line)] + LegacyNewline() + rest, k) == Presses(rest, k) + (if k == Shift || k == Enter then 1 else 0)
    ensures forall k :: Releases([SendKeys(line)] + LegacyNewline() + rest, k) == Releases(rest, k) + (if k == Shift || k == Enter then 1 else 0)
  {
    assert multiset([SendKeys(line)] + LegacyNewline() + rest) == multiset([SendKeys(line)]) + multiset(LegacyNewline()) + multiset(rest);
    assert multiset(LegacyNewline()) == multiset{KeyDown(Shift), KeyDown(Enter), KeyUp(Shift), KeyUp(Enter)};
  }

  /** One chord per line: the number of newlines in the batch plus one. */
  lemma BatchChords(batch: string)
    ensures Presses(BatchKeys(batch), Shift) == Count(batch, '\n') + 1
    ensures Releases(BatchKeys(batch), Shift) == Count(batch, '\n') + 1
    ensures Presses(BatchKeys(batch), Enter) == Count(batch, '\n') + 1
  {
    LinesKeysChords(Split(batch, '\n'));
  }

  /** The chords of the two scripts release their keys in opposite order. */
  lemma ChordReleaseOrders()
    ensures LegacyNewline()[2] == KeyUp(Shift) && LegacyNewline()[3] == KeyUp(Enter)
    ensures ShiftEnterChord()[4] == KeyUp(Enter) && ShiftEnterChord()[6] == KeyUp(Shift)
  {
  }

  // ---------------------------------------------------------------------------
  // Watching the action button

  const StopText := "Stop generating"
  const RegenText := "Regenerate response"

  /** The button text holds `text` (an empty caption never does). */
  predicate Shows(caption: string, text: string) {
    caption != [] && Contains(caption, text)
  }

  /** `__click_stop`: `button` is None when the button could not be located,
      and `clickDone` is false when the bounded wait inside `click_element`
      gave up, whose exception the function does not catch. The result says
      whether stop was clicked. */
  function ClickStop(button: Option<string>, clickDone: bool): (r: Result<bool, Error>)
    ensures r == Success(true) <==> clickDone && button.Some? && exists i :: OccursAt(button.value, StopText, i)
    ensures r.Failure? <==> !clickDone && button.Some? && exists i :: OccursAt(button.value, StopText, i)
    ensures r.Failure? ==> r.error == ElementTimeout
  {
    if button.Some? then
      ContainsWindow(button.value, StopText);
      if !Shows(button.value, StopText) then Success(false)
      else if clickDone then Success(true)
      else Failure(ElementTimeout)
    else Success(false)
  }

  /** The condition `__wait_for_answer` waits for. */
  function AnswerComplete(caption: string): (done: bool)
    ensures done <==> exists i :: OccursAt(caption, RegenText, i)
  {
    ContainsWindow(caption, RegenText);
    Shows(caption, RegenText)
  }

  /** The stop label never counts as a finished answer. */
  lemma StopIsNotRegen()
    ensures !Shows(StopText, RegenText)
  {
    assert RegenText[0] == 'R';
    assert 'R' !in StopText;
    FirstCharAbsent(StopText, RegenText);
  }

  /** The regenerate label never makes the script click stop. */
  lemma RegenIsNotStop()
    ensures !Shows(RegenText, StopText)
  {
    assert StopText[0] == 'S';
    assert 'S' !in RegenText;
    FirstCharAbsent(RegenText, StopText);
  }

  /** One attempt of `__wait_for_answer`: the caption read, a failed lookup
      (which the loop swallows), or a keyboard interrupt. */
  datatype LabelPoll = Shown(caption: string) | Missing | Interrupted

  predicate EndsWait(p: LabelPoll) {
    p.Interrupted? || (p.Shown? && AnswerComplete(p.caption))
  }

  /** `__wait_for_answer` over a record of attempts: the attempt it returns
      at, or None while it is still looping. */
  function WaitForAnswer(polls: seq<LabelPoll>, k: nat): (r: Option<nat>)
    requires k <= |polls|
    ensures r.Some? ==> k <= r.value < |polls| && EndsWait(polls[r.value]) && forall j :: k <= j < r.value ==> !EndsWait(polls[j])
    ensures r.None? ==> forall j :: k <= j < |polls| ==> !EndsWait(polls[j])
    decreases |polls| - k
  {
    if k == |polls| then None
    else if EndsWait(polls[k]) then Some(k)
    else WaitForAnswer(polls, k + 1)
  }

  // ---------------------------------------------------------------------------
  // Start of ask_chatgpt

  /** What `ask_chatgpt` returns when it gives up early: None, or
      `(None, None)` in chat mode. */
  datatype EmptyReply = NoReply | NoReplyPair

  function EmptyReplyFor(chatMode: bool): EmptyReply {
    if chatMode then NoReplyPair else NoReply
  }

  datatype AskPlan = Early(reply: EmptyReply) | Proceed(batches: seq<string>)

  /** The part of `ask_chatgpt` before any browser work: empty input, or
      input that yields no batch, returns at once. */
  function AskStart(text: string, startPrompt: string, startBatch: string, endBatch: string, chatMode: bool, wrap: Wrapper): (r: AskPlan)
    ensures text == [] ==> r == Early(EmptyReplyFor(chatMode))
    ensures r.Early? <==> BatchText(text, startPrompt, startBatch, endBatch, wrap) == []
    ensures r.Early? ==> r.reply == EmptyReplyFor(chatMode)
    ensures r.Proceed? ==> r.batches == BatchText(text, startPrompt, startBatch, endBatch, wrap) && r.batches != []
  {
    if text == [] then Early(EmptyReplyFor(chatMode))
    else
      var batches := BatchText(text, startPrompt, startBatch, endBatch, wrap);
      if batches == [] then Early(EmptyReplyFor(chatMode)) else Proceed(batches)
  }

  /** With a start prompt there is always something to send. */
  lemma StartPromptAlwaysSent(text: string, startPrompt: string, startBatch: string, endBatch: string, chatMode: bool, wrap: Wrapper)
    requires text != [] && startPrompt != []
    ensures AskStart(text, startPrompt, startBatch, endBatch, chatMode, wrap).Proceed?
  {
  }
}
