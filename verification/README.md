# gptauto in Dafny

This project models the decision logic of gptauto, a Selenium scraper that
drives the ChatGPT web page. There are three Python programs. The scraper
class in `gptauto/scraper.py` targets `https://chat.openai.com` and types
like a human. The scraper class in `gptauto/gpt_scraper.py` targets
`https://chatgpt.com/` and sets the input text in one step. The script
`gptauto.py` is the older single-file version.

Everything the browser observes becomes a plain value:

- the address bar is a string;
- the rendered conversation is a list of `Entry(role, id, text)`;
- the proxy's request log is a list of `Request`s;
- the clock is a `real` read once per polling turn;
- button captions are strings.

Everything the scraper does to the page becomes an `Action`: a key press or
release, a click, a text injection, or a `Delay` token that stands for a
random sleep. A small editor semantics (`Keyboard.Run`) gives those action
lists a meaning. The session is a record: the driver (its handle, address
and zoom), the message cache, and the set of browser processes still
running. Each operation is a pure function from one record to the next.
Python exceptions are values of `Wrappers.Error`.

Modules: `Wrappers` (Option, Result, exceptions), `Text` (the `str` methods
used), `Uuid` (`assert_uuid`), `Location` (`current_chat_id`), `Keyboard`
(both ways of sending a message), `Messages` (`get_messages`),
`Completion` (`wait_completion`), `Session` (the scraper object and its
guarded operations, with a `Config` for each of the two classes), `Legacy`
(`gptauto.py`).

Behaviour of the code that is easy to misread, reproduced as written:

- `start` never clears the message cache, and it creates the new browser
  before validating the chat id. An invalid id therefore raises with a blank
  browser already assigned.
- When no conversation entry can be located, `get_messages` raises the
  element wait's timeout. It does not yield an empty sequence.
- An entry without an id attribute ends the iteration with a TypeError.
  `UUID(None)` raises TypeError, and the loop only catches ValueError.
- A cache hit yields the cached raw text and then falls through to the role
  branch, so that id is yielded a second time, as a new message. This
  behaviour is modelled as written (`Messages.Extract`). A variant that
  yields each entry at most once (`Messages.ExtractSingle`) sits next to it, with a lemma showing
  where the two differ.
- `gptauto/scraper.py` imports `assert_uuid` from `gptauto/utils.py`, which
  does not define it. Both scraper classes are given the definition in
  `gptauto/gpt_scraper.py`.
- Inside `get_messages`, the id test is a parameter of `Messages.Extract`,
  and `get_messages` instantiates it with `Uuid.IsValidUuid`. The loop's
  lemmas hold for any id test. The lemmas stated for the scraper itself
  (`Messages.BuiltMessagesConstruct`, `Session.ReadMessagesSpec`) use
  `assert_uuid`.

## Model

| member | source | states |
|---|---|---|
| Uuid.NormalizeUuid | gptauto/gpt_scraper.py:66-69 | `assert_uuid` accepts exactly the texts that, after the removal of "urn:" and "uuid:", of surrounding braces and of hyphens, are 32 hex digits; what it returns is always lower-case 8-4-4-4-12 text with version digit 4 and variant digit 8, 9, a or b |
| Uuid.ShapeNormalize | gptauto/gpt_scraper.py:66-69 | any 8-4-4-4-12 hex text is accepted; the result keeps every digit (lower-cased) except position 14, which becomes 4, and position 19, whose top two bits become 10 |
| Uuid.CanonicalFixpoint | gptauto/gpt_scraper.py:66-69 | canonical version-4 text comes back unchanged |
| Uuid.NormalizeIdempotent | gptauto/gpt_scraper.py:66-69 | normalising a normalised id changes nothing |
| Uuid.StrayCharRejected | gptauto/gpt_scraper.py:66-69 | in the model, a character that is neither a hex digit nor removed by the clean-up steps makes the id invalid; Python raises ValueError for such a character only when `int(hex, 16)` rejects it too |
| Location.ChatId | gptauto/scraper.py:190-199 | None unless the address starts with base + "/c/"; a returned id is non-empty, has no '/', directly follows the prefix and ends at the end of the address or at a '/' |
| Location.ChatIdRoundTrip | gptauto/scraper.py:193-199 | prefix + id + rest gives back id, for any non-empty id without '/' and any rest that is empty or starts with '/' |
| Location.ChatIdNone | gptauto/scraper.py:193-199 | None exactly when the prefix is missing, nothing follows it, or a '/' directly follows it |
| Location.SingleSlashAddressHasNoId | gptauto/gpt_scraper.py:198-207 | with base "https://chatgpt.com/" the prefix compared is "https://chatgpt.com//c/", so an address "https://chatgpt.com/c/" + id yields no id |
| Keyboard.ShiftEnterChordBreaksLine | gptauto/scraper.py:176-187 | the Shift/Enter chord adds one line break to the input box, submits nothing and leaves the held keys as they were, whenever neither Shift nor Enter was held before |
| Keyboard.ChordCounts | gptauto/scraper.py:176-187 | the chord presses and releases Shift (`Keys.LEFT_SHIFT`, the same key code as `Keys.SHIFT`) once, presses Enter once, and releases no Control key |
| Keyboard.TypeCharsAppends | gptauto/scraper.py:210-216 | the per-character loop appends exactly the text, line breaks included, submits nothing and leaves the held keys as they were |
| Keyboard.HumanisedSubmitsText | gptauto/scraper.py:202-219 | humanised sending submits the box's earlier content followed by the text, once, at the final Enter, and releases every key it presses, from any held keys other than Shift and Enter |
| Keyboard.HumanisedKeyCounts | gptauto/scraper.py:202-219 | Shift is pressed and released once per newline; Enter is pressed once per newline plus the final submission |
| Keyboard.HumanisedTyped | gptauto/scraper.py:210-216 | the characters sent as keys are the text with its newlines removed |
| Keyboard.DirectSubmitsText | gptauto/gpt_scraper.py:210-226 | direct sending replaces the box's content by the text and submits it once with Control+Enter, leaving Control held; this holds with Control already held from an earlier send |
| Keyboard.DirectControlCounts | gptauto/gpt_scraper.py:223-226 | Control is pressed twice and never released |
| Messages.NewMessage | gptauto/scraper.py:37-38 | a message can be built exactly when its id passes `assert_uuid` (ValueError otherwise), and it keeps the id as given |
| Messages.GetMessages | gptauto/scraper.py:222-230 | no located entries raises the element timeout before anything is yielded; an empty list yields nothing and leaves the cache as it was |
| Messages.Extract | gptauto/scraper.py:232-249 | the loop never drops a cache key, and the only exception it raises is the TypeError for an entry without an id |
| Messages.MessagesIgnoreCache | gptauto/scraper.py:232-249 | the messages yielded are the valid user and assistant entries, in rendered order, up to the first entry without an id, whatever the cache held |
| Messages.MissingIdStops | gptauto/scraper.py:233-238 | iteration ends with a TypeError exactly when some entry lacks an id |
| Messages.InvalidEntriesIgnored | gptauto/scraper.py:235-238 | entries whose id fails `assert_uuid` leave no trace: the result equals that of the list without them |
| Messages.CacheKeepsLatest | gptauto/scraper.py:244-249 | afterwards each id written by a valid user or assistant entry holds the text of its last such entry; every other key is unchanged, and no key is lost |
| Messages.SecondReadKeepsCache | gptauto/scraper.py:244-249 | reading the same page again leaves the cache as the first read left it |
| Messages.ExtractConcat | gptauto/scraper.py:232-249 | reading a + b is reading a and then reading b against the cache a left: output follows rendered order |
| Messages.SingleEntry | gptauto/scraper.py:240-249 | one valid entry yields the cached text first, on a hit, and then a new message for a user or assistant role; a cached id therefore comes out twice |
| Messages.BuiltMessagesConstruct | gptauto/scraper.py:244-249 | every message the loop builds passes `__post_init__`, so building it never raises |
| Messages.ExtractSingle | gptauto/scraper.py:240-249 | single-yield variant (one yield per valid entry, not per id): stored messages are never replaced, the store stays keyed by message id, and no entry yields more than once (at most as many yields as entries) |
| Messages.YieldedAreStored | gptauto/scraper.py:240-249 | single-yield variant: every yielded message is the one stored under its id |
| Messages.SecondReadStable | gptauto/scraper.py:240-249 | single-yield variant: a second read yields, for every id known from the first, the message the first read stored |
| Messages.PoliciesDiffer | gptauto/scraper.py:240-249 | for a cached user id the code yields the old text and then a message with the new text, and re-caches the new text; the variant yields the stored message once and changes nothing |
| Completion.SweepRequests | gptauto/scraper.py:259-271 | one sweep stops at the first request that is a POST to the status URL with a non-empty body whose decoding raises (ValueError or TypeError) or holds "status"; it runs to the end exactly when every request is passed over |
| Completion.WaitFrom | gptauto/scraper.py:258-275 | the wait ends at the first turn that is past the deadline or whose sweep stops; every earlier turn was inside the deadline and its sweep ran to the end |
| Completion.WaitCompletion | gptauto/gpt_scraper.py:259-282 | with timeout 0 it never times out; a negative timeout times out at the first turn without looking at a request; a completed wait names a POST to the status URL whose decoded body holds "status" |
| Completion.TimesOutWithoutAnswer | gptauto/gpt_scraper.py:265-282 | with a positive timeout and no request that stops a sweep, a turn past the deadline means a timeout by that turn |
| Completion.AnswerCompletes | gptauto/gpt_scraper.py:265-278 | with a clock that never runs backwards, a status answer in a turn inside the deadline completes the wait by that turn, provided nothing before it raises |
| Session.EditZoom | gptauto/gpt_scraper.py:143-149 | guarded; succeeds exactly for 30 < ratio < 100 and sets the page zoom; otherwise raises and changes nothing |
| Session.Start | gptauto/gpt_scraper.py:151-174 | the previous browser is stopped and a new one created, so exactly one runs; the cache is untouched; success exactly when no id or a valid id is given, after which the browser shows exactly the base address, or the base address + "/c/" + the normalised id, with zoom 40; an invalid id raises with a blank browser |
| Session.Quit | gptauto/gpt_scraper.py:176-185 | no driver, empty cache, no browser left running |
| Session.CurrentChatId | gptauto/gpt_scraper.py:197-207 | raises exactly when the guard fails; otherwise it returns the id read off the address by `Location.ChatId` |
| Session.SendMessage | gptauto/gpt_scraper.py:209-226 | raises when the guard fails or the input box cannot be found; otherwise gives exactly the input of the configured strategy: the humanised typing loop, or the script assignment and Control+Enter |
| Session.ReadMessages | gptauto/scraper.py:221-249 | the guard runs when the generator is created; past it, the outcome is exactly what the `get_messages` loop gives on the current cache, and the cache becomes the loop's |
| Session.AwaitCompletion | gptauto/scraper.py:251-275 | guarded wait against the configured status URL: running out of time raises TimeoutError (never with timeout 0), a decoding error raises, and a completed wait names an answered POST to that URL whose body holds "status" |
| Session.InitialValid | gptauto/scraper.py:57-72 | the state `__init__` leaves (no driver, no browser, empty cache) satisfies the invariant that exactly the held driver's browser runs |
| Session.StartThenChatId | gptauto/gpt_scraper.py:164-170 | after a successful start with an id, `current_chat_id` reads back the normalised id; without an id it reads back none |
| Session.QuitDisablesOperations | gptauto/scraper.py:157-166 | after quit every guarded operation raises DriverNotInitializedError, and a second quit changes nothing |
| Session.FailedStartDisablesOperations | gptauto/gpt_scraper.py:156-168 | after a start that rejected its id, reading the chat id, sending and reading messages all raise DriverNotInitializedError, for any site address that the blank page does not start with |
| Session.BlankPageOffSite | gptauto/gpt_scraper.py:118-125 | the blank page starts with neither class's site address, so the previous lemma covers both classes |
| Session.RestartKeepsCache | gptauto/scraper.py:132-155 | ids cached before a restart still produce their old text on the next read |
| Session.ReadMessagesSpec | gptauto/scraper.py:232-249 | a read yields the valid entries' messages, leaves each id with its latest text, and reading the same page again changes nothing; an empty page is included |
| Session.GptWaitEndsOnStatusPost | gptauto/gpt_scraper.py:258-282 | the `gpt_scraper.py` scraper's wait completes only on an answered POST to exactly "https://chatgpt.com/backend-api/lat/r" whose body holds "status" |
| Session.SendSubmitsText | gptauto/scraper.py:202-219 | for either strategy, sending submits exactly the text once, for every send of a session: the held keys may include Control left from an earlier direct send |
| Legacy.BatchText | gptauto.py:68-93 | empty text gives no batches; otherwise one batch per text chunk plus the start prompt when non-empty; batch 0 is the start prompt or the first chunk, untouched; every later batch is its chunk joined by newlines to the non-empty batch prompts, and gives back its chunk once those prompts are removed |
| Legacy.Decorate | gptauto.py:88-92 | a non-empty start-batch prompt and a newline come first; the length grows by each non-empty prompt plus its newline |
| Legacy.UndecorateDecorate | gptauto.py:88-92 | the batch prompts can always be removed again, so no batch text is lost |
| Legacy.ShortTextBatches | gptauto.py:78-92 | a text of at most 20000 characters is one batch, alone or decorated after the start prompt |
| Legacy.LegacyNewlineBreaksLine | gptauto.py:96-99 | the Shift/Enter chord, with Shift released first, adds one line break and leaves no key held |
| Legacy.LinesKeysTyped | gptauto.py:227-230 | the per-line loop leaves the lines joined by newlines, plus one final newline, in the box |
| Legacy.BatchSubmits | gptauto.py:227-232 | typing a batch and clicking send submits the batch followed by one newline |
| Legacy.BatchChords | gptauto.py:227-230 | one chord per line: newlines plus one |
| Legacy.ChordReleaseOrders | gptauto.py:96-99 | the legacy chord releases Shift before Enter; the scraper's chord releases Enter before Shift |
| Legacy.ClickStop | gptauto.py:102-117 | True exactly when the button was found, its caption contains "Stop generating" and the click went through; the click's TimeoutException escapes when its wait gives up; False in every other case |
| Legacy.AnswerComplete | gptauto.py:141-146 | the answer counts as complete exactly when the caption contains "Regenerate response" |
| Legacy.StopIsNotRegen | gptauto.py:26-27 | the stop caption never counts as a complete answer |
| Legacy.RegenIsNotStop | gptauto.py:26-27 | the regenerate caption never triggers the stop click |
| Legacy.WaitForAnswer | gptauto.py:135-150 | the wait returns at the first attempt that shows the regenerate caption or is interrupted; failed lookups are retried |
| Legacy.AskStart | gptauto.py:181-187 | empty text, or text that gives no batch, returns None, or (None, None) in chat mode, before any browser work; otherwise the batches are sent |
| Legacy.StartPromptAlwaysSent | gptauto.py:181-187 | with non-empty text and a start prompt there is always a batch to send |

## Left out

- Browser provisioning is not modelled: Firefox options, the selenium-wire
  proxy, profile discovery, `__del__` and the `cleanup_resources` call in
  `quit`. A created browser is a fresh handle showing `about:blank`.
- Element waits are not modelled. A wait that gives up is a boolean or an
  Option parameter (`inputFound`, `rendered`, `button`, `clickDone`,
  `LabelPoll.Missing`).
- Legacy.BatchSubmits: the `click_element` on the send button
  (`gptauto.py:232`) is taken to succeed. Its wait giving up raises into the
  exception handling of `ask_chatgpt`, which is not modelled.
- Keyboard.DirectSubmitsText: the direct strategy only moves the pointer
  to the input box and never clicks it, and key events go to whichever
  element has the keyboard focus. The lemma, and `Session.SendSubmitsText`
  for that strategy, take the box to have the focus already.
- Keyboard.TypeCharsAppends, Keyboard.HumanisedSubmitsText and
  Legacy.BatchSubmits: `send_keys` is modelled as typing its text literally.
  WebDriver sends the characters U+E000 to U+E05D (Selenium's `Keys`) as key
  strokes, and U+E007 is Enter. A text holding such characters could be
  submitted part-way, and these lemmas do not cover that.
- Real time is not modelled. `random_sleep` becomes a `Delay(low, high)`
  action. The settling sleep after a completed wait, and the one-second
  sleep in `ask_chatgpt`, are dropped.
- Navigation is not modelled. `driver.get(url)` leaves exactly `url` in the
  address bar, and redirects by the site are not modelled.
- Selenium's `ActionChains` replays its buffer on every `perform()`. The
  model uses the intended list of actions, not that replay.
- JSON decoding is abstract. The decoder is a parameter that classifies a
  body as malformed, falsy, not iterable, or iterable with or without
  "status". The intercepted request log is an input.
- `textwrap.wrap` is an uninterpreted parameter.
- Uuid.NormalizeUuid: does not model the leniency of Python's `int(hex, 16)`,
  because the model requires exactly 32 ASCII hex digits after clean-up.
  Python's `int` also accepts surrounding whitespace, a sign, a `0x`
  prefix, underscores between digits and non-ASCII decimal digits. Some
  such texts pass `assert_uuid` in Python but are rejected here.
- Uuid.StrayCharRejected: holds of the model only. For whitespace, '+',
  '_', 'x', 'X' and non-ASCII decimal digits, Python's `int(hex, 16)` may
  accept the text, for example "0x" followed by 30 zeros. The lemma does not
  state what Python does for those characters.
- Messages.Extract: consumes the generator to its end. A caller that stops
  iterating early sees only a prefix of the yielded items and of the cache
  updates. `div.text` is read once per entry, although the code reads it
  twice.
- Completion.WaitFrom: covers only the recorded turns. A wait still running
  after the last one is reported as `Waiting`. The decoding of a body with
  invalid UTF-8 counts as malformed; it raises ValueError, as a JSON error
  does.
- `toggle_history`, `disable_styles` and `__hover_click` are not modelled.
  From `gptauto.py`, `__try_scroll`, `__get_response_text`,
  `__wait_for_warning` and `__wait_for_sendable` are left out too. All of
  them click through hard-coded page layouts.
- Of `ask_chatgpt`, only the start and the per-line sending loop are
  modelled. Driver set-up, the end prompt, response scraping and exception
  handling are left out, along with the command-line tool in
  `gptauto/cli/ask_gpt.py` and `setup.py`.
- `gptauto/elements.py`, `gptauto/errors.py` and `gptauto/__init__.py` hold
  only constants, a bare exception class and re-exports.
