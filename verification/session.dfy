/** `GPTScraper`: one browser session, its message cache and the operations
    guarded by `assert_driver`. Both scraper classes are covered; they differ
    only in the values a `Config` holds. */
module Session {
  import opened Wrappers
  import opened Text
  import opened Uuid
  import opened Location
  import opened Keyboard
  import opened Messages
  import opened Completion

  /** How `send_message` enters text. */
  datatype Typing = Humanised(maxTypeSpeed: real) | Direct

  /** The constants that tell the two scraper classes apart. */
  datatype Config = Config(baseUrl: string, completionUrl: string, typing: Typing)

  /** The scraper in gptauto/scraper.py; `max_type_speed_sec` defaults to 0.5. */
  function ScraperConfig(maxTypeSpeed: real): Config {
    Config("https://chat.openai.com", "https://chat.openai.com/backend-api/lat/r", Humanised(maxTypeSpeed))
  }

  /** The scraper in gptauto/gpt_scraper.py. */
  const GptConfig := Config("https://chatgpt.com/", "https://chatgpt.com/backend-api/lat/r", Direct)

  /** The zoom `start` applies after navigating. */
  const StartZoom := 40

  /** The address a freshly created browser shows. */
  const BlankPage := "about:blank"

  /** A browser instance: which process it is, the address it shows and the
      zoom set on its page. */
  datatype Driver = Driver(handle: nat, url: string, zoom: Option<int>)

  /** The scraper object: its driver, its message cache (id to raw text), the
      browser processes still running and how many were ever created. */
  datatype Session = Session(driver: Option<Driver>, messages: map<string, string>, live: set<nat>, spawned: nat)

  /** A fresh scraper, as `__init__` leaves it. */
  const Initial := Session(None, map[], {}, 0)

  /** The state after an operation and what the operation returned or raised. */
  datatype Step<T> = Step(after: Session, outcome: Result<T, Error>)

  /** Exactly the driver the scraper holds is running: there is never a
      second browser left behind. */
  ghost predicate Valid(s: Session) {
    && (s.driver.None? ==> s.live == {})
    && (s.driver.Some? ==> s.live == {s.driver.value.handle})
    && forall h :: h in s.live ==> h < s.spawned
  }

  /** `assert_driver`: a driver must exist and show a page of the site. */
  predicate Ready(cfg: Config, s: Session) {
    s.driver.Some? && StartsWith(s.driver.value.url, cfg.baseUrl)
  }

  /** `driver.quit()` on the held driver, if any. */
  function Release(s: Session): (live: set<nat>)
    ensures s.driver.Some? ==> live == s.live - {s.driver.value.handle}
    ensures s.driver.None? ==> live == s.live
  {
    if s.driver.Some? then s.live - {s.driver.value.handle} else s.live
  }

  /** `edit_zoom`: a ratio strictly between 30 and 100 is applied to the page. */
  function EditZoom(cfg: Config, s: Session, ratio: int): (r: Step<()>)
    ensures !Ready(cfg, s) ==> r == Step(s, Failure(DriverNotInitialized))
    ensures Ready(cfg, s) ==> (r.outcome.Success? <==> 30 < ratio < 100)
    ensures r.outcome.Failure? ==> r.after == s
    ensures r.outcome.Success? ==> r.after == s.(driver := Some(s.driver.value.(zoom := Some(ratio))))
  {
    if !Ready(cfg, s) then Step(s, Failure(DriverNotInitialized))
    else if ratio <= 30 || ratio >= 100 then Step(s, Failure(BadZoom(ratio)))
    else Step(s.(driver := Some(s.driver.value.(zoom := Some(ratio)))), Success(()))
  }

  /** The address `start` navigates to: the site root, or the chat page of
      the normalised id. */
  function StartUrl(cfg: Config, chatId: Option<string>): Option<string> {
    match chatId
    case None => Some(cfg.baseUrl)
    case Some(id) =>
      match NormalizeUuid(id)
      case None => None
      case Some(n) => Some(ChatPrefix(cfg.baseUrl) + n)
  }

  /** `start`: quit the held browser, create a new one, then check the id,
      navigate and zoom. An invalid id raises after the new browser exists.
      The message cache is left as it was. */
  function Start(cfg: Config, s: Session, chatId: Option<string>): (r: Step<()>)
    ensures Valid(s) ==> Valid(r.after)
    ensures r.after.driver.Some? && r.after.driver.value.handle == s.spawned
    ensures r.after.messages == s.messages
    ensures r.outcome.Success? <==> chatId.None? || IsValidUuid(chatId.value)
    ensures r.outcome.Failure? ==> r.outcome.error == BadUuid && r.after.driver.value.url == BlankPage
    ensures r.outcome.Success? ==> Ready(cfg, r.after) && r.after.driver.value.zoom == Some(StartZoom)
    ensures r.outcome.Success? && chatId.None? ==> r.after.driver.value.url == cfg.baseUrl
    ensures r.outcome.Success? && chatId.Some? ==>
      r.after.driver.value.url == ChatPrefix(cfg.baseUrl) + NormalizeUuid(chatId.value).value
  {
    var browser := Driver(s.spawned, BlankPage, None);
    var created := Session(Some(browser), s.messages, Release(s) + {s.spawned}, s.spawned + 1);
    match StartUrl(cfg, chatId)
    case None => Step(created, Failure(BadUuid))
    case Some(url) =>
      assert StartsWith(url, cfg.baseUrl);
      EditZoom(cfg, created.(driver := Some(browser.(url := url))), StartZoom)
  }

  /** `quit`: stop the browser, drop the driver and empty the cache. */
  function Quit(s: Session): (r: Session)
    ensures Valid(s) ==> Valid(r) && r.live == {}
    ensures r.driver.None? && r.messages == map[]
  {
    Session(None, map[], Release(s), s.spawned)
  }

  /** `current_chat_id`. */
  function CurrentChatId(cfg: Config, s: Session): (r: Result<Option<string>, Error>)
    ensures !Ready(cfg, s) <==> r == Failure(DriverNotInitialized)
    ensures Ready(cfg, s) ==> r == Success(ChatId(s.driver.value.url, cfg.baseUrl))
  {
    if !Ready(cfg, s) then Failure(DriverNotInitialized) else Success(ChatId(s.driver.value.url, cfg.baseUrl))
  }

  /** `send_message`: `inputFound` is false when the bounded wait for the
      input area gave up. The result is the browser input it produces. */
  function SendMessage(cfg: Config, s: Session, text: string, inputFound: bool): (r: Result<seq<Action>, Error>)
    ensures !Ready(cfg, s) ==> r == Failure(DriverNotInitialized)
    ensures Ready(cfg, s) && !inputFound ==> r == Failure(ElementTimeout)
    ensures r.Success? ==> Ready(cfg, s) && inputFound
    ensures Ready(cfg, s) && inputFound ==>
      r == Success(match cfg.typing case Humanised(v) => HumanisedSend(text, v) case Direct => DirectSend(text))
  {
    if !Ready(cfg, s) then Failure(DriverNotInitialized)
    else if !inputFound then Failure(ElementTimeout)
    else
      match cfg.typing
      case Humanised(speed) => Success(HumanisedSend(text, speed))
      case Direct => Success(DirectSend(text))
  }

  /** `get_messages`: the guard runs when the generator is created; what the
      iteration yields, raises and leaves in the cache comes from the loop. */
  function ReadMessages(cfg: Config, s: Session, rendered: Option<seq<Entry>>): (r: Step<Extraction>)
    ensures !Ready(cfg, s) <==> r.outcome == Failure(DriverNotInitialized)
    ensures r.outcome.Success? ==> r.after == s.(messages := r.outcome.value.cache)
    ensures r.outcome.Failure? ==> r.after == s
    ensures Ready(cfg, s) ==> r.outcome == Success(GetMessages(rendered, s.messages))
  {
    if !Ready(cfg, s) then Step(s, Failure(DriverNotInitialized))
    else
      var x := GetMessages(rendered, s.messages);
      Step(s.(messages := x.cache), Success(x))
  }

  /** `wait_completion` against the configured completion status URL. A
      wait that runs out of time raises TimeoutError, and a body that fails to
      decode or to take `in` raises; a completed wait, or one still running
      when the recorded turns end, returns. */
  function AwaitCompletion(cfg: Config, s: Session, timeout: real, start: real, polls: seq<Poll>, parse: Parser): (r: Result<Wait, Error>)
    ensures !Ready(cfg, s) <==> r == Failure(DriverNotInitialized)
    ensures Ready(cfg, s) ==>
      var w := WaitCompletion(timeout, start, polls, cfg.completionUrl, parse);
      && (w.TimedOut? <==> r == Failure(CompletionTimeout))
      && (w.Failed? ==> r == Failure(w.error))
      && (w.Completed? || w.Waiting? <==> r == Success(w))
    ensures timeout == 0.0 ==> r != Failure(CompletionTimeout)
    ensures r.Success? ==> r.value.Completed? || r.value.Waiting?
    ensures r.Success? && r.value.Completed? ==>
      var q := polls[r.value.poll].requests[r.value.request];
      && IsCandidate(q, cfg.completionUrl)
      && parse(q.response.value.body) == Iterable(true)
  {
    if !Ready(cfg, s) then Failure(DriverNotInitialized)
    else
      match WaitCompletion(timeout, start, polls, cfg.completionUrl, parse)
      case TimedOut(_) => Failure(CompletionTimeout)
      case Failed(_, e) => Failure(e)
      case w => Success(w)
  }

  // ---------------------------------------------------------------------------
  // Properties across operations

  /** Every reachable session keeps exactly one browser per driver: the
      initial one, and whatever start and quit lead to. */
  lemma InitialValid()
    ensures Valid(Initial)
  {
  }

  /** The chat page `start` opens is read back by `current_chat_id` as the
      normalised id; starting without an id reads back no id. */
  lemma StartThenChatId(cfg: Config, s: Session, chatId: Option<string>)
    requires Start(cfg, s, chatId).outcome.Success?
    ensures chatId.Some? ==> CurrentChatId(cfg, Start(cfg, s, chatId).after) == Success(NormalizeUuid(chatId.value))
    ensures chatId.None? ==> CurrentChatId(cfg, Start(cfg, s, chatId).after) == Success(None)
  {
    var after := Start(cfg, s, chatId).after;
    if chatId.Some? {
      var n := NormalizeUuid(chatId.value).value;
      CanonicalHasNoSlash(n);
      assert after.driver.value.url == ChatPrefix(cfg.baseUrl) + n + [];
      ChatIdRoundTrip(cfg.baseUrl, n, []);
    } else {
      assert after.driver.value.url == cfg.baseUrl;
    }
  }

  lemma CanonicalHasNoSlash(t: string)
    requires IsCanonicalV4(t)
    ensures t != [] && '/' !in t
  {
    forall i | 0 <= i < |t|
      ensures t[i] != '/'
    {
      assert IsDashPos(i) || IsLowerHexChar(t[i]);
    }
  }

  /** After `quit` every guarded operation raises DriverNotInitializedError,
      and quitting again changes nothing. */
  lemma QuitDisablesOperations(cfg: Config, s: Session, text: string, rendered: Option<seq<Entry>>, ratio: int,
                               t: real, st: real, polls: seq<Poll>, parse: Parser)
    ensures CurrentChatId(cfg, Quit(s)) == Failure(DriverNotInitialized)
    ensures SendMessage(cfg, Quit(s), text, true) == Failure(DriverNotInitialized)
    ensures ReadMessages(cfg, Quit(s), rendered).outcome == Failure(DriverNotInitialized)
    ensures EditZoom(cfg, Quit(s), ratio).outcome == Failure(DriverNotInitialized)
    ensures AwaitCompletion(cfg, Quit(s), t, st, polls, parse) == Failure(DriverNotInitialized)
    ensures Quit(Quit(s)) == Quit(s)
  {
  }

  /** Neither configured site address is a prefix of the blank page. */
  lemma BlankPageOffSite(maxTypeSpeed: real)
    ensures !StartsWith(BlankPage, GptConfig.baseUrl)
    ensures !StartsWith(BlankPage, ScraperConfig(maxTypeSpeed).baseUrl)
  {
  }

  /** A start that rejected its id leaves a blank browser behind, which the
      guard of a site other than the blank page refuses; by `BlankPageOffSite`
      that covers both scraper classes. */
  lemma FailedStartDisablesOperations(cfg: Config, s: Session, chatId: Option<string>, text: string, rendered: Option<seq<Entry>>)
    requires !StartsWith(BlankPage, cfg.baseUrl)
    requires !Start(cfg, s, chatId).outcome.Success?
    ensures CurrentChatId(cfg, Start(cfg, s, chatId).after) == Failure(DriverNotInitialized)
    ensures SendMessage(cfg, Start(cfg, s, chatId).after, text, true) == Failure(DriverNotInitialized)
    ensures ReadMessages(cfg, Start(cfg, s, chatId).after, rendered).outcome == Failure(DriverNotInitialized)
  {
  }

  /** `start` keeps the cache: ids read before a restart are still known
      after it, so a later read yields their old text again. */
  lemma RestartKeepsCache(cfg: Config, s: Session, chatId: Option<string>, e: Entry)
    requires chatId.None? || IsValidUuid(chatId.value)
    requires e.messageId.Some? && IsValidUuid(e.messageId.value) && e.messageId.value in s.messages
    ensures var r := ReadMessages(cfg, Start(cfg, s, chatId).after, Some([e]));
      r.outcome.Success? && r.outcome.value.yielded[0] == CachedText(s.messages[e.messageId.value])
  {
    SingleEntry(IsValidUuid, e, s.messages);
  }

  /** What a successful read yields and leaves in the cache, independent of
      the order of earlier reads: the messages are the valid entries before
      the first one without an id, each id keeps the latest text, and a
      second read of the same page changes nothing in the cache. */
  lemma ReadMessagesSpec(cfg: Config, s: Session, entries: seq<Entry>)
    requires Ready(cfg, s)
    ensures var r := ReadMessages(cfg, s, Some(entries));
      && MessagesOf(r.outcome.value.yielded) == FreshOf(IsValidUuid, Processed(entries))
      && CacheAfter(IsValidUuid, Processed(entries), s.messages, r.after.messages)
      && ReadMessages(cfg, r.after, Some(entries)).after == r.after
  {
    MessagesIgnoreCache(IsValidUuid, entries, s.messages);
    CacheKeepsLatest(IsValidUuid, entries, s.messages);
    SecondReadKeepsCache(IsValidUuid, entries, s.messages);
  }

  /** Sending submits exactly the text: typed humanly it is entered with
      shift-enter line breaks and submitted with Enter; set directly it is
      submitted with Control+Enter, leaving Control held down. Either way it
      holds for every send of a session: no strategy leaves Shift or Enter
      held, and Control held from an earlier direct send changes nothing. */
  lemma SendSubmitsText(cfg: Config, s: Session, text: string, held: set<Key>, sent: seq<string>)
    requires SendMessage(cfg, s, text, true).Success?
    requires Shift !in held && Enter !in held
    ensures var acts := SendMessage(cfg, s, text, true).value;
      Run(Editor([], held, sent), acts) == Editor([], if cfg.typing.Direct? then held + {Control} else held, sent + [text])
  {
    if cfg.typing.Direct? {
      DirectSubmitsText([], text, held, sent);
    } else {
      HumanisedSubmitsText([], text, cfg.typing.maxTypeSpeed, held, sent);
      assert [] + text == text;
    }
  }

  /** The `gpt_scraper.py` scraper finishes its wait only on an answered POST
      to exactly its own status URL whose body holds "status". */
  lemma GptWaitEndsOnStatusPost(s: Session, timeout: real, start: real, polls: seq<Poll>, parse: Parser)
    requires AwaitCompletion(GptConfig, s, timeout, start, polls, parse).Success?
    requires AwaitCompletion(GptConfig, s, timeout, start, polls, parse).value.Completed?
    ensures var w := AwaitCompletion(GptConfig, s, timeout, start, polls, parse).value;
      var q := polls[w.poll].requests[w.request];
      && q.httpMethod == "POST"
      && q.url == "https://chatgpt.com/backend-api/lat/r"
      && q.response.Some? && q.response.value.body != []
      && parse(q.response.value.body) == Iterable(true)
  {
  }
}
