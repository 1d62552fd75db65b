/** `get_messages`: the rendered conversation entries, read in order, checked
    against `assert_uuid`, cached by id and yielded. */
module Messages {
  import opened Wrappers
  import opened Uuid

  datatype Kind = User | Assistant

  /** `ChatMessage` and its subclasses `UserMessage` and `AssistantMessage`.
      The id is kept exactly as given, not in its normalised form. */
  datatype ChatMessage = ChatMessage(kind: Kind, messageId: string, text: string)

  /** Building a message runs `__post_init__`, which raises unless the id passes `assert_uuid`. */
  function NewMessage(kind: Kind, id: string, text: string): (r: Result<ChatMessage, Error>)
    ensures r.Success? <==> IsValidUuid(id)
    ensures r.Success? ==> r.value == ChatMessage(kind, id, text)
    ensures r.Failure? ==> r.error == BadUuid
  {
    if IsValidUuid(id) then Success(ChatMessage(kind, id, text)) else Failure(BadUuid)
  }

  /** The role branch: "user" and "assistant" are recognised, every other role is ignored. */
  function Classify(role: string): Option<Kind> {
    if role == "user" then Some(User) else if role == "assistant" then Some(Assistant) else None
  }

  /** One rendered entry: its role attribute, its id attribute (None when the
      attribute is missing) and its text. */
  datatype Entry = Entry(role: string, messageId: Option<string>, text: string)

  /** What the generator yields: on a cache hit the cached raw text, and for a
      user or assistant entry a freshly built message. */
  datatype Yielded = CachedText(text: string) | Fresh(message: ChatMessage)

  /** Everything one call produces: the items, the cache afterwards, and the
      exception that ended the iteration, if any. */
  datatype Extraction = Extraction(yielded: seq<Yielded>, cache: map<string, string>, error: Option<Error>)

  /** The id test the loop applies before looking at an entry; the scraper
      uses `assert_uuid` (`Uuid.IsValidUuid`), and the loop's properties hold
      for any id test. */
  type IdCheck = string -> bool

  /** Entry `e` stores text under id `k` when it is read. */
  predicate Writes(valid: IdCheck, e: Entry, k: string) {
    e.messageId == Some(k) && valid(k) && Classify(e.role).Some?
  }

  /** The loop of `get_messages`, run to the end by its consumer. */
  function Extract(valid: IdCheck, entries: seq<Entry>, cache: map<string, string>): (r: Extraction)
    ensures r.error.None? || r.error == Some(MissingId)
    ensures cache.Keys <= r.cache.Keys
    decreases |entries|
  {
    if entries == [] then Extraction([], cache, None)
    else
      var e := entries[0];
      match e.messageId
      case None => Extraction([], cache, Some(MissingId))
      case Some(id) =>
        if !valid(id) then Extract(valid, entries[1..], cache)
        else
          var hit := if id in cache then [CachedText(cache[id])] else [];
          var kind := Classify(e.role);
          var made := if kind.Some? then [Fresh(ChatMessage(kind.value, id, e.text))] else [];
          var cache' := if kind.Some? then cache[id := e.text] else cache;
          var rest := Extract(valid, entries[1..], cache');
          Extraction(hit + made + rest.yielded, rest.cache, rest.error)
  }

  /** `get_messages` after its guard: `rendered` is None when the bounded wait
      for entries gave up, which raises before anything is yielded. */
  function GetMessages(rendered: Option<seq<Entry>>, cache: map<string, string>): (r: Extraction)
    ensures rendered == None ==> r == Extraction([], cache, Some(ElementTimeout))
    ensures rendered == Some([]) ==> r == Extraction([], cache, None)
  {
    match rendered
    case None => Extraction([], cache, Some(ElementTimeout))
    case Some(entries) => if entries == [] then Extraction([], cache, None) else Extract(IsValidUuid, entries, cache)
  }

  // ---------------------------------------------------------------------------
  // Reference definitions the loop is measured against

  /** The entries read before the first one without an id attribute. */
  function Processed(entries: seq<Entry>): (p: seq<Entry>)
    ensures |p| <= |entries| && p == entries[..|p|]
    ensures forall i :: 0 <= i < |p| ==> p[i].messageId.Some?
    ensures |p| < |entries| ==> entries[|p|].messageId.None?
  {
    if entries == [] || entries[0].messageId.None? then []
    else [entries[0]] + Processed(entries[1..])
  }

  /** The messages built from the processed entries: every valid user or
      assistant entry, in rendered order. */
  function FreshOf(valid: IdCheck, p: seq<Entry>): seq<ChatMessage> {
    if p == [] then []
    else
      var e := p[0];
      (if e.messageId.Some? && Writes(valid, e, e.messageId.value)
       then [ChatMessage(Classify(e.role).value, e.messageId.value, e.text)] else [])
      + FreshOf(valid, p[1..])
  }

  /** The messages among the yielded items, in order. */
  function MessagesOf(ys: seq<Yielded>): seq<ChatMessage> {
    if ys == [] then [] else (if ys[0].Fresh? then [ys[0].message] else []) + MessagesOf(ys[1..])
  }

  /** The text the last entry of `p` that writes `k` carries. */
  function LastWrite(valid: IdCheck, p: seq<Entry>, k: string): Option<string>
    decreases |p|
  {
    if p == [] then None
    else if Writes(valid, p[|p| - 1], k) then Some(p[|p| - 1].text)
    else LastWrite(valid, p[..|p| - 1], k)
  }

  /** The cache after reading `p`: every written id holds its latest text,
      every other id is as it was. */
  ghost predicate CacheAfter(valid: IdCheck, p: seq<Entry>, before: map<string, string>, after: map<string, string>) {
    forall k ::
      && (k in after <==> k in before || LastWrite(valid, p, k).Some?)
      && (k in after ==> after[k] == if LastWrite(valid, p, k).Some? then LastWrite(valid, p, k).value else before[k])
  }

  // ---------------------------------------------------------------------------
  // Properties of the loop

  lemma MessagesOfConcat(a: seq<Yielded>, b: seq<Yielded>)
    ensures MessagesOf(a + b) == MessagesOf(a) + MessagesOf(b)
  {
    if a == [] {
      assert a + b == b;
    } else {
      assert (a + b)[1..] == a[1..] + b;
      MessagesOfConcat(a[1..], b);
    }
  }

  /** The messages yielded are exactly the valid user and assistant entries in
      rendered order, whatever the cache held: the role branch runs on every
      valid entry, cache hit or not. */
  lemma {:induction false} MessagesIgnoreCache(valid: IdCheck, entries: seq<Entry>, cache: map<string, string>)
    ensures MessagesOf(Extract(valid, entries, cache).yielded) == FreshOf(valid, Processed(entries))
    decreases |entries|
  {
    if entries != [] && entries[0].messageId.Some? {
      var e := entries[0];
      var id := e.messageId.value;
      assert Processed(entries) == [e] + Processed(entries[1..]);
      assert ([e] + Processed(entries[1..]))[1..] == Processed(entries[1..]);
      if !valid(id) {
        MessagesIgnoreCache(valid, entries[1..], cache);
      } else {
        var hit := if id in cache then [CachedText(cache[id])] else [];
        var cache' := if Classify(e.role).Some? then cache[id := e.text] else cache;
        var made := if Classify(e.role).Some? then [Fresh(ChatMessage(Classify(e.role).value, id, e.text))] else [];
        var rest := Extract(valid, entries[1..], cache');
        assert Extract(valid, entries, cache).yielded == hit + made + rest.yielded;
        MessagesIgnoreCache(valid, entries[1..], cache');
        MessagesOfConcat(hit + made, rest.yielded);
        MessagesOfConcat(hit, made);
        assert MessagesOf(hit) == [];
      }
    }
  }

  /** Every message of the reference list carries an id that passed the id test. */
  lemma {:induction false} FreshOfChecked(valid: IdCheck, p: seq<Entry>)
    ensures forall i :: 0 <= i < |FreshOf(valid, p)| ==> valid(FreshOf(valid, p)[i].messageId)
    decreases |p|
  {
    if p != [] {
      FreshOfChecked(valid, p[1..]);
    }
  }

  /** Building the yielded messages never raises: `__post_init__` repeats the
      check the loop has already passed. */
  lemma BuiltMessagesConstruct(entries: seq<Entry>, cache: map<string, string>)
    ensures forall m :: m in MessagesOf(Extract(IsValidUuid, entries, cache).yielded) ==>
      NewMessage(m.kind, m.messageId, m.text) == Success(m)
  {
    MessagesIgnoreCache(IsValidUuid, entries, cache);
    FreshOfChecked(IsValidUuid, Processed(entries));
  }

  /** Iteration stops with a TypeError exactly when some entry lacks an id. */
  lemma {:induction false} MissingIdStops(valid: IdCheck, entries: seq<Entry>, cache: map<string, string>)
    ensures Extract(valid, entries, cache).error == Some(MissingId) <==> exists i :: 0 <= i < |entries| && entries[i].messageId.None?
    decreases |entries|
  {
    if entries != [] && entries[0].messageId.Some? {
      var e := entries[0];
      var id := e.messageId.value;
      var cache' := if valid(id) && Classify(e.role).Some? then cache[id := e.text] else cache;
      assert Extract(valid, entries, cache).error == Extract(valid, entries[1..], cache').error;
      MissingIdStops(valid, entries[1..], cache');
      if i :| 0 <= i < |entries| && entries[i].messageId.None? {
        assert entries[1..][i - 1].messageId.None?;
      }
      if i :| 0 <= i < |entries[1..]| && entries[1..][i].messageId.None? {
        assert entries[i + 1].messageId.None?;
      }
    } else if entries != [] {
      assert entries[0].messageId.None?;
    }
  }

  lemma {:induction false} LastWriteCons(valid: IdCheck, e: Entry, p: seq<Entry>, k: string)
    ensures LastWrite(valid, [e] + p, k) == if LastWrite(valid, p, k).Some? then LastWrite(valid, p, k) else if Writes(valid, e, k) then Some(e.text) else None
    decreases |p|
  {
    if p == [] {
      assert ([e] + p)[..0] == [];
    } else {
      var q := [e] + p;
      assert q[|q| - 1] == p[|p| - 1];
      assert q[..|q| - 1] == [e] + p[..|p| - 1];
      LastWriteCons(valid, e, p[..|p| - 1], k);
    }
  }

  /** After the loop every id written during it holds the text of its last
      entry; no other id changes, and no id is dropped. */
  lemma {:induction false} CacheKeepsLatest(valid: IdCheck, entries: seq<Entry>, cache: map<string, string>)
    ensures CacheAfter(valid, Processed(entries), cache, Extract(valid, entries, cache).cache)
    decreases |entries|
  {
    var p := Processed(entries);
    var after := Extract(valid, entries, cache).cache;
    if entries == [] || entries[0].messageId.None? {
      assert p == [];
      forall k
        ensures && (k in after <==> k in cache || LastWrite(valid, p, k).Some?)
                && (k in after ==> after[k] == if LastWrite(valid, p, k).Some? then LastWrite(valid, p, k).value else cache[k])
      {
      }
    } else {
      var e := entries[0];
      var id := e.messageId.value;
      var cache' := if valid(id) && Classify(e.role).Some? then cache[id := e.text] else cache;
      assert after == Extract(valid, entries[1..], cache').cache;
      var rest := Processed(entries[1..]);
      assert p == [e] + rest;
      CacheKeepsLatest(valid, entries[1..], cache');
      forall k
        ensures && (k in after <==> k in cache || LastWrite(valid, p, k).Some?)
                && (k in after ==> after[k] == if LastWrite(valid, p, k).Some? then LastWrite(valid, p, k).value else cache[k])
      {
        LastWriteCons(valid, e, rest, k);
        assert Writes(valid, e, k) <==> (valid(id) && Classify(e.role).Some? && k == id);
      }
    }
  }

  /** Reading the same entries a second time leaves the cache as the first read left it. */
  lemma SecondReadKeepsCache(valid: IdCheck, entries: seq<Entry>, cache: map<string, string>)
    ensures Extract(valid, entries, Extract(valid, entries, cache).cache).cache == Extract(valid, entries, cache).cache
  {
    var c1 := Extract(valid, entries, cache).cache;
    var c2 := Extract(valid, entries, c1).cache;
    var p := Processed(entries);
    CacheKeepsLatest(valid, entries, cache);
    CacheKeepsLatest(valid, entries, c1);
    forall k
      ensures (k in c2 <==> k in c1) && (k in c2 ==> c2[k] == c1[k])
    {
      assert CacheAfter(valid, p, cache, c1);
      assert CacheAfter(valid, p, c1, c2);
    }
    assert c2.Keys == c1.Keys;
  }

  /** Entries whose id fails `assert_uuid`. */
  predicate IsInvalid(valid: IdCheck, e: Entry) {
    e.messageId.Some? && !valid(e.messageId.value)
  }

  function DropInvalid(valid: IdCheck, entries: seq<Entry>): (r: seq<Entry>)
    ensures forall i :: 0 <= i < |r| ==> !IsInvalid(valid, r[i])
  {
    if entries == [] then []
    else (if IsInvalid(valid, entries[0]) then [] else [entries[0]]) + DropInvalid(valid, entries[1..])
  }

  /** Entries with an invalid id leave no trace: nothing yielded, cache untouched. */
  lemma {:induction false} InvalidEntriesIgnored(valid: IdCheck, entries: seq<Entry>, cache: map<string, string>)
    ensures Extract(valid, entries, cache) == Extract(valid, DropInvalid(valid, entries), cache)
    decreases |entries|
  {
    if entries != [] {
      var e := entries[0];
      var rest := DropInvalid(valid, entries[1..]);
      if IsInvalid(valid, e) {
        assert DropInvalid(valid, entries) == rest;
        InvalidEntriesIgnored(valid, entries[1..], cache);
      } else {
        assert DropInvalid(valid, entries) == [e] + rest;
        assert ([e] + rest)[0] == e && ([e] + rest)[1..] == rest;
        if e.messageId.Some? {
          var id := e.messageId.value;
          var cache' := if Classify(e.role).Some? then cache[id := e.text] else cache;
          InvalidEntriesIgnored(valid, entries[1..], cache');
        }
      }
    }
  }

  /** The effect of reading one entry that carries an id. */
  function ExtractStep(valid: IdCheck, e: Entry, cache: map<string, string>): Extraction
    requires e.messageId.Some?
  {
    var id := e.messageId.value;
    if !valid(id) then Extraction([], cache, None)
    else
      var hit := if id in cache then [CachedText(cache[id])] else [];
      var kind := Classify(e.role);
      var made := if kind.Some? then [Fresh(ChatMessage(kind.value, id, e.text))] else [];
      Extraction(hit + made, if kind.Some? then cache[id := e.text] else cache, None)
  }

  lemma StepThenRest(valid: IdCheck, entries: seq<Entry>, cache: map<string, string>)
    requires entries != [] && entries[0].messageId.Some?
    ensures var step := ExtractStep(valid, entries[0], cache);
      var rest := Extract(valid, entries[1..], step.cache);
      Extract(valid, entries, cache) == Extraction(step.yielded + rest.yielded, rest.cache, rest.error)
  {
  }

  /** Reading `a` then `b` is reading `a`, then reading `b` against the cache
      `a` left behind: output follows rendered order. */
  lemma {:induction false} ExtractConcat(valid: IdCheck, a: seq<Entry>, b: seq<Entry>, cache: map<string, string>)
    requires forall i :: 0 <= i < |a| ==> a[i].messageId.Some?
    ensures Extract(valid, a + b, cache).yielded == Extract(valid, a, cache).yielded + Extract(valid, b, Extract(valid, a, cache).cache).yielded
    ensures Extract(valid, a + b, cache).cache == Extract(valid, b, Extract(valid, a, cache).cache).cache
    ensures Extract(valid, a + b, cache).error == Extract(valid, b, Extract(valid, a, cache).cache).error
    decreases |a|
  {
    if a == [] {
      assert a + b == b;
    } else {
      var e := a[0];
      var id := e.messageId.value;
      assert (a + b)[0] == e;
      assert (a + b)[1..] == a[1..] + b;
      ExtractConcat(valid, a[1..], b, ExtractStep(valid, e, cache).cache);
      StepThenRest(valid, a, cache);
      StepThenRest(valid, a + b, cache);
    }
  }

  /** A single valid entry yields its cached text first (on a hit) and then,
      for a user or assistant role, a new message; the id therefore comes out
      twice when it was already cached. */
  lemma SingleEntry(valid: IdCheck, e: Entry, cache: map<string, string>)
    requires e.messageId.Some? && valid(e.messageId.value)
    ensures var id := e.messageId.value;
      Extract(valid, [e], cache).yielded ==
        (if id in cache then [CachedText(cache[id])] else [])
        + (if Classify(e.role).Some? then [Fresh(ChatMessage(Classify(e.role).value, id, e.text))] else [])
    ensures Extract(valid, [e], cache).error == None
  {
    assert [e][1..] == [];
  }

  // ---------------------------------------------------------------------------
  // One yield per entry: no entry comes out twice, so there are at most as
  // many yields as entries. An id rendered in two entries of one page still
  // comes out once for each entry.

  /** Everything one call of the single-yield variant produces. */
  datatype Reading = Reading(yielded: seq<ChatMessage>, store: map<string, ChatMessage>, error: Option<Error>)

  /** Every stored message sits under its own id. */
  predicate Keyed(store: map<string, ChatMessage>) {
    forall k :: k in store ==> store[k].messageId == k
  }

  /** On a hit the stored message is yielded and nothing else happens;
      otherwise the role branch builds, stores and yields a message. */
  function ExtractSingle(valid: IdCheck, entries: seq<Entry>, store: map<string, ChatMessage>): (r: Reading)
    ensures forall k :: k in store ==> k in r.store && r.store[k] == store[k]
    ensures Keyed(store) ==> Keyed(r.store)
    ensures |r.yielded| <= |entries|
    decreases |entries|
  {
    if entries == [] then Reading([], store, None)
    else
      var e := entries[0];
      match e.messageId
      case None => Reading([], store, Some(MissingId))
      case Some(id) =>
        if !valid(id) then ExtractSingle(valid, entries[1..], store)
        else if id in store then
          var rest := ExtractSingle(valid, entries[1..], store);
          Reading([store[id]] + rest.yielded, rest.store, rest.error)
        else
          match Classify(e.role)
          case None => ExtractSingle(valid, entries[1..], store)
          case Some(k) =>
            var m := ChatMessage(k, id, e.text);
            var rest := ExtractSingle(valid, entries[1..], store[id := m]);
            Reading([m] + rest.yielded, rest.store, rest.error)
  }

  /** Every message the single-yield variant yields is the one stored under its id. */
  predicate AllStored(ms: seq<ChatMessage>, store: map<string, ChatMessage>) {
    forall i :: 0 <= i < |ms| ==> ms[i].messageId in store && store[ms[i].messageId] == ms[i]
  }

  lemma {:induction false} YieldedAreStored(valid: IdCheck, entries: seq<Entry>, store: map<string, ChatMessage>)
    requires Keyed(store)
    ensures AllStored(ExtractSingle(valid, entries, store).yielded, ExtractSingle(valid, entries, store).store)
    decreases |entries|
  {
    if entries != [] && entries[0].messageId.Some? {
      var e := entries[0];
      var id := e.messageId.value;
      if !valid(id) {
        YieldedAreStored(valid, entries[1..], store);
        assert ExtractSingle(valid, entries, store) == ExtractSingle(valid, entries[1..], store);
      } else if id in store {
        var rest := ExtractSingle(valid, entries[1..], store);
        YieldedAreStored(valid, entries[1..], store);
        assert ExtractSingle(valid, entries, store) == Reading([store[id]] + rest.yielded, rest.store, rest.error);
        PrependStored(store[id], rest.yielded, rest.store);
      } else if Classify(e.role).Some? {
        var m := ChatMessage(Classify(e.role).value, id, e.text);
        var rest := ExtractSingle(valid, entries[1..], store[id := m]);
        YieldedAreStored(valid, entries[1..], store[id := m]);
        assert ExtractSingle(valid, entries, store) == Reading([m] + rest.yielded, rest.store, rest.error);
        assert id in store[id := m];
        PrependStored(m, rest.yielded, rest.store);
      } else {
        YieldedAreStored(valid, entries[1..], store);
        assert ExtractSingle(valid, entries, store) == ExtractSingle(valid, entries[1..], store);
      }
    }
  }

  lemma PrependStored(m: ChatMessage, ms: seq<ChatMessage>, store: map<string, ChatMessage>)
    requires m.messageId in store && store[m.messageId] == m
    requires AllStored(ms, store)
    ensures AllStored([m] + ms, store)
  {
    assert forall i :: 0 < i < |[m] + ms| ==> ([m] + ms)[i] == ms[i - 1];
  }

  /** Under the single-yield policy a second read never changes a message seen
      by the first: every message it yields for a known id is the stored one. */
  lemma SecondReadStable(valid: IdCheck, first: seq<Entry>, second: seq<Entry>, store: map<string, ChatMessage>)
    requires Keyed(store)
    ensures var r1 := ExtractSingle(valid, first, store);
      var r2 := ExtractSingle(valid, second, r1.store);
      forall i :: 0 <= i < |r2.yielded| && r2.yielded[i].messageId in r1.store ==>
        r2.yielded[i] == r1.store[r2.yielded[i].messageId]
  {
    YieldedAreStored(valid, second, ExtractSingle(valid, first, store).store);
  }

  /** Where the two policies part: a user entry whose id is already known
      comes out twice from the loop as written, first as the cached raw text
      and then as a message carrying the newly rendered text, but once from
      the single-yield variant, as the stored message. */
  lemma PoliciesDiffer(valid: IdCheck, id: string, text: string, cache: map<string, string>, store: map<string, ChatMessage>)
    requires valid(id) && id in cache && id in store
    ensures Extract(valid, [Entry("user", Some(id), text)], cache).yielded
              == [CachedText(cache[id]), Fresh(ChatMessage(User, id, text))]
    ensures Extract(valid, [Entry("user", Some(id), text)], cache).cache == cache[id := text]
    ensures ExtractSingle(valid, [Entry("user", Some(id), text)], store).yielded == [store[id]]
    ensures ExtractSingle(valid, [Entry("user", Some(id), text)], store).store == store
  {
    var e := Entry("user", Some(id), text);
    assert [e][1..] == [];
  }
}
