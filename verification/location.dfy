/** `current_chat_id`: the conversation id read off the browser's address. */
module Location {
  import opened Wrappers
  import opened Text

  /** The prefix both scrapers test: `f"{BASE_URL}/c/"`. */
  function ChatPrefix(baseUrl: string): string {
    baseUrl + "/c/"
  }

  /** `current_chat_id` once its guard has passed: the text between the chat
      prefix and the next "/", or None when there is none. */
  function ChatId(url: string, baseUrl: string): (r: Option<string>)
    ensures !StartsWith(url, ChatPrefix(baseUrl)) ==> r.None?
    ensures r.Some? ==> r.value != [] && '/' !in r.value
    ensures r.Some? ==> StartsWith(url, ChatPrefix(baseUrl) + r.value)
    ensures r.Some? ==> var end := |ChatPrefix(baseUrl)| + |r.value|; end == |url| || url[end] == '/'
  {
    var prefix := ChatPrefix(baseUrl);
    if !StartsWith(url, prefix) then None
    else
      // `url.split(prefix, maxsplit=1)[1]`: the first occurrence is the leading one
      var u := url[|prefix|..];
      if u == [] then None
      else
        var segment := Split(u, '/')[0];
        assert url[..|prefix| + |segment|] == prefix + segment;
        if segment == [] then None else Some(segment)
  }

  /** Two prefixes of `u` that both stop at the first "/" are the same. */
  lemma FirstSegmentUnique(u: string, a: string, b: string)
    requires StartsWith(u, a) && '/' !in a && (|a| == |u| || u[|a|] == '/')
    requires StartsWith(u, b) && '/' !in b && (|b| == |u| || u[|b|] == '/')
    ensures a == b
  {
  }

  /** The id written after the chat prefix is read back exactly, whatever path follows it. */
  lemma ChatIdRoundTrip(baseUrl: string, id: string, rest: string)
    requires id != [] && '/' !in id
    requires rest == [] || rest[0] == '/'
    ensures ChatId(ChatPrefix(baseUrl) + id + rest, baseUrl) == Some(id)
  {
    var prefix := ChatPrefix(baseUrl);
    var url := prefix + id + rest;
    assert url[..|prefix|] == prefix;
    var u := url[|prefix|..];
    assert u == id + rest;
    assert u[..|id|] == id;
    var segment := Split(u, '/')[0];
    FirstSegmentUnique(u, segment, id);
  }

  /** The only three ways `current_chat_id` answers None. */
  lemma ChatIdNone(url: string, baseUrl: string)
    ensures ChatId(url, baseUrl).None? <==>
              || !StartsWith(url, ChatPrefix(baseUrl))
              || |url| == |ChatPrefix(baseUrl)|
              || url[|ChatPrefix(baseUrl)|] == '/'
  {
    var prefix := ChatPrefix(baseUrl);
    if StartsWith(url, prefix) && |url| > |prefix| {
      var u := url[|prefix|..];
      assert u[0] == url[|prefix|];
      var segment := Split(u, '/')[0];
      if u[0] == '/' {
        assert segment == [];
      } else {
        assert |segment| > 0;
      }
    }
  }

  /** With `BASE_URL = "https://chatgpt.com/"` the compared prefix carries a
      double slash, so the single-slash address of a conversation gives no id. */
  lemma SingleSlashAddressHasNoId(id: string)
    ensures ChatPrefix("https://chatgpt.com/") == "https://chatgpt.com//c/"
    ensures ChatId("https://chatgpt.com/c/" + id, "https://chatgpt.com/") == None
  {
    var url := "https://chatgpt.com/c/" + id;
    assert url[20] == 'c';
    assert ChatPrefix("https://chatgpt.com/")[20] == '/';
  }
}
