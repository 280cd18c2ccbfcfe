/**
  The bitly chat plugin: for each chat message it takes the first URL the
  pattern finds, skips it when it is short or excluded, shortens it through the
  bitly API, looks up the page title and replies at most once. It never
  consumes the message, so later plugins still see it. The one exception it
  lets escape is `UnicodeEncodeError`, raised in three places: by `urlencode`
  when the shorten parameters hold a non-ASCII value, by `urlencode` when the
  info parameters do, and by the reply template when the title or the sender
  does.
 */
module Bitly {
  import opened Wrappers
  import opened Text
  import opened UrlRegex
  import opened Chat

  /** Length of a bitly link such as `bit.ly/5h0rT`: matches this long or shorter are left alone. */
  const ShortLinkLength := 12

  const ApiUrl := "https://api-ssl.bitly.com/v3/"

  /** Domains whose links are never shortened. */
  const DefaultExcludes: seq<string> := ["imgur.com", "github.com", "pastebin.com"]

  /**
    What `regex.search` found: group 0 (the whole match) and the group `prot`
    (empty when the protocol alternative did not take part).
   */
  datatype UrlMatch = UrlMatch(text: string, prot: string)

  /** Request parameters, before URL encoding. */
  type Params = map<string, string>

  datatype Verb = Get | Post

  /** One HTTP request to the API: verb, endpoint and parameters. */
  datatype Request = Request(verb: Verb, url: string, params: Params)

  /** The exception `message` and its helpers can raise from their own code. */
  datatype Error = UnicodeEncodeError

  /** How a call of `message` ends: it returns a value or raises. */
  datatype Outcome = Returned(consumed: bool) | Raised(error: Error)

  /** Python truthiness of an optional string: present and not empty. */
  predicate Truthy(s: Option<string>) {
    s.Some? && s.value != ""
  }

  /** Parameters of a `shorten` request. */
  function ShortenParams(login: string, apiKey: string, longUrl: string): (p: Params)
    ensures p.Keys == {"login", "apiKey", "longUrl"}
    ensures p["login"] == login && p["apiKey"] == apiKey && p["longUrl"] == longUrl
  {
    map["login" := login, "apiKey" := apiKey, "longUrl" := longUrl]
  }

  /**
    Parameters of an `info` request: always the credentials, `hash` and
    `shortUrl` only when given a truthy value.
   */
  function InfoParams(login: string, apiKey: string, hash: Option<string>, shortUrl: Option<string>): (p: Params)
    ensures "login" in p && p["login"] == login
    ensures "apiKey" in p && p["apiKey"] == apiKey
    ensures "hash" in p <==> Truthy(hash)
    ensures "hash" in p ==> p["hash"] == hash.value
    ensures "shortUrl" in p <==> Truthy(shortUrl)
    ensures "shortUrl" in p ==> p["shortUrl"] == shortUrl.value
    ensures p.Keys <= {"login", "apiKey", "hash", "shortUrl"}
  {
    var base := map["login" := login, "apiKey" := apiKey];
    var withHash := if Truthy(hash) then base["hash" := hash.value] else base;
    if Truthy(shortUrl) then withHash["shortUrl" := shortUrl.value] else withHash
  }

  /** Some exclusion entry occurs in the lowered URL. */
  predicate ExcludedBy(excludes: seq<string>, url: string) {
    exists k :: 0 <= k < |excludes| && Contains(Lower(url), excludes[k])
  }

  /** A match survives both filters and is sent to bitly. */
  predicate WillShorten(excludes: seq<string>, found: Option<UrlMatch>) {
    found.Some? && |found.value.text| > ShortLinkLength && !ExcludedBy(excludes, found.value.text)
  }

  /** The long URL handed to bitly: `http://` is added when the match had no protocol. */
  function WithProtocol(m: UrlMatch): string {
    if m.prot == "" then "http://" + m.text else m.text
  }

  /** Every character is ASCII. */
  predicate IsAscii(s: string) {
    forall i :: 0 <= i < |s| ==> s[i] as int < 0x80
  }

  /**
    `urllib.urlencode` passes every key and value through `str`, which raises
    UnicodeEncodeError for a unicode string holding a non-ASCII character.
   */
  predicate UrlEncodable(p: Params) {
    forall k :: k in p ==> IsAscii(k) && IsAscii(p[k])
  }

  /**
    The reply for a short link: with a non-empty title, the link and the title;
    otherwise the sender and the link. The templates are byte strings, so
    filling one with a value holding a non-ASCII character raises
    UnicodeEncodeError, given here as None.
   */
  function ReplyText(user: string, shortUrl: string, title: Option<string>): Option<string> {
    if Truthy(title) then
      if IsAscii(shortUrl) && IsAscii(title.value) then Some(shortUrl + " - Title: " + title.value) else None
    else
      if IsAscii(user) && IsAscii(shortUrl) then Some(user + "'s url: " + shortUrl) else None
  }

  /**
    The bitly HTTP API as the plugin meets it: the requests it has received,
    in order, and how it answers them (`data.url` of a shorten answer,
    `data.info[0].title` of an info answer).
   */
  class Remote {
    const shortUrlFor: Params -> string
    const titleFor: Params -> Option<string>
    var received: seq<Request>

    constructor (shortUrlFor: Params -> string, titleFor: Params -> Option<string>)
      ensures this.shortUrlFor == shortUrlFor && this.titleFor == titleFor
      ensures received == []
    {
      this.shortUrlFor := shortUrlFor;
      this.titleFor := titleFor;
      received := [];
    }

    /** POST form data to a shorten endpoint and read `data.url` from the answer. */
    method PostShorten(url: string, params: Params) returns (shortUrl: string)
      modifies this
      ensures received == old(received) + [Request(Post, url, params)]
      ensures shortUrl == shortUrlFor(params)
    {
      received := received + [Request(Post, url, params)];
      shortUrl := shortUrlFor(params);
    }

    /** GET an info endpoint with the parameters as query and read the first entry's title. */
    method GetInfo(url: string, params: Params) returns (title: Option<string>)
      modifies this
      ensures received == old(received) + [Request(Get, url, params)]
      ensures title == titleFor(params)
    {
      received := received + [Request(Get, url, params)];
      title := titleFor(params);
    }
  }

  /**
    For a match of the URL pattern, the URL handed to bitly always starts with
    a protocol; it is the match itself exactly when the match already had one,
    and it always ends with the match.
   */
  lemma ShortenedUrlIsAbsolute(m: UrlMatch)
    requires IsUrlMatch(m.text, m.prot)
    ensures StartsWithProtocol(WithProtocol(m))
    ensures WithProtocol(m) == m.text <==> StartsWithProtocol(m.text)
    ensures |WithProtocol(m)| >= |m.text| && WithProtocol(m)[|WithProtocol(m)| - |m.text|..] == m.text
  {
    ProtGroupIffProtocol(m.text, m.prot);
    if m.prot == "" {
      var url := "http://" + m.text;
      assert url[..7] == "http://";
      LowerHttp();
      assert url[7..] == m.text;
    }
  }

  /** An entry occurs in some window of the URL that, lowered, equals it. */
  ghost predicate MatchesIgnoringCase(url: string, entry: string) {
    exists i :: LowersTo(url, entry, i)
  }

  /**
    The exclusion test ignores the case of the URL: a URL is excluded exactly
    when some window of it lowers to an exclusion entry.
   */
  lemma ExcludedIgnoresCase(excludes: seq<string>, url: string)
    ensures ExcludedBy(excludes, url) <==> exists k :: 0 <= k < |excludes| && MatchesIgnoringCase(url, excludes[k])
  {
    forall k | 0 <= k < |excludes|
      ensures Contains(Lower(url), excludes[k]) <==> MatchesIgnoringCase(url, excludes[k])
    {
      LowerContainsIgnoresCase(url, excludes[k]);
    }
  }

  /** A URL with a window that lowers to an exclusion entry is excluded. */
  lemma ExcludedByWindow(excludes: seq<string>, url: string, k: nat, i: nat)
    requires k < |excludes| && LowersTo(url, excludes[k], i)
    ensures ExcludedBy(excludes, url)
  {
    LowerContainsIgnoresCase(url, excludes[k]);
  }

  /** A shorten request can be encoded exactly when the credentials and the long URL are ASCII. */
  lemma ShortenEncodable(login: string, apiKey: string, longUrl: string)
    ensures UrlEncodable(ShortenParams(login, apiKey, longUrl)) <==> IsAscii(login) && IsAscii(apiKey) && IsAscii(longUrl)
  {
    var p := ShortenParams(login, apiKey, longUrl);
    assert IsAscii("login") && IsAscii("apiKey") && IsAscii("longUrl");
    if IsAscii(login) && IsAscii(apiKey) && IsAscii(longUrl) {
      forall k | k in p
        ensures IsAscii(k) && IsAscii(p[k])
      {
        assert k == "login" || k == "apiKey" || k == "longUrl";
      }
    }
  }

  /**
    An info request can be encoded exactly when the credentials are ASCII and
    so are the hash and the short URL that are sent.
   */
  lemma InfoEncodable(login: string, apiKey: string, hash: Option<string>, shortUrl: Option<string>)
    ensures UrlEncodable(InfoParams(login, apiKey, hash, shortUrl)) <==>
              && IsAscii(login) && IsAscii(apiKey)
              && (Truthy(hash) ==> IsAscii(hash.value))
              && (Truthy(shortUrl) ==> IsAscii(shortUrl.value))
  {
    var p := InfoParams(login, apiKey, hash, shortUrl);
    assert IsAscii("login") && IsAscii("apiKey") && IsAscii("hash") && IsAscii("shortUrl");
    if && IsAscii(login) && IsAscii(apiKey)
       && (Truthy(hash) ==> IsAscii(hash.value)) && (Truthy(shortUrl) ==> IsAscii(shortUrl.value))
    {
      forall k | k in p
        ensures IsAscii(k) && IsAscii(p[k])
      {
        assert k == "login" || k == "apiKey" || k == "hash" || k == "shortUrl";
      }
    }
  }

  /** Whatever the title, a reply that is made carries the short link. */
  lemma ReplyCarriesShortUrl(user: string, shortUrl: string, title: Option<string>)
    ensures ReplyText(user, shortUrl, title).Some? ==> Contains(ReplyText(user, shortUrl, title).value, shortUrl)
  {
    if ReplyText(user, shortUrl, title).None? {
      return;
    }
    var r := ReplyText(user, shortUrl, title).value;
    ContainsIffOccurs(r, shortUrl);
    if Truthy(title) {
      assert r[0..|shortUrl|] == shortUrl;
      assert OccursAt(r, shortUrl, 0);
    } else {
      var n := |user + "'s url: "|;
      assert r[n..n + |shortUrl|] == shortUrl;
      assert OccursAt(r, shortUrl, n);
    }
  }

  lemma AsciiConcat(a: string, b: string)
    requires IsAscii(a) && IsAscii(b)
    ensures IsAscii(a + b)
  {
    forall i | 0 <= i < |a + b|
      ensures (a + b)[i] as int < 0x80
    {
      if i >= |a| {
        assert (a + b)[i] == b[i - |a|];
      }
    }
  }

  /**
    A reply is made exactly when the values put into its template are ASCII,
    and then the whole reply is ASCII.
   */
  lemma ReplyIsAscii(user: string, shortUrl: string, title: Option<string>)
    ensures ReplyText(user, shortUrl, title).Some? <==>
              IsAscii(shortUrl) && (if Truthy(title) then IsAscii(title.value) else IsAscii(user))
    ensures ReplyText(user, shortUrl, title).Some? ==> IsAscii(ReplyText(user, shortUrl, title).value)
  {
    assert IsAscii(" - Title: ") && IsAscii("'s url: ");
    if ReplyText(user, shortUrl, title).Some? {
      if Truthy(title) {
        AsciiConcat(shortUrl, " - Title: ");
        AsciiConcat(shortUrl + " - Title: ", title.value);
      } else {
        AsciiConcat(user, "'s url: ");
        AsciiConcat(user + "'s url: ", shortUrl);
      }
    }
  }

  // ---------------------------------------------------------------- examples

  /**
    The test expecting no reply for "http://shorty.com" does not hold of the
    code: the match is 17 characters long, so with no exclusions it is shortened.
   */
  lemma ShortyIsShortened()
    ensures |"http://shorty.com"| == 17
    ensures WillShorten([], Some(UrlMatch("http://shorty.com", "http://")))
  {
  }

  /**
    The length threshold measures the match before `http://` is added: a bare
    bitly link is left alone, while the same link written with its protocol
    is long enough to be shortened again.
   */
  lemma BitlyLinksAndThreshold()
    ensures !WillShorten(DefaultExcludes, Some(UrlMatch("bit.ly/5h0rT", "")))
    ensures |WithProtocol(UrlMatch("bit.ly/5h0rT", ""))| == 19
    ensures WillShorten(DefaultExcludes, Some(UrlMatch("http://bit.ly/5h0rT", "http://")))
  {
    NoDefaultExclusion("http://bit.ly/5h0rT");
  }

  /**
    Each default entry holds one of `m`, `g` and `a`, so a URL holding none of
    them in either case, such as a bitly link, is never excluded by default.
   */
  lemma NoDefaultExclusion(url: string)
    requires forall i :: 0 <= i < |url| ==> url[i] !in "mMgGaA"
    ensures !ExcludedBy(DefaultExcludes, url)
  {
    LowerLacks(url, 'm');
    LowerLacks(url, 'g');
    LowerLacks(url, 'a');
    AbsentCharNotContained(Lower(url), DefaultExcludes[0], 1);
    AbsentCharNotContained(Lower(url), DefaultExcludes[1], 0);
    AbsentCharNotContained(Lower(url), DefaultExcludes[2], 1);
  }

  /** A default exclusion matches whatever the case of the link. */
  lemma GithubLinkExcluded()
    ensures !WillShorten(DefaultExcludes, Some(UrlMatch("https://" + "GitHub.com" + "/hamper", "https://")))
  {
    LowerGithub();
    SliceOfJoin("https://", "GitHub.com", "/hamper");
    ExcludedByWindow(DefaultExcludes, "https://" + "GitHub.com" + "/hamper", 1, 8);
  }

  lemma LowerGithub()
    ensures Lower("GitHub.com") == "github.com"
  {
    LowerPointwise("GitHub.com", "github.com");
  }

  class Bitly {
    var apiUrl: string
    var username: string
    var apiKey: string
    var excludes: seq<string>

    /** `setup` with the bitly login and API key found in the configuration. */
    constructor Setup(login: string, key: string)
      ensures apiUrl == ApiUrl && username == login && apiKey == key
      ensures excludes == DefaultExcludes
    {
      apiUrl := ApiUrl;
      username := login;
      apiKey := key;
      excludes := DefaultExcludes;
    }

    /** The loop over `excludes`: true as soon as one entry occurs in the lowered URL. */
    method IsExcluded(url: string) returns (excluded: bool)
      ensures excluded == ExcludedBy(excludes, url)
    {
      for i := 0 to |excludes|
        invariant forall k :: 0 <= k < i ==> !Contains(Lower(url), excludes[k])
      {
        if Contains(Lower(url), excludes[i]) {
          return true;
        }
      }
      return false;
    }

    /**
      `shorten`: one POST to the shorten endpoint with the credentials and the
      long URL, or UnicodeEncodeError and no request when they cannot be
      URL-encoded.
     */
    method Shorten(remote: Remote, longUrl: string) returns (shortUrl: Result<string, Error>)
      modifies remote
      ensures var params := ShortenParams(username, apiKey, longUrl);
              if UrlEncodable(params) then
                && remote.received == old(remote.received) + [Request(Post, apiUrl + "shorten", params)]
                && shortUrl == Success(remote.shortUrlFor(params))
              else
                remote.received == old(remote.received) && shortUrl == Failure(UnicodeEncodeError)
    {
      var params := map["login" := username, "apiKey" := apiKey, "longUrl" := longUrl];
      var url := apiUrl + "shorten";
      if !UrlEncodable(params) {
        return Failure(UnicodeEncodeError);
      }
      var answer := remote.PostShorten(url, params);
      return Success(answer);
    }

    /**
      `info`: one GET of the info endpoint, where `hash` and `shortUrl` are sent
      only when truthy; or UnicodeEncodeError and no request when the
      parameters cannot be URL-encoded.
     */
    method Info(remote: Remote, hash: Option<string>, shortUrl: Option<string>) returns (title: Result<Option<string>, Error>)
      modifies remote
      ensures var params := InfoParams(username, apiKey, hash, shortUrl);
              if UrlEncodable(params) then
                && remote.received == old(remote.received) + [Request(Get, apiUrl + "info", params)]
                && title == Success(remote.titleFor(params))
              else
                remote.received == old(remote.received) && title == Failure(UnicodeEncodeError)
    {
      var params := map["login" := username, "apiKey" := apiKey];
      if Truthy(hash) {
        params := params["hash" := hash.value];
      }
      if Truthy(shortUrl) {
        params := params["shortUrl" := shortUrl.value];
      }
      var url := apiUrl + "info";
      if !UrlEncodable(params) {
        return Failure(UnicodeEncodeError);
      }
      var answer := remote.GetInfo(url, params);
      return Success(answer);
    }

    /**
      `message`: handle one chat message whose first URL match is `found`.
      Nothing is sent and nothing is said unless the match is longer than a
      bitly link and free of exclusions; otherwise one shorten request and one
      info request, then one reply. Each of the three steps raises
      UnicodeEncodeError instead when what it must encode holds a non-ASCII
      character, and the later steps do not happen. The plugin's own fields
      are left as they were, and when it returns, the message is not consumed.
     */
    method Message(bot: Bot, remote: Remote, comm: Comm, found: Option<UrlMatch>) returns (outcome: Outcome)
      modifies bot, remote
      ensures outcome != Returned(true)
      ensures unchanged(this)
      ensures !WillShorten(excludes, found) ==>
                && outcome == Returned(false)
                && remote.received == old(remote.received) && bot.replies == old(bot.replies)
      ensures WillShorten(excludes, found) && !UrlEncodable(ShortenParams(username, apiKey, WithProtocol(found.value))) ==>
                && outcome == Raised(UnicodeEncodeError)
                && remote.received == old(remote.received) && bot.replies == old(bot.replies)
      ensures WillShorten(excludes, found) && UrlEncodable(ShortenParams(username, apiKey, WithProtocol(found.value))) ==>
                var shortParams := ShortenParams(username, apiKey, WithProtocol(found.value));
                var shortUrl := remote.shortUrlFor(shortParams);
                var infoParams := InfoParams(username, apiKey, None, Some(shortUrl));
                var posted := old(remote.received) + [Request(Post, apiUrl + "shorten", shortParams)];
                var reply := ReplyText(comm.user, shortUrl, remote.titleFor(infoParams));
                && (!UrlEncodable(infoParams) ==>
                      outcome == Raised(UnicodeEncodeError) && remote.received == posted && bot.replies == old(bot.replies))
                && (UrlEncodable(infoParams) ==> remote.received == posted + [Request(Get, apiUrl + "info", infoParams)])
                && (UrlEncodable(infoParams) && reply.Some? ==>
                      outcome == Returned(false) && bot.replies == old(bot.replies) + [(comm, reply.value)])
                && (UrlEncodable(infoParams) && reply.None? ==>
                      outcome == Raised(UnicodeEncodeError) && bot.replies == old(bot.replies))
    {
      if found.Some? {
        var longUrl := found.value.text;
        if |longUrl| <= ShortLinkLength {
          return Returned(false);
        }
        var excluded := IsExcluded(longUrl);
        if excluded {
          return Returned(false);
        }
        if found.value.prot == "" {
          longUrl := "http://" + longUrl;
        }
        var shortened := Shorten(remote, longUrl);
        if shortened.Failure? {
          return Raised(shortened.error);
        }
        var shortUrl := shortened.value;
        var info := Info(remote, None, Some(shortUrl));
        if info.Failure? {
          return Raised(info.error);
        }
        var title := info.value;
        if Truthy(title) {
          if !(IsAscii(shortUrl) && IsAscii(title.value)) {
            return Raised(UnicodeEncodeError);
          }
          bot.Reply(comm, shortUrl + " - Title: " + title.value);
        } else {
          if !(IsAscii(comm.user) && IsAscii(shortUrl)) {
            return Raised(UnicodeEncodeError);
          }
          bot.Reply(comm, comm.user + "'s url: " + shortUrl);
        }
      }
      return Returned(false);
    }
  }

  // ---------------------------------------------------------------- clients

  /** The no-title test: one reply naming the sender and the short link. */
  method NoTitleScenario() returns (replies: seq<(Comm, string)>, outcome: Outcome)
    ensures outcome == Returned(false)
    ensures replies == [(Comm("spammy", "http://spammyspamspam.com/"), "spammy's url: http://bit.ly/5h0rT")]
  {
    var plug := new Bitly.Setup("login", "key");
    plug.excludes := [];
    var bot := new Bot();
    var remote := new Remote(_ => "http://bit.ly/5h0rT", _ => None);
    var comm := Comm("spammy", "http://spammyspamspam.com/");
    SpammyEncodable();
    SpammyReply();
    outcome := plug.Message(bot, remote, comm, Some(UrlMatch("http://spammyspamspam.com/", "http://")));
    replies := bot.replies;
  }

  /** A scenario's requests, with login `login`, key `key` and the short link `http://bit.ly/5h0rT`, can be URL-encoded. */
  lemma ScenarioEncodable(longUrl: string)
    requires IsAscii(longUrl)
    ensures UrlEncodable(ShortenParams("login", "key", longUrl))
    ensures UrlEncodable(InfoParams("login", "key", None, Some("http://bit.ly/5h0rT")))
  {
    assert IsAscii("login") && IsAscii("key") && IsAscii("http://bit.ly/5h0rT");
    ShortenEncodable("login", "key", longUrl);
    InfoEncodable("login", "key", None, Some("http://bit.ly/5h0rT"));
  }

  lemma SpammyEncodable()
    ensures UrlEncodable(ShortenParams("login", "key", "http://spammyspamspam.com/"))
    ensures UrlEncodable(InfoParams("login", "key", None, Some("http://bit.ly/5h0rT")))
  {
    assert IsAscii("http://spammyspamspam.com/");
    ScenarioEncodable("http://spammyspamspam.com/");
  }

  lemma RedditEncodable()
    ensures UrlEncodable(ShortenParams("login", "key", "http://reddit.com/r/lpmc/"))
    ensures UrlEncodable(InfoParams("login", "key", None, Some("http://bit.ly/5h0rT")))
  {
    assert IsAscii("http://reddit.com/r/lpmc/");
    ScenarioEncodable("http://reddit.com/r/lpmc/");
  }

  lemma CafeEncodable()
    ensures UrlEncodable(ShortenParams("login", "key", "http://example.com/cafe"))
    ensures UrlEncodable(InfoParams("login", "key", None, Some("http://bit.ly/5h0rT")))
  {
    assert IsAscii("http://example.com/cafe");
    ScenarioEncodable("http://example.com/cafe");
  }

  lemma SpammyReply()
    ensures ReplyText("spammy", "http://bit.ly/5h0rT", None) == Some("spammy's url: http://bit.ly/5h0rT")
  {
    assert IsAscii("spammy") && IsAscii("http://bit.ly/5h0rT");
    assert "spammy" + "'s url: " + "http://bit.ly/5h0rT" == "spammy's url: http://bit.ly/5h0rT";
  }

  const LpmcTitle := "The /r/LearnProgramming Mentoring Community"

  lemma RedditReply()
    ensures ReplyText("someone", "http://bit.ly/5h0rT", Some(LpmcTitle)) == Some("http://bit.ly/5h0rT - Title: " + LpmcTitle)
  {
    assert IsAscii("http://bit.ly/5h0rT") && IsAscii(LpmcTitle);
    assert "http://bit.ly/5h0rT" + " - Title: " == "http://bit.ly/5h0rT - Title: ";
  }

  /**
    The titled test, as the code behaves: one reply, the short link and the
    title, and not the "someone's url: " the test expects in front of them.
   */
  method TitleScenario() returns (replies: seq<(Comm, string)>, requests: nat, outcome: Outcome)
    ensures requests == 2 && outcome == Returned(false)
    ensures |replies| == 1
    ensures replies[0].1 == "http://bit.ly/5h0rT - Title: " + LpmcTitle
    ensures !("someone's url: " <= replies[0].1)
  {
    assert ("http://bit.ly/5h0rT - Title: " + LpmcTitle)[0] != "someone's url: "[0];
    var plug := new Bitly.Setup("login", "key");
    plug.excludes := [];
    var bot := new Bot();
    var remote := new Remote(_ => "http://bit.ly/5h0rT", _ => Some(LpmcTitle));
    var comm := Comm("someone", "have you seen http://reddit.com/r/lpmc/?");
    RedditEncodable();
    RedditReply();
    outcome := plug.Message(bot, remote, comm, Some(UrlMatch("http://reddit.com/r/lpmc/", "http://")));
    replies := bot.replies;
    requests := |remote.received|;
  }

  /**
    A title with a non-ASCII character: both requests are sent, then the
    reply cannot be formatted and `message` raises without replying.
   */
  method NonAsciiTitleScenario() returns (replies: seq<(Comm, string)>, requests: nat, outcome: Outcome)
    ensures requests == 2 && replies == [] && outcome == Raised(UnicodeEncodeError)
  {
    var plug := new Bitly.Setup("login", "key");
    plug.excludes := [];
    var bot := new Bot();
    var remote := new Remote(_ => "http://bit.ly/5h0rT", _ => Some("Café"));
    var comm := Comm("someone", "see http://example.com/cafe");
    CafeEncodable();
    CafeTitleNotAscii();
    outcome := plug.Message(bot, remote, comm, Some(UrlMatch("http://example.com/cafe", "http://")));
    replies := bot.replies;
    requests := |remote.received|;
  }

  lemma CafeTitleNotAscii()
    ensures ReplyText("someone", "http://bit.ly/5h0rT", Some("Café")) == None
  {
    assert "Café"[3] as int == 0xe9;
  }

  /**
    A match with a non-ASCII character: `urlencode` in `shorten` raises before
    the POST, so no request is sent and no reply is made.
   */
  method NonAsciiUrlScenario() returns (replies: seq<(Comm, string)>, requests: nat, outcome: Outcome)
    ensures requests == 0 && replies == [] && outcome == Raised(UnicodeEncodeError)
  {
    var plug := new Bitly.Setup("login", "key");
    plug.excludes := [];
    var bot := new Bot();
    var remote := new Remote(_ => "http://bit.ly/5h0rT", _ => None);
    var comm := Comm("someone", "see http://example.com/café");
    CafeUrlNotEncodable();
    outcome := plug.Message(bot, remote, comm, Some(UrlMatch("http://example.com/café", "http://")));
    replies := bot.replies;
    requests := |remote.received|;
  }

  lemma CafeUrlNotEncodable()
    ensures !UrlEncodable(ShortenParams("login", "key", "http://example.com/café"))
  {
    assert "http://example.com/café"[22] as int == 0xe9;
    ShortenEncodable("login", "key", "http://example.com/café");
  }

  /**
    A short link with a non-ASCII character: the POST has been sent, then
    `urlencode` in `info` raises, so no GET is sent and no reply is made.
   */
  method NonAsciiShortUrlScenario() returns (replies: seq<(Comm, string)>, requests: nat, outcome: Outcome)
    ensures requests == 1 && replies == [] && outcome == Raised(UnicodeEncodeError)
  {
    var plug := new Bitly.Setup("login", "key");
    plug.excludes := [];
    var bot := new Bot();
    var remote := new Remote(_ => "http://bit.ly/café", _ => None);
    var comm := Comm("someone", "see http://example.com/cafe");
    CafeEncodable();
    CafeShortUrlNotEncodable();
    outcome := plug.Message(bot, remote, comm, Some(UrlMatch("http://example.com/cafe", "http://")));
    replies := bot.replies;
    requests := |remote.received|;
  }

  lemma CafeShortUrlNotEncodable()
    ensures !UrlEncodable(InfoParams("login", "key", None, Some("http://bit.ly/café")))
  {
    assert "http://bit.ly/café"[17] as int == 0xe9;
    InfoEncodable("login", "key", None, Some("http://bit.ly/café"));
  }

  /** A message in which the pattern finds no URL: no request, no reply, not consumed. */
  method NoUrlScenario() returns (replies: seq<(Comm, string)>, requests: nat, outcome: Outcome)
    ensures replies == [] && requests == 0 && outcome == Returned(false)
  {
    var plug := new Bitly.Setup("login", "key");
    var bot := new Bot();
    var remote := new Remote(_ => "http://bit.ly/5h0rT", _ => None);
    outcome := plug.Message(bot, remote, Comm("quiet", "no links here"), None);
    replies := bot.replies;
    requests := |remote.received|;
  }
}
