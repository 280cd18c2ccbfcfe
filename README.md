# bitly URL shortener plugin for the hamper IRC bot, in Dafny

The `Bitly` chat plugin watches every chat message for a URL. For the first
URL its pattern finds it:

1. skips matches of 12 characters or fewer (the length of a bitly link such as `bit.ly/5h0rT`);
2. skips matches in which, once lowered, any exclusion entry occurs (by default `imgur.com`, `github.com`, `pastebin.com`);
3. prepends `http://` when the match carries no protocol;
4. asks the bitly API to shorten the URL, then asks it for the short link's page title; each request's parameters go through `urllib.urlencode`, which calls `str` on every value, so a non-ASCII character in the long URL (or a credential) raises `UnicodeEncodeError` before the POST, and one in the short URL raises it after the POST and before the GET;
5. replies once: `<short url> - Title: <title>` when a non-empty title came back, `<sender>'s url: <short url>` otherwise; both templates are Python 2 byte strings, so when a value put into the chosen one (title or sender) holds a non-ASCII character, `format` raises `UnicodeEncodeError` after both API requests and no reply is sent;
6. when it returns, reports the message as not consumed, so the other plugins still see it.

The project models this policy, the URL pattern and the two API requests:

- `wrappers.dfy`: `Option`, standing for Python's `None`-or-value, and `Result`, a value or the exception a call raised.
- `text.dfy` (module `Text`): `str.lower()` and the substring test `item in s`, with the lemmas that tie the recursive test to "some window equals it" and that show the test on a lowered string ignores the case of the searched string.
- `url_regex.dfy` (module `UrlRegex`): the URL pattern as the language its whole match belongs to (a start alternative, one or more body chunks, an end), built piece by piece from the pattern's own groups, and what every match looks like: no white space or angle brackets, a last character that is `)` or outside the trailing punctuation set, and a `prot` group that captured something exactly when the match begins with `http://` or `https://`.
- `chat.dfy` (module `Chat`): the message context (`user`, `message`) and the bot's `reply` primitive, kept as a log of replies.
- `bitly.dfy` (module `Bitly`): the bitly API as a log of the requests it receives plus two answer functions; the `Bitly` class with `setup`, the exclusion loop, `shorten`, `info` and `message`; lemmas about the policy; and client methods that run `message` on fixed inputs: the two test-file messages that reach the API, a non-ASCII character in the match, in the short link and in the title, and a message without a URL.

`Bitly.Message` is proved against the policy: when the match is absent, too short
or excluded, the API log and the reply log are unchanged and `message` returns
`false`. Otherwise it walks three steps, each of which raises
`UnicodeEncodeError` and stops there when what it must encode holds a
non-ASCII character (`UrlEncodable` for the two parameter maps, `ReplyText` for
the reply):

1. the API log gains a shorten request with the parameter map of `ShortenParams`;
2. the API log gains an info request with the parameter map of `InfoParams`;
3. the reply log gains exactly one reply and `message` returns `false`.

A raise leaves the later steps undone. `message` never returns `true` and
leaves the plugin's fields, the exclusion list included, unchanged.

A Dafny `char` here stands for one Unicode code point of a unicode message, and
a `string` for a unicode string; lengths and character classes are counted over
code points.

Where the code and its test file disagree, the model follows the code:

- The test for a titled link expects `someone's url: http://bit.ly/5h0rT - Title: ...`; the code replies `http://bit.ly/5h0rT - Title: ...`, without the sender (`Bitly.TitleScenario`).
- The test expects no reply for the message `http://shorty.com`; that match is 17 characters long, longer than the 12-character threshold, so with an empty exclusion list the code shortens it (`Bitly.ShortyIsShortened`).
- The tests install a `plug.api` object with `shorten` and `get_title`; the plugin never uses it and calls the bitly HTTP API itself.

Also visible in the model: the threshold is measured before `http://` is added,
so a bare bitly link is left alone while the same link written with `http://`
(19 characters) passes both filters under the default exclusion list, which
has no `bit.ly` entry, and is shortened again (`Bitly.BitlyLinksAndThreshold`); and only
the URL is lowered, never the exclusion entry, so an entry holding an
ASCII upper-case letter (`A`–`Z`) can never match (`Text.UpperNeverInLower`).

## Model

| member | source | states |
|---|---|---|
| `Text.Contains` | hamper/plugins/bitly.py:73 | `item in s`; its contract says the empty entry is in every string and an entry longer than the string never is; `Text.ContainsIffOccurs` ties it to "some window equals it" |
| `Text.AbsentCharNotContained` | hamper/plugins/bitly.py:73 | an entry holding a character the string lacks never occurs in it |
| `Text.Lower` | hamper/plugins/bitly.py:73 | `lower()` keeps the length, lowers every character and leaves no ASCII upper-case letter (`A`–`Z`) |
| `Text.ContainsIffOccurs` | hamper/plugins/bitly.py:73 | the substring test `item in s` holds exactly when `item` equals some window of `s` |
| `Text.LowerContainsIgnoresCase` | hamper/plugins/bitly.py:71-74 | searching `url.lower()` for an entry succeeds exactly when some window of `url`, lowered, equals the entry |
| `Text.UpperNeverInLower` | hamper/plugins/bitly.py:72-73 | an entry holding an ASCII upper-case letter (`A`–`Z`) never occurs in a lowered URL |
| `UrlRegex.IsUrlMatch` | hamper/plugins/bitly.py:15-37 | the language of whole matches of the pattern with the text captured by `prot`; what its members look like is stated by `UrlRegex.MatchShape` and `UrlRegex.ProtGroupIffProtocol` |
| `UrlRegex.MatchShape` | hamper/plugins/bitly.py:15-37 | every match is at least 6 characters, holds no white space, `<` or `>`, and ends on `)` or on a character outside the trailing punctuation set |
| `UrlRegex.ProtGroupIffProtocol` | hamper/plugins/bitly.py:17-24 | the `prot` group is non-empty exactly when the match begins with `http://` or `https://` in any case, and then it is that prefix |
| `UrlRegex.ProtocolUrlMatches` | hamper/plugins/bitly.py:16-35 | `http://` in any letter case, followed by a run of non-space, non-`()<>` characters and an allowed last character, is a match, with `prot` capturing that prefix as written |
| `UrlRegex.SpammyUrlMatches` | hamper/test/test_plugin_bitly.py:37-40 | `http://spammyspamspam.com/` is a match with protocol |
| `UrlRegex.RedditUrlMatches` | hamper/test/test_plugin_bitly.py:45-49 | in the titled test message, `http://reddit.com/r/lpmc/` is a match with protocol and the text with the trailing `?` is not |
| `UrlRegex.BareBitlyLinkMatches` | hamper/plugins/bitly.py:22 | `bit.ly/5h0rT` is a match through the domain-like alternative, with an empty `prot` group |
| `UrlRegex.TrailingQuestionMarkNotMatched` | hamper/plugins/bitly.py:30-35 | no match ends on `?`, so `http://reddit.com/r/lpmc/?` is not one |
| `UrlRegex.NonAsciiUrlMatches` | hamper/plugins/bitly.py:17-33 | the body and end classes take non-ASCII characters: `http://exámple.com/café`, with `á` in the run and `é` as the last character, is a match |
| `Chat.Bot.constructor` | hamper/test/MockBot.py:9-10 | a new bot has sent no reply |
| `Chat.Bot.Reply` | hamper/test/MockBot.py:12-13 | `reply` appends exactly the given context and text to the reply log |
| `Bitly.ShortenParams` | hamper/plugins/bitly.py:99-100 | a shorten request carries exactly the keys `login`, `apiKey`, `longUrl`, with the credentials and the long URL |
| `Bitly.InfoParams` | hamper/plugins/bitly.py:112-116 | an info request always carries `login` and `apiKey`; `hash` exactly when a truthy hash is given and `shortUrl` exactly when a truthy short URL is given; no other key |
| `Bitly.UrlEncodable` | hamper/plugins/bitly.py:103 | `urllib.urlencode` succeeds exactly when every key and value is ASCII; stated for the two requests by `Bitly.ShortenEncodable` and `Bitly.InfoEncodable` |
| `Bitly.ShortenEncodable` | hamper/plugins/bitly.py:99-103 | the shorten parameters can be URL-encoded exactly when the login, the API key and the long URL are ASCII |
| `Bitly.InfoEncodable` | hamper/plugins/bitly.py:112-119 | the info parameters can be URL-encoded exactly when the login and the API key are ASCII, and so are the hash and the short URL whenever they are sent |
| `Bitly.ExcludedBy` | hamper/plugins/bitly.py:71-74 | some exclusion entry occurs in the lowered URL; `Bitly.ExcludedIgnoresCase` states it over windows of the URL and `Bitly.Bitly.IsExcluded` computes it |
| `Bitly.WillShorten` | hamper/plugins/bitly.py:62-74 | a match passes the length threshold and the exclusion filter; when it fails, `Bitly.Bitly.Message` sends nothing; when it holds, the shorten request is sent exactly when its parameters are ASCII |
| `Bitly.WithProtocol` | hamper/plugins/bitly.py:76-78 | the URL handed to bitly; `Bitly.ShortenedUrlIsAbsolute` states that it carries a protocol and ends with the match |
| `Bitly.ReplyText` | hamper/plugins/bitly.py:87-92 | the reply, or `UnicodeEncodeError` as `None`; `Bitly.ReplyIsAscii` and `Bitly.ReplyCarriesShortUrl` state when it is made and what it contains |
| `Bitly.Remote.PostShorten` | hamper/plugins/bitly.py:105-109 | one POST is logged and the answer's short URL is returned |
| `Bitly.Remote.GetInfo` | hamper/plugins/bitly.py:122-126 | one GET is logged and the answer's title is returned |
| `Bitly.ShortenedUrlIsAbsolute` | hamper/plugins/bitly.py:76-78 | for any match, the URL handed to bitly starts with `http://` or `https://`, ends with the match, and equals the match exactly when the match had a protocol |
| `Bitly.ExcludedIgnoresCase` | hamper/plugins/bitly.py:71-74 | a URL is excluded exactly when some window of it, lowered, equals an exclusion entry |
| `Bitly.ExcludedByWindow` | hamper/plugins/bitly.py:71-74 | a URL with a window that lowers to an entry is excluded |
| `Bitly.ReplyCarriesShortUrl` | hamper/plugins/bitly.py:87-92 | a reply in either format, when it can be formatted, contains the short URL |
| `Bitly.ReplyIsAscii` | hamper/plugins/bitly.py:87-92 | the byte-string template is filled exactly when the short URL and the title (or, without a title, the sender) are ASCII, and the reply is then ASCII throughout; otherwise `UnicodeEncodeError` |
| `Bitly.ShortyIsShortened` | hamper/test/test_plugin_bitly.py:31-35 | the 17-character match `http://shorty.com` passes both filters when nothing is excluded, contrary to the test |
| `Bitly.BitlyLinksAndThreshold` | hamper/plugins/bitly.py:67-74 | a bare 12-character bitly link is skipped although its prefixed form is 19 characters; under the default exclusion list the same link with `http://` is shortened |
| `Bitly.NoDefaultExclusion` | hamper/plugins/bitly.py:45 | a URL without `m`, `g` or `a` in either case is never excluded by the default list |
| `Bitly.GithubLinkExcluded` | hamper/plugins/bitly.py:45 | a GitHub link in mixed case is excluded by the default list |
| `Bitly.Bitly.Setup` | hamper/plugins/bitly.py:41-45 | setup stores the API base URL, the login, the API key and the default exclusion list |
| `Bitly.Bitly.IsExcluded` | hamper/plugins/bitly.py:71-74 | the loop reports true exactly when some entry occurs in the lowered URL |
| `Bitly.Bitly.Shorten` | hamper/plugins/bitly.py:97-109 | when the shorten parameters can be URL-encoded, one POST to `<api>/shorten` with them is logged and the result is the API's short URL for them; otherwise nothing is sent and the result is `UnicodeEncodeError` |
| `Bitly.Bitly.Info` | hamper/plugins/bitly.py:111-126 | when the info parameters can be URL-encoded, one GET of `<api>/info` with them is logged and the result is the API's title for them; otherwise nothing is sent and the result is `UnicodeEncodeError` |
| `Bitly.Bitly.Message` | hamper/plugins/bitly.py:59-95 | never returns true; no match, a match of at most 12 characters or an excluded match returns false and leaves the API and the bot untouched; for any other match, raises `UnicodeEncodeError` with nothing sent when the shorten parameters cannot be URL-encoded; otherwise sends one shorten request for the (prefixed) URL, then raises with only that request sent when the info parameters cannot be URL-encoded; otherwise also sends one info request for the short URL, then either returns false after one reply in the format chosen by the title's truthiness, or raises without replying when that reply would hold a non-ASCII character; the plugin's fields never change |
| `Bitly.NoTitleScenario` | hamper/test/test_plugin_bitly.py:37-43 | without a title the reply is `spammy's url: http://bit.ly/5h0rT` |
| `Bitly.TitleScenario` | hamper/test/test_plugin_bitly.py:45-52 | with a title two requests are sent, `message` returns without consuming the message, and the single reply is the short URL and the title, not prefixed by the sender as the test expects |
| `Bitly.NonAsciiTitleScenario` | hamper/plugins/bitly.py:85-92 | with the title `Café` both requests are sent, no reply is made and `message` raises `UnicodeEncodeError` |
| `Bitly.NonAsciiUrlScenario` | hamper/plugins/bitly.py:97-103 | for the match `http://example.com/café` no request is sent, no reply is made and `message` raises `UnicodeEncodeError` |
| `Bitly.NonAsciiShortUrlScenario` | hamper/plugins/bitly.py:111-119 | for a short link holding `é` only the POST is sent, no reply is made and `message` raises `UnicodeEncodeError` |
| `Bitly.NoUrlScenario` | hamper/plugins/bitly.py:60-62 | a message without a URL gets no request and no reply, and is not consumed |

## Left out

- The regex engine: how `search` scans the message, backtracks and picks the leftmost match. The match is an input to `message`; the model states which strings the pattern can match, not which one the search returns.
- UrlRegex.IsDigit: `\d` under `re.U` also matches non-ASCII decimal digits; only `0`-`9` are modelled.
- UrlRegex.IsLetter: under `re.IGNORECASE | re.U`, the two non-ASCII characters whose lower-case form is an ASCII letter, U+0130 (lowering to `i`) and the Kelvin sign U+212A (lowering to `k`), also match `[a-z]`; only ASCII letters are modelled.
- Text.Lower: Python's `lower()` also lowers non-ASCII letters; only `A`-`Z` are lowered.
- `setup`'s configuration reading, its `KeyError` handling with the help text and `quit()`, and the compilation of the pattern: process-level configuration and I/O. The reads at lines 42-43 raise `KeyError` before the `try` can catch it; `Bitly.Bitly.Setup` models only the case where both keys are present.
- The HTTP round trips, the percent-encoding that `urllib.urlencode` produces and JSON decoding in `shorten` and `info`: the API is a log of requests plus two answer functions giving `data.url` and `data.info[0].title`. Only whether `urlencode` raises is modelled (`Bitly.UrlEncodable`), not the query string it builds.
- Answers that lack `data`, `url`, `info`, a first entry or `title`: the code raises `KeyError` or `IndexError` out of `message`; an answer whose `data` (or `data.info[0]`) is `null` or not an object raises `TypeError` there instead. The answer functions are total, so these paths are not modelled. A `null` `data.url` is not modelled either (the short URL is a string); a `null` title is the `None` title and takes the untitled reply.
- Byte-string messages: the model takes the message and the sender as unicode strings of code points. If the chat layer handed `message` Python 2 byte strings instead, `len` at hamper/plugins/bitly.py:68 would count UTF-8 bytes and `\s` under `re.U` would match single bytes such as `\xa0` inside a multi-byte character, so both the 12-character decision and the match could differ; a non-ASCII byte-string sender would also not raise in the untitled reply. Likewise, the login and API key read from the configuration are taken as unicode, so a non-ASCII one makes `urlencode` raise; a byte-string one would not. On a narrow Python 2 build, `len` of a unicode string counts UTF-16 code units, so a character outside the Basic Multilingual Plane counts twice. Neither encoding is modelled.
- Status codes: the code never reads `status_code`, so there is no failure reply to model.
- The unused `bot` argument of `shorten` and `info`.
- hamper/plugins/plugin_utils.py is not part of this model: it hands plugin management to the bot factory.
