/**
  The URL pattern of the bitly plugin (after John Gruber's "improved regex for
  matching URLs"), compiled with VERBOSE, IGNORECASE and UNICODE. It is given
  here as the set of strings the whole pattern matches: a start, a body of one
  or more chunks, and an end. Which of several matches the search returns is
  the regex engine's business and is not modelled.
 */
module UrlRegex {
  import opened Text

  /** `\s` under UNICODE: the characters Python 2.7 classifies as white space. */
  predicate IsSpace(c: char) {
    var n := c as int;
    n == 0x20 || 0x09 <= n <= 0x0d || 0x1c <= n <= 0x1f || n == 0x85 || n == 0xa0
    || n == 0x1680 || n == 0x180e || 0x2000 <= n <= 0x200a || n == 0x2028 || n == 0x2029
    || n == 0x202f || n == 0x205f || n == 0x3000
  }

  /** `\d`, ASCII digits only. */
  predicate IsDigit(c: char) {
    '0' <= c <= '9'
  }

  /** `[a-z]` under IGNORECASE. */
  predicate IsLetter(c: char) {
    'a' <= c <= 'z' || 'A' <= c <= 'Z'
  }

  /** `[a-z0-9.\-]` under IGNORECASE. */
  predicate IsDomainChar(c: char) {
    IsLetter(c) || IsDigit(c) || c == '.' || c == '-'
  }

  /** `[^\s()<>]` */
  predicate IsPlain(c: char) {
    !IsSpace(c) && c !in "()<>"
  }

  /** ``[^\s`!()\[\]{};:'".,<>?]``: a character a URL may end on. */
  predicate IsEndChar(c: char) {
    !IsSpace(c) && c !in "`!()[]{};:'\".,<>?"
  }

  // ---------------------------------------------------------------- start

  /** `(?P<prot>https?://)` */
  predicate IsProtocol(s: string) {
    Lower(s) == "http://" || Lower(s) == "https://"
  }

  /** `www\d{0,3}[.]` */
  predicate IsWwwPrefix(s: string) {
    4 <= |s| <= 7 && Lower(s[..3]) == "www" && s[|s| - 1] == '.'
    && forall i :: 3 <= i < |s| - 1 ==> IsDigit(s[i])
  }

  /** `[a-z0-9.\-]+[.][a-z]{2,4}/` with a top-level label of n letters. */
  predicate DomainSplit(s: string, n: int) {
    2 <= n <= 4 && n + 3 <= |s| && s[|s| - 1] == '/' && s[|s| - 2 - n] == '.'
    && (forall i :: 0 <= i < |s| - 2 - n ==> IsDomainChar(s[i]))
    && (forall i :: |s| - 1 - n <= i < |s| - 1 ==> IsLetter(s[i]))
  }

  /** `[a-z0-9.\-]+[.][a-z]{2,4}/`: looks like a domain name followed by a slash. */
  predicate IsDomainPrefix(s: string) {
    exists n :: 2 <= n <= 4 && DomainSplit(s, n)
  }

  /**
    The first alternative group of the pattern; `prot` is what the named group
    `prot` captured, empty when that alternative was not the one taken.
   */
  predicate IsStart(s: string, prot: string) {
    (IsProtocol(s) && prot == s) || (prot == "" && (IsWwwPrefix(s) || IsDomainPrefix(s)))
  }

  // ---------------------------------------------------------------- body and end

  /** `[^\s()<>]+` */
  predicate IsPlainRun(s: string) {
    |s| > 0 && forall i :: 0 <= i < |s| ==> IsPlain(s[i])
  }

  /** `\([^\s()<>]+\)`: a parenthesised group at the second level. */
  predicate IsInnerGroup(s: string) {
    |s| >= 3 && s[0] == '(' && s[|s| - 1] == ')' && IsPlainRun(s[1..|s| - 1])
  }

  /** `([^\s()<>]+|(\([^\s()<>]+\)))*`: what a first-level group holds. */
  ghost predicate IsGroupItems(s: string)
    decreases |s|
  {
    s == [] || exists i :: 0 < i <= |s| && (IsPlainRun(s[..i]) || IsInnerGroup(s[..i])) && IsGroupItems(s[i..])
  }

  /** `\(([^\s()<>]+|(\([^\s()<>]+\)))*\)`: balanced parentheses, up to two levels. */
  ghost predicate IsParenGroup(s: string) {
    |s| >= 2 && s[0] == '(' && s[|s| - 1] == ')' && IsGroupItems(s[1..|s| - 1])
  }

  /** One repetition of the body: a plain run or a parenthesised group. */
  ghost predicate IsChunk(s: string) {
    IsPlainRun(s) || IsParenGroup(s)
  }

  /** `(?: [^\s()<>]+ | \(...\) )+` */
  ghost predicate IsBody(s: string)
    decreases |s|
  {
    IsChunk(s) || exists i :: 0 < i < |s| && IsChunk(s[..i]) && IsBody(s[i..])
  }

  /** The final group: a parenthesised group or one end character. */
  ghost predicate IsEnd(s: string) {
    IsParenGroup(s) || (|s| == 1 && IsEndChar(s[0]))
  }

  /** The whole pattern matches text, with the group `prot` capturing prot. */
  ghost predicate IsUrlMatch(text: string, prot: string) {
    exists k, m :: 0 < k < m < |text| && IsStart(text[..k], prot) && IsBody(text[k..m]) && IsEnd(text[m..])
  }

  // ---------------------------------------------------------------- shape of a match

  /** Neither white space nor an angle bracket. */
  predicate Unbroken(c: char) {
    !IsSpace(c) && c != '<' && c != '>'
  }

  predicate AllUnbroken(s: string) {
    forall i :: 0 <= i < |s| ==> Unbroken(s[i])
  }

  /** text begins with `http://` or `https://`, in any case. */
  predicate StartsWithProtocol(text: string) {
    (|text| >= 7 && Lower(text[..7]) == "http://") || (|text| >= 8 && Lower(text[..8]) == "https://")
  }

  lemma AllUnbrokenSplit(s: string, i: nat)
    requires i <= |s| && AllUnbroken(s[..i]) && AllUnbroken(s[i..])
    ensures AllUnbroken(s)
  {
    forall j | 0 <= j < |s|
      ensures Unbroken(s[j])
    {
      if j < i {
        assert s[..i][j] == s[j];
      } else {
        assert s[i..][j - i] == s[j];
      }
    }
  }

  lemma InnerGroupUnbroken(s: string)
    requires IsInnerGroup(s)
    ensures AllUnbroken(s)
  {
    forall j | 0 <= j < |s|
      ensures Unbroken(s[j])
    {
      if 0 < j < |s| - 1 {
        assert s[1..|s| - 1][j - 1] == s[j];
      }
    }
  }

  lemma {:induction false} GroupItemsUnbroken(s: string)
    requires IsGroupItems(s)
    ensures AllUnbroken(s)
    decreases |s|
  {
    if s != [] {
      var i :| 0 < i <= |s| && (IsPlainRun(s[..i]) || IsInnerGroup(s[..i])) && IsGroupItems(s[i..]);
      GroupItemsUnbroken(s[i..]);
      if IsInnerGroup(s[..i]) {
        InnerGroupUnbroken(s[..i]);
      }
      AllUnbrokenSplit(s, i);
    }
  }

  lemma ParenGroupUnbroken(s: string)
    requires IsParenGroup(s)
    ensures AllUnbroken(s)
  {
    GroupItemsUnbroken(s[1..|s| - 1]);
    forall j | 0 <= j < |s|
      ensures Unbroken(s[j])
    {
      if 0 < j < |s| - 1 {
        assert s[1..|s| - 1][j - 1] == s[j];
      }
    }
  }

  lemma {:induction false} BodyUnbroken(s: string)
    requires IsBody(s)
    ensures AllUnbroken(s)
    decreases |s|
  {
    if IsParenGroup(s) {
      ParenGroupUnbroken(s);
    } else if !IsPlainRun(s) {
      var i :| 0 < i < |s| && IsChunk(s[..i]) && IsBody(s[i..]);
      BodyUnbroken(s[i..]);
      if IsParenGroup(s[..i]) {
        ParenGroupUnbroken(s[..i]);
      }
      AllUnbrokenSplit(s, i);
    }
  }

  lemma LowerCharUnbroken(c: char)
    requires Unbroken(LowerChar(c))
    ensures Unbroken(c)
  {
  }

  lemma {:induction false} ProtocolUnbroken(s: string)
    requires IsProtocol(s)
    ensures AllUnbroken(s) && |s| >= 7
  {
    assert AllUnbroken("http://") && AllUnbroken("https://");
    forall j | 0 <= j < |s|
      ensures Unbroken(s[j])
    {
      assert Unbroken(Lower(s)[j]);
      LowerCharUnbroken(s[j]);
    }
  }

  lemma WwwUnbroken(s: string)
    requires IsWwwPrefix(s)
    ensures AllUnbroken(s)
  {
    forall j | 0 <= j < |s|
      ensures Unbroken(s[j])
    {
      if j < 3 {
        assert Lower(s[..3])[j] == LowerChar(s[j]) == 'w';
        LowerCharUnbroken(s[j]);
      }
    }
  }

  lemma DomainUnbroken(s: string)
    requires IsDomainPrefix(s)
    ensures AllUnbroken(s) && |s| >= 5
  {
    var n :| 2 <= n <= 4 && DomainSplit(s, n);
  }

  lemma StartUnbroken(s: string, prot: string)
    requires IsStart(s, prot)
    ensures AllUnbroken(s) && |s| >= 4
  {
    if IsProtocol(s) && prot == s {
      ProtocolUnbroken(s);
    } else if IsWwwPrefix(s) {
      WwwUnbroken(s);
    } else {
      DomainUnbroken(s);
    }
  }

  lemma EndLast(s: string)
    requires IsEnd(s)
    ensures AllUnbroken(s)
    ensures s[|s| - 1] == ')' || IsEndChar(s[|s| - 1])
  {
    if IsParenGroup(s) {
      ParenGroupUnbroken(s);
    }
  }

  /**
    Every string the pattern matches is at least six characters long, holds
    no white space and no angle bracket, and ends on `)` or on a character
    outside the trailing punctuation set.
   */
  lemma MatchShape(text: string, prot: string)
    requires IsUrlMatch(text, prot)
    ensures |text| >= 6
    ensures AllUnbroken(text)
    ensures text[|text| - 1] == ')' || IsEndChar(text[|text| - 1])
  {
    var k, m :| 0 < k < m < |text| && IsStart(text[..k], prot) && IsBody(text[k..m]) && IsEnd(text[m..]);
    StartUnbroken(text[..k], prot);
    BodyUnbroken(text[k..m]);
    EndLast(text[m..]);
    JoinUnbroken(text, k, m);
    assert text[m..][|text| - m - 1] == text[|text| - 1];
  }

  lemma JoinUnbroken(text: string, k: nat, m: nat)
    requires k <= m <= |text|
    requires AllUnbroken(text[..k]) && AllUnbroken(text[k..m]) && AllUnbroken(text[m..])
    ensures AllUnbroken(text)
  {
    assert text[k..][..m - k] == text[k..m] && text[k..][m - k..] == text[m..];
    AllUnbrokenSplit(text[k..], m - k);
    AllUnbrokenSplit(text, k);
  }

  /** A prefix of a text whose first p letters are followed by `:` is not a domain-like token. */
  lemma ColonBreaksDomain(st: string, text: string, p: nat)
    requires st <= text
    requires p < |text| && text[p] == ':'
    requires forall j :: 0 <= j < p ==> IsLetter(text[j])
    ensures !IsDomainPrefix(st)
  {
    forall n | 2 <= n <= 4 && n + 3 <= |st|
      ensures !DomainSplit(st, n)
    {
      var d := |st| - 2 - n;
      assert p < |st| ==> st[p] == ':';
      assert st[d] == text[d];
    }
  }

  lemma HttpLetters(text: string, len: nat, p: nat)
    requires (len == 7 && p == 4 && |text| >= 7 && Lower(text[..7]) == "http://")
          || (len == 8 && p == 5 && |text| >= 8 && Lower(text[..8]) == "https://")
    ensures p < |text| && text[p] == ':'
    ensures forall j :: 0 <= j < p ==> IsLetter(text[j])
    ensures |text| >= 4 && LowerChar(text[0]) == 'h'
  {
    var lo := Lower(text[..len]);
    assert lo[p] == LowerChar(text[p]);
    forall j | 0 <= j < p
      ensures IsLetter(text[j])
    {
      assert lo[j] == LowerChar(text[j]);
      assert lo[j] in "https";
    }
    assert lo[0] == LowerChar(text[0]);
  }

  /**
    The group `prot` captured something exactly when the match starts with
    `http://` or `https://` (in any case), and then it captured that prefix.
   */
  lemma ProtGroupIffProtocol(text: string, prot: string)
    requires IsUrlMatch(text, prot)
    ensures prot != "" <==> StartsWithProtocol(text)
    ensures prot != "" ==> IsProtocol(prot) && prot <= text
  {
    var k, m :| 0 < k < m < |text| && IsStart(text[..k], prot) && IsBody(text[k..m]) && IsEnd(text[m..]);
    var st := text[..k];
    if IsProtocol(st) && prot == st {
      assert Lower(st)[..] == Lower(st);
      if Lower(st) == "http://" {
        assert |text| >= 7 && text[..7] == st;
      } else {
        assert |text| >= 8 && text[..8] == st;
      }
    } else if StartsWithProtocol(text) {
      var len, p := if |text| >= 7 && Lower(text[..7]) == "http://" then 7 else 8,
                    if |text| >= 7 && Lower(text[..7]) == "http://" then 4 else 5;
      HttpLetters(text, len, p);
      assert |st| >= 3 ==> Lower(st[..3])[0] == LowerChar(text[0]);
      ColonBreaksDomain(st, text, p);
    }
  }

  // ---------------------------------------------------------------- examples

  /**
    `http://` in any case, a run of characters that are neither white space
    nor `()<>`, and a character a URL may end on make a match, with `prot`
    capturing the prefix.
   */
  lemma ProtocolUrlMatches(prefix: string, run: string, last: char)
    requires Lower(prefix) == "http://"
    requires IsPlainRun(run) && IsEndChar(last)
    ensures IsUrlMatch(prefix + run + [last], prefix)
  {
    var text := prefix + run + [last];
    var k, m := |prefix|, |prefix| + |run|;
    assert text[..k] == prefix && text[k..m] == run && text[m..] == [last];
    assert IsStart(text[..k], prefix);
    assert IsBody(text[k..m]);
    assert IsEnd(text[m..]);
  }

  lemma LowerHttp()
    ensures Lower("http://") == "http://"
  {
    assert Lower("http://") == [LowerChar('h')] + Lower("ttp://");
  }

  /** The URL of the plugin's no-title test message is in the pattern's language. */
  lemma SpammyUrlMatches()
    ensures IsUrlMatch("http://" + "spammyspamspam.com" + "/", "http://")
  {
    LowerHttp();
    assert IsPlainRun("spammyspamspam.com");
    ProtocolUrlMatches("http://", "spammyspamspam.com", '/');
  }

  /** The body and end classes take non-ASCII letters: a URL with `á` and `é` in it is a match. */
  lemma NonAsciiUrlMatches()
    ensures IsUrlMatch("http://" + "exámple.com/caf" + "é", "http://")
  {
    LowerHttp();
    assert IsPlainRun("exámple.com/caf");
    ProtocolUrlMatches("http://", "exámple.com/caf", 'é');
  }

  /**
    The URL of the plugin's titled test message, as the search finds it in
    "have you seen http://reddit.com/r/lpmc/?": the text up to the question
    mark is a match, the text with it is not.
   */
  lemma RedditUrlMatches()
    ensures IsUrlMatch("http://" + "reddit.com/r/lpmc" + "/", "http://")
    ensures !IsUrlMatch("http://reddit.com/r/lpmc/?", "http://")
  {
    TrailingQuestionMarkNotMatched("http://reddit.com/r/lpmc/?", "http://");
    LowerHttp();
    assert IsPlainRun("reddit.com/r/lpmc");
    ProtocolUrlMatches("http://", "reddit.com/r/lpmc", '/');
  }

  /** A bitly link written without protocol matches through the domain-like alternative. */
  lemma BareBitlyLinkMatches()
    ensures IsUrlMatch("bit.ly/5h0rT", "")
  {
    var text := "bit.ly/5h0rT";
    assert DomainSplit(text[..7], 2);
    assert IsStart(text[..7], "");
    assert IsPlainRun(text[7..11]) && IsBody(text[7..11]);
    assert IsEnd(text[11..]);
  }

  /** A trailing `?` is never part of a match, so the search stops before it. */
  lemma TrailingQuestionMarkNotMatched(text: string, prot: string)
    requires |text| > 0 && text[|text| - 1] == '?'
    ensures !IsUrlMatch(text, prot)
  {
    if IsUrlMatch(text, prot) {
      MatchShape(text, prot);
    }
  }
}
