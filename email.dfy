/** The newsletter form's address check, `isValidEmail`, which tests the
    trimmed address against the pattern `^[^\s@]+@[^\s@]+\.[^\s@]+$`. */
module Email {
  import opened Text

  /** A character of the class `[^\s@]`. */
  predicate Plain(c: char) {
    !IsWhitespace(c) && c != '@'
  }

  predicate AllPlain(s: string) {
    forall i :: 0 <= i < |s| ==> Plain(s[i])
  }

  /** The pattern matches `s` with its `@` at index `at` and its `\.` at index
      `dot`: one or more plain characters, the `@`, one or more plain
      characters, the dot, one or more plain characters. */
  predicate PatternSplit(s: string, at: int, dot: int) {
    && 0 < at && at + 1 < dot && dot + 1 < |s|
    && s[at] == '@' && s[dot] == '.'
    && AllPlain(s[..at]) && AllPlain(s[at + 1..dot]) && AllPlain(s[dot + 1..])
  }

  /** `isValidEmail(s)`: the regular expression matches the whole of `s`. */
  ghost predicate MatchesPattern(s: string) {
    exists at, dot :: PatternSplit(s, at, dot)
  }

  /** The first index of `c` in `s`, or -1. */
  function FirstIndex(s: string, c: char): (i: int)
    ensures -1 <= i < |s|
    ensures i == -1 <==> c !in s
    ensures 0 <= i ==> s[i] == c && c !in s[..i]
  {
    if s == [] then -1
    else if s[0] == c then 0
    else
      var j := FirstIndex(s[1..], c);
      assert s[1..][..j + 1] == s[1..j + 2] by {
        if j >= 0 {
          assert s[1..][..j] == s[1..j + 1];
        }
      }
      if j < 0 then -1 else j + 1
  }

  /** `t` has a dot with at least one character before it and one after it. */
  predicate HasInnerDot(t: string) {
    exists k :: 0 < k < |t| - 1 && t[k] == '.'
  }

  /** The same check stated character by character: no white space, exactly
      one `@`, something before it, and after it a dot that is neither the
      first nor the last character. */
  predicate ValidByCharacters(s: string) {
    && (forall i :: 0 <= i < |s| ==> !IsWhitespace(s[i]))
    && multiset(s)['@'] == 1
    && var at := FirstIndex(s, '@');
       at > 0 && HasInnerDot(s[at + 1..])
  }

  lemma PlainSlice(s: string, a: int, b: int)
    requires 0 <= a <= b <= |s|
    requires forall i :: 0 <= i < |s| ==> !IsWhitespace(s[i])
    requires '@' !in s[a..b]
    ensures AllPlain(s[a..b])
  {
    forall i | 0 <= i < b - a ensures Plain(s[a..b][i]) {
      assert s[a..b][i] == s[a + i];
      assert s[a..b][i] in s[a..b];
    }
  }

  lemma ValidHasPattern(s: string)
    requires ValidByCharacters(s)
    ensures MatchesPattern(s)
  {
    var at := FirstIndex(s, '@');
    var t := s[at + 1..];
    var k :| 0 < k < |t| - 1 && t[k] == '.';
    var dot := at + 1 + k;
    assert '@' !in t by {
      assert s == s[..at] + [s[at]] + t;
      assert multiset(s) == multiset(s[..at]) + multiset([s[at]]) + multiset(t);
    }
    assert s[dot] == '.' by {
      assert s[dot] == t[k];
    }
    PlainSlice(s, 0, at);
    assert '@' !in s[at + 1..dot] by {
      assert forall c :: c in s[at + 1..dot] ==> c in t;
    }
    PlainSlice(s, at + 1, dot);
    assert '@' !in s[dot + 1..] by {
      assert forall c :: c in s[dot + 1..] ==> c in t;
    }
    PlainSlice(s, dot + 1, |s|);
    assert PatternSplit(s, at, dot);
  }

  lemma NoAt(s: string)
    requires AllPlain(s)
    ensures '@' !in s
  {
    assert forall i :: 0 <= i < |s| ==> s[i] != '@';
  }

  lemma PatternIsValid(s: string, at: int, dot: int)
    requires PatternSplit(s, at, dot)
    ensures ValidByCharacters(s)
  {
    var pre, mid, post := s[..at], s[at + 1..dot], s[dot + 1..];
    NoAt(pre);
    NoAt(mid);
    NoAt(post);
    assert multiset(s)['@'] == 1 by {
      assert s == pre + ['@'] + mid + ['.'] + post;
      assert multiset(s) == multiset(pre) + multiset(['@']) + multiset(mid)
                            + multiset(['.']) + multiset(post);
    }
    forall i | 0 <= i < |s| ensures !IsWhitespace(s[i]) {
      if i < at {
        assert s[i] == pre[i];
      } else if at < i < dot {
        assert s[i] == mid[i - at - 1];
      } else if dot < i {
        assert s[i] == post[i - dot - 1];
      }
    }
    assert FirstIndex(s, '@') == at;
    var t := s[at + 1..];
    assert t[dot - at - 1] == '.';
  }

  /** The character-by-character check and the regular expression accept
      the same strings. */
  lemma ValidIffPattern(s: string)
    ensures ValidByCharacters(s) <==> MatchesPattern(s)
  {
    if ValidByCharacters(s) {
      ValidHasPattern(s);
    }
    if MatchesPattern(s) {
      var at, dot :| PatternSplit(s, at, dot);
      PatternIsValid(s, at, dot);
    }
  }

  /** What the newsletter form does with the address it was given. */
  datatype SubmitOutcome = Subscribed | InvalidEmail

  /** `handleNewsletterSubmit`: the trimmed address is checked first, and a
      failing address is refused before anything else happens. */
  function NewsletterSubmit(raw: string): (o: SubmitOutcome)
    ensures o == Subscribed <==> MatchesPattern(Trim(raw))
  {
    ValidIffPattern(Trim(raw));
    if ValidByCharacters(Trim(raw)) then Subscribed else InvalidEmail
  }

  /** An address of the expected shape is accepted. */
  lemma EmailAccepted()
    ensures ValidByCharacters("a@b.co")
    ensures MatchesPattern("a@b.co")
  {
    PatternIsValid("a@b.co", 1, 3);
  }

  /** A domain without a dot, an address without an `@` and the empty string
      are refused. */
  lemma EmailRefused()
    ensures !ValidByCharacters("a@b")
    ensures !ValidByCharacters("ab.com")
    ensures !ValidByCharacters("")
    ensures !MatchesPattern("a@b") && !MatchesPattern("ab.com") && !MatchesPattern("")
  {
    ValidIffPattern("a@b");
    ValidIffPattern("ab.com");
    ValidIffPattern("");
    assert FirstIndex("a@b", '@') == 1;
    assert "a@b"[2..] == "b";
    assert '@' !in "ab.com";
  }
}
