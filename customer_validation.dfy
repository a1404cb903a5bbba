/** The two input checks of the customer service, written as matchers for
    their fixed .NET regular expressions, character by character:

      name:   ^(?!.*([a-zA-Zæøåäöë'-])\1\1)[a-zA-Zæøåäöë'-]+(?: [a-zA-Zæøåäöë'-]+)*$
      e-mail: ^[^@\s]+@[^@\s]+\.[^@\s]+$

    Matching is case-sensitive, `.` stops at a line feed, `\s` is .NET's
    Unicode white space, and `$` (without the Multiline option) matches at the
    end of the input or just before one final line feed. Each matcher is
    proved equal to a plain description of the strings it accepts. */
module CustomerValidation {

  /** The class [a-zA-Zæøåäöë'-]: only the lower-case Nordic letters. */
  predicate IsNameChar(c: char): (r: bool)
    ensures r ==> c != ' ' && c != '\n' && c != '@'
    ensures r ==> c != 'Æ' && c != 'Ø' && c != 'Å' && c != 'Ä' && c != 'Ö' && c != 'Ë'
  {
    || ('a' <= c <= 'z') || ('A' <= c <= 'Z')
    || c == 'æ' || c == 'ø' || c == 'å' || c == 'ä' || c == 'ö' || c == 'ë'
    || c == '\'' || c == '-'
  }

  /** .NET's `\s`: [\f\n\r\t\v\x85\p{Z}], where \p{Z} is the Unicode space,
      line and paragraph separators. */
  predicate IsRegexSpace(c: char): (r: bool)
    ensures c == ' ' || c == '\t' || c == '\n' || c == '\r' ==> r
    ensures r ==> c != '@' && !(' ' < c < '\U{0085}')
  {
    || c == '\t' || c == '\n' || c == '\U{000B}' || c == '\U{000C}' || c == '\r' || c == '\U{0085}'
    || c == ' ' || c == '\U{00A0}' || c == '\U{1680}' || ('\U{2000}' <= c <= '\U{200A}')
    || c == '\U{2028}' || c == '\U{2029}' || c == '\U{202F}' || c == '\U{205F}' || c == '\U{3000}'
  }

  /** The class [^@\s]. */
  predicate IsAddressChar(c: char) {
    c != '@' && !IsRegexSpace(c)
  }

  /** The end of the longest run of class characters starting at i: what a
      greedy `[...]+` or `[...]*` consumes. */
  function RunEnd(s: string, i: nat, inClass: char -> bool): (j: nat)
    requires i <= |s|
    ensures i <= j <= |s|
    ensures forall k :: i <= k < j ==> inClass(s[k])
    ensures j < |s| ==> !inClass(s[j])
    decreases |s| - i
  {
    if i < |s| && inClass(s[i]) then RunEnd(s, i + 1, inClass) else i
  }

  /** A run that ends where the class does ends exactly there. */
  lemma RunEndAt(s: string, i: nat, inClass: char -> bool, m: nat)
    requires i <= m <= |s|
    requires forall k :: i <= k < m ==> inClass(s[k])
    requires m < |s| ==> !inClass(s[m])
    ensures RunEnd(s, i, inClass) == m
  {
  }

  /** The positions where `$` matches. */
  predicate EndAnchor(s: string, j: nat) {
    j == |s| || (j == |s| - 1 && s[j] == '\n')
  }

  /** The input without the one final line feed that `$` may leave unread. */
  function Body(s: string): string {
    if |s| > 0 && s[|s| - 1] == '\n' then s[..|s| - 1] else s
  }

  // ---------------------------------------------------------------- names

  /** `[C]+(?: [C]+)*$` matched from position i. No class character is a space
      or a line feed, so each greedy run stops at the only place the rest of
      the pattern can go on from, and no backtracking is needed. */
  predicate WordsFrom(s: string, i: nat)
    requires i <= |s|
    decreases |s| - i
  {
    var j := RunEnd(s, i, IsNameChar);
    i < j && (EndAnchor(s, j) || (s[j] == ' ' && WordsFrom(s, j + 1)))
  }

  /** Three equal name characters in a row at k: `([C])\1\1`. */
  predicate TripleAt(s: string, k: nat)
    requires k + 2 < |s|
  {
    s[k] == s[k + 1] && s[k + 1] == s[k + 2] && IsNameChar(s[k])
  }

  /** The lookahead `.*([C])\1\1` from position i: the `.*` cannot cross a
      line feed. */
  predicate TripleAhead(s: string, i: nat)
    requires i <= |s|
    decreases |s| - i
  {
    i + 2 < |s| && (TripleAt(s, i) || (s[i] != '\n' && TripleAhead(s, i + 1)))
  }

  /** One or more non-empty words over the name alphabet, separated by single
      spaces, with no space at either end. */
  ghost predicate IsSpacedWords(t: string) {
    && |t| > 0
    && t[0] != ' ' && t[|t| - 1] != ' '
    && (forall k :: 0 <= k < |t| ==> IsNameChar(t[k]) || t[k] == ' ')
    && (forall k :: 0 <= k < |t| - 1 && t[k] == ' ' ==> t[k + 1] != ' ')
  }

  /** Some name character occurs three times in a row. */
  ghost predicate HasTripleRun(t: string) {
    exists k: nat :: k + 2 < |t| && TripleAt(t, k)
  }

  /** `ValidateCustomerName`: the input, less one final line feed, is words
      separated by single spaces, and no character appears three times in a
      row (two is fine). */
  function ValidateCustomerName(name: string): (ok: bool)
    ensures ok <==> IsSpacedWords(Body(name)) && !HasTripleRun(Body(name))
  {
    var matched := !TripleAhead(name, 0) && WordsFrom(name, 0);
    assert matched <==> IsSpacedWords(Body(name)) && !HasTripleRun(Body(name)) by {
      WordsFromSpec(name, 0);
      if WordsFrom(name, 0) {
        assert Body(name)[0..] == Body(name);
        BodyIsPrefix(name);
        TripleAheadSpec(name, 0);
        TripleRunIgnoresFinalLineFeed(name);
      }
    }
    matched
  }

  /** The body is the input up to its length, and it is either all of the
      input or the input less a final line feed. */
  lemma BodyIsPrefix(s: string)
    ensures |Body(s)| <= |s| && Body(s) == s[..|Body(s)|]
    ensures |Body(s)| == |s| || (|Body(s)| == |s| - 1 && s[|s| - 1] == '\n')
    ensures |Body(s)| == |s| ==> |s| == 0 || s[|s| - 1] != '\n'
  {
  }

  /** A run of name characters reaches a place where `$` matches exactly when
      it reaches the end of the body. */
  lemma NameRunAnchor(s: string, i: nat)
    requires i <= |Body(s)|
    ensures RunEnd(s, i, IsNameChar) <= |Body(s)|
    ensures EndAnchor(s, RunEnd(s, i, IsNameChar)) <==> RunEnd(s, i, IsNameChar) == |Body(s)|
  {
    BodyIsPrefix(s);
  }

  /** s[lo..hi] is a spaced word list, stated on positions of s. */
  ghost predicate SpacedRange(s: string, lo: nat, hi: nat)
    requires hi <= |s|
  {
    && lo < hi
    && s[lo] != ' ' && s[hi - 1] != ' '
    && (forall k :: lo <= k < hi ==> IsNameChar(s[k]) || s[k] == ' ')
    && (forall k :: lo <= k < hi - 1 && s[k] == ' ' ==> s[k + 1] != ' ')
  }

  lemma SpacedRangeOfBody(s: string, i: nat)
    requires i <= |Body(s)|
    ensures IsSpacedWords(Body(s)[i..]) <==> SpacedRange(s, i, |Body(s)|)
  {
    BodyIsPrefix(s);
    var b := Body(s);
    var t := b[i..];
    assert forall k :: 0 <= k < |t| ==> t[k] == s[i + k];
    if IsSpacedWords(t) {
      forall k | i <= k < |b| ensures IsNameChar(s[k]) || s[k] == ' ' {
        assert s[k] == t[k - i];
      }
      forall k | i <= k < |b| - 1 && s[k] == ' ' ensures s[k + 1] != ' ' {
        assert s[k] == t[k - i] && s[k + 1] == t[k - i + 1];
      }
    }
    if SpacedRange(s, i, |b|) {
      assert t[|t| - 1] == s[|b| - 1];
      forall k | 0 <= k < |t| ensures IsNameChar(t[k]) || t[k] == ' ' {
        assert t[k] == s[i + k];
      }
      forall k | 0 <= k < |t| - 1 && t[k] == ' ' ensures t[k + 1] != ' ' {
        assert t[k] == s[i + k] && t[k + 1] == s[i + k + 1];
      }
    }
  }

  /** The word matcher from position i accepts exactly when the body from i
      on is a spaced word list. */
  lemma {:induction false} WordsFromSpec(s: string, i: nat)
    requires i <= |Body(s)|
    ensures WordsFrom(s, i) <==> IsSpacedWords(Body(s)[i..])
  {
    SpacedRangeOfBody(s, i);
    WordsFromRange(s, i);
  }

  lemma {:induction false} WordsFromRange(s: string, i: nat)
    requires i <= |Body(s)|
    ensures WordsFrom(s, i) <==> SpacedRange(s, i, |Body(s)|)
    decreases |s| - i
  {
    WordStep(s, i);
    var j := RunEnd(s, i, IsNameChar);
    if j < |Body(s)| && s[j] == ' ' {
      WordsFromRange(s, j + 1);
    }
  }

  /** One step of the word matcher: what the first run of name characters
      from i says about the rest of the body. */
  lemma WordStep(s: string, i: nat)
    requires i <= |Body(s)|
    ensures var n, j := |Body(s)|, RunEnd(s, i, IsNameChar);
      && j <= n && (EndAnchor(s, j) <==> j == n)
      && (j == n ==> (SpacedRange(s, i, n) <==> i < j))
      && (j < n && s[j] == ' ' ==> (SpacedRange(s, i, n) <==> i < j && SpacedRange(s, j + 1, n)))
      && (j < n && s[j] != ' ' ==> !SpacedRange(s, i, n))
  {
    BodyIsPrefix(s);
    NameRunAnchor(s, i);
    var n, j := |Body(s)|, RunEnd(s, i, IsNameChar);
    if j < n && s[j] == ' ' && i < j && SpacedRange(s, j + 1, n) {
      assert s[j + 1] != ' ';
    }
  }

  /** The lookahead finds a triple exactly when there is one from i on, as
      long as no line feed stands before the last character. */
  lemma {:induction false} TripleAheadSpec(s: string, i: nat)
    requires i <= |s|
    requires forall k :: i <= k < |s| - 1 ==> s[k] != '\n'
    ensures TripleAhead(s, i) <==> exists k: nat :: i <= k && k + 2 < |s| && TripleAt(s, k)
    decreases |s| - i
  {
    if i + 2 < |s| {
      TripleAheadSpec(s, i + 1);
      if !TripleAt(s, i) && exists k: nat :: i <= k && k + 2 < |s| && TripleAt(s, k) {
        var k: nat :| i <= k && k + 2 < |s| && TripleAt(s, k);
        assert i + 1 <= k;
      }
    }
  }

  /** A final line feed is never part of a triple. */
  lemma TripleRunIgnoresFinalLineFeed(s: string)
    ensures HasTripleRun(s) <==> HasTripleRun(Body(s))
  {
    var b := Body(s);
    BodyIsPrefix(s);
    if HasTripleRun(s) {
      var k: nat :| k + 2 < |s| && TripleAt(s, k);
      assert k + 2 < |b| by {
        if |b| < |s| { assert IsNameChar(s[k + 2]); }
      }
      assert TripleAt(b, k);
    }
    if HasTripleRun(b) {
      var k: nat :| k + 2 < |b| && TripleAt(b, k);
      assert TripleAt(s, k);
    }
  }

  /** A name with a character three times in a row is rejected. */
  lemma TripleRunRejected(name: string, k: nat)
    requires k + 2 < |name| && TripleAt(name, k)
    ensures !ValidateCustomerName(name)
  {
    TripleRunIgnoresFinalLineFeed(name);
  }

  /** A name holding a character outside the alphabet (other than a space, or
      one final line feed) is rejected: `/`, `*`, a digit, an upper-case Æ. */
  lemma ForeignCharacterRejected(name: string, k: nat)
    requires k < |name| && !IsNameChar(name[k]) && name[k] != ' '
    requires !(k == |name| - 1 && name[k] == '\n')
    ensures !ValidateCustomerName(name)
  {
    BodyIsPrefix(name);
    var b := Body(name);
    assert k < |b| && b[k] == name[k];
  }

  /** One line feed after a name is ignored: the name with it is accepted
      exactly when the name itself is well formed. */
  lemma NameTrailingLineFeed(name: string)
    ensures ValidateCustomerName(name + "\n") <==> IsSpacedWords(name) && !HasTripleRun(name)
  {
    assert Body(name + "\n") == name;
  }

  // -------------------------------------------------------- e-mail addresses

  /** `[^@\s]+\.[^@\s]+$` matched from position i. The class holds neither a
      line feed nor '@', so the run and `$` fix where the domain ends, and the
      dot may be any '.' with class characters on both sides. */
  predicate DomainFrom(s: string, i: nat)
    requires i <= |s|
  {
    var end := RunEnd(s, i, IsAddressChar);
    EndAnchor(s, end) && DotBetween(s, i, end)
  }

  /** A '.' in s[lo..hi] that is neither its first nor its last character. */
  predicate DotBetween(s: string, lo: nat, hi: nat)
    requires hi <= |s|
  {
    exists k :: lo < k < hi - 1 && s[k] == '.'
  }

  /** No white space, exactly one '@', something before it, and after it a
      domain holding a '.' with at least one character on each side. */
  ghost predicate IsEmailShape(e: string) {
    && (forall k :: 0 <= k < |e| ==> !IsRegexSpace(e[k]))
    && exists a :: 0 < a < |e| && IsSoleAt(e, a) && HasInnerDot(e[a + 1..])
  }

  ghost predicate IsSoleAt(e: string, a: nat)
    requires a < |e|
  {
    e[a] == '@' && forall k :: 0 <= k < |e| && e[k] == '@' ==> k == a
  }

  ghost predicate HasInnerDot(d: string) {
    exists k :: 0 < k < |d| - 1 && d[k] == '.'
  }

  /** `ValidateCustomerEmail`: the input, less one final line feed, has the
      shape local@domain described by IsEmailShape. */
  function ValidateCustomerEmail(email: string): (ok: bool)
    ensures ok <==> IsEmailShape(Body(email))
  {
    var at := RunEnd(email, 0, IsAddressChar);
    var matched := 0 < at < |email| && email[at] == '@' && DomainFrom(email, at + 1);
    assert matched <==> IsEmailShape(Body(email)) by {
      ShapeOfBody(email);
      EmailMatchSound(email);
      EmailMatchComplete(email);
    }
    matched
  }

  /** IsEmailShape of s[..n], stated on positions of s. */
  ghost predicate ShapeUpTo(s: string, n: nat)
    requires n <= |s|
  {
    && (forall k :: 0 <= k < n ==> !IsRegexSpace(s[k]))
    && exists a :: 0 < a < n && SoleAtUpTo(s, n, a) && DotBetween(s, a + 1, n)
  }

  ghost predicate SoleAtUpTo(s: string, n: nat, a: nat)
    requires a < n <= |s|
  {
    s[a] == '@' && forall k :: 0 <= k < n && s[k] == '@' ==> k == a
  }

  lemma ShapeOfBody(s: string)
    ensures |Body(s)| <= |s|
    ensures IsEmailShape(Body(s)) <==> ShapeUpTo(s, |Body(s)|)
  {
    BodyIsPrefix(s);
    if IsEmailShape(Body(s)) {
      ShapeToPositions(s);
    }
    if ShapeUpTo(s, |Body(s)|) {
      PositionsToShape(s);
    }
  }

  lemma ShapeToPositions(s: string)
    requires IsEmailShape(Body(s))
    ensures |Body(s)| <= |s| && ShapeUpTo(s, |Body(s)|)
  {
    BodyIsPrefix(s);
    var b := Body(s);
    var n := |b|;
    var a :| 0 < a < n && IsSoleAt(b, a) && HasInnerDot(b[a + 1..]);
    var d := b[a + 1..];
    var k :| 0 < k < |d| - 1 && d[k] == '.';
    assert s[a + 1 + k] == '.';
    assert forall m :: 0 <= m < n ==> b[m] == s[m];
    assert SoleAtUpTo(s, n, a);
  }

  lemma PositionsToShape(s: string)
    requires |Body(s)| <= |s| && ShapeUpTo(s, |Body(s)|)
    ensures IsEmailShape(Body(s))
  {
    BodyIsPrefix(s);
    var b := Body(s);
    var n := |b|;
    var a :| 0 < a < n && SoleAtUpTo(s, n, a) && DotBetween(s, a + 1, n);
    var k :| a + 1 < k < n - 1 && s[k] == '.';
    assert forall m :: 0 <= m < n ==> b[m] == s[m];
    var d := b[a + 1..];
    assert d[k - a - 1] == '.';
    assert HasInnerDot(d);
    assert IsSoleAt(b, a);
  }

  lemma EmailMatchSound(s: string)
    ensures |Body(s)| <= |s|
    ensures var at := RunEnd(s, 0, IsAddressChar);
            0 < at < |s| && s[at] == '@' && DomainFrom(s, at + 1) ==> ShapeUpTo(s, |Body(s)|)
  {
    BodyIsPrefix(s);
    var at := RunEnd(s, 0, IsAddressChar);
    if 0 < at < |s| && s[at] == '@' && DomainFrom(s, at + 1) {
      var end := RunEnd(s, at + 1, IsAddressChar);
      var k :| at + 1 < k < end - 1 && s[k] == '.';
      assert IsAddressChar(s[end - 1]);
      assert end == |Body(s)|;
      assert forall m :: 0 <= m < end && m != at ==> IsAddressChar(s[m]);
      assert SoleAtUpTo(s, end, at);
    }
  }

  lemma EmailMatchComplete(s: string)
    ensures |Body(s)| <= |s|
    ensures var at := RunEnd(s, 0, IsAddressChar);
            ShapeUpTo(s, |Body(s)|) ==> 0 < at < |s| && s[at] == '@' && DomainFrom(s, at + 1)
  {
    BodyIsPrefix(s);
    var n := |Body(s)|;
    if ShapeUpTo(s, n) {
      var a :| 0 < a < n && SoleAtUpTo(s, n, a) && DotBetween(s, a + 1, n);
      assert forall m :: 0 <= m < n && m != a ==> IsAddressChar(s[m]);
      RunEndAt(s, 0, IsAddressChar, a);
      RunEndAt(s, a + 1, IsAddressChar, n);
    }
  }

  /** An address with white space anywhere but as one final line feed is
      rejected. */
  lemma WhitespaceRejected(email: string, k: nat)
    requires k < |email| && IsRegexSpace(email[k])
    requires !(k == |email| - 1 && email[k] == '\n')
    ensures !ValidateCustomerEmail(email)
  {
    BodyIsPrefix(email);
    var b := Body(email);
    assert k < |b| && b[k] == email[k];
  }

  /** An address with two '@' is rejected. */
  lemma SecondAtRejected(email: string, i: nat, j: nat)
    requires i < j < |email| && email[i] == '@' && email[j] == '@'
    ensures !ValidateCustomerEmail(email)
  {
    BodyIsPrefix(email);
    var b := Body(email);
    assert j < |b| && b[i] == '@' && b[j] == '@';
  }

  /** One line feed after an address is ignored: the address with it is
      accepted exactly when the address itself has the shape. */
  lemma EmailTrailingLineFeed(email: string)
    ensures ValidateCustomerEmail(email + "\n") <==> IsEmailShape(email)
  {
    assert Body(email + "\n") == email;
  }

  // ------------------------------------------------------ the tests' inputs

  /** Two words of name characters around one space match the word part of
      the name pattern. */
  lemma TwoWordsMatch(s: string, j: nat)
    requires 0 < j < |s| - 1 && s[j] == ' '
    requires forall k :: 0 <= k < |s| && k != j ==> IsNameChar(s[k])
    ensures WordsFrom(s, 0)
  {
    RunEndAt(s, 0, IsNameChar, j);
    RunEndAt(s, j + 1, IsNameChar, |s|);
  }

  /** An address with one '@' after a non-empty local part, and a '.' inside
      the domain, is accepted when every other character is outside `\s`. */
  lemma SimpleAddressAccepted(s: string, a: nat, d: nat)
    requires 0 < a && a + 1 < d < |s| - 1 && s[a] == '@' && s[d] == '.'
    requires forall k :: 0 <= k < |s| && k != a ==> IsAddressChar(s[k])
    ensures ValidateCustomerEmail(s)
  {
    RunEndAt(s, 0, IsAddressChar, a);
    RunEndAt(s, a + 1, IsAddressChar, |s|);
  }

  /** Two equal letters in a row and an 'ø' are fine. */
  lemma AcceptsDoubledLetters()
    ensures ValidateCustomerName("Waage Sandøe")
  {
    assert !TripleAhead("Waage Sandøe", 0) by {
      assert !TripleAhead("Waage Sandøe", 6);
    }
    TwoWordsMatch("Waage Sandøe", 5);
  }

  lemma DashedNameHasNoTriple()
    ensures !TripleAhead("Jean-Claude D'Angelo", 0)
  {
    assert !TripleAhead("Jean-Claude D'Angelo", 12);
    assert !TripleAhead("Jean-Claude D'Angelo", 6);
  }

  /** Dashes and apostrophes are fine. */
  lemma AcceptsDashesAndApostrophes()
    ensures ValidateCustomerName("Jean-Claude D'Angelo")
  {
    DashedNameHasNoTriple();
    TwoWordsMatch("Jean-Claude D'Angelo", 11);
  }

  /** The customer factory's default name and address pass both checks. */
  lemma AcceptsFactoryDefaultName()
    ensures ValidateCustomerName("Test user")
  {
    assert !TripleAhead("Test user", 0);
    TwoWordsMatch("Test user", 4);
  }

  lemma AcceptsFactoryDefaultEmail()
    ensures ValidateCustomerEmail("test@mail.com")
  {
    SimpleAddressAccepted("test@mail.com", 4, 9);
  }

  /** A slash or an asterisk is refused. */
  lemma RejectsIllegalCharacters()
    ensures !ValidateCustomerName("Hej/med*dig")
  {
    ForeignCharacterRejected("Hej/med*dig", 3);
  }

  /** A long run of one letter is refused. */
  lemma RejectsRepeatedLetters()
    ensures !ValidateCustomerName("AAAAAAAAAAAAAAAAA")
  {
    TripleRunRejected("AAAAAAAAAAAAAAAAA", 0);
  }

  /** Matching is case-sensitive: a capital Å is outside the alphabet. */
  lemma RejectsCapitalNordicLetter()
    ensures !ValidateCustomerName("Åse")
  {
    ForeignCharacterRejected("Åse", 0);
  }

  /** The address of the profile scenario. */
  lemma AcceptsScenarioEmail()
    ensures ValidateCustomerEmail("ada@example.com")
  {
    SimpleAddressAccepted("ada@example.com", 3, 11);
  }

  /** An address with a space is refused. */
  lemma RejectsSpace()
    ensures !ValidateCustomerEmail("test mail.com")
  {
    WhitespaceRejected("test mail.com", 4);
  }

  /** A domain without a dot is refused. */
  lemma RejectsDomainWithoutDot()
    ensures !ValidateCustomerEmail("test@mail")
  {
    RunEndAt("test@mail", 0, IsAddressChar, 4);
    RunEndAt("test@mail", 5, IsAddressChar, 9);
    assert !DomainFrom("test@mail", 5);
  }

  /** An empty local part is refused. */
  lemma RejectsEmptyLocalPart()
    ensures !ValidateCustomerEmail("@mail.com")
  {
    RunEndAt("@mail.com", 0, IsAddressChar, 0);
  }

  /** A second '@' is refused. */
  lemma RejectsSecondAt()
    ensures !ValidateCustomerEmail("a@b@mail.com")
  {
    SecondAtRejected("a@b@mail.com", 1, 3);
  }
}
