/** Consequences of the main results for particular kinds of pattern, the
    unclosed-brace errors, and the outcome on concrete patterns (among them
    the patterns of the repository's test file). */
module PatternProperties {
  import opened CharTables
  import opened PatternSpec
  import opened PatternLanguage

  /** A run of single-character tokens is a sentence. */
  lemma {:induction false} SingleTokensSentence(s: seq<char>, i: nat, m: nat)
    requires i <= m <= |s|
    requires forall k :: i <= k < m ==> IsSingleToken(s[k])
    ensures Sentence(s, i, m)
    decreases m - i
  {
    if i < m {
      SingleTokensSentence(s, i + 1, m);
      SingleToken(s, i);
      Prepend(s, i, i + 1, m);
    }
  }

  /** A pattern made of characters that need no escape and open no brace
      (the empty pattern, `|` alone, `a**`, `*?` among them) is accepted. */
  lemma OrdinaryPatternAccepted(s: seq<char>)
    requires forall k :: 0 <= k < |s| ==> IsSingleToken(s[k])
    ensures CheckSpec(s) == Accepted
  {
    SingleTokensSentence(s, 0, |s|);
    AcceptsExactlyTheLanguage(s);
  }

  /** The first character that needs an escape, after single-character
      tokens only, rejects the pattern whatever follows it. */
  lemma EscapeRejected(s: seq<char>, m: nat)
    requires m < |s| && NeedsEscape(s[m])
    requires forall k :: 0 <= k < m ==> IsSingleToken(s[k])
    ensures CheckSpec(s) == Rejected(NeedsEscaping)
  {
    SingleTokensSentence(s, 0, m);
    RejectsAtFirstStop(s, m, NeedsEscaping);
  }

  /** A malformed brace form after single-character tokens rejects the
      pattern with the brace form's own error. */
  lemma BraceErrorRejected(s: seq<char>, m: nat)
    requires m < |s| && s[m] == LBrace && BraceSpec(s, m).Throw?
    requires forall k :: 0 <= k < m ==> IsSingleToken(s[k])
    ensures CheckSpec(s) == Rejected(BraceSpec(s, m).err)
  {
    SingleTokensSentence(s, 0, m);
    RejectsAtFirstStop(s, m, BraceSpec(s, m).err);
  }

  /** Patterns made only of `|` separators, the empty one included, are
      accepted: every alternative in them is empty. */
  lemma SeparatorsOnlyAccepted(s: seq<char>)
    requires forall k :: 0 <= k < |s| ==> s[k] == Bar
    ensures CheckSpec(s) == Accepted
  {
    OrdinaryPatternAccepted(s);
  }

  /** The part before the comma is decided by the first character from `k`
      on that is neither a digit nor a space: the end of the input, a comma,
      a `}` or anything else; the digits seen up to there decide between
      going on and a missing-digit error. */
  lemma {:induction false} BraceBeforeFirstSeparator(s: seq<char>, k: nat, j: nat, followDigits: bool)
    requires k <= j <= |s| && FillerBetween(s, k, j) && (j < |s| ==> !IsBraceFiller(s[j]))
    ensures BraceBefore(s, k, followDigits)
      == if j == |s| then Throw(UnclosedBeforeComma)
         else if s[j] == Comma then
           if followDigits || HasDigit(s, k, j) then BraceAfter(s, j + 1) else Throw(CommaBeforeDigits)
         else if s[j] == RBrace then
           if followDigits || HasDigit(s, k, j) then Ok(j + 1) else Throw(NoDigits)
         else Throw(NonDigitBeforeComma)
    decreases j - k
  {
    if k < j {
      assert IsBraceFiller(s[k]);
      BraceBeforeFirstSeparator(s, k + 1, j, followDigits || IsDecimalDigit(s[k]));
      assert followDigits || HasDigit(s, k, j)
        <==> (followDigits || IsDecimalDigit(s[k])) || HasDigit(s, k + 1, j);
    }
  }

  /** The part after the comma is decided by the first character from `k`
      on that is neither a digit nor a space. */
  lemma {:induction false} BraceAfterFirstSeparator(s: seq<char>, k: nat, j: nat)
    requires k <= j <= |s| && FillerBetween(s, k, j) && (j < |s| ==> !IsBraceFiller(s[j]))
    ensures BraceAfter(s, k)
      == if j == |s| then Throw(UnclosedAfterComma)
         else if s[j] == Comma then Throw(SecondComma)
         else if s[j] == RBrace then Ok(j + 1)
         else Throw(NonDigitAfterComma)
    decreases j - k
  {
    if k < j {
      assert IsBraceFiller(s[k]);
      BraceAfterFirstSeparator(s, k + 1, j);
    }
  }

  /** The part before the comma runs off the end exactly when nothing but
      digits and spaces follows. */
  lemma {:induction false} UnclosedBefore(s: seq<char>, k: nat, followDigits: bool)
    requires k <= |s|
    ensures BraceBefore(s, k, followDigits) == Throw(UnclosedBeforeComma)
      <==> FillerBetween(s, k, |s|)
    decreases |s| - k
  {
    if k < |s| {
      UnclosedBefore(s, k + 1, followDigits || IsDecimalDigit(s[k]));
      assert FillerBetween(s, k, |s|) <==> IsBraceFiller(s[k]) && FillerBetween(s, k + 1, |s|);
    }
  }

  /** The part after the comma runs off the end exactly when nothing but
      digits and spaces follows. */
  lemma {:induction false} UnclosedAfter(s: seq<char>, k: nat)
    requires k <= |s|
    ensures BraceAfter(s, k) == Throw(UnclosedAfterComma) <==> FillerBetween(s, k, |s|)
    decreases |s| - k
  {
    if k < |s| {
      UnclosedAfter(s, k + 1);
      assert FillerBetween(s, k, |s|) <==> IsBraceFiller(s[k]) && FillerBetween(s, k + 1, |s|);
    }
  }

  /** "Quantifiers braces are not closed" before a comma: exactly when the
      `{` is followed by digits and spaces only, up to the end. */
  lemma UnclosedBraceBeforeComma(s: seq<char>, i: nat)
    requires i < |s| && s[i] == LBrace
    ensures BraceSpec(s, i) == Throw(UnclosedBeforeComma) <==> FillerBetween(s, i + 1, |s|)
  {
    UnclosedBefore(s, i + 1, false);
  }

  /** A character that needs no escape followed by a brace form that the
      brace rule accepts up to the end is an accepted pattern. */
  lemma QuantifiedCharacterAccepted(s: seq<char>)
    requires 2 <= |s| && IsSingleToken(s[0]) && s[1] == LBrace && BraceSpec(s, 1) == Ok(|s|)
    ensures CheckSpec(s) == Accepted
  {
    BraceSpecSound(s, 1);
    Prepend(s, 1, |s|, |s|);
    SingleToken(s, 0);
    Prepend(s, 0, 1, |s|);
    AcceptsExactlyTheLanguage(s);
  }

  /** Brace forms that pass. The bounds are not compared (`{5,2}` passes),
      spaces are skipped, and NUL counts as a digit. */
  lemma BracesAccepted()
    ensures CheckSpec("a{2}") == Accepted
    ensures CheckSpec("a{2,}") == Accepted
    ensures CheckSpec("a{5,2}") == Accepted
    ensures CheckSpec("a{ 1 , 2 }") == Accepted
    ensures CheckSpec("a{ 1 , }") == Accepted
    ensures CheckSpec("a{\0}") == Accepted
  {
    QuantifiedCharacterAccepted("a{2}");
    QuantifiedCharacterAccepted("a{2,}");
    QuantifiedCharacterAccepted("a{5,2}");
    QuantifiedCharacterAccepted("a{ 1 , 2 }");
    QuantifiedCharacterAccepted("a{ 1 , }");
    QuantifiedCharacterAccepted("a{\0}");
  }

  /** Brace forms that are refused before a comma. */
  lemma BracesRejectedBeforeComma()
    ensures CheckSpec("a{}") == Rejected(NoDigits)
    ensures CheckSpec("a{ }") == Rejected(NoDigits)
    ensures CheckSpec("a{,2}") == Rejected(CommaBeforeDigits)
    ensures CheckSpec("a{a}") == Rejected(NonDigitBeforeComma)
    ensures CheckSpec("a{1") == Rejected(UnclosedBeforeComma)
  {
    BraceErrorRejected("a{}", 1);
    BraceErrorRejected("a{ }", 1);
    BraceErrorRejected("a{,2}", 1);
    BraceErrorRejected("a{a}", 1);
    BraceErrorRejected("a{1", 1);
  }

  /** Brace forms that are refused after the comma. */
  lemma BracesRejectedAfterComma()
    ensures CheckSpec("a{1,2,3}") == Rejected(SecondComma)
    ensures CheckSpec("a{1,a}") == Rejected(NonDigitAfterComma)
    ensures CheckSpec("a{1,") == Rejected(UnclosedAfterComma)
  {
    BraceErrorRejected("a{1,2,3}", 1);
    BraceErrorRejected("a{1,a}", 1);
    BraceErrorRejected("a{1,", 1);
  }

  /** Patterns without braces that pass: quantifiers with nothing to
      repeat, quantifiers in a row, empty alternatives, and NUL, which the
      tables treat as a quantifier symbol. */
  lemma CharactersAccepted()
    ensures CheckSpec("") == Accepted
    ensures CheckSpec("*") == Accepted
    ensures CheckSpec("a|b||") == Accepted
    ensures CheckSpec("a**") == Accepted
    ensures CheckSpec("a+*?") == Accepted
    ensures CheckSpec("a\0?") == Accepted
  {
    OrdinaryPatternAccepted("");
    OrdinaryPatternAccepted("*");
    OrdinaryPatternAccepted("a|b||");
    OrdinaryPatternAccepted("a**");
    OrdinaryPatternAccepted("a+*?");
    OrdinaryPatternAccepted("a\0?");
  }

  /** Characters that need an escape are refused wherever they stand. */
  lemma CharactersRejected()
    ensures CheckSpec("a.b") == Rejected(NeedsEscaping)
    ensures CheckSpec("a}") == Rejected(NeedsEscaping)
    ensures CheckSpec("(a)") == Rejected(NeedsEscaping)
  {
    EscapeRejected("a.b", 1);
    EscapeRejected("a}", 1);
    EscapeRejected("(a)", 0);
  }

  /** The patterns of the repository's test file are all refused, at their
      first character: a backslash or an opening parenthesis. */
  lemma TestFilePatterns()
    ensures CheckSpec("\\d{2}") == Rejected(NeedsEscaping) && StopsAt("\\d{2}", 0, NeedsEscaping)
    ensures CheckSpec("\\d{2") == Rejected(NeedsEscaping) && StopsAt("\\d{2", 0, NeedsEscaping)
    ensures CheckSpec("(\\d{2})") == Rejected(NeedsEscaping) && StopsAt("(\\d{2})", 0, NeedsEscaping)
    ensures CheckSpec("(\\d{2}") == Rejected(NeedsEscaping) && StopsAt("(\\d{2}", 0, NeedsEscaping)
  {
    EscapeRejected("\\d{2}", 0);
    EscapeRejected("\\d{2", 0);
    EscapeRejected("(\\d{2})", 0);
    EscapeRejected("(\\d{2}", 0);
  }
}
