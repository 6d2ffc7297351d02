/** The language the checker accepts, stated independently of the rules.

    A pattern is accepted exactly when it is a sequence of tokens, where a
    token is
      - one character that neither needs an escape nor opens a brace (this
        includes `|`, `*`, `+`, `?` and NUL), or
      - a brace group `{` digits-and-spaces `}` or
        `{` digits-and-spaces `,` digits-and-spaces `}`, with at least one
        digit before the comma or the closing brace (a digit being any
        entry of the digit table, NUL included).
    A quantifier with nothing before it, several quantifiers in a row, and
    empty alternatives are all accepted: the grammar as implemented does
    not reject them.

    Tokens are described by their place in the pattern: `s[i..n]` is a
    token, `s[i..m]` is a sentence. The main results: CheckSpec accepts
    exactly the patterns that are sentences (AcceptsExactlyTheLanguage), and
    a pattern whose sentence prefix is followed by a character that needs
    an escape or by a malformed brace form is rejected with the error of
    that place (RejectsAtFirstStop). */
module PatternLanguage {
  import opened CharTables
  import opened PatternSpec

  /** A character that is a token by itself. */
  predicate IsSingleToken(c: char)
  {
    !NeedsEscape(c) && c != LBrace
  }

  /** Every character of `s[a..b]` is a digit or a space. */
  ghost predicate FillerBetween(s: seq<char>, a: nat, b: nat)
  {
    forall k {:trigger IsBraceFiller(s[k])} :: a <= k < b && k < |s| ==> IsBraceFiller(s[k])
  }

  /** Some character of `s[a..b]` is a digit. */
  ghost predicate HasDigit(s: seq<char>, a: nat, b: nat)
  {
    exists k :: a <= k < b && k < |s| && IsDecimalDigit(s[k])
  }

  /** `s[k..n-1]` is the inside of a brace group from `k` on: filler up to
      the `}` at `n - 1`, or filler, a comma and filler; a digit is needed
      before the comma or the `}` unless `followDigits` says one was seen. */
  ghost predicate BraceInside(s: seq<char>, k: nat, n: nat, followDigits: bool)
  {
    k < n <= |s|
    && ((FillerBetween(s, k, n - 1) && (followDigits || HasDigit(s, k, n - 1)))
        || exists c :: k <= c < n - 1 && s[c] == Comma
             && FillerBetween(s, k, c) && (followDigits || HasDigit(s, k, c))
             && FillerBetween(s, c + 1, n - 1))
  }

  /** `s[i..n]` is a brace group: `{`, filler with a digit, then `}` or a
      comma, filler and `}`. */
  ghost predicate IsBraceGroup(s: seq<char>, i: nat, n: nat)
  {
    i + 1 < n <= |s| && s[i] == LBrace && s[n - 1] == RBrace && BraceInside(s, i + 1, n, false)
  }

  /** `s[i..n]` is a token. */
  ghost predicate IsTokenAt(s: seq<char>, i: nat, n: nat)
  {
    (n == i + 1 && n <= |s| && IsSingleToken(s[i])) || IsBraceGroup(s, i, n)
  }

  /** `s[i..m]` is a concatenation of tokens. */
  ghost predicate Sentence(s: seq<char>, i: nat, m: nat)
    decreases m - i
  {
    i == m || (i < m && exists n :: i < n <= m && IsTokenAt(s, i, n) && Sentence(s, n, m))
  }

  /** The whole pattern is a concatenation of tokens. */
  ghost predicate InLanguage(s: seq<char>)
  {
    Sentence(s, 0, |s|)
  }

  /** A place where scanning cannot go on, throwing `e`: a character that
      needs an escape, or a brace form that throws. */
  ghost predicate StopsAt(s: seq<char>, m: nat, e: Error)
  {
    m < |s|
    && ((NeedsEscape(s[m]) && e == NeedsEscaping)
        || (s[m] == LBrace && BraceSpec(s, m) == Throw(e)))
  }

  /** The end of the input, or a place where scanning stops with `e`. */
  ghost predicate Boundary(s: seq<char>, m: nat, e: Error)
  {
    m == |s| || StopsAt(s, m, e)
  }

  // ---------------------------------------------------------------------
  // The brace form

  /** What the part after the comma accepts is filler up to a `}`. */
  lemma {:induction false} BraceAfterSound(s: seq<char>, k: nat)
    requires k <= |s| && BraceAfter(s, k).Ok?
    ensures FillerBetween(s, k, BraceAfter(s, k).at - 1)
    decreases |s| - k
  {
    if s[k] != RBrace {
      BraceAfterSound(s, k + 1);
    }
  }

  /** A filler character in front of the inside of a brace group. */
  lemma BraceInsideStep(s: seq<char>, k: nat, n: nat, followDigits: bool)
    requires k + 1 < n <= |s| && IsBraceFiller(s[k])
    requires BraceInside(s, k + 1, n, followDigits || IsDecimalDigit(s[k]))
    ensures BraceInside(s, k, n, followDigits)
  {
    var next := followDigits || IsDecimalDigit(s[k]);
    if !(FillerBetween(s, k + 1, n - 1) && (next || HasDigit(s, k + 1, n - 1))) {
      var c :| k + 1 <= c < n - 1 && s[c] == Comma
        && FillerBetween(s, k + 1, c) && (next || HasDigit(s, k + 1, c))
        && FillerBetween(s, c + 1, n - 1);
      assert FillerBetween(s, k, c) && (followDigits || HasDigit(s, k, c));
    }
  }

  /** What the part before the comma accepts, from `k` on, is the inside
      of a brace group. */
  lemma {:induction false} BraceBeforeSound(s: seq<char>, k: nat, followDigits: bool)
    requires k <= |s| && BraceBefore(s, k, followDigits).Ok?
    ensures BraceInside(s, k, BraceBefore(s, k, followDigits).at, followDigits)
    decreases |s| - k
  {
    if s[k] == Comma {
      BraceAfterSound(s, k + 1);
    } else if s[k] != RBrace {
      BraceBeforeSound(s, k + 1, followDigits || IsDecimalDigit(s[k]));
      BraceInsideStep(s, k, BraceBefore(s, k, followDigits).at, followDigits);
    }
  }

  /** What the brace form accepts is a brace group. */
  lemma BraceSpecSound(s: seq<char>, i: nat)
    requires i < |s| && s[i] == LBrace && BraceSpec(s, i).Ok?
    ensures IsBraceGroup(s, i, BraceSpec(s, i).at)
  {
    BraceBeforeSound(s, i + 1, false);
  }

  /** The part after the comma on filler up to a `}`. */
  lemma {:induction false} BraceAfterComplete(s: seq<char>, k: nat, j: nat)
    requires k <= j < |s| && s[j] == RBrace && FillerBetween(s, k, j)
    ensures BraceAfter(s, k) == Ok(j + 1)
    decreases j - k
  {
    if k < j {
      assert IsBraceFiller(s[k]);
      BraceAfterComplete(s, k + 1, j);
    }
  }

  /** The part before the comma on filler up to a `}`. */
  lemma {:induction false} BraceBeforeClosed(s: seq<char>, k: nat, j: nat, followDigits: bool)
    requires k <= j < |s| && s[j] == RBrace && FillerBetween(s, k, j)
    requires followDigits || HasDigit(s, k, j)
    ensures BraceBefore(s, k, followDigits) == Ok(j + 1)
    decreases j - k
  {
    if k < j {
      assert IsBraceFiller(s[k]);
      BraceBeforeClosed(s, k + 1, j, followDigits || IsDecimalDigit(s[k]));
    }
  }

  /** The part before the comma on filler, a comma, filler and a `}`. */
  lemma {:induction false} BraceBeforeRange(s: seq<char>, k: nat, c: nat, j: nat, followDigits: bool)
    requires k <= c < j < |s| && s[c] == Comma && s[j] == RBrace
    requires FillerBetween(s, k, c) && FillerBetween(s, c + 1, j)
    requires followDigits || HasDigit(s, k, c)
    ensures BraceBefore(s, k, followDigits) == Ok(j + 1)
    decreases c - k
  {
    if k < c {
      assert IsBraceFiller(s[k]);
      BraceBeforeRange(s, k + 1, c, j, followDigits || IsDecimalDigit(s[k]));
    } else {
      BraceAfterComplete(s, c + 1, j);
    }
  }

  /** A brace group is accepted by the brace form, which ends exactly at
      its closing brace. */
  lemma BraceSpecComplete(s: seq<char>, i: nat, n: nat)
    requires IsBraceGroup(s, i, n)
    ensures BraceSpec(s, i) == Ok(n)
  {
    if FillerBetween(s, i + 1, n - 1) && HasDigit(s, i + 1, n - 1) {
      BraceBeforeClosed(s, i + 1, n - 1, false);
    } else {
      var c :| i < c < n - 1 && s[c] == Comma
        && FillerBetween(s, i + 1, c) && HasDigit(s, i + 1, c)
        && FillerBetween(s, c + 1, n - 1);
      BraceBeforeRange(s, i + 1, c, n - 1, false);
    }
  }

  // ---------------------------------------------------------------------
  // Tokens at the front of a sentence

  /** A token followed by a sentence is a sentence. */
  lemma Prepend(s: seq<char>, i: nat, n: nat, m: nat)
    requires i < n <= m && IsTokenAt(s, i, n) && Sentence(s, n, m)
    ensures Sentence(s, i, m)
  {
  }

  /** A single character token. */
  lemma SingleToken(s: seq<char>, i: nat)
    requires i < |s| && IsSingleToken(s[i])
    ensures IsTokenAt(s, i, i + 1)
  {
  }

  /** The first token of a non-empty sentence: a brace group where the
      brace form says, or else a single character. */
  lemma TokenAt(s: seq<char>, i: nat, m: nat) returns (n: nat)
    requires i < m <= |s| && Sentence(s, i, m)
    ensures i < n <= m && Sentence(s, n, m)
    ensures s[i] == LBrace ==> BraceSpec(s, i) == Ok(n)
    ensures s[i] != LBrace ==> n == i + 1 && IsSingleToken(s[i])
  {
    n :| i < n <= m && IsTokenAt(s, i, n) && Sentence(s, n, m);
    if s[i] == LBrace {
      BraceSpecComplete(s, i, n);
    }
  }

  // ---------------------------------------------------------------------
  // Unfolding the recursive rules one step

  /** One step of alternative: a term, then the rest of the alternative. */
  lemma AlternativeStep(s: seq<char>, i: nat)
    requires i < |s| && s[i] != Bar
    ensures AlternativeSpec(s, i)
      == match TermSpec(s, i) case Throw(e) => Throw(e) case Ok(j) => AlternativeSpec(s, j)
  {
  }

  /** A disjunction whose first alternative throws throws the same. */
  lemma DisjunctionStops(s: seq<char>, i: nat)
    requires i <= |s| && AlternativeSpec(s, i).Throw?
    ensures DisjunctionSpec(s, i) == AlternativeSpec(s, i)
  {
  }

  /** A disjunction whose first alternative stops before the end goes on
      after the `|` it stopped at. */
  lemma DisjunctionGoesOn(s: seq<char>, i: nat)
    requires i <= |s| && AlternativeSpec(s, i).Ok? && AlternativeSpec(s, i).at < |s|
    ensures s[AlternativeSpec(s, i).at] == Bar
    ensures DisjunctionSpec(s, i) == DisjunctionSpec(s, AlternativeSpec(s, i).at + 1)
  {
  }

  // ---------------------------------------------------------------------
  // Soundness: what the rules accept is a sentence

  lemma QuantifierSound(s: seq<char>, k: nat, m: nat)
    requires k < |s| && QuantifierSpec(s, k).Ok?
    requires QuantifierSpec(s, k).at <= m <= |s| && Sentence(s, QuantifierSpec(s, k).at, m)
    ensures Sentence(s, k, m)
  {
    var j := QuantifierSpec(s, k).at;
    var p := QuantifierPrefixSpec(s, k).at;
    if j != p {
      SingleToken(s, p);
      Prepend(s, p, j, m);
    }
    if s[k] == LBrace {
      BraceSpecSound(s, k);
      Prepend(s, k, p, m);
    } else if IsQuantifierSymbol(s[k]) {
      SingleToken(s, k);
      Prepend(s, k, p, m);
    }
  }

  lemma TermSound(s: seq<char>, i: nat, m: nat)
    requires i < |s| && TermSpec(s, i).Ok?
    requires TermSpec(s, i).at <= m <= |s| && Sentence(s, TermSpec(s, i).at, m)
    ensures Sentence(s, i, m)
  {
    if LeftForQuantifier(s[i]) {
      QuantifierSound(s, i, m);
    } else {
      if i + 1 < |s| {
        QuantifierSound(s, i + 1, m);
      }
      SingleToken(s, i);
      Prepend(s, i, i + 1, m);
    }
  }

  lemma {:induction false} AlternativeSound(s: seq<char>, i: nat, m: nat)
    requires i <= |s| && AlternativeSpec(s, i).Ok?
    requires AlternativeSpec(s, i).at <= m <= |s| && Sentence(s, AlternativeSpec(s, i).at, m)
    ensures Sentence(s, i, m)
    decreases |s| - i
  {
    if i < |s| && s[i] != Bar {
      AlternativeStep(s, i);
      var j := TermSpec(s, i).at;
      AlternativeSound(s, j, m);
      TermSound(s, i, m);
    }
  }

  lemma {:induction false} DisjunctionSound(s: seq<char>, i: nat)
    requires i <= |s| && DisjunctionSpec(s, i).Ok?
    ensures Sentence(s, i, |s|)
    decreases |s| - i
  {
    var j := AlternativeSpec(s, i).at;
    if j < |s| {
      DisjunctionSound(s, j + 1);
      SingleToken(s, j);
      Prepend(s, j, j + 1, |s|);
    }
    AlternativeSound(s, i, |s|);
  }

  // ---------------------------------------------------------------------
  // Completeness: a sentence that ends at a boundary is scanned to that
  // boundary

  /** A term that starts at a boundary throws the boundary's error. */
  lemma TermAtStop(s: seq<char>, m: nat, e: Error)
    requires StopsAt(s, m, e)
    ensures TermSpec(s, m) == Throw(e)
  {
  }

  /** The optional lazy `?` stays inside the sentence. */
  lemma LazyComplete(s: seq<char>, k: nat, m: nat, e: Error)
    requires k <= m <= |s| && Boundary(s, m, e) && Sentence(s, k, m)
    ensures k < |s| && s[k] == Question ==> k < m && Sentence(s, k + 1, m)
  {
    if k < |s| && s[k] == Question {
      var n := TokenAt(s, k, m);
    }
  }

  /** The lazy `?` after a quantifier prefix that ends at `j`. */
  lemma LazyAfter(s: seq<char>, k: nat, j: nat, m: nat, e: Error)
    requires k < |s| && QuantifierPrefixSpec(s, k) == Ok(j)
    requires j <= m <= |s| && Boundary(s, m, e) && Sentence(s, j, m)
    ensures var r := QuantifierSpec(s, k); r.Ok? && r.at <= m && Sentence(s, r.at, m)
  {
    LazyComplete(s, j, m, e);
  }

  lemma QuantifierComplete(s: seq<char>, k: nat, m: nat, e: Error)
    requires k < |s| && k <= m <= |s| && Boundary(s, m, e) && Sentence(s, k, m)
    ensures var r := QuantifierSpec(s, k);
      (r.Ok? && r.at <= m && Sentence(s, r.at, m)) || (k == m && r == Throw(e))
  {
    if k < m {
      var n := TokenAt(s, k, m);
      if s[k] == LBrace || IsQuantifierSymbol(s[k]) {
        LazyAfter(s, k, n, m, e);
      } else {
        LazyAfter(s, k, k, m, e);
      }
    }
  }

  /** A term on a character the atom leaves in place is its quantifier. */
  lemma TermOnLeftCharacter(s: seq<char>, i: nat)
    requires i < |s| && LeftForQuantifier(s[i])
    ensures TermSpec(s, i) == QuantifierSpec(s, i)
  {
  }

  /** A term on an ordinary character consumes it, then its quantifier. */
  lemma TermOnOrdinaryCharacter(s: seq<char>, i: nat)
    requires i < |s| && !NeedsEscape(s[i]) && !LeftForQuantifier(s[i])
    ensures TermSpec(s, i) == if i + 1 < |s| then QuantifierSpec(s, i + 1) else Ok(i + 1)
  {
  }

  lemma TermComplete(s: seq<char>, i: nat, m: nat, e: Error)
    requires i < m <= |s| && s[i] != Bar && Boundary(s, m, e) && Sentence(s, i, m)
    ensures var r := TermSpec(s, i);
      (r.Ok? && r.at <= m && Sentence(s, r.at, m)) || (m < |s| && r == Throw(e))
  {
    if LeftForQuantifier(s[i]) {
      TermOnLeftCharacter(s, i);
      QuantifierComplete(s, i, m, e);
    } else {
      var n := TokenAt(s, i, m);
      TermOnOrdinaryCharacter(s, i);
      if i + 1 < |s| {
        QuantifierComplete(s, i + 1, m, e);
      }
    }
  }

  /** Where an alternative scanned from inside the sentence `s[..m]` may
      end: at the end of the pattern, at a `|` of the sentence, or by
      throwing the error of the boundary. */
  ghost predicate AlternativeEnds(s: seq<char>, r: Outcome, m: nat, e: Error)
  {
    (r.Ok? && r.at == m == |s|)
    || (r.Ok? && r.at < m <= |s| && s[r.at] == Bar && Sentence(s, r.at + 1, m))
    || (m < |s| && r == Throw(e))
  }

  lemma {:induction false} AlternativeComplete(s: seq<char>, i: nat, m: nat, e: Error)
    requires i <= m <= |s| && Boundary(s, m, e) && Sentence(s, i, m)
    ensures AlternativeEnds(s, AlternativeSpec(s, i), m, e)
    decreases m - i
  {
    if i == m {
      if m < |s| {
        TermAtStop(s, m, e);
        AlternativeStep(s, m);
      }
    } else if s[i] == Bar {
      var n := TokenAt(s, i, m);
    } else {
      TermComplete(s, i, m, e);
      AlternativeStep(s, i);
      var t := TermSpec(s, i);
      if t.Ok? {
        AlternativeComplete(s, t.at, m, e);
      }
    }
  }

  /** The outcome a disjunction scanned from inside the sentence `s[..m]`
      has: acceptance at the end of the pattern, or the error of the
      boundary. */
  function Expected(s: seq<char>, m: nat, e: Error): Outcome
  {
    if m == |s| then Ok(|s|) else Throw(e)
  }

  /** The first alternative of a disjunction that starts inside the
      sentence `s[..m]`: either it ends at a `|` at `j`, before `m`, and the
      disjunction goes on after it, still inside the sentence, or the
      disjunction already has the expected outcome. */
  lemma DisjunctionFirstAlternative(s: seq<char>, i: nat, m: nat, e: Error)
      returns (goesOn: bool, j: nat)
    requires i <= m <= |s| && Boundary(s, m, e) && Sentence(s, i, m)
    ensures goesOn ==>
      i <= j < m && Sentence(s, j + 1, m) && DisjunctionSpec(s, i) == DisjunctionSpec(s, j + 1)
    ensures !goesOn ==> DisjunctionSpec(s, i) == Expected(s, m, e)
  {
    AlternativeComplete(s, i, m, e);
    var r := AlternativeSpec(s, i);
    goesOn := r.Ok? && r.at < m;
    j := if r.Ok? then r.at else 0;
  }

  lemma {:induction false} DisjunctionComplete(s: seq<char>, i: nat, m: nat, e: Error)
    requires i <= m <= |s| && Boundary(s, m, e) && Sentence(s, i, m)
    ensures DisjunctionSpec(s, i) == Expected(s, m, e)
    decreases m - i
  {
    var goesOn, j := DisjunctionFirstAlternative(s, i, m, e);
    if goesOn {
      DisjunctionComplete(s, j + 1, m, e);
    }
  }

  // ---------------------------------------------------------------------
  // Locating an error: a rule throws only at a boundary after a sentence

  /** A term throws at a stop at its own character or, after an ordinary
      character, at the quantifier's brace. */
  lemma TermThrowStop(s: seq<char>, i: nat) returns (m: nat)
    requires i < |s| && TermSpec(s, i).Throw?
    ensures i <= m && Sentence(s, i, m) && StopsAt(s, m, TermSpec(s, i).err)
  {
    if NeedsEscape(s[i]) || LeftForQuantifier(s[i]) {
      m := i;
    } else {
      m := i + 1;
      SingleToken(s, i);
      Prepend(s, i, i + 1, i + 1);
    }
  }

  /** An alternative throws at a stop reached through a sentence. */
  lemma {:induction false} AlternativeThrowStop(s: seq<char>, i: nat) returns (m: nat)
    requires i <= |s| && AlternativeSpec(s, i).Throw?
    ensures i <= m && Sentence(s, i, m) && StopsAt(s, m, AlternativeSpec(s, i).err)
    decreases |s| - i
  {
    AlternativeStep(s, i);
    var t := TermSpec(s, i);
    if t.Throw? {
      m := TermThrowStop(s, i);
    } else {
      m := AlternativeThrowStop(s, t.at);
      TermSound(s, i, m);
    }
  }

  /** A disjunction throws at a stop reached through a sentence. */
  lemma {:induction false} DisjunctionThrowStop(s: seq<char>, i: nat) returns (m: nat)
    requires i <= |s| && DisjunctionSpec(s, i).Throw?
    ensures i <= m && Sentence(s, i, m) && StopsAt(s, m, DisjunctionSpec(s, i).err)
    decreases |s| - i
  {
    var a := AlternativeSpec(s, i);
    if a.Throw? {
      m := AlternativeThrowStop(s, i);
      DisjunctionStops(s, i);
    } else {
      DisjunctionGoesOn(s, i);
      m := DisjunctionThrowStop(s, a.at + 1);
      SingleToken(s, a.at);
      Prepend(s, a.at, a.at + 1, m);
      AlternativeSound(s, i, m);
    }
  }

  // ---------------------------------------------------------------------
  // Main results

  /** The checker accepts a pattern exactly when it is a concatenation of
      tokens. */
  lemma AcceptsExactlyTheLanguage(s: seq<char>)
    ensures CheckSpec(s) == Accepted <==> InLanguage(s)
  {
    if CheckSpec(s) == Accepted {
      DisjunctionSound(s, 0);
    }
    if InLanguage(s) {
      DisjunctionComplete(s, 0, |s|, NoDigits);
    }
  }

  /** A sentence followed by a character that needs an escape, or by a
      malformed brace form, is rejected with the error of that place,
      whatever follows. */
  lemma RejectsAtFirstStop(s: seq<char>, m: nat, e: Error)
    requires StopsAt(s, m, e) && Sentence(s, 0, m)
    ensures CheckSpec(s) == Rejected(e)
  {
    DisjunctionComplete(s, 0, m, e);
  }

  /** A pattern is rejected with `e` exactly when some prefix of it is a
      sentence followed by a stop that throws `e`. */
  lemma RejectionLocated(s: seq<char>, e: Error)
    ensures CheckSpec(s) == Rejected(e) <==> exists m :: Sentence(s, 0, m) && StopsAt(s, m, e)
  {
    if CheckSpec(s) == Rejected(e) {
      var m := DisjunctionThrowStop(s, 0);
    }
    if exists m :: Sentence(s, 0, m) && StopsAt(s, m, e) {
      var m :| Sentence(s, 0, m) && StopsAt(s, m, e);
      RejectsAtFirstStop(s, m, e);
    }
  }
}
