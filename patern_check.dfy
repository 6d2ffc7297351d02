/** The checker itself: one method per rule of `rime::patern_check`.

    Every rule of the header takes the cursor by reference and advances it
    in place; here a rule takes the cursor position `it` and returns the
    position it advanced to (`Ok`), or the error it threw (`Throw`), which
    the caller propagates at once as the exception would. `consume` is the
    step `it + 1`. Each method is proved to compute the function of
    PatternSpec that specifies its rule. */
module PaternCheck {
  import opened CharTables
  import opened PatternSpec
  import PatternLanguage

  /** start: runs the disjunction over the whole pattern; reaching the end
      of it means the pattern is accepted, and that happens exactly for the
      patterns of the token language. */
  method Start(patern: seq<char>) returns (c: Checked)
    ensures c == CheckSpec(patern)
    ensures c == Accepted <==> PatternLanguage.InLanguage(patern)
  {
    var r := Disjunction(patern, 0);
    PatternLanguage.AcceptsExactlyTheLanguage(patern);
    if r.Throw? {
      c := Rejected(r.err);
    } else {
      c := Accepted;
    }
  }

  /** disjunction: an alternative, then either the end of the input or a
      `|` and, in tail position, another disjunction. */
  method Disjunction(s: seq<char>, it: nat) returns (r: Outcome)
    requires it <= |s|
    ensures r == DisjunctionSpec(s, it)
    ensures r.Ok? ==> r.at == |s|
    decreases |s| - it
  {
    r := Alternative(s, it);
    if r.Throw? {
      return;
    }
    var at := r.at;
    if at == |s| {
      return;
    }
    if s[at] == Bar {
      r := Disjunction(s, at + 1);
    } else {
      r := Throw(ExpectedAlternation);
    }
  }

  /** alternative: terms while the input lasts and the next character is
      not `|`. */
  method Alternative(s: seq<char>, it: nat) returns (r: Outcome)
    requires it <= |s|
    ensures r == AlternativeSpec(s, it)
    ensures r.Ok? ==> it <= r.at <= |s| && (r.at == |s| || s[r.at] == Bar)
  {
    var cur := it;
    while cur != |s|
      invariant it <= cur <= |s|
      invariant AlternativeSpec(s, cur) == AlternativeSpec(s, it)
      decreases |s| - cur
    {
      if s[cur] == Bar {
        return Ok(cur);
      }
      var t := Term(s, cur);
      if t.Throw? {
        return t;
      }
      cur := t.at;
    }
    r := Ok(cur);
  }

  /** term: the assertion stub (which never matches), else an atom and,
      unless the input has ended, a quantifier. */
  method Term(s: seq<char>, it: nat) returns (r: Outcome)
    requires it < |s|
    ensures r == TermSpec(s, it)
    ensures r.Ok? && s[it] != Bar ==> it < r.at <= |s|
  {
    if Assertion(s, it) {
      r := Throw(Unimplemented);
    } else {
      r := Atom(s, it);
      if r.Throw? {
        return;
      }
      if r.at != |s| {
        r := Quantifier(s, r.at);
      }
    }
  }

  /** quantifier: a quantifier prefix, then one lazy `?` if there is one. */
  method Quantifier(s: seq<char>, it: nat) returns (r: Outcome)
    requires it < |s|
    ensures r == QuantifierSpec(s, it)
    ensures !IsQuantifierSymbol(s[it]) && s[it] != LBrace ==> r == Ok(it)
    ensures IsQuantifierSymbol(s[it]) ==>
      r == (if it + 1 < |s| && s[it + 1] == Question then Ok(it + 2) else Ok(it + 1))
  {
    r := QuantifierPrefix(s, it);
    if r.Throw? {
      return;
    }
    if r.at != |s| && s[r.at] == Question {
      r := Ok(r.at + 1);
    }
  }

  /** quantifier_prefix: looks the character up in the quantifier table;
      the brace (the entry at `e - 1 - 1`) starts the brace form, scanned
      by two loops, before and after the comma; another entry of the table
      is consumed; any other character is left in place. */
  method QuantifierPrefix(s: seq<char>, it: nat) returns (r: Outcome)
    requires it < |s|
    ensures r == QuantifierPrefixSpec(s, it)
  {
    var p := Find(QuantifierPrefixSymbols, s[it]);
    var e := |QuantifierPrefixSymbols|;
    QuantifierTableLayout(s[it], p);
    r := Ok(it);
    if p != e {
      if p == e - 1 - 1 {
        var cur := it + 1;
        var followDigits := false;
        // Digits before the comma.
        while true
          invariant it + 1 <= cur <= |s|
          invariant BraceBefore(s, cur, followDigits) == BraceSpec(s, it)
          decreases |s| - cur
        {
          if cur == |s| {
            return Throw(UnclosedBeforeComma);
          }
          var c := s[cur];
          if c == Comma {
            if !followDigits {
              return Throw(CommaBeforeDigits);
            }
            cur := cur + 1;
            break;
          }
          if c == RBrace {
            if !followDigits {
              return Throw(NoDigits);
            }
            return Ok(cur + 1);
          }
          if c == Space {
            cur := cur + 1;
            continue;
          }
          var isDigits := AnyOf(DecimalDigits, c);
          DigitTableLayout(c);
          if isDigits {
            followDigits := true;
            cur := cur + 1;
            continue;
          }
          return Throw(NonDigitBeforeComma);
        }
        // Digits after the comma.
        while true
          invariant it + 1 <= cur <= |s|
          invariant BraceAfter(s, cur) == BraceSpec(s, it)
          decreases |s| - cur
        {
          if cur == |s| {
            return Throw(UnclosedAfterComma);
          }
          var c := s[cur];
          if c == Comma {
            return Throw(SecondComma);
          }
          if c == RBrace {
            return Ok(cur + 1);
          }
          if c == Space {
            cur := cur + 1;
            continue;
          }
          var isDigits := AnyOf(DecimalDigits, c);
          DigitTableLayout(c);
          if isDigits {
            cur := cur + 1;
            continue;
          }
          return Throw(NonDigitAfterComma);
        }
      }
      r := Ok(it + 1);
    }
  }

  /** atom: only a pattern character in this grammar. */
  method Atom(s: seq<char>, it: nat) returns (r: Outcome)
    requires it < |s|
    ensures r == PatternCharacterSpec(s, it)
  {
    r := PatternCharacter(s, it);
  }

  /** pattern_character: looks the character up in NotPatternCharacters; a
      character not found is consumed, one found at or after `e - 5 - 1` is
      left in place, any other throws. */
  method PatternCharacter(s: seq<char>, it: nat) returns (r: Outcome)
    requires it < |s|
    ensures r == PatternCharacterSpec(s, it)
    ensures NeedsEscape(s[it]) <==> r == Throw(NeedsEscaping)
    ensures LeftForQuantifier(s[it]) <==> r == Ok(it)
    ensures !NeedsEscape(s[it]) && !LeftForQuantifier(s[it]) <==> r == Ok(it + 1)
  {
    var p := Find(NotPatternCharacters, s[it]);
    var e := |NotPatternCharacters|;
    PatternTableLayout(s[it], p);
    if p == e {
      return Ok(it + 1);
    }
    if e - 5 - 1 <= p {
      r := Ok(it);
    } else {
      r := Throw(NeedsEscaping);
    }
  }
}
