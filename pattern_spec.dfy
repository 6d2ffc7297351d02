/** What each rule of the checker computes, as functions of the pattern and
    of the cursor position the rule starts at.

    A rule either returns normally with the cursor moved to a new position
    (`Ok(at)`) or throws (`Throw(err)`); `err` names the throw site. The
    methods of PaternCheck are proved to compute exactly these functions,
    and PatternLanguage proves what the functions accept. */
module PatternSpec {
  import opened CharTables

  /** One constructor per place in the header that throws. */
  datatype Error =
    | ExpectedAlternation   // the expected '|' did not appear
    | Unimplemented         // an assertion was recognised
    | NeedsEscaping         // one of ^ $ \ . ( ) [ ] } as a pattern character
    | UnclosedBeforeComma   // end of input inside braces, before any comma
    | CommaBeforeDigits     // `{,` : no digit before the comma
    | NoDigits              // `{}` : braces closed before any digit
    | NonDigitBeforeComma   // another character inside braces, before any comma
    | UnclosedAfterComma    // end of input inside braces, after the comma
    | SecondComma           // a second comma inside braces
    | NonDigitAfterComma    // another character inside braces, after the comma

  /** The errors thrown inside the braces of a quantifier. */
  predicate IsBraceError(e: Error)
  {
    e.UnclosedBeforeComma? || e.CommaBeforeDigits? || e.NoDigits? || e.NonDigitBeforeComma?
    || e.UnclosedAfterComma? || e.SecondComma? || e.NonDigitAfterComma?
  }

  /** The outcome of one rule: the new cursor, or the error thrown. */
  datatype Outcome = Ok(at: nat) | Throw(err: Error)

  /** The outcome of checking a whole pattern. */
  datatype Checked = Accepted | Rejected(error: Error)

  /** The brace form before its comma, from position `k` on: spaces and
      digits, then `,` (the digits after it follow) or `}`; `followDigits`
      records whether a digit has been seen since the `{`. */
  function BraceBefore(s: seq<char>, k: nat, followDigits: bool): (r: Outcome)
    requires k <= |s|
    ensures r.Ok? ==> k < r.at <= |s| && s[r.at - 1] == RBrace
    ensures r.Ok? && !followDigits ==> k + 1 < r.at
    ensures r.Throw? ==> IsBraceError(r.err)
    decreases |s| - k
  {
    if k == |s| then Throw(UnclosedBeforeComma)
    else if s[k] == Comma then
      if !followDigits then Throw(CommaBeforeDigits) else BraceAfter(s, k + 1)
    else if s[k] == RBrace then
      if followDigits then Ok(k + 1) else Throw(NoDigits)
    else if s[k] == Space then BraceBefore(s, k + 1, followDigits)
    else if IsDecimalDigit(s[k]) then BraceBefore(s, k + 1, true)
    else Throw(NonDigitBeforeComma)
  }

  /** The brace form after its comma, from position `k` on: spaces and
      digits (none required), then `}`. */
  function BraceAfter(s: seq<char>, k: nat): (r: Outcome)
    requires k <= |s|
    ensures r.Ok? ==> k < r.at <= |s| && s[r.at - 1] == RBrace
    ensures r.Throw? ==> r.err in {UnclosedAfterComma, SecondComma, NonDigitAfterComma}
    decreases |s| - k
  {
    if k == |s| then Throw(UnclosedAfterComma)
    else if s[k] == Comma then Throw(SecondComma)
    else if s[k] == RBrace then Ok(k + 1)
    else if s[k] == Space || IsDecimalDigit(s[k]) then BraceAfter(s, k + 1)
    else Throw(NonDigitAfterComma)
  }

  /** The brace form of a quantifier, starting at the `{` at `i`. An
      accepted brace form holds at least one character between its braces
      and ends just after a `}`. */
  function BraceSpec(s: seq<char>, i: nat): (r: Outcome)
    requires i < |s| && s[i] == LBrace
    ensures r.Ok? ==> i + 2 < r.at <= |s| && s[r.at - 1] == RBrace
    ensures r.Throw? ==> IsBraceError(r.err)
  {
    BraceBefore(s, i + 1, false)
  }

  /** quantifier_prefix: the brace form, one quantifier symbol, or nothing. */
  function QuantifierPrefixSpec(s: seq<char>, i: nat): (r: Outcome)
    requires i < |s|
    ensures r.Ok? ==> i <= r.at <= |s|
  {
    if s[i] == LBrace then BraceSpec(s, i)
    else if IsQuantifierSymbol(s[i]) then Ok(i + 1)
    else Ok(i)
  }

  /** quantifier: a prefix, then at most one lazy `?`. */
  function QuantifierSpec(s: seq<char>, i: nat): (r: Outcome)
    requires i < |s|
    ensures r.Ok? ==> i <= r.at <= |s|
  {
    match QuantifierPrefixSpec(s, i)
    case Throw(e) => Throw(e)
    case Ok(j) => if j < |s| && s[j] == Question then Ok(j + 1) else Ok(j)
  }

  /** pattern_character: consumes an ordinary character, throws on one that
      needs escaping, and leaves the others in place. */
  function PatternCharacterSpec(s: seq<char>, i: nat): (r: Outcome)
    requires i < |s|
    ensures NeedsEscape(s[i]) <==> r == Throw(NeedsEscaping)
    ensures LeftForQuantifier(s[i]) <==> r == Ok(i)
    ensures !NeedsEscape(s[i]) && !LeftForQuantifier(s[i]) <==> r == Ok(i + 1)
  {
    if NeedsEscape(s[i]) then Throw(NeedsEscaping)
    else if LeftForQuantifier(s[i]) then Ok(i)
    else Ok(i + 1)
  }

  /** assertion: a stub that recognises nothing. */
  function Assertion(s: seq<char>, i: nat): (b: bool)
    ensures !b
  {
    false
  }

  /** term: an assertion (never), or an atom followed, unless the input has
      ended, by a quantifier. On any character but `|` it either throws or
      moves the cursor forward. */
  function TermSpec(s: seq<char>, i: nat): (r: Outcome)
    requires i < |s|
    ensures r.Ok? ==> i <= r.at <= |s|
    ensures r.Ok? && s[i] != Bar ==> i < r.at
    ensures r != Throw(Unimplemented)
  {
    if Assertion(s, i) then Throw(Unimplemented)
    else
      match PatternCharacterSpec(s, i)
      case Throw(e) => Throw(e)
      case Ok(j) => if j < |s| then QuantifierSpec(s, j) else Ok(j)
  }

  /** alternative: terms until the end of the input or a `|`. It stops only
      there, and never throws the errors that cannot happen. */
  function AlternativeSpec(s: seq<char>, i: nat): (r: Outcome)
    requires i <= |s|
    ensures r.Ok? ==> i <= r.at <= |s| && (r.at == |s| || s[r.at] == Bar)
    ensures r != Throw(Unimplemented) && r != Throw(ExpectedAlternation)
    decreases |s| - i
  {
    if i == |s| || s[i] == Bar then Ok(i)
    else
      match TermSpec(s, i)
      case Throw(e) => Throw(e)
      case Ok(j) => AlternativeSpec(s, j)
  }

  /** disjunction: alternatives separated by `|`. It returns normally only
      at the end of the input, and the "expected '|'" error never fires. */
  function DisjunctionSpec(s: seq<char>, i: nat): (r: Outcome)
    requires i <= |s|
    ensures r.Ok? ==> r.at == |s|
    ensures r != Throw(Unimplemented) && r != Throw(ExpectedAlternation)
    decreases |s| - i
  {
    match AlternativeSpec(s, i)
    case Throw(e) => Throw(e)
    case Ok(j) =>
      if j == |s| then Ok(j)
      else if s[j] == Bar then DisjunctionSpec(s, j + 1)
      else Throw(ExpectedAlternation)
  }

  /** start: the disjunction over the whole pattern. */
  function CheckSpec(s: seq<char>): (c: Checked)
    ensures c != Rejected(Unimplemented) && c != Rejected(ExpectedAlternation)
  {
    match DisjunctionSpec(s, 0)
    case Throw(e) => Rejected(e)
    case Ok(_) => Accepted
  }
}
