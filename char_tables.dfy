/** The character classification tables of the checker and the linear search
    used to look characters up in them.

    In the C++ header the tables are NUL-terminated character arrays, and the
    lookups range over the whole array, terminator included. The tables are
    therefore written here as literal sequences that END WITH '\0', and every
    consequence of that terminator (a NUL behaves like a quantifier symbol and
    like a decimal digit) is kept. */
module CharTables {

  const Bar: char := '|'
  const Question: char := '?'
  const Comma: char := ','
  const Space: char := ' '
  const LBrace: char := '{'
  const RBrace: char := '}'

  /** `*+?{` and the array terminator. */
  const QuantifierPrefixSymbols: seq<char> := ['*', '+', '?', '{', '\0']

  /** `0123456789` and the array terminator. */
  const DecimalDigits: seq<char> := ['0', '1', '2', '3', '4', '5', '6', '7', '8', '9', '\0']

  /** `^$\.()[]}*+?{|` and the array terminator: the characters that must
      be escaped come first, those left to the quantifier last. */
  const NotPatternCharacters: seq<char> :=
    ['^', '$', '\\', '.', '(', ')', '[', ']', '}', '*', '+', '?', '{', '|', '\0']

  /** The characters a pattern character may not be: they need an escape. */
  predicate NeedsEscape(c: char)
  {
    c == '^' || c == '$' || c == '\\' || c == '.' || c == '(' || c == ')'
    || c == '[' || c == ']' || c == '}'
  }

  /** The characters pattern_character leaves to the quantifier and to the
      alternation. */
  predicate LeftForQuantifier(c: char)
  {
    c == '*' || c == '+' || c == '?' || c == '{' || c == '|' || c == '\0'
  }

  /** The one-character quantifiers (the brace form starts with `{`). */
  predicate IsQuantifierSymbol(c: char)
  {
    c == '*' || c == '+' || c == '?' || c == '\0'
  }

  /** `p` is where a linear search of `table` for `c` stops: the first
      occurrence of `c`, or the end of the table when there is none. */
  predicate FoundAt(table: seq<char>, c: char, p: nat)
  {
    p <= |table|
    && (p < |table| ==> table[p] == c)
    && (forall k :: 0 <= k < p ==> table[k] != c)
    && (p == |table| ==> c !in table)
  }

  /** std::ranges::find over a table: the index of the first occurrence of
      `c`, or the length of the table (the end iterator) when there is none. */
  method Find(table: seq<char>, c: char) returns (p: nat)
    ensures FoundAt(table, c, p)
  {
    p := 0;
    while p < |table| && table[p] != c
      invariant p <= |table|
      invariant forall k :: 0 <= k < p ==> table[k] != c
    {
      p := p + 1;
    }
  }

  /** std::ranges::any_of over a table with the predicate "equals `c`". */
  method AnyOf(table: seq<char>, c: char) returns (b: bool)
    ensures b <==> c in table
  {
    b := false;
    var k := 0;
    while k < |table|
      invariant k <= |table|
      invariant b <==> exists q :: 0 <= q < k && table[q] == c
    {
      if table[k] == c {
        b := true;
      }
      k := k + 1;
    }
  }

  /** The entries of the digit table: `0` to `9` and the terminator. */
  predicate IsDecimalDigit(c: char)
  {
    '0' <= c <= '9' || c == '\0'
  }

  /** Looking a character up in the digit table finds exactly the digits
      and NUL. */
  lemma DigitTableLayout(c: char)
    ensures |DecimalDigits| == 11
    ensures c in DecimalDigits <==> IsDecimalDigit(c)
  {
  }

  /** What may stand between the braces of a quantifier besides one comma. */
  predicate IsBraceFiller(c: char)
  {
    c == Space || IsDecimalDigit(c)
  }

  /** The index arithmetic of pattern_character: with `e` the end of the
      table (15), positions before `e - 5 - 1` hold the characters needing
      an escape, positions from there to `e` those left for the quantifier. */
  lemma PatternTableLayout(c: char, p: nat)
    requires FoundAt(NotPatternCharacters, c, p)
    ensures |NotPatternCharacters| == 15
    ensures p < 15 - 5 - 1 <==> NeedsEscape(c)
    ensures 15 - 5 - 1 <= p < 15 <==> LeftForQuantifier(c)
    ensures p == 15 <==> !NeedsEscape(c) && !LeftForQuantifier(c)
  {
  }

  /** The index arithmetic of quantifier_prefix: with `e` the end of the
      table (5), `e - 1 - 1` is the brace, the other positions before `e`
      hold the one-character quantifiers. */
  lemma QuantifierTableLayout(c: char, p: nat)
    requires FoundAt(QuantifierPrefixSymbols, c, p)
    ensures |QuantifierPrefixSymbols| == 5
    ensures p == 5 - 1 - 1 <==> c == LBrace
    ensures p < 5 && p != 5 - 1 - 1 <==> IsQuantifierSymbol(c)
  {
  }
}
