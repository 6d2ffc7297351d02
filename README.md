# rime pattern checker, modelled in Dafny

This project models `rime::patern_check<CharT>` from `include/rime.hpp`. It
is the recursive-descent checker that the `_re` literal runs over a regular
expression before the pattern is handed to `std::regex`. The header
implements only part of a regular-expression grammar:

- `start` runs `disjunction` over the whole pattern.
- `disjunction` is an alternative, then the end or a `|` and another disjunction.
- `alternative` is terms until the end or a `|`.
- `term` is the `assertion` stub (which never matches), else an `atom` and, unless the input has ended, a `quantifier`.
- `atom` is a single `pattern_character`.
- `quantifier` is `*`, `+`, `?` or a brace form, then an optional lazy `?`.

Every failure throws. The model has five modules:

- `CharTables` (`char_tables.dfy`): the three classification tables, written as literal sequences *with their NUL terminator*. It also holds the linear searches `std::ranges::find` and `std::ranges::any_of`, and lemmas that pin down the index arithmetic `e - 5 - 1` and `e - 1 - 1` against those tables.
- `PatternSpec` (`pattern_spec.dfy`): a function for each rule (`atom` shares `pattern_character`'s; the brace form is split at the comma into `BraceBefore`, `BraceAfter` and `BraceSpec`). Each computes what the rule does from a cursor position: it returns `Ok(at)` with the new cursor, or `Throw(err)` naming the throw site.
- `PaternCheck` (`patern_check.dfy`): the rules as the header writes them, as methods.
  - The by-reference cursor becomes an index argument and a returned position.
  - `alternative` keeps its `while` loop, `disjunction` its tail call, and `quantifier_prefix` its two `while (true)` loops with the `follow_digits` flag.
  - Each method is proved to compute its `PatternSpec` function.
- `PatternLanguage` (`pattern_language.dfy`): an independent, declarative description of the accepted patterns, with two theorems.
  - The patterns are concatenations of tokens. A token is a single character that needs no escape and is not `{`, or a brace group `{` digits-and-spaces [`,` digits-and-spaces] `}` with a digit before the comma or the closing brace.
  - `AcceptsExactlyTheLanguage`: the checker accepts exactly these patterns.
  - `RejectionLocated`: a pattern is rejected with an error exactly when a prefix of it is a sentence followed by a place that throws that error.
- `PatternProperties` (`pattern_properties.dfy`): corollaries and concrete outcomes, among them the patterns of `test/rime_test.cpp`.

Facts about the header that the model keeps:

- **NUL.** The tables keep their terminating NUL, and the lookups range over the whole array. So a NUL in the pattern is left in place by `pattern_character`, consumed by `quantifier_prefix` as a quantifier symbol, and counted as a digit inside braces.
- **Unchecked patterns.** Nothing rejects a quantifier with nothing before it (`*`), quantifiers in a row (`a**`), empty alternatives (`a||`), or bounds out of order (`a{5,2}`).
- **Unreachable errors.** The "expected '|'" error and the unimplemented-assertion error are proved never to fire.

## Model

| member | source | states |
|---|---|---|
| CharTables.Find | include/rime.hpp:246-247 | the result is the index of the first occurrence of the character in the table, or the table's length (its end) when it does not occur |
| CharTables.AnyOf | include/rime.hpp:186 | the result is true exactly when the character occurs in the table |
| CharTables.DigitTableLayout | include/rime.hpp:48 | the digit table has 11 entries (terminator included); a character is in it exactly when it is `0`-`9` or NUL |
| CharTables.PatternTableLayout | include/rime.hpp:249-263 | with `e` = 15, a find position before `e - 5 - 1` is exactly a character needing an escape; one from `e - 5 - 1` up to `e` is exactly one of `* + ? { |` NUL; position `e` is exactly any other character |
| CharTables.QuantifierTableLayout | include/rime.hpp:143-148 | with `e` = 5, position `e - 1 - 1` is exactly `{`; the other positions before `e` are exactly `* + ?` and NUL |
| PatternSpec.BraceBefore | include/rime.hpp:152-196 | an accepted brace form ends just after a `}`, at least two characters on when no digit had been seen yet; its errors are only brace errors |
| PatternSpec.BraceAfter | include/rime.hpp:198-228 | an accepted remainder ends just after a `}`; it throws only "not closed", "second comma" or "non-digit" |
| PatternSpec.BraceSpec | include/rime.hpp:148-152 | an accepted brace form spans at least `{`, one character and `}`, and ends just after the `}`; it throws only brace errors |
| PatternSpec.QuantifierPrefixSpec | include/rime.hpp:140-234 | the cursor never moves back and stays within the pattern |
| PatternSpec.QuantifierSpec | include/rime.hpp:130-138 | the cursor never moves back and stays within the pattern |
| PatternSpec.Assertion | include/rime.hpp:126-128 | the assertion stub never matches |
| PatternSpec.TermSpec | include/rime.hpp:114-124 | on any character but `|`, a term either throws or moves the cursor forward; it never throws the unimplemented error |
| PatternSpec.AlternativeSpec | include/rime.hpp:107-112 | an alternative returns only at the end of the pattern or at a `|`; it never throws the "expected '|'" or unimplemented error |
| PatternSpec.DisjunctionSpec | include/rime.hpp:93-105 | a disjunction returns normally only at the end of the pattern; the "expected '|'" error never fires |
| PatternSpec.CheckSpec | include/rime.hpp:85-91 | a pattern is never rejected with the "expected '|'" or unimplemented error |
| PaternCheck.Start | include/rime.hpp:85-91 | the result is the disjunction's outcome over the whole pattern, and it is acceptance exactly for the patterns of the token language |
| PaternCheck.Disjunction | include/rime.hpp:93-105 | computes DisjunctionSpec; it returns normally only with the cursor at the end of the pattern |
| PaternCheck.Alternative | include/rime.hpp:107-112 | the loop computes AlternativeSpec; the cursor stops only at the end or at a `|`, never before where it started |
| PaternCheck.Term | include/rime.hpp:114-124 | computes TermSpec; on any character but `|`, an accepted term moves the cursor forward |
| PaternCheck.Quantifier | include/rime.hpp:130-138 | computes QuantifierSpec; a character that is neither a quantifier symbol nor `{` is left untouched; a quantifier symbol is consumed, with one following `?` if there is one |
| PaternCheck.QuantifierPrefix | include/rime.hpp:140-234 | the table lookup and the two scanning loops compute QuantifierPrefixSpec |
| PatternSpec.PatternCharacterSpec | include/rime.hpp:240-264 | throws the escape error exactly on `^ $ \ . ( ) [ ] }`; leaves the cursor in place exactly on `* + ? { |` and NUL; consumes one character otherwise |
| PaternCheck.Atom | include/rime.hpp:236-238 | an atom is exactly a pattern character |
| PaternCheck.PatternCharacter | include/rime.hpp:240-264 | computes PatternCharacterSpec; throws the escape error exactly on `^ $ \ . ( ) [ ] }`; leaves the cursor in place exactly on `* + ? { |` and NUL; consumes exactly one character exactly on every other character |
| PatternLanguage.BraceAfterSound | include/rime.hpp:198-228 | what the part after the comma accepts is digits and spaces up to the `}` |
| PatternLanguage.BraceBeforeSound | include/rime.hpp:152-196 | what the part before the comma accepts is the inside of a brace group |
| PatternLanguage.BraceSpecSound | include/rime.hpp:148-228 | what the brace form accepts is a brace group |
| PatternLanguage.BraceAfterComplete | include/rime.hpp:198-228 | digits and spaces up to a `}` are accepted after the comma, up to that `}` |
| PatternLanguage.BraceBeforeClosed | include/rime.hpp:152-196 | digits and spaces with a digit, up to a `}`, are accepted before the comma, up to that `}` |
| PatternLanguage.BraceBeforeRange | include/rime.hpp:152-228 | digits and spaces with a digit, a comma, digits and spaces and a `}` are accepted, up to that `}` |
| PatternLanguage.BraceSpecComplete | include/rime.hpp:148-228 | every brace group is accepted by the brace form, which ends exactly at its closing brace |
| PatternLanguage.QuantifierSound | include/rime.hpp:130-138 | what a quantifier consumes is a sequence of tokens |
| PatternLanguage.TermSound | include/rime.hpp:114-124 | what a term consumes is a sequence of tokens |
| PatternLanguage.AlternativeSound | include/rime.hpp:107-112 | what an alternative consumes is a sequence of tokens |
| PatternLanguage.DisjunctionSound | include/rime.hpp:93-105 | a disjunction that returns normally has scanned a sequence of tokens up to the end |
| PatternLanguage.TermAtStop | include/rime.hpp:114-124 | a term starting at a character that needs an escape, or at a malformed brace form, throws that place's error |
| PatternLanguage.QuantifierComplete | include/rime.hpp:130-138 | inside a sentence, a quantifier consumes a whole number of tokens, or throws the boundary's error where the sentence ends |
| PatternLanguage.TermComplete | include/rime.hpp:114-124 | inside a sentence, a term consumes a whole number of tokens, or throws the boundary's error |
| PatternLanguage.AlternativeComplete | include/rime.hpp:107-112 | inside a sentence, an alternative reaches the end of the pattern, or a `|` of the sentence, or throws the boundary's error |
| PatternLanguage.DisjunctionComplete | include/rime.hpp:93-105 | a disjunction started inside a sentence accepts when the sentence reaches the end of the pattern, and otherwise throws the error of the place where it stops |
| PatternLanguage.TermThrowStop | include/rime.hpp:114-124 | a term throws only at a stop reached through tokens |
| PatternLanguage.AlternativeThrowStop | include/rime.hpp:107-112 | an alternative throws only at a stop reached through tokens |
| PatternLanguage.DisjunctionThrowStop | include/rime.hpp:93-105 | a disjunction throws only at a stop reached through tokens |
| PatternLanguage.AcceptsExactlyTheLanguage | include/rime.hpp:85-91 | a pattern is accepted if and only if it is a concatenation of tokens |
| PatternLanguage.RejectsAtFirstStop | include/rime.hpp:85-91 | a sentence followed by a character that needs an escape, or by a malformed brace form, is rejected with that place's error, whatever follows |
| PatternLanguage.RejectionLocated | include/rime.hpp:85-91 | a pattern is rejected with an error if and only if some prefix of it is a sentence followed by a place that throws that error |
| PatternProperties.OrdinaryPatternAccepted | include/rime.hpp:93-112 | a pattern of characters that need no escape and are not `{` is accepted |
| PatternProperties.SeparatorsOnlyAccepted | include/rime.hpp:93-112 | the empty pattern and patterns made only of `|` are accepted |
| PatternProperties.EscapeRejected | include/rime.hpp:257-263 | a character that needs an escape, after single-character tokens, rejects the pattern with the escape error whatever follows |
| PatternProperties.BraceErrorRejected | include/rime.hpp:152-228 | a malformed brace form after single-character tokens rejects the pattern with the brace form's error |
| PatternProperties.BraceBeforeFirstSeparator | include/rime.hpp:155-196 | before the comma, the first character that is neither digit nor space decides: end → not closed; `,` → go on after it, or no digit before the comma; `}` → accept, or no digits; anything else → non-digit |
| PatternProperties.BraceAfterFirstSeparator | include/rime.hpp:198-228 | after the comma, the first character that is neither digit nor space decides: end → not closed; `,` → second comma; `}` → accept; anything else → non-digit |
| PatternProperties.UnclosedBefore | include/rime.hpp:155-160 | before the comma, the "not closed" error fires exactly when only digits and spaces follow up to the end |
| PatternProperties.UnclosedAfter | include/rime.hpp:198-202 | after the comma, the "not closed" error fires exactly when only digits and spaces follow up to the end |
| PatternProperties.UnclosedBraceBeforeComma | include/rime.hpp:148-160 | a `{` throws "not closed" before a comma exactly when only digits and spaces follow it |
| PatternProperties.QuantifiedCharacterAccepted | include/rime.hpp:114-124 | a character that needs no escape and is not `{`, followed by a brace form accepted up to the end is an accepted pattern |
| PatternProperties.BracesAccepted | include/rime.hpp:152-213 | `a{2}`, `a{2,}`, `a{5,2}`, `a{ 1 , 2 }`, `a{ 1 , }` and `a{` NUL `}` are accepted |
| PatternProperties.BracesRejectedBeforeComma | include/rime.hpp:155-194 | `a{}` and `a{ }` give "no digits", `a{,2}` "digit before the comma", `a{a}` "non-digit", `a{1` "not closed" |
| PatternProperties.BracesRejectedAfterComma | include/rime.hpp:198-227 | `a{1,2,3}` gives "second comma", `a{1,a}` "non-digit", `a{1,` "not closed" |
| PatternProperties.CharactersAccepted | include/rime.hpp:130-148 | the empty pattern, `*`, `a|b||`, `a**`, `a+*?` and `a` NUL `?` are accepted |
| PatternProperties.CharactersRejected | include/rime.hpp:257-263 | `a.b`, `a}` and `(a)` are rejected with the escape error |
| PatternProperties.TestFilePatterns | test/rime_test.cpp:12-38 | `\d{2}`, `\d{2`, `(\d{2})` and `(\d{2}` are all rejected with the escape error, and each stops at its first character (a backslash or an opening parenthesis) |

## Left out

- Error messages: the thrown message strings of `REGEX_PATERN_ERROR` and `regex_error_unimplemented` are not modelled. An `Error` value names the throw site instead.
- Error position: the position of the cursor when a rule throws is not part of the outcome. `RejectionLocated` states where the error arises instead.
- `operator""_re` (include/rime.hpp:267-280): these are compile-time wrappers that call `start` and return the literal. They are not modelled.
- The `wchar_t` table and the character-type concept (include/rime.hpp:24-27, 52-70) are not modelled. The wide tables hold the same characters, so the model covers one character type.
- `consume` (include/rime.hpp:72-75) is the step `it + 1` at each place it is called. It has no member of its own.
- `#include <regex>` and the iterator and sentinel types are library plumbing with no logic. They are not modelled.
- `test/rime_test.cpp`:
  - Its harness and its calls to `std::regex` are not modelled.
  - It expects `\d{2}` and `(\d{2})` to be valid literals, but the header rejects both, because `atom` has no escape or group branch. `TestFilePatterns` states what the header does.
- The header implements only part of a regular-expression grammar; the model follows it and has none of the following:
  - assertions `^ $ \b \B`, escapes, `.` as a wildcard, character classes, groups and lookahead;
  - a separate trailing-input error;
  - a dangling-quantifier error;
  - decoding of quantifier bounds and a check that the lower bound is at most the upper;
  - error positions.

  By the header, `^ $ . ( ) [ ] \ }` are all rejected as needing an escape, and `*` at the start of a pattern and `a{5,2}` are accepted.
