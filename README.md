# almiraj front end, modelled in Dafny

almiraj is a small language whose compiler, at this stage, does two things:
- It reads one function declaration header such as `global fn bar(uint8 x)`.
- It keeps two data structures for code generation:
  - a catalog of primitive types (`bit`, `uint2` … `uint64`, `int8` … `int64`) with their sizes and value ranges;
  - `BitSet8`, a packer that stores up to eight named booleans in one byte.

A `Function` record holds a declaration with its body lines.

This project models that core and proves properties of it:

| module | file | models |
|---|---|---|
| `Lexer` | `lexer.dfy` | `Token` and `tokenize` of `src/main.rs`. `Lex`/`Unexpected` specify it; `Tokenize` is the character loop, proved equal to them. |
| `Parser` | `parser.dfy` | `Ast` and `parse` of `src/main.rs`. `Declaration`/`ParameterList` specify it; `Parse` is the token loop, proved equal to them. |
| `FrontEnd` | `front_end.dfy` | The tokenize-then-parse pipeline of `main`, and lemmas that follow whole source texts through both stages. |
| `Types` | `types.dfy` | `PrimitiveType` and its table functions (`src/types/mod.rs`). |
| `BitSets` | `bitset.dfy` | `BitSet8` (`src/types/bitset.rs`), as a class whose methods update `bits`, `bitMap` and `nextBit` in place. |
| `Functions` | `functions.dfy` | `Function` (`src/lexer/functions.rs`), as a class with `new` and `add_line_to_body`. |
| `Wrappers` | `wrappers.dfy` | `Option`, standing for Rust's `Option`. |

### Behaviour of the code that the model keeps

The model follows the Rust code as written, including the behaviours below, each of which a lemma states.

- **The first token is always consumed.** `is_global` starts false (`src/main.rs:79`), which suggests `global` is meant to be optional. But `parse` takes the first token whatever it is, and sets `is_global` only when that token is `Global` (`src/main.rs:81-83`). A header without `global` therefore loses its `fn`, so `fn foo()` does not parse. See `Parser.BareFnRejected`, `FrontEnd.BareHeaderRejected` and the `None` case of `FrontEnd.SourceRoundTrip`.
- **A type without a name swallows the next token.** A `Type` token takes the token after it, whatever it is (`src/main.rs:105-109`). That token can be the closing `)`. It is dropped, and the loop goes on. See `Parser.TypeDropsNext`.
- **Commas make the parse fail.** A `Comma` between parameters fails the whole parse, so `fn baz(uint8 a, uint8 b)` fails, with or without `global`. See `Parser.CommaSeparatedRejected` and `FrontEnd.CommaSourceRejected`.
- **Only `uint…` names are type tokens.** Identifier runs that start with `uint` become `Type` tokens. `bit`, `bool` and `int8` … `int64` become identifiers, although the type catalog accepts them. A parameter declared with one of them makes the whole parse fail (`src/main.rs:110`). See `FrontEnd.CatalogNamesAsTokens` and `FrontEnd.CatalogParamRejected`.

## Model

| member | source | states |
|---|---|---|
| Lexer.Classify | src/main.rs:61-66 | The run is `Global` if it is `global`, `Fn` if it is `fn`, `Type` exactly when it starts with `uint` and is neither keyword, and `Identifier` otherwise; the token carries the run's text back |
| Lexer.DelimiterToken | src/main.rs:32-51 | Each of `( ) { } ,` yields its own delimiter token |
| Lexer.WordEnd | src/main.rs:54-60 | The identifier scan stops at the first character that is neither alphanumeric nor `_` (or at the end); every character before it continues the run |
| Lexer.StepAt | src/main.rs:28-71 | Each iteration of the character loop consumes at least one character and emits at most one token or one diagnostic |
| Lexer.ScanWord | src/main.rs:52-60 | The inner loop consumes exactly the maximal identifier run, at least one character |
| Lexer.NextStep | src/main.rs:28-71 | The loop body does what `StepAt` specifies for the character at the position |
| Lexer.Tokenize | src/main.rs:23-75 | The loop returns exactly `Lex(input)`, with the unexpected characters reported in order as `Unexpected(input)` |
| Lexer.Lex | src/main.rs:23-75 | No more tokens than characters |
| Lexer.LexConsumes | src/main.rs:23-75 | Tokens plus reported characters together never outnumber the input characters |
| Lexer.LexShift | src/main.rs:27-73 | Lexing from a position depends only on the text from that position on |
| Lexer.LexWhitespace | src/main.rs:29-31 | A space, newline, tab or carriage return emits nothing and reports nothing |
| Lexer.LexDelimiter | src/main.rs:32-51 | A delimiter emits exactly its token and lexing continues after it |
| Lexer.LexUnexpected | src/main.rs:68-71 | Any other non-alphabetic character is reported once and skipped |
| Lexer.LexAppend | src/main.rs:27-73 | If the cut between two texts does not fall inside an identifier run, their concatenation lexes to the concatenation of their tokens and diagnostics |
| Lexer.LexSkipsUnexpected | src/main.rs:68-71 | An unrecognised character after a token boundary does not change the tokens: they are those of the text without it, and the character is reported between the diagnostics of the two sides |
| Lexer.Unexpected | src/main.rs:68-71 | The characters `tokenize` reports, in order; every one of them is neither whitespace, a delimiter nor alphabetic |
| Lexer.UnexpectedFromReported | src/main.rs:68-71 | From any position on, every reported character is neither whitespace, a delimiter nor alphabetic |
| Lexer.LexFrom | src/main.rs:27-73 | The tokens emitted from a position on number at most the characters left |
| Lexer.LexWord | src/main.rs:52-67 | A maximal identifier run emits exactly its classification |
| Parser.ParameterList | src/main.rs:100-112 | A successful parameter list holds at most one pair per two tokens |
| Parser.Declaration | src/main.rs:77-119 | Some exactly when the 2nd, 3rd and 4th tokens are `Fn`, an identifier and `(`, and the parameter list parses; the name is the identifier and `isGlobal` holds exactly when the first token is `Global` |
| Parser.Parse | src/main.rs:77-119 | The token loop with its `break` on `)` returns exactly `Declaration(tokens)` |
| Parser.ParameterListRoundTrip | src/main.rs:100-112 | `T n T n …` followed by `)` or by nothing reads back as the same pairs in order |
| Parser.DeclarationRoundTrip | src/main.rs:81-118 | `[first] fn name ( T n … )` parses to that name and those parameters, global exactly when `first` is `Global` |
| Parser.CommaSeparatedRejected | src/main.rs:102-111 | Two or more parameters separated by commas make the parameter list fail |
| Parser.OtherTokenRejected | src/main.rs:102-111 | Inside the list, a token other than `)` or a type fails the parse |
| Parser.TypeDropsNext | src/main.rs:105-109 | A type followed by a non-identifier is dropped together with that token |
| Parser.BareFnRejected | src/main.rs:81-88 | Tokens starting `fn name` do not parse, because `fn` is consumed as the optional first token |
| FrontEnd.ParseSource | src/main.rs:121-131 | The pipeline of `main` yields the tokens and diagnostics of the source and the declaration of those tokens |
| FrontEnd.CatalogNamesAsTokens | src/main.rs:61-66 | Of the catalog's type names only the unsigned ones from `uint2` up lex as `Type`; `bit`, `bool` and the signed names lex as identifiers |
| FrontEnd.CatalogParamRejected | src/main.rs:102-111 | `[global ]fn name(T n)` with `T` a catalog name not starting with `uint` (`bit`, `bool`, `int8` … `int64`) does not parse, whatever follows |
| FrontEnd.IdentifierParamRejected | src/main.rs:102-111 | A header whose parameter type lexes as an identifier does not parse, whatever follows |
| FrontEnd.BareHeaderRejected | src/main.rs:81-93 | The source `fn name…` does not parse, whatever follows the name |
| FrontEnd.LexParamSource | src/main.rs:52-67 | The text of a parameter list, separated by spaces or by `, `, lexes to its type and identifier tokens (with commas when `, ` is used) |
| FrontEnd.LexHeaderSource | src/main.rs:23-75 | The text `[global ]fn name(params)` lexes to its header tokens |
| FrontEnd.DeclarationOfHeader | src/main.rs:77-119 | Header tokens followed by anything parse to the declaration when `global` is present and fail without it; with commas and two or more parameters they fail |
| FrontEnd.SourceRoundTrip | src/main.rs:23-119 | Tokenizing and parsing `global fn name(T n …)` followed by any text gives back the declaration; without `global` the result is None |
| FrontEnd.CommaSourceRejected | src/main.rs:100-112 | Source text with two or more comma-separated parameters does not parse |
| Types.FromStr | src/types/mod.rs:22-38 | A name is accepted exactly when it is one of the twelve catalog names; an accepted name is the canonical name of its kind, or `bool` for `Bit` |
| Types.FromStrCanonical | src/types/mod.rs:22-38 | Every kind is found again under its canonical name |
| Types.SizeInBits | src/types/mod.rs:40-50 | Every width is one of 1, 2, 4, 8, 16, 32 and 64 |
| Types.SignedUnsignedSameWidth | src/types/mod.rs:45-48 | A signed kind and the unsigned kind of the same width have the same number of bits |
| Types.SizeInBytes | src/types/mod.rs:53-55 | The byte size is the least number of whole bytes that hold the bits: at least 1, and `(r-1)*8 < bits <= r*8` |
| Types.MemoryAlignment | src/types/mod.rs:58-60 | The alignment equals the bit width and is never less than the byte size |
| Types.ValueRangeMatchesWidth | src/types/mod.rs:63-77 | An unsigned N-bit range is `[0, 2^N-1]`, a signed one `[-2^(N-1), 2^(N-1)-1]`; every range is non-empty and holds exactly `2^N` values |
| Types.ValueRange | src/types/mod.rs:63-77 | Every range contains 0 and a positive upper bound; its lower bound is negative exactly for the signed kinds |
| Types.ShouldUseBitset | src/types/mod.rs:80-82 | A kind is packed into a bit set exactly when it is one bit wide |
| BitSets.MaskIsShift | src/types/bitset.rs:37-39 | The slot mask is `1 << k` on a byte |
| BitSets.BitAt | src/types/bitset.rs:50 | Bit `k` is set exactly when setting it again leaves the byte unchanged |
| BitSets.WithBit | src/types/bitset.rs:36-40 | After the update, bit `k` holds the value and every other bit of the byte is as before |
| BitSets.SlotsFit | src/types/bitset.rs:23-31 | Names mapped to distinct slots below `next` number at most `next` |
| BitSets.BitSet8.Valid | src/types/bitset.rs:4-11 | The packer's invariant (at most eight slots used, every mapped slot handed out, no two names share a slot, never-used bits clear) implies it holds no more names than used slots |
| BitSets.WithBitAt | src/types/bitset.rs:36-40 | Setting or clearing bit `k` makes bit `k` equal to the value and leaves the other seven bits unchanged |
| BitSets.BitSet8.constructor | src/types/bitset.rs:14-20 | A new packer has all bits clear, no names and no slots used, and satisfies the invariant |
| BitSets.BitSet8.Get | src/types/bitset.rs:48-52 | A value is returned exactly for names that have a slot, and it is that slot's bit |
| BitSets.BitSet8.UsedBits | src/types/bitset.rs:55-57 | At most eight slots are in use |
| BitSets.BitSet8.AvailableBits | src/types/bitset.rs:60-62 | Used and available slots add up to eight |
| BitSets.BitSet8.AllocateBit | src/types/bitset.rs:23-31 | With all eight slots taken: None, nothing changes. Otherwise: the next slot, which the name now maps to (moving a name that had a slot), the counter advances, the bits are untouched and the name reads false; the invariant is kept |
| BitSets.BitSet8.Set | src/types/bitset.rs:34-45 | Succeeds exactly when the name has a slot; then the name reads back the value and every other name reads what it read before; otherwise nothing changes |
| BitSets.CapacityScenario | src/types/bitset.rs:23-31 | In a new packer, the first allocation gets slot 0, the eighth slot 7 and the ninth fails; then 8 bits are used and 0 available |
| BitSets.FlagsScenario | src/types/bitset.rs:69-85 | Both allocations succeed, both writes succeed, the flags set to true and false read back as true and false, and an unknown name reads as None |
| Functions.Function.constructor | src/lexer/functions.rs:16-25 | A new function keeps the given header fields, is not public and has an empty body |
| Functions.Function.AddLineToBody | src/lexer/functions.rs:28-30 | The line is appended after the existing lines, which stay in place; no other field changes |
| Functions.TwoLineFunction | src/lexer/functions.rs:16-30 | A new function given two lines holds exactly those two lines, in order, and keeps its header |

## Left out

- `main`'s file reading and printing (`src/main.rs:121-131`) are I/O. `FrontEnd.ParseSource` takes the source text as a parameter and returns what would be printed.
- The `println!` diagnostic in `tokenize` is modelled as the returned sequence of unexpected characters, not as output.
- Lexer.IsAlphabetic and Lexer.IsAlphanumeric model Rust's Unicode `char::is_alphabetic` and `char::is_alphanumeric` by their ASCII subsets. Non-ASCII letters and digits are treated as unexpected characters.
- Parser.Parse: Rust moves tokens out of a consuming iterator. The model reads an immutable sequence by index, which gives the same order and the same results.
- Types.ValueRange states the bounds as mathematical integers. In the source the result type is `(i64, i64)`, and the `UInt64` upper bound 18446744073709551615 does not fit in an `i64`. The model keeps the written value.
- Types.SizeInBits and Types.SizeInBytes return `nat` where the source returns `u8`. Every value fits in a `u8`, so the model has no wrap-around.
- BitSets.BitSet8: `bitMap` stands for the Rust `HashMap`. Hashing, capacity and iteration order are not modelled, and `usize` slots and counters are `nat`.
- Functions.Function: the visibility setter for `is_public` does not exist in the source. No member models it.
- `src/syntax/mod.rs` is not part of this model. It declares unused grammar types that no code builds.
