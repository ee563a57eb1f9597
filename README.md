# A verified model of a Thai/mixed-script tokenizer

The modelled tokenizer is `LongLexto`. It splits a string into typed tokens:

- **Whitespace runs:** `SPACE`.
- **Latin, Greek and Cyrillic runs:** `WESTERN`, lower-cased.
- **Digit runs:** `NUMBER`.
- **Thai words:** `THAI`.
- **HTML-like tags:** `TAG`, from `<` to the first `>`.
- **Any other single character:** `SPECIAL`.

The session keeps the tokens of the last input and a cursor over them.

Thai text has no spaces. Thai words are therefore cut by a dictionary held in a character trie. The cut is the longest match whose end passes a one-word lookahead; failing that, the longest match; failing that, one character. Three tables of "dependent" characters then decide whether the text of the token before is rewritten with the new piece.

The project has four modules, one per source file:

- **`Tokens`** (`tokens.dfy`, from `Token.go` and the type constants of `LongLexTo.go`): the token value and its type predicates.
- **`Dictionary`** (`trie.dfy`, from `Trie.go`):
  - the trie is a class over an arena of nodes, `children: seq<map<char, nat>>` and `terminal: seq<bool>`;
  - its abstract meaning is the ghost set `Words`;
  - `Verdict` gives the three-valued answer `Contains` must return.
- **`Resolver`** (`resolver.dfy`, from `LongParseTree.go`):
  - the lookahead `NextWordValid` and the boundary search `ParseWordInstance` are loops proved against the ghost functions `NextWordValidSpec` and `Resolve`;
  - `Overwrites` says when the caller's last token is rewritten.
- **`Lexer`** (`lexer.dfy`, from `LongLexTo.go`):
  - the session class `LongLexto`, whose `SetText` is proved against the ghost function `Scan`;
  - `Scan`'s result is characterised by the declarative predicate `Scanned`: every scan is `Scanned` (`ScanIsScanned`), and every `Scanned` cutting that reaches the end of the input is the scan's result (`ScannedIsScan`);
  - the cursor methods `First`, `Next` and `Previous`, and the driver `Tokenize`.

Go-specific behaviour that the model keeps explicitly:

- **The empty word.** `AddWord` and `Contains` have value receivers, so `AddWord("")` marks only a copy of the root. The empty word is never a word.
- **The token list is passed by value.** `parseWordInstance` receives the caller's list by value. Its rewrite of the last element's text is visible to the caller, because the backing array is shared. Its own `append` is not. `ParseWordInstance` therefore returns the list as the caller sees it afterwards.
- **A rewrite duplicates the piece.** After a rewrite, the caller still appends the new piece as its own `THAI` token. The piece then appears twice: as the rewritten text of the previous token and as a new token.
- **The Latin-1 tables.** The dependent-character tables hold the Latin-1 code points written in `CreateTree`. The front- and rear-dependent tables overlap in U+00D1, U+00D7 and U+00ED (`Resolver.TablesOverlap`). No Thai letter is in any table, so within a scan only the rear-dependent table can trigger a rewrite (`Lexer.OnlyRearDependentMerges`).
- **Unterminated tags.** A `<` with no `>` after it makes the scan slice `chars[i:j+1]` past the end of the input. The model reports this as the failure `UnterminatedTag` (see "Left out").

## Model

| member | source | states |
|---|---|---|
| Tokens.AccessorsRoundTrip | Token.go:17-25 | `GetText` and `GetTextType` give back exactly the text and type a token was built with |
| Tokens.TypeTagsDistinct | LongLexTo.go:14-21 | the six type tags, with punctuation spelled `SPECIAL`, are six distinct strings |
| Tokens.KindsExclusive | Token.go:29-49 | at most one of `IsSpace`, `IsNumber`, `IsSymbol`, `IsHTML` holds of any token |
| Tokens.KindFollowsTag | Token.go:29-49 | for a token carrying one of the six tags, exactly one predicate holds iff the tag is SPACE, NUMBER, SPECIAL or TAG; none holds iff it is WESTERN or THAI |
| Tokens.EmptyTokenHasNoKind | LongLexTo.go:56 | the zero token `Token{}` that the cursor hands out satisfies no predicate and carries no known tag |
| Dictionary.OnPathAdded | Trie.go:31-45 | adding a word puts on a path exactly that word and its prefixes, besides what was there |
| Dictionary.VerdictMonotone | Trie.go:60-68 | once a query gets -1 (no child for some character), every extension of it gets -1 too |
| Dictionary.AddedWordIsWord | Trie.go:27-49 | after adding a non-empty word, querying it gives 1 |
| Dictionary.PrefixesOfAddedWord | Trie.go:31-45 | after adding a word, each of its prefixes gives 0 or 1, never -1 |
| Dictionary.AddedLeavesOthers | Trie.go:27-49 | adding a word changes the answer for no string that is not one of its prefixes |
| Dictionary.AddIdempotent | Trie.go:27-49 | adding the same word twice answers every query as adding it once |
| Dictionary.EmptyQueryIsPath | Trie.go:71-75 | the empty query gives 0: the root is never a word |
| Dictionary.EmptyDictionaryRejects | Trie.go:92-95 | the empty dictionary answers -1 to every non-empty query |
| Dictionary.Trie.Empty | Trie.go:86-95 | a trie with only a root is valid and holds no words |
| Dictionary.Trie.AddWord | Trie.go:27-49 | the trie stays valid and its word set becomes the old set plus the word, unchanged for the empty word |
| Dictionary.Trie.Contains | Trie.go:56-76 | returns -1 when no path spells the query, 1 when it is a word, 0 when it is the root or only a proper prefix of words |
| Dictionary.CreateTrie | Trie.go:83-107 | a fresh valid trie whose words are the non-empty lines of the file that opened, or no words when neither file opened |
| Resolver.SentinelInNoTable | LongParseTree.go:55 | the `'0'` standing for "no previous character" is in none of the tables |
| Resolver.TablesOverlap | LongParseTree.go:114-144 | front- and rear-dependent tables share exactly U+00D1, U+00D7, U+00ED; tone marks are in neither; no table holds an ASCII character |
| Resolver.LastEnd | LongParseTree.go:57-69 | the greatest end up to `e` of a word from `b` (passing the lookahead when `checked`), or -1 when there is none |
| Resolver.CheckedNotBeyond | LongParseTree.go:60-66 | the longest validated word end never exceeds the longest word end |
| Resolver.Resolve | LongParseTree.go:71-104 | the cut lies in `(b, len]`; it is `b + 1` when no word starts at `b`, else the greatest word end passing the lookahead if any does, else the greatest word end |
| Resolver.ScanOutcome | LongParseTree.go:75-103 | the longest match is -1 exactly when no word starts at `b`, and the code's three-way choice equals `Resolve` |
| Resolver.NoWordBeyond | LongParseTree.go:39-41 | after a -1 answer for `text[b..e]`, no longer candidate from `b` is a word, so stopping early misses nothing |
| Resolver.NextWordValid | LongParseTree.go:23-46 | true exactly at the end of the text, before an ASCII character, or where some dictionary word starts |
| Resolver.ParseWordInstance | LongParseTree.go:52-105 | returns the `Resolve` cut; the caller's list keeps its length and has its last token's text replaced by the new piece exactly when `Overwrites` holds, and is otherwise unchanged |
| Resolver.EmptyDictionarySingleChars | LongParseTree.go:75-76 | with no words every Thai cut is one character long |
| Resolver.LongestMatchPreferred | LongParseTree.go:57-102 | with words "ab" and "abc", "abcd" is cut after "abc" |
| Resolver.LookaheadRejectsOvershoot | LongParseTree.go:60-102 | a longer match after which no word starts loses to a shorter one after which one does |
| Lexer.IsWestern | LongLexTo.go:163-169 | a character is Western exactly when it lies strictly inside one of the five ranges U+0040–U+005B, U+0060–U+007B, U+00BF–U+00D7, U+00D7–U+02B0, U+036F–U+0590 |
| Lexer.IsThai | LongLexTo.go:173-176 | a character is Thai exactly when it lies strictly inside U+0E00–U+0E3B or U+0E3F–U+0E5C |
| Lexer.TypeAt | LongLexTo.go:102-149 | the kind of the token a character starts, tested in the scan's order: whitespace, Western, digit, Thai, `<`, anything else |
| Lexer.ScriptsDisjoint | LongLexTo.go:163-176 | no character is both Western and Thai |
| Lexer.AsciiScripts | LongLexTo.go:163-176 | among ASCII characters exactly the letters are Western and none is Thai; U+00D7 is neither |
| Lexer.OnlyRearDependentMerges | LongParseTree.go:75-101 | within a scan a Thai token rewrites the one before it exactly when the previous character is rear-dependent; the front-dependent and tonal tables never fire |
| Lexer.RunLimitMaximal | LongLexTo.go:104-107 | every character before the run limit is in the run, and the one at the limit, if any, is not |
| Lexer.RunLimitUnique | LongLexTo.go:104-107 | a run that cannot be extended ends at the run limit |
| Lexer.TagCloseFirst | LongLexTo.go:141-144 | the tag scan stops at the first `>` or at the end of the input |
| Lexer.RunEnd | LongLexTo.go:104-107 | the inner loop stops at the end of the maximal run starting after `i` |
| Lexer.TagEnd | LongLexTo.go:141-144 | the inner loop stops at the first `>` after `i`, or the end of the input |
| Lexer.CutFits | LongLexTo.go:100-153 | the cut at `i` is the span the first character's kind calls for; there is none exactly when `i` holds a `<` with no `>` after it |
| Lexer.CutUnique | LongLexTo.go:100-153 | any end that fits the kind's span is the cut, so the span of each token is determined |
| Lexer.ScannedExtend | LongLexTo.go:132-137 | appending the next token, after the resolver's rewrite of the last one, keeps a scanned prefix scanned |
| Lexer.TokenCountBound | LongLexTo.go:100-153 | a scan never yields more tokens than the characters it consumed |
| Lexer.CoverageWithoutRewrites | LongLexTo.go:100-153 | without Western tokens and Thai rewrites, the token texts joined give back the scanned input |
| Lexer.RewriteBreaksCoverage | LongParseTree.go:82-83 | the Thai letter after the rear-dependent symbol U+00D7 rewrites that symbol's token, so the scan of the two gives the letter twice and the joined texts differ from the input |
| Lexer.LowerCasingBreaksCoverage | LongLexTo.go:119 | a Western run is stored lower-cased, so under a lower-casing that changes `A` the joined texts of the scan of `A` differ from the input |
| Lexer.ScanFromScanned | LongLexTo.go:100-153 | continuing a scanned prefix yields a scanned list that covers the input or stops at a `<` with no `>` after it |
| Lexer.ScanIsScanned | LongLexTo.go:85-157 | the scan's tokens and cuts are `Scanned`: ordered non-empty pieces, each fitting its kind, each with the type of its first character and its rendered or rewritten text; it covers the whole input or stops at an unterminated tag |
| Lexer.ScannedTokensUnique | LongLexTo.go:100-153 | the cuts determine the tokens |
| Lexer.ScannedIsScan | LongLexTo.go:85-157 | any scanned cutting of the whole input is the scan's result, so `Scanned` characterises a successful scan exactly |
| Lexer.LongLexto.Initialize | LongLexTo.go:180-182 | a session over the dictionary with no tokens, cursor 0 and empty text |
| Lexer.LongLexto.First | LongLexTo.go:44-46 | returns the first token |
| Lexer.LongLexto.Next | LongLexTo.go:50-57 | returns the token at the cursor and advances it, or the zero token with the cursor unchanged at the end |
| Lexer.LongLexto.Previous | LongLexTo.go:61-68 | returns the token at the cursor and steps back, or the zero token once the cursor is at -1 |
| Lexer.LongLexto.TakeSpace | LongLexTo.go:102-110 | appends `Token(chars[i..j], SPACE)` with `j` the end of the maximal whitespace run from `i`, which is one step of `Scan` |
| Lexer.LongLexto.TakeWestern | LongLexTo.go:112-120 | appends the Western run `chars[i..j]` lower-cased, tagged WESTERN, with `j` the end of the maximal run; one step of `Scan` |
| Lexer.LongLexto.TakeNumber | LongLexTo.go:122-130 | appends `Token(chars[i..j], NUMBER)` with `j` the end of the maximal digit run; one step of `Scan` |
| Lexer.LongLexto.TakeThai | LongLexTo.go:132-137 | `j` is the resolver's cut `Resolve`, the list becomes the old list with the resolver's rewrite of its last token (`Rewritten`) plus `Token(chars[i..j], THAI)`; one step of `Scan` |
| Lexer.LongLexto.TakeTag | LongLexTo.go:139-147 | appends `Token(chars[i..j + 1], TAG)` with `j` the first `>` after `i`, one step of `Scan`; fails, changing nothing, exactly when no `>` follows, where `Scan` stops |
| Lexer.LongLexto.TakeSymbol | LongLexTo.go:149-153 | appends `Token(chars[i..i + 1], SPECIAL)` and advances by one; one step of `Scan` |
| Lexer.LongLexto.Drain | LongLexTo.go:191-193 | calling `Next` until `HasNext` fails yields the tokens from the cursor to the end, and leaves the cursor at the end |
| Lexer.LongLexto.SetText | LongLexTo.go:85-157 | ignores the empty string; otherwise records the text and sets the tokens and cuts to `Scan`'s, resetting the cursor to 0 on success; an unterminated tag fails with its position and leaves the cursor alone |
| Lexer.Tokenize | LongLexTo.go:187-196 | for a non-empty text, the session holds the text and the scan's tokens and cuts; the call fails exactly when the scan meets an unterminated tag, at that tag, leaving the cursor where it was, and otherwise returns the scan's tokens with the cursor past the last one; for the empty text, the session keeps its text, tokens and cuts, returns the tokens from the cursor on and leaves the cursor past the last one (or where it was, if already past the end) |

## Left out

- Unicode tables: the classifiers `unicode.IsSpace` and `unicode.IsNumber` and the case mapping `strings.ToLower` come from Go's standard library. They are the function fields of `CharClasses`, given to the session, and none of their properties is assumed.
- Encoding: converting the Go string to `[]rune` (UTF-8 decoding) is not modelled. The input is the sequence of its code points, so `len(newStr) == 0` is modelled as the empty sequence.
- Lexer.LongLexto.SetText: an input with a `<` that no `>` follows is modelled as the failure `UnterminatedTag`. Go slices `chars[i:j+1]` one past the length there. That panics when the rune slice has no spare capacity. When it does have spare capacity, Go instead reads a zero rune into the tag and ends the loop with the cursor reset, and the model does not capture this.
- Lexer.CoverageWithoutRewrites: joining the token texts gives back the input only without Western tokens and without rewrites. In general it does not, and the two counterexamples are proved. A Western run is stored lower-cased (`LowerCasingBreaksCoverage`). A rewrite replaces the previous token's text with the Thai piece, and the piece is still appended, so the piece appears twice and the previous token's own text is lost (`RewriteBreaksCoverage`).
- Lexer.Tokenize: the failure above is returned as `Failure` where Go panics or returns a tag holding a zero rune.
- Panics on unchecked indexing are preconditions:
  - `First` needs a token.
  - `Next` needs a cursor of at least 0.
  - `Previous` needs a cursor below the token count.
  - `Tokenize` of the empty text needs a cursor of at least 0.
  - `ParseWordInstance` with an empty list needs that the previous character is not rear-dependent or that no word starts at the position, since the source then indexes the last element of the list (LongParseTree.go:91, :98). `SetText` meets it, since its list is empty only at position 0, where the previous character is the sentinel `'0'`.
- File I/O: in `CreateTrie`, opening the named file and then the default `lexitron.txt`, and reading it with `bufio.Scanner`, become one parameter: the lines of the file that opened, or `None`. Scanner line-length limits and `\r` handling are not modelled.
- `CreateTree`: the three tables it fills are the constants of `Resolver`, and `Initialize` takes the built dictionary instead of a file name. The fourth table, `endingChar`, is never read by the code and is left out.
- `Trie.character`: the field is written but never read, and is left out.
- Pointers: the trie is a class updated in place, with its node pointers replaced by indices into an arena of nodes. The value receivers of `AddWord` and `Contains` copy only the root, so the copy shows only in `AddWord("")`, which marks the copied root and therefore adds nothing.
- Trie on a failed open: the nil-map trie `Trie{}` returned when both files fail to open is the one-node `Trie.Empty`. `Contains` answers the same on both, and nothing is added to it.
- Fixed-width integers: Go's `int` positions are unbounded integers, since no position can approach the 64-bit limit.
- Cut positions: `LongLexto.Bounds`, where each token was cut, is ghost state. The source does not keep it.
- Accessors without contracts: `Token.GetText`, `Token.GetTextType`, the four token predicates, `LongLexto.GetText`, `HasNext` and `HasPrevious` are modelled as plain functions without contracts. Their behaviour is stated by the lemmas on `Tokens` and the contracts of `Next`, `Previous` and `Drain`.
