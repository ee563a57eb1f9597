/** The tokenizer session: the scan that splits an input into typed tokens, and
    the cursor over the tokens it produced. */
module Lexer {
  import opened Tokens
  import opened Dictionary
  import opened Resolver

  /** The character classification and case mapping the scan takes from the
      language's Unicode library; their tables are not part of this model, so a
      session is given them as functions. */
  datatype CharClasses = CharClasses(isSpace: char -> bool, isNumber: char -> bool, toLower: string -> string)

  /** A `'<'` reached by the scan with no `'>'` after it: the source slices one
      past the end of the input there and fails. */
  datatype LexError = UnterminatedTag(start: nat)

  /** What `SetText` (with `T` the unit type) and `Tokenize` hand back. */
  datatype Result<T> = Success(value: T) | Failure(error: LexError)

  // ---------------------------------------------------------------------------
  // Script ranges
  // ---------------------------------------------------------------------------

  /** Latin, Greek or Cyrillic letters: five exclusive code-point ranges. */
  predicate IsWestern(c: char) {
    ('\U{40}' < c < '\U{5B}') ||
    ('\U{60}' < c < '\U{7B}') ||
    ('\U{BF}' < c < '\U{D7}') ||
    ('\U{D7}' < c < '\U{2B0}') ||
    ('\U{36F}' < c < '\U{590}')
  }

  /** Thai script: two exclusive code-point ranges. */
  predicate IsThai(c: char) {
    ('\U{E00}' < c < '\U{E3B}') || ('\U{E3F}' < c < '\U{E5C}')
  }

  /** No character is both Western and Thai. */
  lemma ScriptsDisjoint(c: char)
    ensures !(IsWestern(c) && IsThai(c))
  {
  }

  /** Among ASCII characters exactly the letters are Western, and none is Thai;
      the multiplication sign U+00D7 is excluded from the Latin ranges. */
  lemma AsciiScripts(c: char)
    ensures c <= '~' ==> (IsWestern(c) <==> ('A' <= c <= 'Z' || 'a' <= c <= 'z'))
    ensures c <= '~' ==> !IsThai(c)
    ensures !IsWestern('\U{D7}') && !IsThai('\U{D7}')
  {
  }

  // ---------------------------------------------------------------------------
  // What a scan produces
  // ---------------------------------------------------------------------------

  /** The six branches of the scan. */
  datatype Kind = Space | Western | Number | Thai | Markup | Symbol {
    /** The type tag a token of this kind carries. */
    function TypeName(): string {
      match this
      case Space => SPACE
      case Western => WESTERN
      case Number => NUMBER
      case Thai => THAI
      case Markup => TAG
      case Symbol => PUNC
    }
  }

  /** The kind of the token that starts with `c`, in the order the scan tests. */
  function TypeAt(cc: CharClasses, c: char): Kind {
    if cc.isSpace(c) then Space
    else if IsWestern(c) then Western
    else if cc.isNumber(c) then Number
    else if IsThai(c) then Thai
    else if c == '<' then Markup
    else Symbol
  }

  /** `chars[a..e]` is a run of `inRun` characters that cannot be extended. */
  ghost predicate MaximalRun(chars: string, a: nat, e: nat, inRun: char -> bool) {
    && a < e <= |chars|
    && (forall m :: a <= m < e ==> inRun(chars[m]))
    && (e == |chars| || !inRun(chars[e]))
  }

  /** `chars[a..e]` is a tag: a `'<'` up to and including the first `'>'` after it. */
  ghost predicate TagSpan(chars: string, a: nat, e: nat) {
    && a + 1 < e <= |chars|
    && chars[a] == '<' && chars[e - 1] == '>'
    && (forall m :: a < m < e - 1 ==> chars[m] != '>')
  }

  /** The extent of the token the scan cuts at `a`, by its type. */
  ghost predicate SpanFits(cc: CharClasses, words: set<string>, chars: string, a: nat, e: nat) {
    && a < e <= |chars|
    && match TypeAt(cc, chars[a])
       case Space => MaximalRun(chars, a, e, cc.isSpace)
       case Western => MaximalRun(chars, a, e, IsWestern)
       case Number => MaximalRun(chars, a, e, cc.isNumber)
       case Thai => e == Resolve(words, chars, a)
       case Markup => TagSpan(chars, a, e)
       case Symbol => e == a + 1
  }

  /** The text a token is given when it is appended: Western runs are lower-cased. */
  function Render(cc: CharClasses, chars: string, a: nat, e: nat): string
    requires a < e <= |chars|
  {
    if TypeAt(cc, chars[a]) == Western then cc.toLower(chars[a..e]) else chars[a..e]
  }

  /** The Thai token at `a` rewrites the text of the token before it. */
  ghost predicate MergesBack(cc: CharClasses, words: set<string>, chars: string, a: nat)
    requires a < |chars|
  {
    TypeAt(cc, chars[a]) == Thai && Overwrites(words, chars, a, true)
  }

  /** The list as the Thai token cut at `chars[a..e]` leaves it: the last token's
      text replaced by that piece where the token merges back, else unchanged. */
  ghost function Rewritten(cc: CharClasses, words: set<string>, chars: string, a: nat, e: nat,
                           list: seq<Token>): (r: seq<Token>)
    requires a < e <= |chars|
    ensures |r| == |list|
  {
    if list != [] && MergesBack(cc, words, chars, a)
    then list[|list| - 1 := list[|list| - 1].(text := chars[a..e])]
    else list
  }

  /** The dependent-character tables hold Latin-1 code points and no Thai
      letter, so within a scan the front-dependent and tonal tables never fire:
      a Thai token merges back exactly when the character before it is one of
      the rear-dependent marks. */
  lemma OnlyRearDependentMerges(cc: CharClasses, words: set<string>, chars: string, a: nat)
    requires a < |chars|
    ensures MergesBack(cc, words, chars, a) <==>
              TypeAt(cc, chars[a]) == Thai && PrevChar(chars, a) in RearDepChars
  {
  }

  /** `bounds` cuts `chars[..bounds[|bounds| - 1]]` into non-empty consecutive pieces. */
  ghost predicate Ordered(chars: string, bounds: seq<nat>) {
    && |bounds| > 0 && bounds[0] == 0
    && (forall k :: 0 <= k < |bounds| - 1 ==> bounds[k] < bounds[k + 1])
    && (forall k :: 0 <= k < |bounds| ==> bounds[k] <= |chars|)
  }

  /** The text token `k` ends up with: its own rendered piece, unless the Thai
      token after it rewrote it with that token's piece. */
  ghost function ShownText(cc: CharClasses, words: set<string>, chars: string, bounds: seq<nat>, k: nat): string
    requires Ordered(chars, bounds) && k + 1 < |bounds|
  {
    if k + 2 < |bounds| && (assert bounds[k + 1] < bounds[k + 2] <= |chars|; MergesBack(cc, words, chars, bounds[k + 1]))
    then chars[bounds[k + 1]..bounds[k + 2]]
    else Render(cc, chars, bounds[k], bounds[k + 1])
  }

  /** Token `k` was cut from `chars[bounds[k]..bounds[k + 1]]` and carries the
      type of its first character and the text it ends up with. */
  ghost predicate TokenFits(cc: CharClasses, words: set<string>, chars: string, bounds: seq<nat>, tokens: seq<Token>, k: nat)
    requires Ordered(chars, bounds) && |bounds| == |tokens| + 1 && k < |tokens|
  {
    && SpanFits(cc, words, chars, bounds[k], bounds[k + 1])
    && tokens[k] == Token(ShownText(cc, words, chars, bounds, k), TypeAt(cc, chars[bounds[k]]).TypeName())
  }

  /** `tokens` is what the scan produces for `chars[..bounds[|tokens|]]`. */
  ghost predicate Scanned(cc: CharClasses, words: set<string>, chars: string, bounds: seq<nat>, tokens: seq<Token>) {
    && |bounds| == |tokens| + 1 && Ordered(chars, bounds)
    && (forall k :: 0 <= k < |tokens| ==> TokenFits(cc, words, chars, bounds, tokens, k))
  }

  /** Appending the token cut at the end of a scanned prefix, after the
      resolver's rewrite of the last token, keeps the prefix scanned. */
  lemma ScannedExtend(cc: CharClasses, words: set<string>, chars: string, bounds: seq<nat>,
                      tokens: seq<Token>, e: nat)
    requires Scanned(cc, words, chars, bounds, tokens)
    requires SpanFits(cc, words, chars, bounds[|tokens|], e)
    ensures Scanned(cc, words, chars, bounds + [e],
                    Rewritten(cc, words, chars, bounds[|tokens|], e, tokens) +
                    [Token(Render(cc, chars, bounds[|tokens|], e), TypeAt(cc, chars[bounds[|tokens|]]).TypeName())])
  {
    var n := |tokens|;
    var tokens' := Rewritten(cc, words, chars, bounds[n], e, tokens) +
                   [Token(Render(cc, chars, bounds[n], e), TypeAt(cc, chars[bounds[n]]).TypeName())];
    assert Ordered(chars, bounds + [e]);
    forall k | 0 <= k < n + 1 ensures TokenFits(cc, words, chars, bounds + [e], tokens', k) {
      ExtendedTokenFits(cc, words, chars, bounds, tokens, e, k);
    }
  }

  /** The step of `ScannedExtend` for one token `k` of the extended scan. */
  lemma ExtendedTokenFits(cc: CharClasses, words: set<string>, chars: string, bounds: seq<nat>,
                          tokens: seq<Token>, e: nat, k: nat)
    requires Scanned(cc, words, chars, bounds, tokens)
    requires SpanFits(cc, words, chars, bounds[|tokens|], e)
    requires k <= |tokens|
    ensures Ordered(chars, bounds + [e])
    ensures TokenFits(cc, words, chars, bounds + [e],
                      Rewritten(cc, words, chars, bounds[|tokens|], e, tokens) +
                      [Token(Render(cc, chars, bounds[|tokens|], e), TypeAt(cc, chars[bounds[|tokens|]]).TypeName())], k)
  {
    var n := |tokens|;
    var bounds' := bounds + [e];
    assert Ordered(chars, bounds');
    assert bounds'[k] == bounds[k] && bounds'[k + 1] == (if k < n then bounds[k + 1] else e);
    if k + 1 < n {
      assert TokenFits(cc, words, chars, bounds, tokens, k);
      assert bounds'[k + 2] == bounds[k + 2];
      assert ShownText(cc, words, chars, bounds', k) == ShownText(cc, words, chars, bounds, k);
    } else if k + 1 == n {
      assert TokenFits(cc, words, chars, bounds, tokens, k);
    }
  }

  /** Every token covers at least one character, so a scan never yields more
      tokens than the characters it consumed. */
  lemma {:induction false} TokenCountBound(cc: CharClasses, words: set<string>, chars: string,
                                           bounds: seq<nat>, tokens: seq<Token>)
    requires Scanned(cc, words, chars, bounds, tokens)
    ensures |tokens| <= bounds[|tokens|] <= |chars|
  {
    var k := 0;
    while k < |tokens|
      invariant k <= |tokens| && k <= bounds[k]
    {
      assert bounds[k] < bounds[k + 1];
      k := k + 1;
    }
  }

  /** The pieces of the input are all covered, in order. */
  function Concat(tokens: seq<Token>): string {
    if tokens == [] then [] else Concat(tokens[..|tokens| - 1]) + tokens[|tokens| - 1].text
  }

  /** Without Western tokens, whose text is lower-cased, and without Thai tokens
      that rewrite the token before them, joining the tokens' texts gives back the
      scanned part of the input. */
  lemma {:induction false} CoverageWithoutRewrites(cc: CharClasses, words: set<string>, chars: string,
                                                   bounds: seq<nat>, tokens: seq<Token>, m: nat)
    requires Scanned(cc, words, chars, bounds, tokens) && m <= |tokens|
    requires forall k :: 0 <= k < |tokens| ==> tokens[k].textType != WESTERN
    requires forall k :: 0 < k < |tokens| && bounds[k] < |chars| ==> !MergesBack(cc, words, chars, bounds[k])
    ensures Concat(tokens[..m]) == chars[..bounds[m]]
  {
    if m > 0 {
      CoverageWithoutRewrites(cc, words, chars, bounds, tokens, m - 1);
      assert tokens[..m][..m - 1] == tokens[..m - 1];
      assert TokenFits(cc, words, chars, bounds, tokens, m - 1);
      assert tokens[m - 1].text == chars[bounds[m - 1]..bounds[m]];
      assert chars[..bounds[m]] == chars[..bounds[m - 1]] + chars[bounds[m - 1]..bounds[m]];
    }
  }

  /** Coverage needs its second condition: U+00D7 is a symbol and also
      rear-dependent, so the Thai letter after it rewrites its token, and the
      joined texts repeat the letter. */
  lemma RewriteBreaksCoverage()
    ensures var cc := CharClasses(c => c == ' ', c => '0' <= c <= '9', s => s);
            var r := Scan(cc, {}, "\U{00D7}\U{0E01}");
            && r.tokens == [Token("\U{0E01}", PUNC), Token("\U{0E01}", THAI)]
            && Concat(r.tokens) != "\U{00D7}\U{0E01}"
  {
    var cc := CharClasses(c => c == ' ', c => '0' <= c <= '9', s => s);
    var chars := "\U{00D7}\U{0E01}";
    var words: set<string> := {};
    assert TypeAt(cc, chars[0]) == Symbol;
    var first := [Token(chars[0..1], PUNC)];
    assert Scan(cc, words, chars) == ScanFrom(cc, words, chars, 1, first, [0, 1]);
    assert !HasWordAt(words, chars, 1);
    assert MergesBack(cc, words, chars, 1);
    assert chars[1..2] == "\U{0E01}";
    var tokens := [Token("\U{0E01}", PUNC), Token("\U{0E01}", THAI)];
    assert Rewritten(cc, words, chars, 1, 2, first) + [Token(chars[1..2], THAI)] == tokens;
    assert ScanFrom(cc, words, chars, 1, first, [0, 1]) == ScanFrom(cc, words, chars, 2, tokens, [0, 1, 2]);
    assert Concat(tokens) == Concat(tokens[..1]) + "\U{0E01}";
    assert tokens[..1][..0] == [];
    assert Concat(tokens)[0] != chars[0];
  }

  /** Coverage needs its first condition: a Western run is stored lower-cased. */
  lemma LowerCasingBreaksCoverage()
    ensures var cc := CharClasses(c => c == ' ', c => '0' <= c <= '9', s => if s == "A" then "a" else s);
            var r := Scan(cc, {}, "A");
            && r.tokens == [Token("a", WESTERN)]
            && Concat(r.tokens) != "A"
  {
  }

  // ---------------------------------------------------------------------------
  // The scan as a function
  // ---------------------------------------------------------------------------

  /** The first index at or after `j` whose character is not in the run, or the
      end of the input. */
  function RunLimit(chars: string, j: nat, inRun: char -> bool): (e: nat)
    requires j <= |chars|
    ensures j <= e <= |chars|
    decreases |chars| - j
  {
    if j < |chars| && inRun(chars[j]) then RunLimit(chars, j + 1, inRun) else j
  }

  /** `RunLimit` ends a run that cannot be extended. */
  lemma {:induction false} RunLimitMaximal(chars: string, j: nat, inRun: char -> bool)
    requires j <= |chars|
    ensures forall m :: j <= m < RunLimit(chars, j, inRun) ==> inRun(chars[m])
    ensures RunLimit(chars, j, inRun) == |chars| || !inRun(chars[RunLimit(chars, j, inRun)])
    decreases |chars| - j
  {
    if j < |chars| && inRun(chars[j]) {
      RunLimitMaximal(chars, j + 1, inRun);
    }
  }

  /** The first index at or after `j` holding a `'>'`, or the end of the input. */
  function TagClose(chars: string, j: nat): (e: nat)
    requires j <= |chars|
    ensures j <= e <= |chars|
    decreases |chars| - j
  {
    if j < |chars| && chars[j] != '>' then TagClose(chars, j + 1) else j
  }

  /** `TagClose` stops at the first `'>'`. */
  lemma {:induction false} TagCloseFirst(chars: string, j: nat)
    requires j <= |chars|
    ensures forall m :: j <= m < TagClose(chars, j) ==> chars[m] != '>'
    ensures TagClose(chars, j) == |chars| || chars[TagClose(chars, j)] == '>'
    decreases |chars| - j
  {
    if j < |chars| && chars[j] != '>' {
      TagCloseFirst(chars, j + 1);
    }
  }

  /** Where the token starting at `i` ends, or `None` for a `'<'` that no `'>'`
      closes. */
  ghost function NextCut(cc: CharClasses, words: set<string>, chars: string, i: nat): (r: Option<nat>)
    requires i < |chars|
    ensures r.Some? ==> i < r.value <= |chars|
  {
    match TypeAt(cc, chars[i])
    case Space => Some(RunLimit(chars, i + 1, cc.isSpace))
    case Western => Some(RunLimit(chars, i + 1, IsWestern))
    case Number => Some(RunLimit(chars, i + 1, cc.isNumber))
    case Thai => Some(Resolve(words, chars, i))
    case Markup => var j := TagClose(chars, i + 1); if j == |chars| then None else Some(j + 1)
    case Symbol => Some(i + 1)
  }

  /** The cut is the one the token's kind calls for, and there is none exactly
      when `i` opens a tag that is never closed. */
  lemma CutFits(cc: CharClasses, words: set<string>, chars: string, i: nat)
    requires i < |chars|
    ensures NextCut(cc, words, chars, i).Some? ==> SpanFits(cc, words, chars, i, NextCut(cc, words, chars, i).value)
    ensures NextCut(cc, words, chars, i).None? <==>
              TypeAt(cc, chars[i]) == Markup && forall m :: i < m < |chars| ==> chars[m] != '>'
  {
    match TypeAt(cc, chars[i])
    case Space => RunLimitMaximal(chars, i + 1, cc.isSpace);
    case Western => RunLimitMaximal(chars, i + 1, IsWestern);
    case Number => RunLimitMaximal(chars, i + 1, cc.isNumber);
    case Thai =>
    case Markup => TagCloseFirst(chars, i + 1);
    case Symbol =>
  }

  /** The kind's span is unique: any end that fits is the cut. */
  lemma {:induction false} CutUnique(cc: CharClasses, words: set<string>, chars: string, i: nat, e: nat)
    requires i < |chars| && SpanFits(cc, words, chars, i, e)
    ensures NextCut(cc, words, chars, i) == Some(e)
  {
    match TypeAt(cc, chars[i])
    case Space => RunLimitUnique(chars, i + 1, e, cc.isSpace);
    case Western => RunLimitUnique(chars, i + 1, e, IsWestern);
    case Number => RunLimitUnique(chars, i + 1, e, cc.isNumber);
    case Thai =>
    case Markup => TagCloseFirst(chars, i + 1);
    case Symbol =>
  }

  /** A run that starts at `j` and cannot be extended ends at `RunLimit`. */
  lemma {:induction false} RunLimitUnique(chars: string, j: nat, e: nat, inRun: char -> bool)
    requires j <= e <= |chars|
    requires forall m :: j <= m < e ==> inRun(chars[m])
    requires e == |chars| || !inRun(chars[e])
    ensures RunLimit(chars, j, inRun) == e
    decreases e - j
  {
    if j < e {
      RunLimitUnique(chars, j + 1, e, inRun);
    }
  }

  /** The result of a scan: the tokens, where they were cut, and where it stopped
      on an unterminated tag, if it did. */
  datatype ScanResult = ScanResult(tokens: seq<Token>, bounds: seq<nat>, failedAt: Option<nat>)

  /** The scan from position `i`, with `list` the tokens so far and `bounds`
      their cuts: each step cuts one token, lets a Thai token rewrite the one
      before it, and appends the new one. */
  ghost function ScanFrom(cc: CharClasses, words: set<string>, chars: string, i: nat,
                          list: seq<Token>, bounds: seq<nat>): ScanResult
    requires i <= |chars|
    decreases |chars| - i
  {
    if i == |chars| then ScanResult(list, bounds, None)
    else match NextCut(cc, words, chars, i)
      case None => ScanResult(list, bounds, Some(i))
      case Some(e) =>
        ScanFrom(cc, words, chars, e, Rewritten(cc, words, chars, i, e, list) + [Token(Render(cc, chars, i, e), TypeAt(cc, chars[i]).TypeName())],
                 bounds + [e])
  }

  /** The whole scan of `chars`. */
  ghost function Scan(cc: CharClasses, words: set<string>, chars: string): ScanResult {
    ScanFrom(cc, words, chars, 0, [], [0])
  }

  /** A scan continued from a scanned prefix yields a scanned result that
      reaches the end of the input, or stops at a `'<'` with no `'>'` after it. */
  lemma {:induction false} ScanFromScanned(cc: CharClasses, words: set<string>, chars: string, i: nat,
                                           list: seq<Token>, bounds: seq<nat>)
    requires Scanned(cc, words, chars, bounds, list) && bounds[|list|] == i
    ensures i <= |chars|
    ensures var r := ScanFrom(cc, words, chars, i, list, bounds);
            && Scanned(cc, words, chars, r.bounds, r.tokens)
            && (r.failedAt.None? ==> r.bounds[|r.tokens|] == |chars|)
            && (r.failedAt.Some? ==>
                  var at := r.failedAt.value;
                  && r.bounds[|r.tokens|] == at && at < |chars| && chars[at] == '<'
                  && (forall m :: at < m < |chars| ==> chars[m] != '>'))
    decreases |chars| - bounds[|list|]
  {
    if i < |chars| {
      CutFits(cc, words, chars, i);
      match NextCut(cc, words, chars, i)
      case None =>
      case Some(e) =>
        ScannedExtend(cc, words, chars, bounds, list, e);
        ScanFromScanned(cc, words, chars, e, Rewritten(cc, words, chars, i, e, list) + [Token(Render(cc, chars, i, e), TypeAt(cc, chars[i]).TypeName())],
                        bounds + [e]);
    }
  }

  /** The whole scan is scanned; see `ScanFromScanned`. */
  lemma ScanIsScanned(cc: CharClasses, words: set<string>, chars: string)
    ensures var r := Scan(cc, words, chars);
            && Scanned(cc, words, chars, r.bounds, r.tokens)
            && (r.failedAt.None? ==> r.bounds[|r.tokens|] == |chars|)
            && (r.failedAt.Some? ==>
                  var at := r.failedAt.value;
                  && r.bounds[|r.tokens|] == at && at < |chars| && chars[at] == '<'
                  && (forall m :: at < m < |chars| ==> chars[m] != '>'))
  {
    ScanFromScanned(cc, words, chars, 0, [], [0]);
  }

  /** The cuts fix the tokens: two lists scanned with the same cuts are equal. */
  lemma ScannedTokensUnique(cc: CharClasses, words: set<string>, chars: string,
                            bounds: seq<nat>, tokens: seq<Token>, others: seq<Token>)
    requires Scanned(cc, words, chars, bounds, tokens) && Scanned(cc, words, chars, bounds, others)
    ensures tokens == others
  {
    forall k | 0 <= k < |tokens| ensures tokens[k] == others[k] {
      assert TokenFits(cc, words, chars, bounds, tokens, k);
      assert TokenFits(cc, words, chars, bounds, others, k);
    }
  }

  /** The scan from the `n`-th cut of a complete scanned cutting, given the list
      scanned up to that cut, finishes with that cutting. */
  lemma {:induction false} ScanFromCompletes(cc: CharClasses, words: set<string>, chars: string,
                                             bounds: seq<nat>, tokens: seq<Token>, n: nat, list: seq<Token>)
    requires Scanned(cc, words, chars, bounds, tokens) && bounds[|tokens|] == |chars|
    requires n <= |tokens| && Scanned(cc, words, chars, bounds[..n + 1], list)
    ensures ScanFrom(cc, words, chars, bounds[n], list, bounds[..n + 1]) == ScanResult(tokens, bounds, None)
    decreases |tokens| - n
  {
    if n == |tokens| {
      assert bounds[..n + 1] == bounds;
      ScannedTokensUnique(cc, words, chars, bounds, list, tokens);
    } else {
      var i, e := bounds[n], bounds[n + 1];
      assert TokenFits(cc, words, chars, bounds, tokens, n);
      CutUnique(cc, words, chars, i, e);
      ScannedExtend(cc, words, chars, bounds[..n + 1], list, e);
      assert bounds[..n + 1] + [e] == bounds[..n + 2];
      ScanFromCompletes(cc, words, chars, bounds, tokens, n + 1,
                        Rewritten(cc, words, chars, i, e, list) + [Token(Render(cc, chars, i, e), TypeAt(cc, chars[i]).TypeName())]);
    }
  }

  /** Conversely to `ScanIsScanned`, a scanned cutting of the whole input is the
      one the scan produces, so `Scanned` characterises a successful scan. */
  lemma ScannedIsScan(cc: CharClasses, words: set<string>, chars: string, bounds: seq<nat>, tokens: seq<Token>)
    requires Scanned(cc, words, chars, bounds, tokens) && bounds[|tokens|] == |chars|
    ensures Scan(cc, words, chars) == ScanResult(tokens, bounds, None)
  {
    assert bounds[..1] == [0];
    ScanFromCompletes(cc, words, chars, bounds, tokens, 0, []);
  }

  // ---------------------------------------------------------------------------
  // The inner scans
  // ---------------------------------------------------------------------------

  /** Extends a run from `i` while its characters satisfy `inRun`; the scan uses
      this one loop for whitespace, Western and digit runs. */
  method RunEnd(chars: string, i: nat, inRun: char -> bool) returns (j: nat)
    requires i < |chars|
    ensures j == RunLimit(chars, i + 1, inRun)
  {
    j := i + 1;
    while j < |chars| && inRun(chars[j])
      invariant i < j <= |chars|
      invariant RunLimit(chars, j, inRun) == RunLimit(chars, i + 1, inRun)
      decreases |chars| - j
    {
      j := j + 1;
    }
  }

  /** Reads from the `'<'` at `i` up to the first `'>'` after it, or to the end. */
  method TagEnd(chars: string, i: nat) returns (j: nat)
    requires i < |chars|
    ensures j == TagClose(chars, i + 1)
  {
    j := i + 1;
    while j < |chars| && chars[j] != '>'
      invariant i < j <= |chars|
      invariant TagClose(chars, j) == TagClose(chars, i + 1)
      decreases |chars| - j
    {
      j := j + 1;
    }
  }

  // ---------------------------------------------------------------------------
  // The session
  // ---------------------------------------------------------------------------

  /** A tokenizer: the dictionary, the tokens of the last input, a cursor over
      them and the input itself. The ghost `Bounds` records where the last scan
      cut each token. */
  class LongLexto {
    const dict: Trie
    const classes: CharClasses
    var tokens: seq<Token>
    var current: int
    var text: string
    ghost var Bounds: seq<nat>

    /** The cursor never moves below the position before the first token. */
    ghost predicate Valid()
      reads this, dict
    {
      dict.Valid() && -1 <= current
    }

    /** A session with no input yet. */
    constructor Initialize(dict: Trie, classes: CharClasses)
      requires dict.Valid()
      ensures Valid() && this.dict == dict && this.classes == classes
      ensures tokens == [] && current == 0 && text == [] && Bounds == [0]
    {
      this.dict := dict;
      this.classes := classes;
      tokens := [];
      current := 0;
      text := [];
      Bounds := [0];
    }

    /** The input last accepted by `SetText`. */
    function GetText(): string
      reads this
    {
      text
    }

    /** The first token; the source indexes it without a check. */
    method First() returns (t: Token)
      requires |tokens| > 0
      ensures t == tokens[0]
    {
      t := tokens[0];
    }

    /** There is a token at the cursor for `Next` to return. */
    predicate HasNext()
      reads this
    {
      current < |tokens|
    }

    /** The cursor has not yet moved before the first token. */
    predicate HasPrevious()
      reads this
    {
      current > -1
    }

    /** Returns the token at the cursor and advances, or the zero token at the end.
        The source indexes `tokens[current]` whenever `current < |tokens|`, so a
        cursor moved before the first token by `Previous` cannot be used here. */
    method Next() returns (t: Token)
      requires Valid() && 0 <= current
      modifies this`current
      ensures Valid()
      ensures old(current) < |tokens| ==> t == tokens[old(current)] && current == old(current) + 1
      ensures old(current) >= |tokens| ==> t == EmptyToken && current == old(current)
    {
      if HasNext() {
        var result := tokens[current];
        current := current + 1;
        return result;
      }
      return EmptyToken;
    }

    /** Returns the token at the cursor and steps back, or the zero token once
        before the first. The source indexes `tokens[current]` whenever
        `current > -1`, so it fails right after `Next` has passed the last token. */
    method Previous() returns (t: Token)
      requires Valid() && current < |tokens|
      modifies this`current
      ensures Valid()
      ensures old(current) > -1 ==> t == tokens[old(current)] && current == old(current) - 1
      ensures old(current) == -1 ==> t == EmptyToken && current == -1
    {
      if HasPrevious() {
        var result := tokens[current];
        current := current - 1;
        return result;
      }
      return EmptyToken;
    }

    /** Appends the run of whitespace at `i`. */
    method TakeSpace(chars: string, i: nat, ghost bounds: seq<nat>) returns (j: nat)
      requires Valid() && i < |chars| && TypeAt(classes, chars[i]) == Space
      modifies this`tokens
      ensures j == RunLimit(chars, i + 1, classes.isSpace)
      ensures tokens == old(tokens) + [Token(chars[i..j], SPACE)]
      ensures ScanFrom(classes, dict.Words, chars, i, old(tokens), bounds) == ScanFrom(classes, dict.Words, chars, j, tokens, bounds + [j])
    {
      j := RunEnd(chars, i, classes.isSpace);
      tokens := tokens + [Token(chars[i..j], SPACE)];
    }

    /** Appends the run of Latin letters at `i`, lower-cased. */
    method TakeWestern(chars: string, i: nat, ghost bounds: seq<nat>) returns (j: nat)
      requires Valid() && i < |chars| && TypeAt(classes, chars[i]) == Western
      modifies this`tokens
      ensures j == RunLimit(chars, i + 1, IsWestern)
      ensures tokens == old(tokens) + [Token(classes.toLower(chars[i..j]), WESTERN)]
      ensures ScanFrom(classes, dict.Words, chars, i, old(tokens), bounds) == ScanFrom(classes, dict.Words, chars, j, tokens, bounds + [j])
    {
      j := RunEnd(chars, i, IsWestern);
      tokens := tokens + [Token(classes.toLower(chars[i..j]), WESTERN)];
    }

    /** Appends the run of digits at `i`. */
    method TakeNumber(chars: string, i: nat, ghost bounds: seq<nat>) returns (j: nat)
      requires Valid() && i < |chars| && TypeAt(classes, chars[i]) == Number
      modifies this`tokens
      ensures j == RunLimit(chars, i + 1, classes.isNumber)
      ensures tokens == old(tokens) + [Token(chars[i..j], NUMBER)]
      ensures ScanFrom(classes, dict.Words, chars, i, old(tokens), bounds) == ScanFrom(classes, dict.Words, chars, j, tokens, bounds + [j])
    {
      j := RunEnd(chars, i, classes.isNumber);
      tokens := tokens + [Token(chars[i..j], NUMBER)];
    }

    /** Appends the Thai word at `i`. The resolver sees the list by value: only
        its rewrite of the last token comes back. */
    method TakeThai(chars: string, i: nat, ghost bounds: seq<nat>) returns (j: nat)
      requires Valid() && i < |chars| && TypeAt(classes, chars[i]) == Thai && (tokens == [] ==> i == 0)
      modifies this`tokens
      ensures j == Resolve(dict.Words, chars, i)
      ensures tokens == Rewritten(classes, dict.Words, chars, i, j, old(tokens)) + [Token(chars[i..j], THAI)]
      ensures ScanFrom(classes, dict.Words, chars, i, old(tokens), bounds) == ScanFrom(classes, dict.Words, chars, j, tokens, bounds + [j])
    {
      var shared;
      SentinelInNoTable();
      j, shared := ParseWordInstance(dict, i, chars, tokens);
      tokens := shared + [Token(chars[i..j], THAI)];
    }

    /** Appends the single character at `i` as a symbol. */
    method TakeSymbol(chars: string, i: nat, ghost bounds: seq<nat>) returns (j: nat)
      requires Valid() && i < |chars| && TypeAt(classes, chars[i]) == Symbol
      modifies this`tokens
      ensures j == i + 1 && tokens == old(tokens) + [Token(chars[i..j], PUNC)]
      ensures ScanFrom(classes, dict.Words, chars, i, old(tokens), bounds) == ScanFrom(classes, dict.Words, chars, j, tokens, bounds + [j])
    {
      j := i + 1;
      tokens := tokens + [Token(chars[i..j], PUNC)];
    }

    /** Appends the tag opened at `i`, or returns `None` and leaves the list alone
        when no `'>'` closes it. */
    method TakeTag(chars: string, i: nat, ghost bounds: seq<nat>) returns (next: Option<nat>)
      requires Valid() && i < |chars| && TypeAt(classes, chars[i]) == Markup
      modifies this`tokens
      ensures next.Some? ==>
                next.value == TagClose(chars, i + 1) + 1 && next.value <= |chars| &&
                tokens == old(tokens) + [Token(chars[i..next.value], TAG)]
      ensures next.None? <==> TagClose(chars, i + 1) == |chars|
      ensures next.Some? ==>
                ScanFrom(classes, dict.Words, chars, i, old(tokens), bounds) == ScanFrom(classes, dict.Words, chars, next.value, tokens, bounds + [next.value])
      ensures next.None? ==>
                tokens == old(tokens) && ScanFrom(classes, dict.Words, chars, i, tokens, bounds) == ScanResult(tokens, bounds, Some(i))
    {
      var j := TagEnd(chars, i);
      if j == |chars| {
        // The source slices `chars[i:j+1]` one past the end here.
        return None;
      }
      tokens := tokens + [Token(chars[i..j + 1], TAG)];
      return Some(j + 1);
    }

    /** Calls `Next` until `HasNext` fails: the tokens from the cursor to the end. */
    method Drain() returns (list: seq<Token>)
      requires Valid() && 0 <= current
      modifies this`current
      ensures Valid() && current == if old(current) < |tokens| then |tokens| else old(current)
      ensures list == if old(current) < |tokens| then tokens[old(current)..] else []
    {
      list := [];
      while HasNext()
        invariant Valid() && old(current) <= current
        invariant old(current) < |tokens| ==> current <= |tokens| && list == tokens[old(current)..current]
        invariant old(current) >= |tokens| ==> list == [] && current == old(current)
        decreases |tokens| - current
      {
        var t := Next();
        list := list + [t];
      }
    }

    /** Splits `newStr` into tokens. An empty input is ignored. Otherwise the
        tokens and their cuts are those of `Scan` (see `ScanIsScanned` for what
        they are) and the cursor is reset; an unterminated tag stops the scan
        with the tokens built so far and the cursor untouched. */
    method SetText(newStr: string) returns (outcome: Result<()>)
      requires Valid()
      modifies this
      ensures Valid()
      ensures newStr == [] ==>
                outcome == Success(()) && tokens == old(tokens) && text == old(text) &&
                current == old(current) && Bounds == old(Bounds)
      ensures newStr != [] ==>
                var r := Scan(classes, dict.Words, newStr);
                && text == newStr && tokens == r.tokens && Bounds == r.bounds
                && (outcome.Success? <==> r.failedAt.None?)
                && (outcome.Failure? ==> Some(outcome.error.start) == r.failedAt)
      ensures outcome.Success? && newStr != [] ==> current == 0
      ensures outcome.Failure? ==> current == old(current)
    {
      if |newStr| == 0 {
        return Success(());
      }

      tokens := [];
      text := newStr;

      var i: nat := 0;
      var chars := newStr;
      ghost var bounds: seq<nat> := [0];
      ghost var words := dict.Words;
      ghost var final := Scan(classes, words, chars);

      while i < |chars|
        invariant i <= |chars| && (tokens == [] ==> i == 0)
        invariant text == newStr && current == old(current) && dict.Words == words
        invariant ScanFrom(classes, words, chars, i, tokens, bounds) == final
        decreases |chars| - i
      {
        if classes.isSpace(chars[i]) {
          i := TakeSpace(chars, i, bounds);
        } else if IsWestern(chars[i]) {
          i := TakeWestern(chars, i, bounds);
        } else if classes.isNumber(chars[i]) {
          i := TakeNumber(chars, i, bounds);
        } else if IsThai(chars[i]) {
          i := TakeThai(chars, i, bounds);
        } else if chars[i] == '<' {
          var next := TakeTag(chars, i, bounds);
          if next.None? {
            Bounds := bounds;
            return Failure(UnterminatedTag(i));
          }
          i := next.value;
        } else {
          i := TakeSymbol(chars, i, bounds);
        }
        bounds := bounds + [i];
      }

      current := 0;
      Bounds := bounds;
      return Success(());
    }
  }

  /** Runs `SetText` and drains the cursor into a list. */
  method Tokenize(tokenizer: LongLexto, text: string) returns (result: Result<seq<Token>>)
    requires tokenizer.Valid()
    requires text == [] ==> tokenizer.current >= 0
    modifies tokenizer
    ensures tokenizer.Valid()
    ensures text != [] ==>
              var r := Scan(tokenizer.classes, tokenizer.dict.Words, text);
              && tokenizer.text == text && tokenizer.tokens == r.tokens && tokenizer.Bounds == r.bounds
              && (result.Failure? <==> r.failedAt.Some?)
              && (result.Failure? ==> Some(result.error.start) == r.failedAt)
              && (result.Success? ==> result.value == r.tokens && tokenizer.current == |r.tokens|)
    ensures result.Failure? ==> tokenizer.current == old(tokenizer.current)
    ensures text == [] ==>
              && tokenizer.tokens == old(tokenizer.tokens) && tokenizer.text == old(tokenizer.text)
              && tokenizer.Bounds == old(tokenizer.Bounds)
              && tokenizer.current == (if old(tokenizer.current) < |old(tokenizer.tokens)|
                                       then |old(tokenizer.tokens)| else old(tokenizer.current))
              && result == Success(if old(tokenizer.current) < |old(tokenizer.tokens)|
                                   then old(tokenizer.tokens)[old(tokenizer.current)..] else [])
  {
    var outcome := tokenizer.SetText(text);
    if outcome.Failure? {
      return Failure(outcome.error);
    }
    var list := tokenizer.Drain();
    return Success(list);
  }
}
