/** Thai word boundaries: longest dictionary match with a one-step lookahead,
    plus the dependent-character corrections that rewrite the previous token. */
module Resolver {
  import opened Tokens
  import opened Dictionary

  // ---------------------------------------------------------------------------
  // The character tables filled in by CreateTree. They hold Latin-1 code points
  // exactly as written there, not the Thai characters they presumably stood for.
  // ---------------------------------------------------------------------------

  /** Marks that cannot start a token: U+00D0-U+00D9, U+00E5, U+00E7, U+00EC, U+00ED. */
  const FrontDepChars: set<char> :=
    {'Ð', 'Ñ', 'Ò', 'Ó', 'Ô', 'Õ', 'Ö', '×',
     'Ø', 'Ù', 'å', 'ç', 'ì', 'í'}

  /** Marks after which the next piece is merged back: U+00D1, U+00D7, U+00E0-U+00E4, U+00ED. */
  const RearDepChars: set<char> :=
    {'Ñ', '×', 'à', 'á', 'â', 'ã', 'ä', 'í'}

  /** Tone marks: U+00E8-U+00EB. */
  const TonalChars: set<char> := {'è', 'é', 'ê', 'ë'}

  /** The character before `beginPos`, or the sentinel '0' at the start of the text. */
  function PrevChar(text: string, beginPos: nat): char
    requires beginPos <= |text|
  {
    if beginPos >= 1 then text[beginPos - 1] else '0'
  }

  /** The sentinel is in none of the tables, so the start of the text never merges
      because of a previous character. */
  lemma SentinelInNoTable()
    ensures '0' !in FrontDepChars && '0' !in RearDepChars && '0' !in TonalChars
  {
  }

  /** The tables are not disjoint: three code points are both front- and
      rear-dependent. No table is ASCII, and the tone marks are in neither other table. */
  lemma TablesOverlap()
    ensures FrontDepChars * RearDepChars == {'Ñ', '×', 'í'}
    ensures TonalChars !! FrontDepChars && TonalChars !! RearDepChars
    ensures forall c :: c in FrontDepChars + RearDepChars + TonalChars ==> c > '~'
  {
  }

  // ---------------------------------------------------------------------------
  // Specification of the search
  // ---------------------------------------------------------------------------

  /** `text[b..e]` is a dictionary word. */
  ghost predicate IsWordEnd(words: set<string>, text: string, b: nat, e: nat) {
    b < e <= |text| && text[b..e] in words
  }

  /** Some dictionary word starts at `b`. */
  ghost predicate HasWordAt(words: set<string>, text: string, b: nat) {
    exists e :: IsWordEnd(words, text, b, e)
  }

  /** The lookahead: a boundary at `b` is acceptable at the end of the text, before
      an ASCII character, or where some word starts. It looks one word ahead only. */
  ghost predicate NextWordValidSpec(words: set<string>, b: nat, text: string)
    requires b <= |text|
  {
    b == |text| || text[b] <= '~' || HasWordAt(words, text, b)
  }

  /** `e` ends a word starting at `b` and, when `checked`, passes the lookahead. */
  ghost predicate Qualifies(words: set<string>, text: string, b: nat, e: nat, checked: bool) {
    IsWordEnd(words, text, b, e) && (checked ==> NextWordValidSpec(words, e, text))
  }

  /** The greatest qualifying end in `(b, e]`, or -1 when there is none. */
  ghost function LastEnd(words: set<string>, text: string, b: nat, e: nat, checked: bool): (r: int)
    requires b <= e <= |text|
    ensures r == -1 || (b < r <= e && Qualifies(words, text, b, r, checked))
    ensures forall p :: b < p <= e && Qualifies(words, text, b, p, checked) ==> p <= r
    decreases e - b
  {
    if e == b then -1
    else if Qualifies(words, text, b, e, checked) then e
    else LastEnd(words, text, b, e - 1, checked)
  }

  /** Ends that do not qualify do not move the greatest qualifying end. */
  lemma {:induction false} LastEndSkips(words: set<string>, text: string, b: nat, e: nat, e': nat, checked: bool)
    requires b <= e <= e' <= |text|
    requires forall p :: e < p <= e' ==> !Qualifies(words, text, b, p, checked)
    ensures LastEnd(words, text, b, e', checked) == LastEnd(words, text, b, e, checked)
    decreases e' - e
  {
    if e < e' {
      LastEndSkips(words, text, b, e, e' - 1, checked);
    }
  }

  /** The greatest validated end never exceeds the greatest word end. */
  lemma {:induction false} CheckedNotBeyond(words: set<string>, text: string, b: nat, e: nat)
    requires b <= e <= |text|
    ensures LastEnd(words, text, b, e, true) <= LastEnd(words, text, b, e, false)
    decreases e - b
  {
    if b < e {
      CheckedNotBeyond(words, text, b, e - 1);
    }
  }

  /** The boundary the resolver picks for the token starting at `b`: the greatest
      validated word end if there is one, else the greatest word end, else `b + 1`. */
  ghost function Resolve(words: set<string>, text: string, b: nat): (r: nat)
    requires b < |text|
    ensures b < r <= |text|
    ensures !HasWordAt(words, text, b) ==> r == b + 1
    ensures (exists p: nat :: Qualifies(words, text, b, p, true)) ==>
              Qualifies(words, text, b, r, true) && forall p: nat :: Qualifies(words, text, b, p, true) ==> p <= r
    ensures HasWordAt(words, text, b) && (forall p: nat :: !Qualifies(words, text, b, p, true)) ==>
              IsWordEnd(words, text, b, r) && forall p: nat :: IsWordEnd(words, text, b, p) ==> p <= r
  {
    var longest := LastEnd(words, text, b, |text|, false);
    var longestValid := LastEnd(words, text, b, |text|, true);
    assert forall p: nat :: Qualifies(words, text, b, p, false) <==> IsWordEnd(words, text, b, p);
    if longest == -1 then b + 1 else if longestValid == -1 then longest else longestValid
  }

  /** Whether the resolver rewrites the text of the caller's last token: after a
      rear-dependent character, or, when no word starts at `b`, before a
      front-dependent or tonal one; never when the caller's list is empty. */
  ghost predicate Overwrites(words: set<string>, text: string, b: nat, listNonEmpty: bool)
    requires b < |text|
  {
    listNonEmpty &&
    (PrevChar(text, b) in RearDepChars ||
     (!HasWordAt(words, text, b) && (text[b] in FrontDepChars || text[b] in TonalChars)))
  }

  /** What the forward scan's two results say about the boundary and about the
      existence of a word. */
  lemma ScanOutcome(words: set<string>, text: string, b: nat, longest: int, longestValid: int)
    requires b < |text|
    requires longest == LastEnd(words, text, b, |text|, false)
    requires longestValid == LastEnd(words, text, b, |text|, true)
    ensures longest == -1 <==> !HasWordAt(words, text, b)
    ensures Resolve(words, text, b) ==
              if longest == -1 then b + 1 else if longestValid == -1 then longest else longestValid
  {
    if longest == -1 && HasWordAt(words, text, b) {
      var e :| IsWordEnd(words, text, b, e);
      assert Qualifies(words, text, b, e, false);
    }
  }

  /** A query that finds nothing rules out every longer candidate too. */
  lemma NoWordBeyond(words: set<string>, text: string, b: nat, e: nat)
    requires b < e <= |text| && Verdict(words, text[b..e]) == -1
    ensures forall p :: e <= p <= |text| ==> !IsWordEnd(words, text, b, p)
  {
    forall p | e <= p <= |text| ensures text[b..p] !in words {
      assert text[b..p] == text[b..e] + text[e..p];
      VerdictMonotone(words, text[b..e], text[e..p]);
      if text[b..p] in words {
        WordOnPath(words, text[b..p]);
      }
    }
  }

  // ---------------------------------------------------------------------------
  // The two scans
  // ---------------------------------------------------------------------------

  /** True at the end of the text or before an ASCII character; otherwise queries
      growing candidates from `beginPos` until one is a word (true) or the trie
      has no path for it (false). */
  method NextWordValid(dict: Trie, beginPos: nat, text: string) returns (valid: bool)
    requires dict.Valid() && beginPos <= |text|
    ensures valid == NextWordValidSpec(dict.Words, beginPos, text)
  {
    var pos := beginPos + 1;
    var status: int;
    if beginPos == |text| {
      return true;
    } else if text[beginPos] <= '~' {
      return true;
    } else {
      while pos <= |text|
        invariant beginPos < pos <= |text| + 1
        invariant forall e :: beginPos < e < pos ==> !IsWordEnd(dict.Words, text, beginPos, e)
      {
        status := dict.Contains(text[beginPos..pos]);
        if status == 1 {
          assert IsWordEnd(dict.Words, text, beginPos, pos);
          return true;
        } else if status == 0 {
          pos := pos + 1;
        } else {
          NoWordBeyond(dict.Words, text, beginPos, pos);
          break;
        }
      }
    }
    return false;
  }

  /** Finds the end of the Thai token starting at `beginPos` (`r`), and gives back
      the caller's list as the caller sees it afterwards (`shared`): the list is
      passed by value, so the token the source appends is lost and only the
      rewrite of the last element's text is visible. The source indexes the last
      element without a length check when a word is found after a rear-dependent
      character, hence the precondition on an empty list. */
  method ParseWordInstance(dict: Trie, beginPos: nat, text: string, list: seq<Token>)
    returns (r: nat, shared: seq<Token>)
    requires dict.Valid()
    requires beginPos < |text|
    requires list == [] ==> PrevChar(text, beginPos) !in RearDepChars || !HasWordAt(dict.Words, text, beginPos)
    ensures r == Resolve(dict.Words, text, beginPos)
    ensures |shared| == |list|
    ensures shared ==
              if Overwrites(dict.Words, text, beginPos, list != [])
              then list[|list| - 1 := list[|list| - 1].(text := text[beginPos..r])]
              else list
  {
    ghost var words := dict.Words;
    var longestPos, longestValidPos := -1, -1;
    var pos, status := beginPos + 1, 1;
    var prevChar := '0';

    while pos <= |text| && status != -1
      invariant beginPos < pos <= |text| + 1
      invariant longestPos == LastEnd(words, text, beginPos, pos - 1, false)
      invariant longestValidPos == LastEnd(words, text, beginPos, pos - 1, true)
      invariant status == -1 ==> beginPos < pos - 1 && Verdict(words, text[beginPos..pos - 1]) == -1
      decreases |text| + 1 - pos
    {
      status := dict.Contains(text[beginPos..pos]);
      if status == 1 {
        longestPos := pos;
        var valid := NextWordValid(dict, pos, text);
        if valid {
          longestValidPos := pos;
        }
      }
      pos := pos + 1;
    }
    if status == -1 {
      // The early exit misses nothing: no later end can be a word.
      NoWordBeyond(words, text, beginPos, pos - 1);
      LastEndSkips(words, text, beginPos, pos - 1, |text|, false);
      LastEndSkips(words, text, beginPos, pos - 1, |text|, true);
    }
    ScanOutcome(words, text, beginPos, longestPos, longestValidPos);

    if beginPos >= 1 {
      prevChar := text[beginPos - 1];
    }

    if longestPos == -1 {
      r := beginPos + 1;
      var found := text[beginPos] in FrontDepChars;
      var found2 := text[beginPos] in TonalChars;
      var found3 := prevChar in RearDepChars;
      assert Overwrites(words, text, beginPos, list != []) <==> |list| > 0 && (found || found2 || found3);
      if |list| > 0 && (found || found2 || found3) {
        shared := list[|list| - 1 := list[|list| - 1].(text := text[beginPos..r])];
      } else {
        shared := list;
      }
    } else {
      assert Overwrites(words, text, beginPos, list != []) <==> prevChar in RearDepChars;
      if longestValidPos == -1 {
        r := longestPos;
        if prevChar in RearDepChars {
          shared := list[|list| - 1 := list[|list| - 1].(text := text[beginPos..r])];
        } else {
          shared := list;
        }
      } else {
        r := longestValidPos;
        if prevChar in RearDepChars {
          shared := list[|list| - 1 := list[|list| - 1].(text := text[beginPos..r])];
        } else {
          shared := list;
        }
      }
    }
  }

  // ---------------------------------------------------------------------------
  // Consequences
  // ---------------------------------------------------------------------------

  /** With an empty dictionary every Thai token is a single character. */
  lemma EmptyDictionarySingleChars(text: string, b: nat)
    requires b < |text|
    ensures Resolve({}, text, b) == b + 1
  {
  }

  /** Longest match: with the words "ab" and "abc", "abcd" splits after "abc",
      since an ASCII character follows it, and not after the non-word "abcd". */
  lemma LongestMatchPreferred()
    ensures Resolve({"ab", "abc"}, "abcd", 0) == 3
  {
    var words: set<string> := {"ab", "abc"};
    var text: string := "abcd";
    assert text[0..3] == "abc";
    assert Qualifies(words, text, 0, 3, true);
    assert text[0..4] == "abcd" && !IsWordEnd(words, text, 0, 4);
  }

  /** Lookahead: writing the Thai letters U+0E01 to U+0E04 as 1 to 4, with the
      words 12, 123 and 34 the text 1234 splits after two characters, because the
      longer match 123 leaves a position where no word starts and 12 does not. */
  lemma LookaheadRejectsOvershoot()
    ensures Resolve({"กข", "กขฃ", "ฃค"}, "กขฃค", 0) == 2
  {
    var words: set<string> := {"กข", "กขฃ", "ฃค"};
    var text: string := "กขฃค";
    assert text[0..2] == "กข" && text[2..4] == "ฃค";
    assert IsWordEnd(words, text, 2, 4);
    assert Qualifies(words, text, 0, 2, true);
    assert text[0..3] == "กขฃ" && text[3] > '~';
    assert !HasWordAt(words, text, 3) by {
      assert text[3..4] == "ค";
    }
    assert !Qualifies(words, text, 0, 3, true);
    assert text[0..4] !in words && text[0..1] !in words;
  }
}
