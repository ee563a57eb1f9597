/** The dictionary: a character trie answering three-valued membership queries. */
module Dictionary {

  datatype Option<T> = None | Some(value: T)

  // ---------------------------------------------------------------------------
  // Abstract meaning of a trie: the set of words it holds
  // ---------------------------------------------------------------------------

  /** `s` is spelled out by nodes of a trie holding `words`: it is the empty
      string (the root) or a prefix of some word. */
  ghost predicate OnPath(words: set<string>, s: string) {
    s == [] || exists w :: w in words && s <= w
  }

  /** The answer `Contains` must give: -1 when no path spells `s`, 1 when `s` is a
      word, 0 when `s` is the root or a proper prefix of a word only. */
  ghost function Verdict(words: set<string>, s: string): int {
    if !OnPath(words, s) then -1 else if s in words then 1 else 0
  }

  /** The word set after `AddWord(w)`. The empty word leaves it unchanged, since the
      terminal flag is then set on the receiver's copy of the root only. */
  function Added(words: set<string>, w: string): set<string> {
    if w == [] then words else words + {w}
  }

  /** The non-empty lines of a dictionary file. */
  function NonEmptyLines(lines: seq<string>): set<string> {
    set i | 0 <= i < |lines| && lines[i] != [] :: lines[i]
  }

  lemma PrefixOfPath(words: set<string>, p: string, s: string)
    requires p <= s && OnPath(words, s)
    ensures OnPath(words, p)
  {
    if s != [] {
      var w :| w in words && s <= w;
      assert p <= w;
    }
  }

  lemma WordOnPath(words: set<string>, w: string)
    requires w in words
    ensures OnPath(words, w)
  {
    assert w <= w;
  }

  /** Adding a word puts exactly that word and its prefixes on a path. */
  lemma OnPathAdded(words: set<string>, w: string, s: string)
    ensures OnPath(words + {w}, s) <==> OnPath(words, s) || s <= w
  {
    if OnPath(words + {w}, s) && s != [] && !(s <= w) {
      var u :| u in words + {w} && s <= u;
      assert u in words;
    }
  }

  // ---------------------------------------------------------------------------
  // Properties of the three-valued query
  // ---------------------------------------------------------------------------

  /** Once a string is off every path, so is each of its extensions. */
  lemma VerdictMonotone(words: set<string>, p: string, q: string)
    requires Verdict(words, p) == -1
    ensures Verdict(words, p + q) == -1
  {
    if OnPath(words, p + q) {
      PrefixOfPath(words, p, p + q);
    }
  }

  /** A word added to the dictionary is found as a word. */
  lemma AddedWordIsWord(words: set<string>, w: string)
    requires w != []
    ensures Verdict(Added(words, w), w) == 1
  {
    WordOnPath(Added(words, w), w);
  }

  /** Every prefix of an added word is at least a path. */
  lemma PrefixesOfAddedWord(words: set<string>, w: string, k: nat)
    requires k <= |w|
    ensures Verdict(Added(words, w), w[..k]) >= 0
  {
    if w != [] {
      PrefixOfPath(Added(words, w), w[..k], w) by { WordOnPath(Added(words, w), w); }
    }
  }

  /** Adding a word changes no verdict on strings that are not its prefixes. */
  lemma AddedLeavesOthers(words: set<string>, w: string, s: string)
    requires !(s <= w)
    ensures Verdict(Added(words, w), s) == Verdict(words, s)
  {
    if w != [] {
      OnPathAdded(words, w, s);
    }
  }

  /** Adding the same word twice is the same as adding it once. */
  lemma AddIdempotent(words: set<string>, w: string, s: string)
    ensures Verdict(Added(Added(words, w), w), s) == Verdict(Added(words, w), s)
  {
  }

  /** The empty query is never a word: the root is never terminal. */
  lemma EmptyQueryIsPath(words: set<string>)
    requires [] !in words
    ensures Verdict(words, []) == 0
  {
  }

  /** The empty dictionary rejects every non-empty query outright. */
  lemma EmptyDictionaryRejects(s: string)
    requires s != []
    ensures Verdict({}, s) == -1
  {
  }

  // ---------------------------------------------------------------------------
  // The trie itself, as an arena of nodes
  // ---------------------------------------------------------------------------

  /** `children` and `paths` describe a tree below node 0: every edge extends
      its parent's path by its character, and no two nodes share a path. */
  ghost predicate IsTree(children: seq<map<char, nat>>, paths: seq<string>) {
    && |children| == |paths| > 0
    && paths[0] == []
    && (forall n, c :: 0 <= n < |children| && c in children[n] ==>
          children[n][c] < |children| && paths[children[n][c]] == paths[n] + [c])
    && (forall m, n :: 0 <= m < |paths| && 0 <= n < |paths| && paths[m] == paths[n] ==> m == n)
  }

  /** Below every node whose path is a proper prefix of a word, the edge for the
      word's next character exists. */
  ghost predicate Spells(children: seq<map<char, nat>>, paths: seq<string>, words: set<string>)
    requires |children| == |paths|
  {
    forall n, w :: 0 <= n < |paths| && w in words && paths[n] < w ==> w[|paths[n]|] in children[n]
  }

  /** The child maps after appending a fresh node as the `c`-child of `parent`. */
  function WithChild(children: seq<map<char, nat>>, parent: nat, c: char): seq<map<char, nat>>
    requires parent < |children|
  {
    var node: nat := |children|;
    var edges: map<char, nat> := children[parent][c := node];
    children[parent := edges] + [map[]]
  }

  /** Appending a node for `p + [c]` below the node of `p`, when no word of
      `words` continues `p` with `c`, keeps the tree a tree that spells `words`. */
  lemma GrowTree(children: seq<map<char, nat>>, paths: seq<string>, words: set<string>,
                 parent: nat, p: string, c: char)
    requires IsTree(children, paths) && Spells(children, paths, words)
    requires parent < |paths| && paths[parent] == p && c !in children[parent]
    requires forall n :: 0 <= n < |paths| ==> paths[n] != p + [c]
    ensures var children' := WithChild(children, parent, c);
            var paths' := paths + [p + [c]];
            && IsTree(children', paths') && Spells(children', paths', words)
            && (forall n, d :: 0 <= n < |children| && d in children[n] ==> d in children'[n])
  {
  }

  /** The state of `AddWord` after walking the first `k` characters of `word`:
      still a tree spelling `words`, with `iter` the node of `word[..k]`, every
      node either a prefix of `words` or of `word[..k]`, and the edges for
      `word[..k]` all present. */
  ghost predicate Walking(children: seq<map<char, nat>>, paths: seq<string>, terminal: seq<bool>,
                          words: set<string>, word: string, k: nat, iter: nat)
  {
    && k <= |word|
    && IsTree(children, paths) && |terminal| == |children|
    && Spells(children, paths, words)
    && (forall n :: 0 <= n < |paths| ==> (terminal[n] <==> paths[n] in words))
    && (forall n :: 0 <= n < |paths| ==> OnPath(words, paths[n]) || paths[n] <= word[..k])
    && iter < |paths| && paths[iter] == word[..k]
    && (forall n :: 0 <= n < |paths| && |paths[n]| < k && paths[n] <= word ==> word[|paths[n]|] in children[n])
  }

  /** One step of the walk along an edge that already exists. */
  lemma WalkExisting(children: seq<map<char, nat>>, paths: seq<string>, terminal: seq<bool>,
                     words: set<string>, word: string, k: nat, iter: nat)
    requires Walking(children, paths, terminal, words, word, k, iter) && k < |word|
    requires word[k] in children[iter]
    ensures Walking(children, paths, terminal, words, word, k + 1, children[iter][word[k]])
  {
    assert word[..k + 1] == word[..k] + [word[k]];
    forall n | 0 <= n < |paths| && |paths[n]| < k + 1 && paths[n] <= word
      ensures word[|paths[n]|] in children[n]
    {
      if |paths[n]| == k {
        assert paths[n] == word[..k];
      }
    }
    forall n | 0 <= n < |paths| && !OnPath(words, paths[n]) ensures paths[n] <= word[..k + 1] {
      assert paths[n] <= word[..k];
    }
  }

  /** One step of the walk that creates the missing node for `word[..k + 1]`. */
  lemma WalkNew(children: seq<map<char, nat>>, paths: seq<string>, terminal: seq<bool>,
                words: set<string>, word: string, k: nat, iter: nat)
    requires Walking(children, paths, terminal, words, word, k, iter) && k < |word|
    requires word[k] !in children[iter]
    ensures Walking(WithChild(children, iter, word[k]), paths + [word[..k + 1]], terminal + [false],
                    words, word, k + 1, |children|)
  {
    var c := word[k];
    assert word[..k + 1] == word[..k] + [c];
    // No word continues `word[..k]` with `c`, so no node has the new path yet.
    assert !OnPath(words, word[..k + 1]);
    assert forall n :: 0 <= n < |paths| ==> paths[n] != word[..k + 1];
    GrowTree(children, paths, words, iter, word[..k], c);
    var children' := WithChild(children, iter, c);
    var paths' := paths + [word[..k + 1]];
    forall n | 0 <= n < |paths'| && |paths'[n]| < k + 1 && paths'[n] <= word
      ensures word[|paths'[n]|] in children'[n]
    {
      if |paths'[n]| == k {
        assert paths'[n] == word[..k];
      }
    }
    forall n | 0 <= n < |paths| && !OnPath(words, paths[n]) ensures paths[n] <= word[..k + 1] {
      assert paths[n] <= word[..k];
    }
  }

  /** Node `n` has the child map `children[n]` and the word flag `terminal[n]`;
      node 0 is the root. The ghost `Label[n]` is the path that leads to node `n`. */
  class Trie {
    var children: seq<map<char, nat>>
    var terminal: seq<bool>
    ghost var Words: set<string>
    ghost var Label: seq<string>

    /** The tree spells out exactly the prefixes of `Words`, and a node is
        terminal exactly when its path is one of `Words`. */
    ghost predicate Valid()
      reads this
    {
      && IsTree(children, Label) && |terminal| == |children|
      && [] !in Words
      && Spells(children, Label, Words)
      && (forall n :: 0 <= n < |Label| ==> OnPath(Words, Label[n]))
      && (forall n :: 0 <= n < |Label| ==> (terminal[n] <==> Label[n] in Words))
    }

    /** A trie with a root only: the dictionary before any word is read, and the
        trie handed back when no dictionary file opens. */
    constructor Empty()
      ensures Valid() && Words == {}
    {
      children := [map[]];
      terminal := [false];
      Words := {};
      Label := [[]];
    }

    /** Walks `word` from the root, creating each missing node, and marks the last
        node as a word. */
    method AddWord(word: string)
      requires Valid()
      modifies this
      ensures Valid()
      ensures Words == Added(old(Words), word)
    {
      var iter: nat := 0;
      var k := 0;
      while k < |word|
        invariant Words == old(Words)
        invariant Walking(children, Label, terminal, Words, word, k, iter)
      {
        var c := word[k];
        if c !in children[iter] {
          WalkNew(children, Label, terminal, Words, word, k, iter);
          children := WithChild(children, iter, c);
          terminal := terminal + [false];
          Label := Label + [word[..k + 1]];
        } else {
          WalkExisting(children, Label, terminal, Words, word, k, iter);
        }
        iter := children[iter][c];
        k := k + 1;
      }
      assert word[..k] == word;
      if word != [] {
        // With the empty word the source marks the receiver's own copy of the
        // root, which is discarded on return; so only a non-empty word counts.
        terminal := terminal[iter := true];
        Words := Words + {word};
        forall n | 0 <= n < |Label| ensures OnPath(Words, Label[n]) {
          OnPathAdded(old(Words), word, Label[n]);
        }
      }
    }

    /** Walks `word` from the root without creating anything; -1 as soon as a
        character has no matching child, else 1 or 0 by the last node's flag. */
    method Contains(word: string) returns (r: int)
      requires Valid()
      ensures r == Verdict(Words, word)
    {
      var iter: nat := 0;
      var k := 0;
      while k < |word|
        invariant k <= |word|
        invariant iter < |Label| && Label[iter] == word[..k]
      {
        var c := word[k];
        assert word[..k + 1] == word[..k] + [c];
        if c in children[iter] {
          iter := children[iter][c];
        } else {
          return -1;
        }
        k := k + 1;
      }
      assert word[..k] == word;
      if terminal[iter] {
        return 1;
      } else {
        return 0;
      }
    }
  }

  /** Builds the dictionary from the lines of the first dictionary file that
      opened, or the empty trie when none did (`None`). */
  method CreateTrie(dictionaryLines: Option<seq<string>>) returns (dict: Trie)
    ensures fresh(dict) && dict.Valid()
    ensures dict.Words == if dictionaryLines.None? then {} else NonEmptyLines(dictionaryLines.value)
  {
    dict := new Trie.Empty();
    if dictionaryLines.Some? {
      var lines := dictionaryLines.value;
      for i := 0 to |lines|
        invariant dict.Valid() && dict.Words == NonEmptyLines(lines[..i])
      {
        dict.AddWord(lines[i]);
        assert lines[..i + 1] == lines[..i] + [lines[i]];
      }
      assert lines[..|lines|] == lines;
    }
  }
}
