/** The mathematics behind the block-list matcher of service/moderation.go, stated over words and
    texts only: what naive substring search returns, and why following failure paths computes it.
    A word, a text and a trie path are all sequences of code points. */
module SubstringSearch {

  /** `w` ends at position `e` of `text`. */
  predicate EndsAt(w: string, text: string, e: nat) {
    |w| <= e <= |text| && text[e - |w|..e] == w
  }

  /** The path `p` is spelled by some node of the trie of `words`: it is the root or a prefix of a word. */
  predicate TriePath(words: set<string>, p: string) {
    p == "" || exists w | w in words :: p <= w
  }

  /** The longest suffix of `text` that is a trie path. */
  function LongestPath(words: set<string>, text: string): (p: string)
    ensures TriePath(words, p) && |p| <= |text|
  {
    if TriePath(words, text) then text else LongestPath(words, text[1..])
  }

  /** The longest listed word that is a suffix of `text`, or "" when there is none. */
  function LongestWord(words: set<string>, text: string): (w: string)
    ensures w != "" ==> w in words
    ensures EndsAt(w, text, |text|)
  {
    if text == "" || text in words then text else LongestWord(words, text[1..])
  }

  /** The path a failure link must lead to: the longest proper suffix that is a trie path. */
  function FailPath(words: set<string>, p: string): (f: string)
    requires p != ""
    ensures TriePath(words, f) && |f| < |p|
  {
    LongestPath(words, p[1..])
  }

  /** Naive search from end position `e` on: the longest word ending at the first position where one ends. */
  function NaiveFrom(words: set<string>, text: string, e: nat): string
    requires e <= |text|
    decreases |text| - e
  {
    var w := LongestWord(words, text[..e]);
    if w != "" || e == |text| then w else NaiveFrom(words, text, e + 1)
  }

  /** The words a list stands for: order, repetition and empty entries do not matter. */
  function WordSet(list: seq<string>): set<string> {
    set w | w in list && w != ""
  }

  function NaiveMatch(words: set<string>, text: string): string {
    NaiveFrom(words, text, 0)
  }

  lemma NaiveGoesOn(words: set<string>, text: string, e: nat)
    requires e < |text| && LongestWord(words, text[..e]) == ""
    ensures text[..e + 1] == text[..e] + [text[e]]
    ensures NaiveFrom(words, text, e) == NaiveFrom(words, text, e + 1)
  {
  }

  lemma NaiveStops(words: set<string>, text: string, e: nat)
    requires e <= |text| && (LongestWord(words, text[..e]) != "" || e == |text|)
    ensures NaiveFrom(words, text, e) == LongestWord(words, text[..e])
  {
  }

  // ----- What the two "longest suffix" functions mean -----

  lemma {:induction false} LongestWordIsLongest(words: set<string>, text: string, w: string)
    requires w in words && EndsAt(w, text, |text|)
    ensures |w| <= |LongestWord(words, text)|
  {
    if text != "" && text !in words {
      assert text[0..|text|] == text;
      assert text[1..][|text| - 1 - |w|..|text| - 1] == w;
      LongestWordIsLongest(words, text[1..], w);
    }
  }

  lemma {:induction false} LongestPathIsSuffix(words: set<string>, text: string)
    ensures EndsAt(LongestPath(words, text), text, |text|)
  {
    if !TriePath(words, text) {
      LongestPathIsSuffix(words, text[1..]);
      var p := LongestPath(words, text);
      assert text[1..][|text| - 1 - |p|..|text| - 1] == text[|text| - |p|..|text|];
    }
  }

  lemma {:induction false} LongestPathIsLongest(words: set<string>, text: string, p: string)
    requires TriePath(words, p) && EndsAt(p, text, |text|)
    ensures |p| <= |LongestPath(words, text)|
  {
    if !TriePath(words, text) {
      assert text[0..|text|] == text;
      assert text[1..][|text| - 1 - |p|..|text| - 1] == p;
      LongestPathIsLongest(words, text[1..], p);
    }
  }

  /** A failure path is the longest proper suffix that is a trie path. */
  lemma FailPathMeaning(words: set<string>, p: string, q: string)
    requires p != ""
    ensures EndsAt(FailPath(words, p), p, |p|)
    ensures TriePath(words, q) && EndsAt(q, p, |p|) && |q| < |p| ==> |q| <= |FailPath(words, p)|
  {
    LongestPathIsSuffix(words, p[1..]);
    var f := FailPath(words, p);
    assert p[1..][|p| - 1 - |f|..|p| - 1] == p[|p| - |f|..|p|];
    if TriePath(words, q) && EndsAt(q, p, |p|) && |q| < |p| {
      assert p[1..][|p| - 1 - |q|..|p| - 1] == q;
      LongestPathIsLongest(words, p[1..], q);
    }
  }

  /** The trie is prefix closed. */
  lemma PathPrefix(words: set<string>, p: string, r: char)
    requires TriePath(words, p + [r])
    ensures TriePath(words, p)
  {
    var w :| w in words && p + [r] <= w;
    assert p <= w;
  }

  // ----- Naive search meets its informal description -----

  /** `m` is "" and no non-empty word occurs, or `m` is the longest word among those that end at the
      first position where any word ends. */
  ghost predicate IsEarliestLongest(words: set<string>, text: string, m: string) {
    if m == "" then
      forall w, e: nat :: w in words && w != "" ==> !EndsAt(w, text, e)
    else
      m in words &&
      exists e: nat ::
        && EndsAt(m, text, e)
        && (forall w :: w in words && EndsAt(w, text, e) ==> |w| <= |m|)
        && (forall w, e': nat :: w in words && w != "" && e' < e ==> !EndsAt(w, text, e'))
  }

  lemma WordAtPrefix(words: set<string>, text: string, w: string, e: nat)
    requires w in words && w != "" && EndsAt(w, text, e)
    ensures LongestWord(words, text[..e]) != "" && |w| <= |LongestWord(words, text[..e])|
  {
    assert text[..e][e - |w|..e] == w;
    LongestWordIsLongest(words, text[..e], w);
  }

  lemma {:induction false} NaiveFromMeaning(words: set<string>, text: string, e: nat)
    requires e <= |text|
    requires forall w, e': nat :: w in words && w != "" && e' < e ==> !EndsAt(w, text, e')
    ensures IsEarliestLongest(words, text, NaiveFrom(words, text, e))
    decreases |text| - e
  {
    var m := LongestWord(words, text[..e]);
    forall w | w in words && w != "" && EndsAt(w, text, e)
      ensures m != "" && |w| <= |m|
    {
      WordAtPrefix(words, text, w, e);
    }
    if m != "" {
      assert text[..e][e - |m|..e] == text[e - |m|..e];
      assert EndsAt(m, text, e);
    } else if e < |text| {
      NaiveFromMeaning(words, text, e + 1);
    }
  }

  /** Naive search returns exactly the earliest-ending, longest word; "" exactly when nothing occurs. */
  lemma NaiveMatchMeaning(words: set<string>, text: string)
    ensures IsEarliestLongest(words, text, NaiveMatch(words, text))
  {
    NaiveFromMeaning(words, text, 0);
  }

  /** The description has exactly one solution. */
  lemma EarliestLongestIsUnique(words: set<string>, text: string, m: string, m': string)
    requires IsEarliestLongest(words, text, m) && IsEarliestLongest(words, text, m')
    ensures m == m'
  {
    if m != "" && m' != "" {
      var e: nat :|
        && EndsAt(m, text, e)
        && (forall w :: w in words && EndsAt(w, text, e) ==> |w| <= |m|)
        && (forall w, e': nat :: w in words && w != "" && e' < e ==> !EndsAt(w, text, e'));
      var d: nat :|
        && EndsAt(m', text, d)
        && (forall w :: w in words && EndsAt(w, text, d) ==> |w| <= |m'|)
        && (forall w, e': nat :: w in words && w != "" && e' < d ==> !EndsAt(w, text, e'));
      assert e == d;
    }
  }

  // ----- Failure chasing -----

  /** Follow failure paths from `q` until one can be extended by `r`; the path reached. */
  function Chase(words: set<string>, q: string, r: char): (p: string)
    decreases |q|
  {
    if TriePath(words, q + [r]) then q + [r]
    else if q == "" then ""
    else Chase(words, FailPath(words, q), r)
  }

  /** Chasing from the longest path of a text gives the longest path of the text extended by `r`. */
  lemma {:induction false} ChaseStep(words: set<string>, text: string, r: char)
    ensures Chase(words, LongestPath(words, text), r) == LongestPath(words, text + [r])
  {
    if text == "" {
      assert text + [r] == [r];
      assert [r][1..] == "";
    } else {
      assert (text + [r])[1..] == text[1..] + [r];
      ChaseStep(words, text[1..], r);
      if !TriePath(words, text) && TriePath(words, text + [r]) {
        PathPrefix(words, text, r);
      }
    }
  }

  /** The failure path of a child is found by chasing from the failure path of its parent. */
  lemma ChaseFindsFailPath(words: set<string>, p: string, r: char)
    requires p != ""
    ensures Chase(words, FailPath(words, p), r) == FailPath(words, p + [r])
  {
    assert (p + [r])[1..] == p[1..] + [r];
    ChaseStep(words, p[1..], r);
  }

  /** No word is lost by remembering only the longest trie path of the text read so far. */
  lemma {:induction false} LongestWordOfLongestPath(words: set<string>, text: string)
    ensures LongestWord(words, text) == LongestWord(words, LongestPath(words, text))
  {
    if !TriePath(words, text) {
      assert text !in words;
      LongestWordOfLongestPath(words, text[1..]);
    }
  }

  /** A node's output is its own word if it has one and its failure node's output otherwise. */
  lemma OutputInherited(words: set<string>, p: string)
    requires p != ""
    ensures LongestWord(words, p) == if p in words then p else LongestWord(words, FailPath(words, p))
  {
    LongestWordOfLongestPath(words, p[1..]);
  }

  // ----- Amortised cost of building the links -----

  /** How many times the chase for child `r` moves along a failure link (the move off the root included). */
  function ChaseHops(words: set<string>, q: string, r: char): nat
    decreases |q|
  {
    if TriePath(words, q + [r]) then 0
    else if q == "" then 1
    else 1 + ChaseHops(words, FailPath(words, q), r)
  }

  /** What computing the failure link of the node `p` costs; nodes next to the root cost nothing. */
  function LinkCost(words: set<string>, p: string): nat {
    if |p| <= 1 then 0
    else ChaseHops(words, FailPath(words, p[..|p| - 1]), p[|p| - 1])
  }

  lemma LinkCostOfChild(words: set<string>, p: string, r: char)
    requires p != ""
    ensures LinkCost(words, p + [r]) == ChaseHops(words, FailPath(words, p), r)
  {
    assert (p + [r])[..|p|] == p;
  }

  function TotalLinkCost(words: set<string>, paths: seq<string>): nat {
    if paths == [] then 0
    else TotalLinkCost(words, paths[..|paths| - 1]) + LinkCost(words, paths[|paths| - 1])
  }

  function TotalLength(list: seq<string>): nat {
    if list == [] then 0
    else TotalLength(list[..|list| - 1]) + |list[|list| - 1]|
  }

  predicate NoDuplicates<T(==)>(s: seq<T>) {
    forall i, j :: 0 <= i < j < |s| ==> s[i] != s[j]
  }

  lemma FirstMember<T>(s: seq<T>)
    ensures s == [] || s[0] in s
  {
  }

  lemma OnePrefix(paths: seq<string>, p: string)
    requires |p| == 1 && forall q :: q in paths ==> q != "" && q <= p
    ensures paths == [] || p in paths
  {
    if paths != [] {
      assert paths[0] in paths && paths[0] == p;
    }
  }

  lemma {:induction false} ChaseHopsBound(words: set<string>, q: string, r: char)
    ensures ChaseHops(words, q, r) + |Chase(words, q, r)| <= |q| + 1
    decreases |q|
  {
    if !TriePath(words, q + [r]) && q != "" {
      ChaseHopsBound(words, FailPath(words, q), r);
    }
  }

  /** Each link costs at most what the depth of the failure link allows. */
  lemma LinkCostBound(words: set<string>, p: string)
    requires |p| > 1
    ensures LinkCost(words, p) + |FailPath(words, p)| <= |FailPath(words, p[..|p| - 1])| + 1
  {
    var q, r := p[..|p| - 1], p[|p| - 1];
    assert q + [r] == p;
    ChaseFindsFailPath(words, q, r);
    ChaseHopsBound(words, FailPath(words, q), r);
  }

  lemma {:induction false} CostOfAppended(words: set<string>, paths: seq<string>, more: seq<string>)
    ensures TotalLinkCost(words, paths + more) == TotalLinkCost(words, paths) + TotalLinkCost(words, more)
  {
    if more == [] {
      assert paths + more == paths;
    } else {
      var n := |more| - 1;
      assert (paths + more)[..|paths + more| - 1] == paths + more[..n];
      CostOfAppended(words, paths, more[..n]);
    }
  }

  lemma TakeOut(words: set<string>, paths: seq<string>, i: nat)
    requires i < |paths|
    ensures TotalLinkCost(words, paths)
            == TotalLinkCost(words, paths[..i] + paths[i + 1..]) + LinkCost(words, paths[i])
  {
    var before, here, after := paths[..i], [paths[i]], paths[i + 1..];
    assert paths == before + here + after;
    CostOfAppended(words, before + here, after);
    CostOfAppended(words, before, here);
    CostOfAppended(words, before, after);
    assert TotalLinkCost(words, here) == LinkCost(words, paths[i]);
  }

  lemma TakenOutIsGone(paths: seq<string>, i: nat)
    requires i < |paths| && NoDuplicates(paths)
    ensures NoDuplicates(paths[..i] + paths[i + 1..])
    ensures forall x :: x in paths[..i] + paths[i + 1..] <==> x in paths && x != paths[i]
  {
    assert paths == paths[..i] + [paths[i]] + paths[i + 1..];
  }

  /** Distinct nodes along one word: the telescoping sum of failure depths. */
  lemma {:induction false} CostAlongPath(words: set<string>, p: string, paths: seq<string>)
    requires p != "" && NoDuplicates(paths)
    requires forall q :: q in paths ==> q != "" && q <= p
    ensures TotalLinkCost(words, paths) + |FailPath(words, p)| <= |p|
  {
    var rest := paths;
    if p in paths {
      var i :| 0 <= i < |paths| && paths[i] == p;
      TakeOut(words, paths, i);
      TakenOutIsGone(paths, i);
      rest := paths[..i] + paths[i + 1..];
    }
    assert forall x :: x in rest ==> x in paths && x != p;
    if |p| == 1 {
      OnePrefix(rest, p);
    } else {
      var q := p[..|p| - 1];
      forall x | x in rest ensures x != "" && x <= q {
        assert x in paths;
        assert x != p;
      }
      CostAlongPath(words, q, rest);
      LinkCostBound(words, p);
    }
  }

  function Along(paths: seq<string>, w: string): (r: seq<string>)
    ensures forall p :: p in r <==> p in paths && p <= w
    ensures NoDuplicates(paths) ==> NoDuplicates(r)
  {
    if paths == [] then [] else
    var n := |paths| - 1;
    var r := Along(paths[..n], w);
    assert paths == paths[..n] + [paths[n]];
    assert NoDuplicates(paths) ==> paths[n] !in paths[..n];
    if paths[n] <= w then r + [paths[n]] else r
  }

  function NotAlong(paths: seq<string>, w: string): (r: seq<string>)
    ensures forall p :: p in r <==> p in paths && !(p <= w)
    ensures NoDuplicates(paths) ==> NoDuplicates(r)
  {
    if paths == [] then [] else
    var n := |paths| - 1;
    var r := NotAlong(paths[..n], w);
    assert paths == paths[..n] + [paths[n]];
    assert NoDuplicates(paths) ==> paths[n] !in paths[..n];
    if paths[n] <= w then r else r + [paths[n]]
  }

  lemma {:induction false} SplitCost(words: set<string>, paths: seq<string>, w: string)
    ensures TotalLinkCost(words, paths)
            == TotalLinkCost(words, Along(paths, w)) + TotalLinkCost(words, NotAlong(paths, w))
  {
    if paths != [] {
      var n := |paths| - 1;
      SplitCost(words, paths[..n], w);
      var r := if paths[n] <= w then Along(paths, w) else NotAlong(paths, w);
      assert r[..|r| - 1] == if paths[n] <= w then Along(paths[..n], w) else NotAlong(paths[..n], w);
    }
  }

  /** Linking any distinct nodes whose paths are prefixes of the words in `list` costs at most the
      total length of the list; with the whole block list this is the linear cost of building it. */
  lemma {:induction false} LinkingIsLinear(words: set<string>, list: seq<string>, paths: seq<string>)
    requires NoDuplicates(paths)
    requires forall p :: p in paths ==> p != "" && TriePath(WordSet(list), p)
    ensures TotalLinkCost(words, paths) <= TotalLength(list)
  {
    if list == [] {
      FirstMember(paths);
    } else {
      var n := |list| - 1;
      var w := list[n];
      var rest := WordSet(list[..n]);
      assert list == list[..n] + [w];
      SplitCost(words, paths, w);
      forall p | p in NotAlong(paths, w) ensures TriePath(rest, p) {
        assert WordSet(list) <= rest + {w};
      }
      LinkingIsLinear(words, list[..n], NotAlong(paths, w));
      if w == "" {
        FirstMember(Along(paths, w));
      } else {
        CostAlongPath(words, w, Along(paths, w));
      }
    }
  }

  // ----- Reading the word list one word at a time -----

  lemma OneMoreWord(words: set<string>, word: string, p: string)
    ensures TriePath(words + {word}, p) <==> TriePath(words, p) || p <= word
  {
    if p <= word {
      assert word in words + {word};
    }
  }

  lemma NextWord(list: seq<string>, k: nat)
    requires k < |list|
    ensures WordSet(list[..k + 1]) == if list[k] == "" then WordSet(list[..k]) else WordSet(list[..k]) + {list[k]}
  {
    assert list[..k + 1] == list[..k] + [list[k]];
  }
}
