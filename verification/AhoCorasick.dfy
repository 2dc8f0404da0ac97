/** The block-list automaton of service/moderation.go: a trie of heap nodes whose failure links and
    inherited outputs are computed breadth first, and a scan that chases failure links. */
module AhoCorasick {
  import opened SubstringSearch

  class AcaNode {
    ghost const path: string // the letters on the way from the root
    var children: map<char, AcaNode>
    var fail: AcaNode?
    var output: string

    constructor (ghost path: string)
      ensures this.path == path
      ensures children == map[] && fail == null && output == ""
    {
      this.path := path;
      children, fail, output := map[], null, "";
    }
  }

  // A trie is described by its nodes, looked up by path.
  type Nodes = map<string, AcaNode>

  function Parent(p: string): string
    requires p != ""
  {
    p[..|p| - 1]
  }

  function Last(p: string): char
    requires p != ""
  {
    p[|p| - 1]
  }

  /** The child maps are exactly the tree of the paths in `at`. */
  ghost predicate IsTrie(at: Nodes)
    reads at.Values`children
  {
    && "" in at
    && (forall p :: p in at ==> at[p].path == p)
    && (forall p {:trigger Parent(p)} :: p in at && p != "" ==> Parent(p) in at)
    && (forall p, r :: p in at && r in at[p].children ==> p + [r] in at && at[p].children[r] == at[p + [r]])
    && (forall p {:trigger Parent(p)} :: p in at && p != "" ==> Last(p) in at[Parent(p)].children)
  }

  /** Whether node `p` still has no link and only its own word. */
  ghost predicate Unlinked(at: Nodes, words: set<string>, p: string)
    requires p in at
    reads {at[p]}`fail, {at[p]}`output
  {
    at[p].fail == null && at[p].output == if p in words then p else ""
  }

  /** Whether node `p` links to its longest proper suffix in the trie and outputs the longest word ending there. */
  ghost predicate Linked(at: Nodes, words: set<string>, p: string)
    requires p in at && p != ""
    reads {at[p]}`fail, {at[p]}`output
  {
    && FailPath(words, p) in at && at[p].fail == at[FailPath(words, p)]
    && at[p].output == LongestWord(words, p)
  }

  ghost predicate RootIsClean(at: Nodes)
    requires "" in at
    reads at[""]
  {
    at[""].fail == null && at[""].output == ""
  }

  ghost predicate CoversWords(at: Nodes, words: set<string>) {
    forall p {:trigger TriePath(words, p)} :: p in at <==> TriePath(words, p)
  }

  class Automaton {
    const root: AcaNode
    ghost const at: Nodes

    ghost predicate Valid(words: set<string>)
      reads at.Values
    {
      && IsTrie(at) && root == at[""] && RootIsClean(at) && CoversWords(at, words)
      && (forall p {:trigger Linked(at, words, p)} :: p in at && p != "" ==> Linked(at, words, p))
    }

    constructor (root: AcaNode, ghost at: Nodes)
      ensures this.root == root && this.at == at
    {
      this.root, this.at := root, at;
    }

    /** One letter of the scan: chase failure links, then descend. */
    method Advance(ghost words: set<string>, ghost text: string, node: AcaNode, r: char)
      returns (next: AcaNode, ghost hops: nat)
      requires Valid(words)
      requires IsAt(at, LongestPath(words, text), node)
      ensures Valid(words)
      ensures IsAt(at, LongestPath(words, text + [r]), next)
      ensures next.output == LongestWord(words, text + [r])
      ensures hops + |next.path| <= |node.path| + 1
    {
      ChaseStep(words, text, r);
      next, hops := node, 0;
      while next != root && r !in next.children
        invariant IsAt(at, next.path, next)
        invariant Chase(words, next.path, r) == LongestPath(words, text + [r])
        invariant hops + |next.path| <= |node.path|
        decreases |next.path|
      {
        ChildIffPath(at, words, next.path, r);
        assert Linked(at, words, next.path);
        next := next.fail;
        hops := hops + 1;
      }
      ChildIffPath(at, words, next.path, r);
      if r in next.children {
        next := next.children[r];
      }
      LongestWordOfLongestPath(words, text + [r]);
      assert next != root ==> Linked(at, words, next.path);
    }

    /** The scan. It returns what naive search over the word list returns, and moves along failure
        links at most once for every letter it reads. */
    method Match(ghost words: set<string>, content: string) returns (m: string, ghost hops: nat)
      requires Valid(words)
      ensures m == NaiveMatch(words, content)
      ensures hops <= |content|
    {
      var node := root;
      hops := 0;
      ghost var read := "";
      for i := 0 to |content|
        invariant Valid(words)
        invariant read == content[..i]
        invariant IsAt(at, LongestPath(words, read), node)
        invariant NaiveMatch(words, content) == NaiveFrom(words, content, i)
        invariant LongestWord(words, read) == ""
        invariant hops + |node.path| <= i
      {
        NaiveGoesOn(words, content, i);
        ghost var step;
        node, step := Advance(words, read, node, content[i]);
        read := read + [content[i]];
        hops := hops + step;
        if node.output != "" {
          NaiveStops(words, content, i + 1);
          return node.output, hops;
        }
      }
      NaiveStops(words, content, |content|);
      return "", hops;
    }
  }

  /** `node` is the node of path `p`. */
  ghost predicate IsAt(at: Nodes, p: string, node: AcaNode) {
    p in at && at[p] == node && node.path == p
  }

  lemma ChildIffPath(at: Nodes, words: set<string>, p: string, r: char)
    requires IsTrie(at) && CoversWords(at, words) && p in at
    ensures r in at[p].children <==> TriePath(words, p + [r])
  {
    if p + [r] in at {
      assert Parent(p + [r]) == p;
    }
  }

  lemma SnocInjective(p: string, q: string, r: char, s: char)
    requires p + [r] == q + [s]
    ensures p == q && r == s
  {
    assert p == (p + [r])[..|p|] && q == (q + [s])[..|q|];
    assert (p + [r])[|p|] == (q + [s])[|q|];
  }

  // ----- First phase: spelling the words -----

  /** Hang a fresh node below `node` under the letter `r`. */
  method AddChild(ghost at: Nodes, node: AcaNode, r: char) returns (child: AcaNode, ghost at': Nodes)
    requires IsTrie(at) && IsAt(at, node.path, node) && r !in node.children
    modifies node`children
    ensures fresh(child) && child.path == node.path + [r]
    ensures child.fail == null && child.output == "" && child.path !in at
    ensures at' == at[child.path := child] && IsTrie(at')
  {
    ghost var p := node.path;
    ghost var q := p + [r];
    assert Parent(q) == p && Last(q) == r;
    child := new AcaNode(q);
    node.children := node.children[r := child];
    at' := at[q := child];
    forall x, s | x in at' && s in at'[x].children
      ensures x + [s] in at' && at'[x].children[s] == at'[x + [s]]
    {
      if x + [s] == q {
        SnocInjective(x, p, s, r);
      } else if x == q {
        assert false;
      } else if x == p {
        assert s != r;
      }
    }
    forall x | x in at' && x != ""
      ensures Parent(x) in at' && Last(x) in at'[Parent(x)].children
    {
      if x != q {
        assert Parent(x) in at && Last(x) in old(at[Parent(x)].children);
      }
    }
  }

  /** The child of `node` under `r`, made if it is missing. */
  method Descend(ghost at: Nodes, node: AcaNode, r: char) returns (child: AcaNode, ghost at': Nodes)
    requires IsTrie(at) && IsAt(at, node.path, node)
    modifies node`children
    ensures IsTrie(at') && IsAt(at', node.path + [r], child)
    ensures at' == at[node.path + [r] := child]
    ensures node.path + [r] in at ==> at' == at
    ensures node.path + [r] !in at ==> fresh(child) && child.fail == null && child.output == ""
  {
    ghost var q := node.path + [r];
    assert Parent(q) == node.path && Last(q) == r;
    if r in node.children {
      child, at' := node.children[r], at;
    } else {
      child, at' := AddChild(at, node, r);
    }
  }

  predicate ShortPrefix(p: string, word: string, i: nat) {
    p <= word && |p| <= i
  }

  lemma PrefixesUpTo(word: string, i: nat)
    requires i < |word|
    ensures word[..i + 1] == word[..i] + [word[i]]
    ensures forall p :: ShortPrefix(p, word, i + 1) <==> ShortPrefix(p, word, i) || p == word[..i + 1]
  {
    forall p | ShortPrefix(p, word, i + 1) && |p| > i
      ensures p == word[..i + 1]
    {
    }
  }

  /** The nodes after spelling the first letters of a word: the new ones are bare. */
  ghost predicate Grown(at: Nodes, at': Nodes, word: string, i: nat)
    reads at'.Values`fail, at'.Values`output
  {
    && (forall p :: p in at' <==> p in at || ShortPrefix(p, word, i))
    && (forall p :: p in at ==> at'[p] == at[p])
    && (forall p :: p in at' && p !in at ==> at'[p].fail == null && at'[p].output == "")
  }

  lemma GrownByOne(at0: Nodes, at: Nodes, at': Nodes, word: string, i: nat, child: AcaNode)
    requires i < |word| && Grown(at0, at, word, i)
    requires at' == at[word[..i + 1] := child]
    requires if word[..i + 1] in at then at' == at else child.fail == null && child.output == ""
    ensures Grown(at0, at', word, i + 1)
  {
    PrefixesUpTo(word, i);
    assert ShortPrefix(word[..i + 1], word, i + 1);
  }

  /** One more letter of a word. */
  method SpellLetter(ghost at: Nodes, ghost at0: Nodes, word: string, i: nat, node: AcaNode)
    returns (child: AcaNode, ghost at': Nodes)
    requires i < |word| && IsTrie(at) && IsAt(at, word[..i], node) && Grown(at0, at, word, i)
    modifies node`children
    ensures IsTrie(at') && IsAt(at', word[..i + 1], child) && Grown(at0, at', word, i + 1)
    ensures forall p :: p in at' && p !in at ==> fresh(at'[p])
    ensures forall p :: p in at ==> p in at' && at'[p] == at[p]
  {
    PrefixesUpTo(word, i);
    child, at' := Descend(at, node, word[i]);
    GrownByOne(at0, at, at', word, i, child);
  }

  /** Walk down the letters of a word from the root, making the nodes that are missing. */
  method Spell(root: AcaNode, ghost at: Nodes, word: string) returns (node: AcaNode, ghost at': Nodes)
    requires IsTrie(at) && IsAt(at, "", root)
    modifies at.Values`children
    ensures IsTrie(at') && IsAt(at', word, node) && (forall p :: p in at' && p !in at ==> fresh(at'[p]))
    ensures Grown(at, at', word, |word|)
  {
    assert word[..|word|] == word;
    node, at' := root, at;
    for i := 0 to |word|
      invariant IsTrie(at') && IsAt(at', word[..i], node)
      invariant forall p :: p in at' && p !in at ==> fresh(at'[p])
      invariant Grown(at, at', word, i)
    {
      node, at' := SpellLetter(at', at, word, i, node);
    }
  }

  ghost predicate AllUnlinked(at: Nodes, words: set<string>)
    reads at.Values`fail, at.Values`output
  {
    forall p {:trigger Unlinked(at, words, p)} :: p in at ==> Unlinked(at, words, p)
  }

  /** A word that has been spelled but not marked yet changes nothing for the words before it. */
  lemma AfterSpelling(at: Nodes, at': Nodes, words: set<string>, word: string)
    requires CoversWords(at, words) && AllUnlinked(at, words) && Grown(at, at', word, |word|)
    ensures CoversWords(at', words + {word}) && AllUnlinked(at', words)
  {
    forall p ensures p in at' <==> TriePath(words + {word}, p) {
      OneMoreWord(words, word, p);
      assert p in at' <==> p in at || ShortPrefix(p, word, |word|);
    }
    forall p | p in at' ensures Unlinked(at', words, p) {
      if p in at {
        assert Unlinked(at, words, p);
      } else {
        assert !TriePath(words, p);
      }
    }
  }

  /** Give the node of a word its output. */
  method Mark(node: AcaNode, ghost at: Nodes, ghost words: set<string>, word: string)
    requires IsTrie(at) && IsAt(at, word, node) && AllUnlinked(at, words) && word != ""
    modifies node`output
    ensures AllUnlinked(at, words + {word})
  {
    assert forall p :: p in at ==> Unlinked(at, words, p);
    node.output := word;
    forall p | p in at ensures Unlinked(at, words + {word}, p) {
      assert at[p].path == p;
    }
  }

  /** Spell one word below the root and mark its last node. */
  method Insert(root: AcaNode, ghost at: Nodes, ghost words: set<string>, word: string) returns (ghost at': Nodes)
    requires IsTrie(at) && IsAt(at, "", root) && CoversWords(at, words) && AllUnlinked(at, words) && word != ""
    modifies at.Values
    ensures IsTrie(at') && IsAt(at', "", root)
    ensures CoversWords(at', words + {word}) && AllUnlinked(at', words + {word})
    ensures forall p :: p in at' && p !in at ==> fresh(at'[p])
    ensures forall p :: p in at ==> p in at' && at'[p] == at[p]
  {
    var node;
    node, at' := Spell(root, at, word);
    AfterSpelling(at, at', words, word);
    Mark(node, at', words, word);
  }

  /** The trie of a word list; empty words are skipped. */
  method SpellWords(list: seq<string>) returns (root: AcaNode, ghost at: Nodes)
    ensures IsTrie(at) && IsAt(at, "", root) && CoversWords(at, WordSet(list)) && AllUnlinked(at, WordSet(list))
    ensures forall p :: p in at ==> fresh(at[p])
  {
    root := new AcaNode("");
    at := map["" := root];
    ghost var words: set<string> := {};
    for k := 0 to |list|
      invariant words == WordSet(list[..k])
      invariant IsTrie(at) && IsAt(at, "", root) && CoversWords(at, words) && AllUnlinked(at, words)
      invariant forall p :: p in at ==> fresh(at[p])
    {
      NextWord(list, k);
      if list[k] != "" {
        at := Insert(root, at, words, list[k]);
        words := words + {list[k]};
      }
    }
    assert list[..|list|] == list;
  }

  // ----- Second phase: failure links, breadth first -----

  ghost predicate ShallowLinked(at: Nodes, words: set<string>, depth: nat)
    reads at.Values`fail, at.Values`output
  {
    forall p {:trigger Linked(at, words, p)} :: p in at && p != "" && |p| <= depth ==> Linked(at, words, p)
  }

  /** The trie of `words` with its root untouched. */
  ghost predicate IsWordTrie(at: Nodes, words: set<string>, root: AcaNode)
    reads at.Values
  {
    IsTrie(at) && CoversWords(at, words) && IsAt(at, "", root) && RootIsClean(at)
  }

  /** Chase failure links from a parent for the node that its child under `r` must link to. */
  method FindFail(root: AcaNode, ghost at: Nodes, ghost words: set<string>, parent: AcaNode, r: char)
    returns (target: AcaNode, ghost hops: nat)
    requires IsWordTrie(at, words, root)
    requires IsAt(at, parent.path, parent) && parent.path != "" && ShallowLinked(at, words, |parent.path|)
    ensures IsAt(at, FailPath(words, parent.path + [r]), target)
    ensures hops == LinkCost(words, parent.path + [r])
  {
    ghost var p := parent.path;
    hops := 0;
    ChaseFindsFailPath(words, p, r);
    LinkCostOfChild(words, p, r);
    assert Linked(at, words, p);
    var fail := parent.fail;
    while fail != null && r !in fail.children
      invariant fail != null ==>
        && IsAt(at, fail.path, fail) && |fail.path| < |p|
        && Chase(words, fail.path, r) == FailPath(words, p + [r])
        && hops + ChaseHops(words, fail.path, r) == LinkCost(words, p + [r])
      invariant fail == null ==> FailPath(words, p + [r]) == "" && hops == LinkCost(words, p + [r])
      decreases if fail == null then 0 else |fail.path| + 1
    {
      ChildIffPath(at, words, fail.path, r);
      assert fail.path != "" ==> Linked(at, words, fail.path);
      fail := fail.fail;
      hops := hops + 1;
    }
    if fail == null {
      target := root;
    } else {
      ChildIffPath(at, words, fail.path, r);
      target := fail.children[r];
    }
  }

  /** Link one child of a node, once everything as shallow as the node is linked. */
  method LinkChild(root: AcaNode, ghost at: Nodes, ghost words: set<string>, parent: AcaNode, r: char)
    returns (child: AcaNode, ghost hops: nat)
    requires IsWordTrie(at, words, root)
    requires IsAt(at, parent.path, parent) && parent.path != "" && ShallowLinked(at, words, |parent.path|)
    requires r in parent.children && IsAt(at, parent.path + [r], parent.children[r])
    requires Unlinked(at, words, parent.path + [r])
    modifies {parent.children[r]}`fail, {parent.children[r]}`output
    ensures child == parent.children[r] && Linked(at, words, parent.path + [r])
    ensures hops == LinkCost(words, parent.path + [r])
  {
    ghost var q := parent.path + [r];
    child := parent.children[r];
    var target;
    target, hops := FindFail(root, at, words, parent, r);
    assert target.path != "" ==> Linked(at, words, target.path);
    assert target.output == LongestWord(words, target.path);
    OutputInherited(words, q);
    child.fail := target;
    if child.fail.output != "" && child.output == "" {
      child.output := child.fail.output;
    }
  }

  /** `queue` holds the nodes of `paths`, in order. */
  ghost predicate IsQueue(at: Nodes, queue: seq<AcaNode>, paths: seq<string>) {
    |queue| == |paths| && forall i :: 0 <= i < |paths| ==> IsAt(at, paths[i], queue[i])
  }

  ghost predicate IsChild(at: Nodes, p: string, q: string) {
    q in at && q != "" && Parent(q) == p
  }

  /** The children of a node that are still to be linked carry the letters in `todo`. */
  ghost predicate KidsSoFar(at: Nodes, p: string, todo: set<char>, kids: seq<string>) {
    && NoDuplicates(kids)
    && forall q :: q in kids <==> IsChild(at, p, q) && Last(q) !in todo
  }

  lemma NextKid(at: Nodes, p: string, todo: set<char>, kids: seq<string>, r: char)
    requires KidsSoFar(at, p, todo, kids) && r in todo && p + [r] in at
    ensures KidsSoFar(at, p, todo - {r}, kids + [p + [r]])
  {
    var q := p + [r];
    assert Parent(q) == p && Last(q) == r;
    forall x ensures x in kids + [q] <==> IsChild(at, p, x) && Last(x) !in todo - {r} {
      if IsChild(at, p, x) && Last(x) == r {
        assert x == Parent(x) + [Last(x)];
      }
    }
  }

  /** While the children of `p` are being linked: those under the letters in `todo` are bare, the
      others and everything as shallow as `p` are linked. */
  ghost predicate Linking(at: Nodes, words: set<string>, p: string, todo: set<char>)
    reads at.Values`fail, at.Values`output
  {
    && ShallowLinked(at, words, |p|)
    && (forall q {:trigger Linked(at, words, q)} :: IsChild(at, p, q) && Last(q) !in todo ==> Linked(at, words, q))
    && (forall q {:trigger Unlinked(at, words, q)} :: IsChild(at, p, q) && Last(q) in todo ==> Unlinked(at, words, q))
  }

  lemma OnlyChild(at: Nodes, p: string, r: char)
    ensures forall x :: IsChild(at, p, x) && Last(x) == r ==> x == p + [r]
    ensures Parent(p + [r]) == p && Last(p + [r]) == r
  {
    forall x | IsChild(at, p, x) && Last(x) == r ensures x == p + [r] {
      assert x == Parent(x) + [Last(x)];
    }
  }

  /** One round of the loop over the child map. */
  method LinkNextChild(root: AcaNode, ghost at: Nodes, ghost words: set<string>, parent: AcaNode, r: char,
                       ghost todo: set<char>)
    returns (child: AcaNode, ghost hops: nat)
    requires IsWordTrie(at, words, root)
    requires IsAt(at, parent.path, parent) && parent.path != "" && Linking(at, words, parent.path, todo)
    requires r in todo && r in parent.children
    modifies {parent.children[r]}`fail, {parent.children[r]}`output
    ensures IsAt(at, parent.path + [r], child) && child == parent.children[r]
    ensures RootIsClean(at) && Linking(at, words, parent.path, todo - {r})
    ensures hops == LinkCost(words, parent.path + [r])
  {
    ghost var p := parent.path;
    OnlyChild(at, p, r);
    assert Unlinked(at, words, p + [r]);
    child, hops := LinkChild(root, at, words, parent, r);
    forall x | x in at && x != "" && x != p + [r]
      ensures Linked(at, words, x) == old(Linked(at, words, x))
      ensures Unlinked(at, words, x) == old(Unlinked(at, words, x))
    {
    }
  }

  /** Link all children of a node, in whatever order the map yields them, and queue them. */
  method LinkChildren(root: AcaNode, ghost at: Nodes, ghost words: set<string>, parent: AcaNode, queue: seq<AcaNode>)
    returns (queue': seq<AcaNode>, ghost kids: seq<string>, ghost hops: nat)
    requires IsWordTrie(at, words, root)
    requires IsAt(at, parent.path, parent) && parent.path != "" && Linking(at, words, parent.path, parent.children.Keys)
    modifies parent.children.Values`fail, parent.children.Values`output
    ensures RootIsClean(at) && Linking(at, words, parent.path, {})
    ensures KidsSoFar(at, parent.path, {}, kids)
    ensures exists more :: queue' == queue + more && IsQueue(at, more, kids)
    ensures hops == TotalLinkCost(words, kids)
  {
    ghost var p := parent.path;
    var todo := parent.children.Keys;
    ghost var more: seq<AcaNode> := [];
    queue', kids, hops := queue, [], 0;
    while todo != {}
      invariant todo <= parent.children.Keys
      invariant RootIsClean(at) && Linking(at, words, p, todo)
      invariant KidsSoFar(at, p, todo, kids)
      invariant queue' == queue + more && IsQueue(at, more, kids)
      invariant hops == TotalLinkCost(words, kids)
    {
      var r :| r in todo;
      var child;
      ghost var step;
      child, step := LinkNextChild(root, at, words, parent, r, todo);
      NextKid(at, p, todo, kids, r);
      CostOfAppended(words, kids, [p + [r]]);
      queue', more, hops := queue' + [child], more + [child], hops + step;
      kids := kids + [p + [r]];
      todo := todo - {r};
    }
  }

  /** The breadth-first order: `visits` lists the paths queued so far, the first `k` of them taken
      out again; what has been queued is exactly what hangs below the root or a node taken out. */
  ghost predicate SearchOrder(at: Nodes, visits: seq<string>, k: nat) {
    && k <= |visits| && NoDuplicates(visits)
    && (forall p :: p in visits ==> p in at && p != "")
    && (forall p {:trigger Parent(p)} :: p in at && p != "" ==>
        (p in visits <==> Parent(p) == "" || Parent(p) in visits[..k]))
    && (forall i, j :: 0 <= i < j < |visits| ==> |visits[i]| <= |visits[j]|)
    && (forall i :: k <= i < |visits| ==> |visits[i]| <= |visits[k]| + 1)
  }

  ghost predicate PrefixClosed(at: Nodes) {
    forall p {:trigger Parent(p)} :: p in at && p != "" ==> Parent(p) in at
  }

  /** Everything as shallow as the front of the queue has been queued. */
  lemma {:induction false} ShallowIsVisited(at: Nodes, visits: seq<string>, k: nat, p: string)
    requires SearchOrder(at, visits, k) && PrefixClosed(at) && p in at && p != ""
    requires k < |visits| ==> |p| <= |visits[k]|
    ensures p in visits
    decreases |p|
  {
    var q := Parent(p);
    if q != "" {
      ShallowIsVisited(at, visits, k, q);
      var i :| 0 <= i < |visits| && visits[i] == q;
      assert i < k;
      assert visits[..k][i] == q;
    }
  }

  /** Taking out the front node and queueing its children keeps the order. */
  lemma SearchStep(at: Nodes, visits: seq<string>, k: nat, kids: seq<string>)
    requires SearchOrder(at, visits, k) && k < |visits|
    requires KidsSoFar(at, visits[k], {}, kids)
    ensures SearchOrder(at, visits + kids, k + 1)
  {
    var front, more := visits[k], visits + kids;
    assert more[..k + 1] == visits[..k] + [front];
    forall q | q in kids ensures |q| == |front| + 1 && q !in visits {
      assert Parent(q) == front && front in visits && front !in visits[..k];
    }
    assert forall i :: |visits| <= i < |more| ==> more[i] in kids;
    forall p | p in at && p != ""
      ensures p in more <==> Parent(p) == "" || Parent(p) in more[..k + 1]
    {
      assert p in more <==> p in visits || p in kids;
      assert p in kids <==> Parent(p) == front;
    }
  }

  /** What is queued is linked and the rest is bare. */
  ghost predicate LinkedExactly(at: Nodes, words: set<string>, visits: seq<string>)
    reads at.Values`fail, at.Values`output
  {
    && (forall p {:trigger Linked(at, words, p)} :: p in at && p != "" && p in visits ==> Linked(at, words, p))
    && (forall p {:trigger Unlinked(at, words, p)} :: p in at && p != "" && p !in visits ==> Unlinked(at, words, p))
  }

  /** How far the search is: the queue, what is linked, and what it has cost. */
  ghost predicate Searching(at: Nodes, words: set<string>, queue: seq<AcaNode>, visits: seq<string>, k: nat)
    reads at.Values`fail, at.Values`output
  {
    SearchOrder(at, visits, k) && IsQueue(at, queue, visits[k..]) && LinkedExactly(at, words, visits)
  }

  /** Before a node's children are linked, they are bare and everything shallow is linked. */
  lemma FrontIsReady(at: Nodes, words: set<string>, queue: seq<AcaNode>, visits: seq<string>, k: nat,
                     letters: set<char>)
    requires Searching(at, words, queue, visits, k) && k < |visits| && PrefixClosed(at)
    requires forall q :: IsChild(at, visits[k], q) ==> Last(q) in letters
    ensures Linking(at, words, visits[k], letters)
  {
    var front := visits[k];
    forall p | p in at && p != "" && |p| <= |front| ensures Linked(at, words, p) {
      ShallowIsVisited(at, visits, k, p);
    }
    forall q | IsChild(at, front, q) ensures Unlinked(at, words, q) {
      assert front in visits && front !in visits[..k];
      assert q !in visits;
    }
  }

  lemma QueueGoesOn(at: Nodes, queue: seq<AcaNode>, visits: seq<string>, k: nat, kids: seq<string>, more: seq<AcaNode>)
    requires k < |visits| && IsQueue(at, queue, visits[k..]) && IsQueue(at, more, kids)
    ensures IsQueue(at, queue[1..] + more, (visits + kids)[k + 1..])
  {
    assert (visits + kids)[k + 1..] == visits[k..][1..] + kids;
  }

  lemma LinkedGoesOn(at: Nodes, words: set<string>, visits: seq<string>, front: string, kids: seq<string>)
    requires KidsSoFar(at, front, {}, kids) && Linking(at, words, front, {})
    requires forall x :: x in at && x != "" && !IsChild(at, front, x) ==>
      if x in visits then Linked(at, words, x) else Unlinked(at, words, x)
    ensures LinkedExactly(at, words, visits + kids)
  {
    forall p | p in at && p != "" ensures if p in visits + kids then Linked(at, words, p) else Unlinked(at, words, p) {
      assert p in kids <==> IsChild(at, front, p);
    }
  }

  /** A node next to the root links to the root. */
  lemma NextToRoot(words: set<string>, q: string)
    requires |q| == 1
    ensures FailPath(words, q) == "" && LinkCost(words, q) == 0
    ensures LongestWord(words, q) == if q in words then q else ""
  {
    assert q[1..] == "";
    OutputInherited(words, q);
  }

  method LinkNextRootChild(root: AcaNode, ghost at: Nodes, ghost words: set<string>, r: char, ghost todo: set<char>)
    returns (child: AcaNode)
    requires IsWordTrie(at, words, root) && Linking(at, words, "", todo)
    requires r in todo && r in root.children
    modifies {root.children[r]}`fail
    ensures IsAt(at, "" + [r], child) && child == root.children[r]
    ensures RootIsClean(at) && Linking(at, words, "", todo - {r})
  {
    ghost var q := "" + [r];
    OnlyChild(at, "", r);
    NextToRoot(words, q);
    child := root.children[r];
    assert IsAt(at, q, child) && Unlinked(at, words, q);
    child.fail := root;
    forall x | x in at && x != "" && x != q
      ensures Linked(at, words, x) == old(Linked(at, words, x))
      ensures Unlinked(at, words, x) == old(Unlinked(at, words, x))
    {
    }
  }

  /** Link the nodes next to the root, in whatever order the map yields them, and start the queue. */
  method LinkRootChildren(root: AcaNode, ghost at: Nodes, ghost words: set<string>)
    returns (queue: seq<AcaNode>, ghost kids: seq<string>)
    requires IsWordTrie(at, words, root) && Linking(at, words, "", root.children.Keys)
    modifies root.children.Values`fail
    ensures RootIsClean(at) && Linking(at, words, "", {})
    ensures KidsSoFar(at, "", {}, kids) && IsQueue(at, queue, kids) && TotalLinkCost(words, kids) == 0
  {
    var todo := root.children.Keys;
    queue, kids := [], [];
    while todo != {}
      invariant todo <= root.children.Keys
      invariant RootIsClean(at) && Linking(at, words, "", todo)
      invariant KidsSoFar(at, "", todo, kids) && IsQueue(at, queue, kids) && TotalLinkCost(words, kids) == 0
    {
      var r :| r in todo;
      var child := LinkNextRootChild(root, at, words, r, todo);
      NextKid(at, "", todo, kids, r);
      NextToRoot(words, "" + [r]);
      CostOfAppended(words, kids, ["" + [r]]);
      assert TotalLinkCost(words, ["" + [r]]) == 0;
      queue, kids := queue + [child], kids + ["" + [r]];
      todo := todo - {r};
    }
  }

  lemma SearchStarts(at: Nodes, words: set<string>, queue: seq<AcaNode>, visits: seq<string>)
    requires KidsSoFar(at, "", {}, visits) && Linking(at, words, "", {}) && IsQueue(at, queue, visits)
    requires forall x :: x in at && x != "" && !IsChild(at, "", x) ==> Unlinked(at, words, x)
    ensures Searching(at, words, queue, visits, 0)
  {
    assert visits[..0] == [] && visits[0..] == visits;
    assert forall i :: 0 <= i < |visits| ==> visits[i] in visits;
  }

  lemma ChildrenAreNodes(at: Nodes, node: AcaNode)
    requires IsTrie(at) && IsAt(at, node.path, node)
    ensures forall n :: n in node.children.Values ==> IsAt(at, n.path, n) && IsChild(at, node.path, n.path)
    ensures forall q :: IsChild(at, node.path, q) ==> Last(q) in node.children
  {
    forall r | r in node.children ensures IsChild(at, node.path, node.path + [r]) {
      OnlyChild(at, node.path, r);
    }
  }

  /** Take the front node out of the queue and link its children. */
  method SearchRound(root: AcaNode, ghost at: Nodes, ghost words: set<string>, queue: seq<AcaNode>,
                     ghost visits: seq<string>, ghost k: nat)
    returns (queue': seq<AcaNode>, ghost kids: seq<string>, ghost hops: nat)
    requires IsWordTrie(at, words, root) && Searching(at, words, queue, visits, k) && |queue| > 0
    modifies at.Values`fail, at.Values`output
    ensures RootIsClean(at) && Searching(at, words, queue', visits + kids, k + 1)
    ensures TotalLinkCost(words, visits + kids) == TotalLinkCost(words, visits) + hops
  {
    var parent := queue[0];
    assert IsAt(at, visits[k..][0], parent) && visits[k] in visits;
    ChildrenAreNodes(at, parent);
    FrontIsReady(at, words, queue, visits, k, parent.children.Keys);
    queue', kids, hops := LinkChildren(root, at, words, parent, queue[1..]);
    ghost var more :| queue' == queue[1..] + more && IsQueue(at, more, kids);
    forall x | x in at && x != "" && !IsChild(at, visits[k], x)
      ensures Linked(at, words, x) == old(Linked(at, words, x))
      ensures Unlinked(at, words, x) == old(Unlinked(at, words, x))
    {
    }
    SearchStep(at, visits, k, kids);
    QueueGoesOn(at, queue, visits, k, kids, more);
    LinkedGoesOn(at, words, visits, visits[k], kids);
    CostOfAppended(words, visits, kids);
  }

  lemma VisitsShrink(at: Nodes, visits: seq<string>, more: seq<string>, k: nat)
    requires SearchOrder(at, visits, k) && k < |visits| && visits <= more
    ensures at.Keys - Taken(more, k + 1) < at.Keys - Taken(visits, k)
  {
    assert visits[k] in visits;
    assert forall i :: 0 <= i < k ==> more[i] == visits[i];
    assert Taken(more, k + 1) == Taken(visits, k) + {visits[k]};
  }

  ghost function Taken(visits: seq<string>, k: nat): set<string>
    requires k <= |visits|
  {
    set i | 0 <= i < k :: visits[i]
  }

  /** The queue before the first round. */
  method StartSearch(root: AcaNode, ghost at: Nodes, ghost words: set<string>)
    returns (queue: seq<AcaNode>, ghost visits: seq<string>)
    requires IsWordTrie(at, words, root) && AllUnlinked(at, words)
    modifies at.Values`fail
    ensures RootIsClean(at) && Searching(at, words, queue, visits, 0) && TotalLinkCost(words, visits) == 0
  {
    ChildrenAreNodes(at, root);
    assert forall q :: IsChild(at, "", q) ==> Unlinked(at, words, q);
    queue, visits := LinkRootChildren(root, at, words);
    forall x | x in at && !IsChild(at, "", x) ensures Unlinked(at, words, x) {
      assert old(Unlinked(at, words, x));
    }
    SearchStarts(at, words, queue, visits);
  }

  /** Link every node, breadth first. Whatever order the maps yield their entries in, every node is
      visited once, no deeper node before a shallower one, and each ends up with its own link. */
  method LinkAll(root: AcaNode, ghost at: Nodes, ghost words: set<string>)
    returns (ghost visits: seq<string>, ghost hops: nat)
    requires IsWordTrie(at, words, root) && AllUnlinked(at, words)
    modifies at.Values`fail, at.Values`output
    ensures RootIsClean(at)
    ensures forall p {:trigger Linked(at, words, p)} :: p in at && p != "" ==> Linked(at, words, p)
    ensures SearchOrder(at, visits, |visits|) && forall p :: p in visits <==> p in at && p != ""
    ensures hops == TotalLinkCost(words, visits)
  {
    var queue;
    queue, visits := StartSearch(root, at, words);
    hops := 0;
    ghost var k := 0;
    while |queue| > 0
      invariant RootIsClean(at)
      invariant Searching(at, words, queue, visits, k)
      invariant hops == TotalLinkCost(words, visits)
      decreases at.Keys - Taken(visits, k)
    {
      ghost var kids, step;
      queue, kids, step := SearchRound(root, at, words, queue, visits, k);
      VisitsShrink(at, visits, visits + kids, k);
      visits, k, hops := visits + kids, k + 1, hops + step;
    }
    forall p | p in at && p != "" ensures p in visits {
      ShallowIsVisited(at, visits, k, p);
    }
  }

  /** Build the automaton of a block list. Every node but the root is visited once, shallow ones
      first, and the failure links cost at most as many moves as the list has letters. */
  method BuildACA(list: seq<string>) returns (a: Automaton, ghost visits: seq<string>, ghost hops: nat)
    ensures fresh(a) && a.Valid(WordSet(list))
    ensures NoDuplicates(visits) && forall p :: p in visits <==> p != "" && TriePath(WordSet(list), p)
    ensures forall i, j :: 0 <= i < j < |visits| ==> |visits[i]| <= |visits[j]|
    ensures hops == TotalLinkCost(WordSet(list), visits) <= TotalLength(list)
  {
    var root;
    ghost var at;
    ghost var words := WordSet(list);
    root, at := SpellWords(list);
    assert Unlinked(at, words, "");
    visits, hops := LinkAll(root, at, words);
    forall p ensures p in visits <==> p != "" && TriePath(words, p) {
    }
    LinkingIsLinear(words, list, visits);
    a := new Automaton(root, at);
  }
}
