/**
 The reference-counted glob tree, updated in place: nodes on the heap, each owning its
 children, walked by a cursor. The ghost map nodes gives every node its path.
 A BTreeMap is a map whose keys are visited in order.
 */
module GlobTrees {
  import opened Options
  import opened Patterns
  import opened Counts
  import opened Operations
  import opened Listing

  class Node {
    const token: Option<char>
    var children: map<char, Node>
    var count: nat
    ghost const path: string  // the tokens from the root to this node

    constructor (token: Option<char>, ghost path: string)
      ensures this.token == token && this.path == path && children == map[] && count == 1
    {
      this.token := token;
      this.path := path;
      children := map[];
      count := 1;
    }

    method InsertChild(child: Node)
      modifies this`children
      ensures children == if child.token.Some? then old(children)[child.token.value := child] else old(children)
    {
      if child.token.Some? {
        children := children[child.token.value := child];
      }
    }

    method IncrementCount()
      modifies this`count
      ensures count == old(count) + 1
    {
      count := count + 1;
    }

    method DecrementCount()
      requires count > 0
      modifies this`count
      ensures count == old(count) - 1
    {
      count := count - 1;
    }

    function SumCounts(keys: set<char>): nat
      requires keys <= children.Keys
      reads this, children.Values
    {
      if keys == {} then 0 else
      var c := MinChar(keys);
      children[c].count + SumCounts(keys - {c})
    }

    function ChildCount(): nat
      reads this, children.Values
    {
      SumCounts(children.Keys)
    }

    predicate IsTerminal()
      reads this, children.Values
    {
      ChildCount() < count
    }
  }

  class GlobTree {
    const root: Node
    ghost var nodes: map<string, Node>

    /** nodes names every node of the tree once, by the tokens that lead to it. */
    ghost predicate Valid()
      reads this, nodes.Values
    {
      && [] in nodes && nodes[[]] == root
      && Linked()
      && (forall w :: w in nodes && w != [] ==> nodes[w].count >= 1)
    }

    /** Tokens and children agree with the paths: w + [c] is a node exactly when w has a child under c. */
    ghost predicate Linked()
      reads this, nodes.Values
    {
      Named() && Owned() && Owning()
    }

    ghost predicate Named()
      reads this, nodes.Values
    {
      forall w :: w in nodes ==>
        nodes[w].path == w && nodes[w].token == if w == [] then None else Some(w[|w| - 1])
    }

    ghost predicate Owned()
      reads this, nodes.Values
    {
      forall w {:trigger Parent(w)} :: w in nodes && w != [] ==>
        Parent(w) in nodes && w[|w| - 1] in nodes[Parent(w)].children
    }

    ghost predicate Owning()
      reads this, nodes.Values
    {
      forall w, c {:trigger c in nodes[w].children} :: w in nodes && c in nodes[w].children ==>
        w + [c] in nodes && nodes[w].children[c] == nodes[w + [c]]
    }

    /** The counts of the tree by path: the value all of its behaviour depends on. */
    ghost function Value(): (t: Trie)
      reads this, nodes.Values
    {
      map w | w in nodes :: nodes[w].count
    }

    lemma ValueWellFormed()
      requires Valid()
      ensures WellFormed(Value())
    {
    }

    lemma PrefixIsNode(v: string, w: string)
      requires Valid() && w in nodes && v <= w
      ensures v in nodes
    {
      ValueWellFormed();
      PrefixPresent(Value(), w, v);
    }

    lemma KidsAreChildren(w: string)
      requires Valid() && w in nodes
      ensures Kids(Value(), w) == nodes[w].children.Keys
      ensures forall c :: c in nodes[w].children <==> w + [c] in nodes
    {
      forall c ensures c in Kids(Value(), w) <==> c in nodes[w].children
               ensures c in nodes[w].children <==> w + [c] in nodes {
        KidsMember(Value(), w, c);
        assert Parent(w + [c]) == w;
      }
    }

    lemma NewChild(w: string, v: string, c: char)
      requires Valid() && w in nodes && c !in nodes[w].children && v == w + [c]
      ensures v !in nodes
    {
      KidsAreChildren(w);
    }

    /** The child of a node on the way to a deeper one. */
    lemma ChildOnPath(w: string, v: string, c: char, p: string)
      requires Valid() && w in nodes && p in nodes && v <= p && v == w + [c]
      ensures v in nodes && c in nodes[w].children && nodes[w].children[c] == nodes[v]
    {
      PrefixIsNode(v, p);
      KidsAreChildren(w);
    }

    lemma {:induction false} SumCountsValue(w: string, keys: set<char>)
      requires Valid() && w in nodes && keys <= nodes[w].children.Keys
      ensures nodes[w].SumCounts(keys) == SumOver(Value(), w, keys)
    {
      if keys != {} {
        SumCountsValue(w, keys - {MinChar(keys)});
      }
    }

    /** A node is terminal exactly when the value lists its path. */
    lemma TerminalIffListed(w: string)
      requires Valid() && w in nodes
      ensures nodes[w].IsTerminal() <==> Listed(Value(), w)
    {
      KidsAreChildren(w);
      SumCountsValue(w, nodes[w].children.Keys);
    }

    constructor ()
      ensures Valid() && fresh(nodes.Values) && Value() == EMPTY
    {
      var node := new Node(None, []);
      node.count := 0;
      root := node;
      nodes := map[[] := node];
    }

    /** One more reference to node w. */
    method Bump(ghost w: string, node: Node)
      requires Valid() && w in nodes && node == nodes[w]
      modifies node`count
      ensures Valid() && Value() == Bumped(old(Value()), w)
    {
      node.IncrementCount();
    }

    /** One reference less to node w. */
    method Unref(ghost w: string, node: Node)
      requires Valid() && w in nodes && node == nodes[w] && node.count > if w == [] then 0 else 1
      modifies node`count
      ensures Valid() && Value() == old(Value())[w := old(Value())[w] - 1]
    {
      node.DecrementCount();
    }

    /** A new node v under token c of node w. */
    method Grow(ghost w: string, ghost v: string, node: Node, c: char)
      requires Valid() && w in nodes && node == nodes[w] && c !in node.children && v == w + [c]
      modifies this`nodes, node`children
      ensures Valid() && v in nodes && fresh(nodes[v])
      ensures c in node.children && node.children[c] == nodes[v]
      ensures nodes == old(nodes)[v := nodes[v]]
      ensures Value() == Bumped(old(Value()), v)
    {
      NewChild(w, v, c);
      var child := new Node(Some(c), v);
      node.InsertChild(child);
      nodes := nodes[v := child];
      ParentOfSnoc(w, c);
      GrownSound(v);
    }

    twostate predicate Grown(v: string)
      reads this, nodes.Values
    {
      && v != []
      && var w, c := Parent(v), v[|v| - 1];
      && w in old(nodes) && v !in old(nodes)
      && v in nodes && (forall u :: u in nodes <==> u in old(nodes) || u == v)
      && (forall u :: u in old(nodes) ==> nodes[u] == old(nodes[u]))
      && nodes[v].path == v && nodes[v].token == Some(c) && nodes[v].count == 1 && nodes[v].children == map[]
      && nodes[w].children == old(nodes[w].children)[c := nodes[v]]
      && (forall u :: u in old(nodes) ==> nodes[u].count == old(nodes[u].count))
      && (forall u :: u in old(nodes) && u != w ==> nodes[u].children == old(nodes[u].children))
    }

    twostate lemma GrownOwned(v: string)
      requires old(Valid()) && Grown(v)
      ensures Owned()
    {
    }

    twostate lemma GrownOwning(v: string)
      requires old(Valid()) && Grown(v)
      ensures Owning()
    {
      ParentSnoc(v);
      forall u, d | u in nodes && d in nodes[u].children
        ensures u + [d] in nodes && nodes[u].children[d] == nodes[u + [d]] {
        SnocInjective(u, d, Parent(v), v[|v| - 1]);
      }
    }

    twostate lemma GrownValue(v: string)
      requires old(Valid()) && Grown(v)
      ensures Value() == Bumped(old(Value()), v)
    {
    }

    twostate lemma GrownSound(v: string)
      requires old(Valid()) && Grown(v)
      ensures Valid() && Value() == Bumped(old(Value()), v)
    {
      GrownOwned(v);
      GrownOwning(v);
      GrownValue(v);
    }

    /** Node w loses its child under c with everything below it. */
    method Cut(ghost w: string, ghost v: string, node: Node, c: char)
      requires Valid() && w in nodes && node == nodes[w] && c in node.children && v == w + [c]
      modifies this`nodes, node`children
      ensures Valid() && nodes.Values <= old(nodes.Values)
      ensures Value() == Pruned(old(Value()), v)
    {
      node.children := node.children - {c};
      nodes := map u | u in nodes && !(v <= u) :: nodes[u];
      ParentOfSnoc(w, c);
      PrunedOwned(v);
      PrunedOwning(v);
      PrunedValue(v);
    }

    twostate predicate Pruning(v: string)
      reads this, nodes.Values
    {
      && v != []
      && var w, c := Parent(v), v[|v| - 1];
      && w in nodes
      && (forall u :: u in nodes <==> u in old(nodes) && !(v <= u))
      && (forall u :: u in nodes ==> nodes[u] == old(nodes[u]) && nodes[u].count == old(nodes[u].count))
      && (forall u :: u in nodes && u != w ==> nodes[u].children == old(nodes[u].children))
      && nodes[w].children == old(nodes[w].children) - {c}
    }

    twostate lemma PrunedOwned(v: string)
      requires old(Valid()) && Pruning(v)
      ensures Owned()
    {
      forall u {:trigger Parent(u)} | u in nodes && u != []
        ensures Parent(u) in nodes && u[|u| - 1] in nodes[Parent(u)].children {
        PrefixOfParent(v, u);
        SameParent(v, u);
      }
    }

    twostate lemma PrunedOwning(v: string)
      requires old(Valid()) && Pruning(v)
      ensures Owning()
    {
      ParentSnoc(v);
      forall u, d | u in nodes && d in nodes[u].children
        ensures u + [d] in nodes && nodes[u].children[d] == nodes[u + [d]] {
        PrefixOfSnoc(v, u, d);
        SnocInjective(u, d, Parent(v), v[|v| - 1]);
      }
    }

    twostate lemma PrunedValue(v: string)
      requires old(Valid()) && Pruning(v)
      ensures Value() == Pruned(old(Value()), v)
    {
    }

    /** From node w to its child v under c, which gains a reference or is created with one. */
    method StepIn(ghost w: string, ghost v: string, node: Node, c: char) returns (next: Node)
      requires Valid() && w in nodes && node == nodes[w] && v == w + [c]
      modifies this, nodes.Values
      ensures Valid() && fresh(nodes.Values - old(nodes.Values))
      ensures v in nodes && next == nodes[v]
      ensures Value() == Bumped(old(Value()), v)
    {
      KidsAreChildren(w);
      if c in node.children {
        next := node.children[c];
        Bump(v, next);
      } else {
        Grow(w, v, node, c);
        next := node.children[c];
      }
    }

    /** The cursor walk of an insertion. */
    method WalkIn(pattern: string) returns (cursor: Node)
      requires Valid()
      modifies this, nodes.Values
      ensures Valid() && fresh(nodes.Values - old(nodes.Values))
      ensures Value() == Walked(old(Value()), pattern, |pattern|)
      ensures pattern in nodes && cursor == nodes[pattern]
    {
      cursor := root;
      ghost var before := Value();
      var i := 0;
      while i < |pattern|
        invariant 0 <= i <= |pattern|
        invariant Valid() && fresh(nodes.Values - old(nodes.Values))
        invariant Value() == Walked(before, pattern, i)
        invariant pattern[..i] in nodes && cursor == nodes[pattern[..i]]
      {
        var c := pattern[i];
        TakeSnoc(pattern, i);
        WalkedStep(before, pattern, i);
        cursor := StepIn(pattern[..i], pattern[..i + 1], cursor, c);
        i := i + 1;
      }
      assert pattern[..i] == pattern;
    }

    /** Add a pattern to the tree. */
    method Insert(pattern: string)
      requires Valid()
      modifies this, nodes.Values
      ensures Valid() && fresh(nodes.Values - old(nodes.Values))
      ensures Value() == Inserted(old(Value()), pattern)
    {
      var cursor := WalkIn(pattern);
      Bump(pattern, cursor);
    }

    /** Returns true if the tree lists the pattern. */
    method Contains(pattern: string) returns (found: bool)
      requires Valid()
      ensures found <==> Listed(Value(), pattern)
    {
      var cursor := root;
      var i := 0;
      while i < |pattern|
        invariant 0 <= i <= |pattern|
        invariant pattern[..i] in nodes && cursor == nodes[pattern[..i]]
      {
        TakeSnoc(pattern, i);
        KidsAreChildren(pattern[..i]);
        if pattern[i] !in cursor.children {
          if pattern in nodes {
            PrefixIsNode(pattern[..i + 1], pattern);
          }
          return false;
        }
        cursor := cursor.children[pattern[i]];
        i := i + 1;
      }
      assert pattern[..i] == pattern;
      TerminalIffListed(pattern);
      return cursor.IsTerminal();
    }

    /** From node w to its child v under c: cut off if it has a single reference, otherwise one reference less. */
    method StepOut(ghost w: string, ghost v: string, node: Node, c: char) returns (next: Node, gone: bool)
      requires Valid() && w in nodes && node == nodes[w] && v in nodes && v == w + [c]
      modifies this`nodes, nodes.Values
      ensures Valid() && nodes.Values <= old(nodes.Values)
      ensures v in old(Value()) && (gone <==> old(Value())[v] == 1)
      ensures gone ==> Value() == Pruned(old(Value()), v)
      ensures !gone ==> nodes == old(nodes) && next == nodes[v]
      ensures !gone ==> old(Value())[v] > 0 && Value() == old(Value())[v := old(Value())[v] - 1]
    {
      ChildOnPath(w, v, c, v);
      next := node.children[c];
      gone := next.count == 1;
      if gone {
        Cut(w, v, node, c);
      } else {
        Unref(v, next);
      }
    }

    /** The cursor walk of a removal. */
    method WalkOut(pattern: string)
      requires Valid() && pattern in nodes
      modifies this`nodes, nodes.Values
      ensures Valid() && nodes.Values <= old(nodes.Values)
      ensures Value() == Removed(old(Value()), pattern)
    {
      var cursor := root;
      ghost var before := Value();
      var i := 0;
      while i < |pattern|
        invariant 0 <= i <= |pattern|
        invariant Valid() && nodes == old(nodes)
        invariant Value() == Lowered(before, pattern, i) && NoSingle(before, pattern, i)
        invariant pattern[..i] in nodes && cursor == nodes[pattern[..i]]
      {
        TakeSnoc(pattern, i);
        PrefixIsNode(pattern[..i + 1], pattern);
        LoweredStep(before, pattern, i);
        var gone;
        cursor, gone := StepOut(pattern[..i], pattern[..i + 1], cursor, pattern[i]);
        if gone {
          return;
        }
        i := i + 1;
      }
      RemovedWhole(before, pattern);
    }

    /** Remove a pattern from the tree. */
    method Remove(pattern: string) returns (result: Result)
      requires Valid()
      modifies this, nodes.Values
      ensures Valid() && nodes.Values <= old(nodes.Values)
      ensures result == if Listed(old(Value()), pattern) then Ok else Err("Not found")
      ensures Value() == if Listed(old(Value()), pattern) then Removed(old(Value()), pattern) else old(Value())
    {
      var found := Contains(pattern);
      if !found {
        return Err("Not found");
      }
      WalkOut(pattern);
      return Ok;
    }

    /** The node under character c below w is found by the matcher exactly when it is a child. */
    lemma FoundThroughChild(w: string, c: char, s: string, pos: nat)
      requires Valid() && w in nodes
      ensures c in nodes[w].children ==> w + [c] in nodes && nodes[w].children[c] == nodes[w + [c]]
      ensures c !in nodes[w].children ==> !Found(Value(), w + [c], s, pos)
    {
      KidsAreChildren(w);
      if c !in nodes[w].children && Found(Value(), w + [c], s, pos) {
        var q :| Reaches(Value(), w + [c], q, s, pos);
        PrefixIsNode(w + [c], q);
      }
    }

    lemma ChildrenAreNodes(w: string)
      requires Valid() && w in nodes
      ensures nodes[w].children.Values <= nodes.Values
    {
      forall n | n in nodes[w].children.Values ensures n in nodes.Values {
        var c :| c in nodes[w].children && nodes[w].children[c] == n;
        assert w + [c] in nodes;
      }
    }

    /** What the worker decides at node w, from what it decides at the children and at w itself one further on. */
    lemma WorkerStep(w: string, s: string, pos: nat)
      requires Valid() && w in nodes
      ensures nodes[w].token == if w == [] then None else Some(w[|w| - 1])
      ensures nodes[w].IsTerminal() <==> Listed(Value(), w)
      ensures w == [] && pos < |s| ==> (Found(Value(), w, s, pos) <==> FoundInChildren(Value(), w, s, pos))
      ensures w == [] && pos >= |s| ==> (Found(Value(), w, s, pos) <==> Listed(Value(), w))
      ensures w != [] && pos >= |s| ==> !Found(Value(), w, s, pos)
      ensures w != [] && pos < |s| && !Accepts(w[|w| - 1], s[pos]) ==> !Found(Value(), w, s, pos)
      ensures w != [] && pos + 1 == |s| && Accepts(w[|w| - 1], s[pos]) ==>
        (Found(Value(), w, s, pos) <==> Listed(Value(), w))
      ensures w != [] && pos + 1 < |s| && Accepts(w[|w| - 1], s[pos]) ==>
        (Found(Value(), w, s, pos) <==>
          || FoundInChildren(Value(), w, s, pos + 1)
          || (w[|w| - 1] == MULTI_CHARACTER_WILDCARD && Found(Value(), w, s, pos + 1)))
    {
      TerminalIffListed(w);
      if w == [] {
        RootStep(Value(), s, pos);
      } else {
        NodeStep(Value(), w, s, pos);
      }
    }

    /** Matches s from position pos on against all patterns at or below node w: true exactly when
        one of them matches. A `*` calls the worker on the same node again; the root consumes nothing. */
    function MatchWorker(node: Node, ghost w: string, s: string, pos: nat): (matched: bool)
      requires Valid() && w in nodes && node == nodes[w]
      reads this, nodes.Values
      ensures matched <==> Found(Value(), w, s, pos)
      decreases |s| - pos, if w == [] then 1 else 0
    {
      WorkerStep(w, s, pos);
      ChildrenAreNodes(w);
      if node.token.Some? && pos >= |s| then
        false
      else if node.token.Some? && !Accepts(node.token.value, s[pos]) then
        false
      else
        var nextPos := if node.token.Some? then pos + 1 else pos;
        if nextPos < |s| then
          var nextChar := s[nextPos];
          FoundThroughChild(w, nextChar, s, nextPos);
          FoundThroughChild(w, SINGLE_CHARACTER_WILDCARD, s, nextPos);
          FoundThroughChild(w, MULTI_CHARACTER_WILDCARD, s, nextPos);
          if nextChar in node.children && MatchWorker(node.children[nextChar], w + [nextChar], s, nextPos) then
            true
          else if SINGLE_CHARACTER_WILDCARD in node.children
                  && MatchWorker(node.children[SINGLE_CHARACTER_WILDCARD], w + [SINGLE_CHARACTER_WILDCARD], s, nextPos) then
            true
          else if node.token.Some? && node.token.value == MULTI_CHARACTER_WILDCARD
                  && MatchWorker(node, w, s, nextPos) then
            true
          else if MULTI_CHARACTER_WILDCARD in node.children
                  && MatchWorker(node.children[MULTI_CHARACTER_WILDCARD], w + [MULTI_CHARACTER_WILDCARD], s, nextPos) then
            true
          else
            false
        else
          node.IsTerminal()
    }

    /** Check if a string is matched by a pattern the tree lists. */
    function Check(s: string): (matched: bool)
      requires Valid()
      reads this, nodes.Values
      ensures matched <==> exists p :: Listed(Value(), p) && Matches(p, s)
    {
      CheckIsFoundAtRoot(Value(), s);
      MatchWorker(root, [], s, 0)
    }

    ghost function NodesBelow(w: string): set<string>
      reads this
    {
      set v | v in nodes && w <= v
    }

    lemma ChildIsBelow(w: string, c: char)
      requires Valid() && w in nodes && c in nodes[w].children
      ensures w + [c] in nodes && nodes[w].children[c] == nodes[w + [c]] && Parent(w + [c]) == w
      ensures NodesBelow(w + [c]) < NodesBelow(w)
    {
      assert w in NodesBelow(w) && w !in NodesBelow(w + [c]);
    }

    /** The recursive worker behind List. It is handed the output vector and the shared buffer and gives
        both back: the output has grown by the patterns at or below node w, in increasing order, and the
        buffer is as it was. */
    method ListStringsWorker(node: Node, ghost w: string, output: seq<string>, shared: string)
      returns (strings: seq<string>, buffer: string, ghost added: seq<string>)
      requires Valid() && w in nodes && node == nodes[w]
      requires shared == if w == [] then [] else Parent(w)
      ensures buffer == shared
      ensures strings == output + added && IsListing(Value(), w, added)
      decreases NodesBelow(w), 1
    {
      strings, buffer := output, shared;
      if node.token.Some? {
        ParentSnoc(w);
        buffer := buffer + [node.token.value];
      }
      TerminalIffListed(w);
      InitialPart(Value(), w);
      added := if Listed(Value(), w) then [w] else [];
      if node.IsTerminal() {
        strings := strings + [buffer];
      }
      strings, buffer, added := ListChildren(node, w, strings, buffer, output, added);
      if node.token.Some? {
        buffer := buffer[..|buffer| - 1];
      }
    }

    /** The children's loop of the worker, in key order; the output so far is base followed by own. */
    method ListChildren(node: Node, ghost w: string, output: seq<string>, shared: string,
                        ghost base: seq<string>, ghost own: seq<string>)
      returns (strings: seq<string>, buffer: string, ghost part: seq<string>)
      requires Valid() && w in nodes && node == nodes[w]
      requires shared == w && output == base + own && IsPart(Value(), w, {}, own)
      ensures buffer == w && strings == base + part && IsListing(Value(), w, part)
      decreases NodesBelow(w), 0, 1
    {
      strings, buffer, part := output, shared, own;
      ghost var done: set<char> := {};
      var todo := node.children.Keys;
      while todo != {}
        invariant done + todo == node.children.Keys
        invariant forall c, d :: c in done && d in todo ==> c < d
        invariant buffer == w && strings == base + part && IsPart(Value(), w, done, part)
        decreases todo
      {
        var c := MinChar(todo);
        strings, buffer, part := ListChild(node, w, strings, buffer, base, part, c, done);
        done, todo := done + {c}, todo - {c};
      }
      AllChildrenListed(w, done, part);
    }

    method ListChild(node: Node, ghost w: string, output: seq<string>, shared: string,
                     ghost base: seq<string>, ghost part: seq<string>, c: char, ghost done: set<char>)
      returns (strings: seq<string>, buffer: string, ghost longer: seq<string>)
      requires Valid() && w in nodes && node == nodes[w]
      requires shared == w && output == base + part && IsPart(Value(), w, done, part)
      requires c in node.children && forall d :: d in done ==> d < c
      ensures buffer == w && strings == base + longer && IsPart(Value(), w, done + {c}, longer)
      decreases NodesBelow(w), 0, 0
    {
      ChildIsBelow(w, c);
      ghost var more;
      strings, buffer, more := ListStringsWorker(node.children[c], w + [c], output, shared);
      AppendChild(Value(), w, done, c, part, more);
      longer := part + more;
    }

    lemma AllChildrenListed(w: string, done: set<char>, part: seq<string>)
      requires Valid() && w in nodes && done == nodes[w].children.Keys && IsPart(Value(), w, done, part)
      ensures IsListing(Value(), w, part)
    {
      KidsAreChildren(w);
      ValueWellFormed();
      PartIsListing(Value(), w, part);
    }

    /** List all patterns in the tree. */
    method List() returns (strings: seq<string>)
      requires Valid()
      ensures Increasing(strings)
      ensures forall p :: p in strings <==> Listed(Value(), p)
    {
      var buffer;
      ghost var listed;
      strings, buffer, listed := ListStringsWorker(root, [], [], []);
      assert strings == listed;
    }
  }
}
