/** Grouping questions by the supporting paragraphs they share: a union-find
    with path halving (`shared_paragraphs` in bench/reflexbench/rg_data.py). */
module SharedParagraphs {
  import Slots

  /** Ids are compared, never read: their order is that of these numbers. */
  datatype Node = Question(id: int) | Paragraph(title: string, text: string)

  datatype Passage = Passage(title: string, text: string, supporting: bool)

  datatype Row = Row(id: int, paragraphs: seq<Passage>)

  // ------------------------------------------------------------ what it promises

  type Ties = set<(Node, Node)>

  ghost predicate Tied(ties: Ties, u: Node, v: Node) {
    (u, v) in ties || (v, u) in ties
  }

  /** A chain of `n` ties from one to the other. */
  ghost predicate Chain(ties: Ties, u: Node, v: Node, n: nat)
    decreases n
  {
    if n == 0 then u == v else exists m :: Tied(ties, u, m) && Chain(ties, m, v, n - 1)
  }

  ghost predicate Joined(ties: Ties, u: Node, v: Node) {
    exists n: nat :: Chain(ties, u, v, n)
  }

  lemma {:induction false} ChainOn(ties: Ties, u: Node, v: Node, w: Node, n: nat, k: nat)
    requires Chain(ties, u, v, n) && Chain(ties, v, w, k)
    ensures Chain(ties, u, w, n + k)
    decreases n
  {
    if n == 0 {
    } else {
      var m :| Tied(ties, u, m) && Chain(ties, m, v, n - 1);
      ChainOn(ties, m, v, w, n - 1, k);
    }
  }

  lemma {:induction false} ChainBack(ties: Ties, u: Node, v: Node, n: nat)
    requires Chain(ties, u, v, n)
    ensures Chain(ties, v, u, n)
    decreases n
  {
    if n == 0 {
    } else {
      var m :| Tied(ties, u, m) && Chain(ties, m, v, n - 1);
      ChainBack(ties, m, v, n - 1);
      assert Tied(ties, m, u) && Chain(ties, u, u, 0);
      assert Chain(ties, m, u, 1);
      ChainOn(ties, v, m, u, n - 1, 1);
    }
  }

  lemma {:induction false} ChainOfMore(ties: Ties, ties': Ties, u: Node, v: Node, n: nat)
    requires Chain(ties, u, v, n) && ties <= ties'
    ensures Chain(ties', u, v, n)
    decreases n
  {
    if n == 0 {
    } else {
      var m :| Tied(ties, u, m) && Chain(ties, m, v, n - 1);
      ChainOfMore(ties, ties', m, v, n - 1);
      assert Tied(ties', u, m);
    }
  }

  lemma JoinedOn(ties: Ties, u: Node, v: Node, w: Node)
    requires Joined(ties, u, v) && Joined(ties, v, w)
    ensures Joined(ties, u, w)
  {
    var n: nat :| Chain(ties, u, v, n);
    var k: nat :| Chain(ties, v, w, k);
    ChainOn(ties, u, v, w, n, k);
  }

  lemma JoinedBack(ties: Ties, u: Node, v: Node)
    requires Joined(ties, u, v)
    ensures Joined(ties, v, u)
  {
    var n: nat :| Chain(ties, u, v, n);
    ChainBack(ties, u, v, n);
  }

  lemma JoinedByMore(ties: Ties, ties': Ties, u: Node, v: Node)
    requires Joined(ties, u, v) && ties <= ties'
    ensures Joined(ties', u, v)
  {
    var n: nat :| Chain(ties, u, v, n);
    ChainOfMore(ties, ties', u, v, n);
  }

  lemma JoinedSelf(ties: Ties, u: Node)
    ensures Joined(ties, u, u)
  {
    assert Chain(ties, u, u, 0);
  }

  lemma JoinedByTie(ties: Ties, u: Node, v: Node)
    requires Tied(ties, u, v)
    ensures Joined(ties, u, v)
  {
    assert Chain(ties, v, v, 0);
    assert Chain(ties, u, v, 1);
  }

  // ------------------------------------------------------------ the forest

  /** A node and its parent: it leads higher unless it is its own, and both
      have the same root, which is its own parent. */
  ghost predicate Placed(parent: map<Node, Node>, root: map<Node, Node>, height: map<Node, nat>, top: nat, x: Node) {
    && x in parent && x in root && x in height && height[x] <= top
    && parent[x] in parent && parent[x] in root && parent[x] in height
    && (parent[x] != x ==> height[x] < height[parent[x]])
    && (parent[x] == x ==> root[x] == x)
    && root[parent[x]] == root[x]
    && root[x] in parent && parent[root[x]] == root[x]
  }

  /** `root` is where following the parents of a node ends. */
  ghost predicate Forest(parent: map<Node, Node>, root: map<Node, Node>, height: map<Node, nat>, top: nat) {
    && parent.Keys == root.Keys == height.Keys
    && forall x {:trigger Placed(parent, root, height, top, x)} :: x in parent ==> Placed(parent, root, height, top, x)
  }

  /** Following the parents of `x` for `n` steps ends at `r`, its own parent. */
  ghost predicate EndsAt(parent: map<Node, Node>, x: Node, r: Node, n: nat)
    decreases n
  {
    x in parent && if n == 0 then x == r && parent[x] == x else parent[x] != x && EndsAt(parent, parent[x], r, n - 1)
  }

  lemma {:induction false} EndsAtRoot(parent: map<Node, Node>, root: map<Node, Node>, height: map<Node, nat>,
                                      top: nat, x: Node)
    returns (n: nat)
    requires Forest(parent, root, height, top) && x in parent
    ensures EndsAt(parent, x, root[x], n)
    decreases top - height[x]
  {
    n := 0;
    assert Placed(parent, root, height, top, x);
    if parent[x] != x {
      n := EndsAtRoot(parent, root, height, top, parent[x]);
      n := n + 1;
    }
  }

  lemma {:induction false} OnlyRootEnds(parent: map<Node, Node>, root: map<Node, Node>, height: map<Node, nat>,
                                        top: nat,
                                        x: Node, r: Node, n: nat)
    requires Forest(parent, root, height, top) && EndsAt(parent, x, r, n)
    ensures r == root[x]
    decreases n
  {
    assert Placed(parent, root, height, top, x);
    if n == 0 {
    } else {
      OnlyRootEnds(parent, root, height, top, parent[x], r, n - 1);
    }
  }

  /** The root of a node, as its parents tell. */
  ghost predicate IsRoot(parent: map<Node, Node>, x: Node, r: Node) {
    exists n: nat :: EndsAt(parent, x, r, n)
  }

  lemma RootIs(parent: map<Node, Node>, root: map<Node, Node>, height: map<Node, nat>, top: nat, x: Node, r: Node)
    requires Forest(parent, root, height, top) && x in parent
    ensures IsRoot(parent, x, r) <==> r == root[x]
  {
    var n := EndsAtRoot(parent, root, height, top, x);
    if IsRoot(parent, x, r) {
      var k: nat :| EndsAt(parent, x, r, k);
      OnlyRootEnds(parent, root, height, top, x, r, k);
    }
  }

  /** Following the parents ends where it did before, for every node. */
  ghost predicate RootsStay(before: map<Node, Node>, parent: map<Node, Node>) {
    forall y, r :: y in before ==> (IsRoot(parent, y, r) <==> IsRoot(before, y, r))
  }

  /** A node's parent may be replaced by its grandparent. */
  lemma HalvingKeeps(parent: map<Node, Node>, root: map<Node, Node>, height: map<Node, nat>, top: nat, x: Node)
    requires Forest(parent, root, height, top) && x in parent && parent[x] != x
    ensures parent[x] in parent && Forest(parent[x := parent[parent[x]]], root, height, top)
    ensures parent[parent[x]] in parent && height[x] < height[parent[parent[x]]] <= top
    ensures root[parent[parent[x]]] == root[x]
  {
    assert Placed(parent, root, height, top, x) && Placed(parent, root, height, top, parent[x])
        && Placed(parent, root, height, top, parent[parent[x]]);
    var parent' := parent[x := parent[parent[x]]];
    forall y | y in parent' ensures Placed(parent', root, height, top, y) {
      assert Placed(parent, root, height, top, y);
    }
  }

  lemma NewKeeps(parent: map<Node, Node>, root: map<Node, Node>, height: map<Node, nat>, top: nat, x: Node)
    requires Forest(parent, root, height, top) && x !in parent
    ensures Forest(parent[x := x], root[x := x], height[x := 0], top)
  {
    var parent', root', height' := parent[x := x], root[x := x], height[x := 0];
    forall y | y in parent' ensures Placed(parent', root', height', top, y) {
      assert y != x ==> Placed(parent, root, height, top, y);
    }
  }

  function Merged(root: map<Node, Node>, a: Node, b: Node): map<Node, Node> {
    map x | x in root :: if root[x] == a then b else root[x]
  }

  lemma MergeKeeps(parent: map<Node, Node>, root: map<Node, Node>, height: map<Node, nat>, top: nat, a: Node, b: Node)
    requires Forest(parent, root, height, top)
    requires a in parent && b in parent && parent[a] == a && parent[b] == b && a != b
    ensures Forest(parent[a := b], Merged(root, a, b), height[b := top + 1], top + 1)
  {
    assert Placed(parent, root, height, top, a) && Placed(parent, root, height, top, b);
    var parent', root', height' := parent[a := b], Merged(root, a, b), height[b := top + 1];
    forall y | y in parent' ensures Placed(parent', root', height', top + 1, y) {
      assert Placed(parent, root, height, top, y) && Placed(parent, root, height, top, parent[y]);
    }
  }

  /** Putting the root of `p` under that of `q`, be they one or two. */
  lemma TieKeeps(parent: map<Node, Node>, root: map<Node, Node>, height: map<Node, nat>, top: nat, p: Node, q: Node)
    requires Forest(parent, root, height, top) && p in root && q in root
    ensures var a, b := root[p], root[q];
      if a == b then Forest(parent[a := b], Merged(root, a, b), height, top)
      else Forest(parent[a := b], Merged(root, a, b), height[b := top + 1], top + 1)
  {
    assert Placed(parent, root, height, top, p) && Placed(parent, root, height, top, q);
    var a, b := root[p], root[q];
    if a == b {
      assert parent[a := b] == parent && Merged(root, a, b) == root;
    } else {
      assert Placed(parent, root, height, top, a) && Placed(parent, root, height, top, b);
      MergeKeeps(parent, root, height, top, a, b);
    }
  }

  class Links {
    var parent: map<Node, Node>
    ghost var root: map<Node, Node>
    ghost var height: map<Node, nat>
    ghost var top: nat

    ghost predicate Valid()
      reads this
    {
      Forest(parent, root, height, top)
    }

    constructor ()
      ensures Valid() && parent == map[] && root == map[]
    {
      parent, root, height, top := map[], map[], map[], 0;
    }

    /** Where the parents of `x` lead, a new node being its own. Halving the
        path on the way changes no node's root. */
    method Find(x: Node) returns (r: Node)
      requires Valid()
      modifies this
      ensures Valid()
      ensures root == With(old(root), x)
      ensures x in root && r == root[x] && r in parent && parent[r] == r
      ensures IsRoot(parent, x, r)
      ensures RootsStay(old(parent), parent)
    {
      if x !in parent {
        NewKeeps(parent, root, height, top, x);
        parent, root, height := parent[x := x], root[x := x], height[x := 0];
      }
      var at := x;
      while parent[at] != at
        invariant Valid() && at in parent
        invariant root == With(old(root), x)
        invariant root[at] == root[x]
        decreases top - height[at]
      {
        HalvingKeeps(parent, root, height, top, at);
        parent := parent[at := parent[parent[at]]];
        at := parent[at];
      }
      assert Placed(parent, root, height, top, at);
      r := at;
      RootIs(parent, root, height, top, x, r);
      forall y, s | y in old(parent) ensures IsRoot(parent, y, s) <==> IsRoot(old(parent), y, s) {
        RootIs(parent, root, height, top, y, s);
        RootIs(old(parent), old(root), old(height), old(top), y, s);
      }
    }

    /** Ties a paragraph to a question: the paragraph's root goes under the
        question's. */
    method Tie(p: Node, q: Node)
      requires Valid()
      modifies this
      ensures Valid()
      ensures p in root && q in root && root == TiedRoots(old(root), p, q)
    {
      var b := Find(q);
      var a := Find(p);
      TieKeeps(parent, root, height, top, p, q);
      ghost var root' := TiedRoots(old(root), p, q);
      assert root' == Merged(root, a, b);
      ghost var height' := if a == b then height else height[b := top + 1];
      ghost var top' := if a == b then top else top + 1;
      var parent' := parent[a := b];
      assert Forest(parent', root', height', top');
      parent, root, height, top := parent', root', height', top';
    }
  }

  /** The roots, `x` being among them. */
  function With(root: map<Node, Node>, x: Node): map<Node, Node> {
    if x in root then root else root[x := x]
  }

  function TiedRoots(root: map<Node, Node>, p: Node, q: Node): map<Node, Node> {
    var r := With(With(root, q), p);
    Merged(r, r[p], r[q])
  }

  // ------------------------------------------------------------ roots and chains

  ghost predicate Rooted(ties: Ties, root: map<Node, Node>, x: Node) {
    x in root && root[x] in root && Joined(ties, x, root[x])
  }

  ghost predicate SameRoot(root: map<Node, Node>, u: Node, v: Node) {
    u in root && v in root && root[u] == root[v]
  }

  /** A root is joined to its nodes, and tied nodes have one root. */
  ghost predicate Groups(ties: Ties, root: map<Node, Node>) {
    && (forall x {:trigger Rooted(ties, root, x)} :: x in root ==> Rooted(ties, root, x))
    && (forall u, v :: (u, v) in ties ==> SameRoot(root, u, v))
  }

  lemma NewGroup(ties: Ties, root: map<Node, Node>, x: Node)
    requires Groups(ties, root)
    ensures Groups(ties, With(root, x))
  {
    JoinedSelf(ties, x);
    forall y | y in With(root, x) ensures Rooted(ties, With(root, x), y) {
      assert y in root ==> Rooted(ties, root, y);
    }
    forall u, v | (u, v) in ties ensures SameRoot(With(root, x), u, v) {
      assert SameRoot(root, u, v);
    }
  }

  /** What a tie joins to one end's root it joins to the other's. */
  lemma JoinedAcross(ties: Ties, root: map<Node, Node>, p: Node, q: Node, x: Node)
    requires Rooted(ties, root, p) && Rooted(ties, root, q) && Rooted(ties, root, x) && root[x] == root[p]
    ensures Joined(ties + {(p, q)}, x, root[q])
  {
    var more := ties + {(p, q)};
    JoinedBack(ties, p, root[p]);
    JoinedOn(ties, x, root[x], p);
    JoinedByMore(ties, more, x, p);
    JoinedByTie(more, p, q);
    JoinedOn(more, x, p, q);
    JoinedByMore(ties, more, q, root[q]);
    JoinedOn(more, x, q, root[q]);
  }

  lemma TieGroups(ties: Ties, root: map<Node, Node>, p: Node, q: Node)
    requires Groups(ties, root)
    ensures Groups(ties + {(p, q)}, TiedRoots(root, p, q))
  {
    NewGroup(ties, root, q);
    NewGroup(ties, With(root, q), p);
    var r := With(With(root, q), p);
    MergeGroups(ties, r, p, q);
  }

  lemma MergeGroups(ties: Ties, r: map<Node, Node>, p: Node, q: Node)
    requires Groups(ties, r) && p in r && q in r
    ensures Groups(ties + {(p, q)}, Merged(r, r[p], r[q]))
  {
    var r', more := Merged(r, r[p], r[q]), ties + {(p, q)};
    assert Rooted(ties, r, p) && Rooted(ties, r, q);
    forall x | x in r' ensures Rooted(more, r', x) {
      assert Rooted(ties, r, x);
      JoinedByMore(ties, more, x, r[x]);
      if r[x] == r[p] {
        JoinedAcross(ties, r, p, q, x);
      }
    }
    forall u, v | (u, v) in more ensures SameRoot(r', u, v) {
      assert (u, v) in ties ==> SameRoot(r, u, v);
    }
  }

  lemma {:induction false} ChainKeepsRoot(ties: Ties, root: map<Node, Node>, u: Node, v: Node, n: nat)
    requires Groups(ties, root) && u in root && Chain(ties, u, v, n)
    ensures v in root && root[u] == root[v]
    decreases n
  {
    if n == 0 {
    } else {
      var m :| Tied(ties, u, m) && Chain(ties, m, v, n - 1);
      assert SameRoot(root, u, m) || SameRoot(root, m, u);
      ChainKeepsRoot(ties, root, m, v, n - 1);
    }
  }

  /** Two nodes have one root exactly when a chain of ties joins them. */
  lemma SameRootIsJoined(ties: Ties, root: map<Node, Node>, u: Node, v: Node)
    requires Groups(ties, root) && u in root && v in root
    ensures root[u] == root[v] <==> Joined(ties, u, v)
  {
    assert Rooted(ties, root, u) && Rooted(ties, root, v);
    if root[u] == root[v] {
      JoinedBack(ties, v, root[v]);
      JoinedOn(ties, u, root[u], v);
    }
    if Joined(ties, u, v) {
      var n: nat :| Chain(ties, u, v, n);
      ChainKeepsRoot(ties, root, u, v, n);
    }
  }

  // ------------------------------------------------------------ the documents

  /** The ties of the first `j` paragraphs of a row, then of the first `i` rows:
      a supporting paragraph to its question. */
  function RowTies(row: Row, j: nat): Ties
    requires j <= |row.paragraphs|
  {
    if j == 0 then {}
    else
      var p := row.paragraphs[j - 1];
      RowTies(row, j - 1) + if p.supporting then {(Paragraph(p.title, p.text), Question(row.id))} else {}
  }

  function TiesOf(rows: seq<Row>, i: nat): Ties
    requires i <= |rows|
  {
    if i == 0 then {} else TiesOf(rows, i - 1) + RowTies(rows[i - 1], |rows[i - 1].paragraphs|)
  }

  lemma {:induction false} RowTiesAre(row: Row, j: nat, p: Node, q: Node)
    requires j <= |row.paragraphs|
    ensures (p, q) in RowTies(row, j) <==>
      q == Question(row.id)
      && exists k :: 0 <= k < j && row.paragraphs[k].supporting
           && p == Paragraph(row.paragraphs[k].title, row.paragraphs[k].text)
  {
    if j == 0 {
    } else {
      RowTiesAre(row, j - 1, p, q);
    }
  }

  /** The ties are between each supporting paragraph and its question. */
  lemma {:induction false} TiesAre(rows: seq<Row>, i: nat, p: Node, q: Node)
    requires i <= |rows|
    ensures (p, q) in TiesOf(rows, i) <==>
      exists n, k :: 0 <= n < i && 0 <= k < |rows[n].paragraphs| && rows[n].paragraphs[k].supporting
        && q == Question(rows[n].id) && p == Paragraph(rows[n].paragraphs[k].title, rows[n].paragraphs[k].text)
  {
    if i == 0 {
    } else {
      TiesAre(rows, i - 1, p, q);
      RowTiesAre(rows[i - 1], |rows[i - 1].paragraphs|, p, q);
    }
  }

  function Ids(rows: seq<Row>): (ids: seq<int>)
    ensures |ids| == |rows| && forall i :: 0 <= i < |rows| ==> ids[i] == rows[i].id
  {
    seq(|rows|, i requires 0 <= i < |rows| => rows[i].id)
  }

  /** `first` is the smallest of the ids that a chain joins to `id`. */
  ghost predicate FirstOf(ties: Ties, ids: seq<int>, id: int, first: int) {
    && first in ids && Joined(ties, Question(id), Question(first))
    && forall other :: other in ids && Joined(ties, Question(id), Question(other)) ==> first <= other
  }

  /** The ties of one row. */
  method TieRow(links: Links, rows: seq<Row>, i: nat)
    requires i < |rows| && links.Valid() && Groups(TiesOf(rows, i), links.root)
    modifies links
    ensures links.Valid() && Groups(TiesOf(rows, i + 1), links.root)
  {
    var row, j := rows[i], 0;
    assert TiesOf(rows, i) + RowTies(row, 0) == TiesOf(rows, i);
    while j < |row.paragraphs|
      invariant j <= |row.paragraphs| && links.Valid()
      invariant Groups(TiesOf(rows, i) + RowTies(row, j), links.root)
    {
      var p := row.paragraphs[j];
      if p.supporting {
        TieGroups(TiesOf(rows, i) + RowTies(row, j), links.root, Paragraph(p.title, p.text), Question(row.id));
        links.Tie(Paragraph(p.title, p.text), Question(row.id));
      }
      assert TiesOf(rows, i) + RowTies(row, j + 1) == (TiesOf(rows, i) + RowTies(row, j))
        + if p.supporting then {(Paragraph(p.title, p.text), Question(row.id))} else {};
      j := j + 1;
      assert !p.supporting ==> TiesOf(rows, i) + RowTies(row, j) == TiesOf(rows, i) + RowTies(row, j - 1);
    }
  }

  method TieAll(rows: seq<Row>) returns (links: Links)
    ensures fresh(links) && links.Valid() && Groups(TiesOf(rows, |rows|), links.root)
  {
    links := new Links();
    var i := 0;
    while i < |rows|
      invariant i <= |rows| && links.Valid() && Groups(TiesOf(rows, i), links.root)
    {
      TieRow(links, rows, i);
      i := i + 1;
    }
  }

  /** `x` is named after the question of one of the first `k` ids, whose root it is. */
  ghost predicate NamedAfter(ids: seq<int>, k: nat, names: map<Node, int>, root: map<Node, Node>, x: Node) {
    && k <= |ids| && x in names && Question(names[x]) in root && root[Question(names[x])] == x
    && exists m :: 0 <= m < k && ids[m] == names[x]
  }

  /** The root of `id` is named after it or an id before it. */
  ghost predicate HasName(names: map<Node, int>, root: map<Node, Node>, id: int) {
    Question(id) in root && root[Question(id)] in names && names[root[Question(id)]] <= id
  }

  /** Each root of the first `k` ids is named after the first of them. */
  ghost predicate Named(ids: seq<int>, k: nat, names: map<Node, int>, root: map<Node, Node>) {
    && (forall x {:trigger NamedAfter(ids, k, names, root, x)} :: x in names ==> NamedAfter(ids, k, names, root, x))
    && (forall m {:trigger HasName(names, root, ids[m])} :: 0 <= m < k <= |ids| ==> HasName(names, root, ids[m]))
  }

  /** Naming the root of the next id, if it has no name yet. */
  lemma NameNext(ids: seq<int>, k: nat, names: map<Node, int>, root: map<Node, Node>, root': map<Node, Node>)
    requires Named(ids, k, names, root) && k < |ids| && Slots.Ascending(ids)
    requires root' == With(root, Question(ids[k]))
    ensures var r := root'[Question(ids[k])];
      Named(ids, k + 1, if r in names then names else names[r := ids[k]], root')
  {
    var r := root'[Question(ids[k])];
    var names' := if r in names then names else names[r := ids[k]];
    forall x | x in names' ensures NamedAfter(ids, k + 1, names', root', x) {
      assert x in names ==> NamedAfter(ids, k, names, root, x);
    }
    forall m | 0 <= m < k + 1 ensures HasName(names', root', ids[m]) {
      if m < k {
        assert HasName(names, root, ids[m]);
      } else if r in names {
        assert NamedAfter(ids, k, names, root, r);
      }
    }
  }

  method NameAll(links: Links, ghost ties: Ties, ids: seq<int>) returns (names: map<Node, int>)
    requires links.Valid() && Groups(ties, links.root) && Slots.Ascending(ids)
    modifies links
    ensures links.Valid() && Groups(ties, links.root) && Named(ids, |ids|, names, links.root)
  {
    names := map[];
    var k := 0;
    while k < |ids|
      invariant k <= |ids| && links.Valid() && Groups(ties, links.root) && Named(ids, k, names, links.root)
    {
      NewGroup(ties, links.root, Question(ids[k]));
      ghost var was := links.root;
      var r := links.Find(Question(ids[k]));
      NameNext(ids, k, names, was, links.root);
      if r !in names {
        names := names[r := ids[k]];
      }
      k := k + 1;
    }
  }

  /** The name of an id's root is the first of the ids joined to it. */
  lemma NameIsFirst(ties: Ties, ids: seq<int>, names: map<Node, int>, root: map<Node, Node>, id: int)
    requires Groups(ties, root) && Named(ids, |ids|, names, root) && id in ids
    ensures Question(id) in root && root[Question(id)] in names
    ensures FirstOf(ties, ids, id, names[root[Question(id)]])
  {
    var m :| 0 <= m < |ids| && ids[m] == id;
    assert HasName(names, root, ids[m]);
    var first := names[root[Question(id)]];
    assert NamedAfter(ids, |ids|, names, root, root[Question(id)]);
    SameRootIsJoined(ties, root, Question(id), Question(first));
    forall other | other in ids && Joined(ties, Question(id), Question(other)) ensures first <= other {
      var k :| 0 <= k < |ids| && ids[k] == other;
      assert HasName(names, root, ids[k]);
      SameRootIsJoined(ties, root, Question(id), Question(other));
    }
  }

  /** Each question's document: the smallest id among the questions that shared
      supporting paragraphs join to it, directly or through others. */
  method Share(rows: seq<Row>) returns (documents: map<int, int>)
    ensures documents.Keys == Slots.Elems(Ids(rows))
    ensures forall id :: id in documents ==> FirstOf(TiesOf(rows, |rows|), Ids(rows), id, documents[id])
    ensures forall a, b :: a in documents && b in documents ==>
      (documents[a] == documents[b] <==> Joined(TiesOf(rows, |rows|), Question(a), Question(b)))
  {
    var links := TieAll(rows);
    ghost var ties := TiesOf(rows, |rows|);
    var ids := Slots.Sorted(Ids(rows));
    Slots.SortedElems(Ids(rows));
    var names := NameAll(links, ties, ids);
    documents := map[];
    var i := 0;
    while i < |rows|
      invariant i <= |rows| && links.Valid() && Groups(ties, links.root) && Named(ids, |ids|, names, links.root)
      invariant documents.Keys == Slots.Upto(Ids(rows), i)
      invariant forall id :: id in documents ==> FirstOf(ties, ids, id, documents[id])
    {
      Slots.UptoNext(Ids(rows), i);
      assert rows[i].id in Slots.Elems(ids);
      NameIsFirst(ties, ids, names, links.root, rows[i].id);
      var r := links.Find(Question(rows[i].id));
      documents := documents[rows[i].id := names[r]];
      i := i + 1;
    }
    Slots.UptoEnds(Ids(rows));
    SameIdsSameFirst(ties, ids, Ids(rows));
    SameDocumentsAreJoined(ties, Ids(rows), documents);
  }

  lemma SameIdsSameFirst(ties: Ties, ids: seq<int>, ids': seq<int>)
    requires Slots.Elems(ids) == Slots.Elems(ids')
    ensures forall id, first :: FirstOf(ties, ids, id, first) ==> FirstOf(ties, ids', id, first)
  {
    assert forall x :: x in ids <==> x in Slots.Elems(ids);
    assert forall x :: x in ids' <==> x in Slots.Elems(ids');
  }

  /** Two questions have the same document exactly when a chain of shared
      supporting paragraphs joins them. */
  lemma SameDocumentIsJoined(ties: Ties, ids: seq<int>, documents: map<int, int>, a: int, b: int)
    requires a in documents && b in documents
    requires documents.Keys <= Slots.Elems(ids) && forall id :: id in documents ==>
        FirstOf(ties, ids, id, documents[id])
    ensures documents[a] == documents[b] <==> Joined(ties, Question(a), Question(b))
  {
    var x, y := Question(documents[a]), Question(documents[b]);
    if documents[a] == documents[b] {
      JoinedBack(ties, Question(b), y);
      JoinedOn(ties, Question(a), x, Question(b));
    }
    if Joined(ties, Question(a), Question(b)) {
      JoinedOn(ties, Question(a), Question(b), y);
      JoinedBack(ties, Question(a), Question(b));
      JoinedOn(ties, Question(b), Question(a), x);
    }
  }

  lemma SameDocumentsAreJoined(ties: Ties, ids: seq<int>, documents: map<int, int>)
    requires documents.Keys <= Slots.Elems(ids) && forall id :: id in documents ==>
        FirstOf(ties, ids, id, documents[id])
    ensures forall a, b :: a in documents && b in documents ==>
      (documents[a] == documents[b] <==> Joined(ties, Question(a), Question(b)))
  {
    forall a, b | a in documents && b in documents
      ensures documents[a] == documents[b] <==> Joined(ties, Question(a), Question(b))
    {
      SameDocumentIsJoined(ties, ids, documents, a, b);
    }
  }
}
