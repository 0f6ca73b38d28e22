/** Menu tree surgery in scripts/kconfiglib.py: implicit submenus, flattening and removal of 'if' nodes, done in place
    on next, list and parent links. */
module KMenu {

  type Id = nat

  datatype Link = None | Some(id: Id)
  datatype Kind = Sym | Choice | Menu | Comment | If

  /** A level of the tree from some node on: its first node with that node's children, and the nodes after it. */
  datatype Forest = Nil | Node(id: Id, kids: Forest, rest: Forest)

  /** The order in which the tree is walked: a node, its children, the next node. */
  function Preorder(f: Forest): seq<Id> {
    match f
    case Nil => []
    case Node(i, k, r) => [i] + (Preorder(k) + Preorder(r))
  }

  function Ids(f: Forest): set<Id> {
    match f
    case Nil => {}
    case Node(i, k, r) => {i} + Ids(k) + Ids(r)
  }

  function Size(f: Forest): nat {
    match f
    case Nil => 0
    case Node(i, k, r) => 1 + Size(k) + Size(r)
  }

  ghost predicate Distinct(f: Forest) {
    match f
    case Nil => true
    case Node(i, k, r) => i !in Ids(k) && i !in Ids(r) && Ids(k) !! Ids(r) && Distinct(k) && Distinct(r)
  }

  function Append(a: Forest, b: Forest): Forest {
    match a
    case Nil => b
    case Node(i, k, r) => Node(i, k, Append(r, b))
  }

  /** The nodes of one level. */
  function Heads(f: Forest): seq<Id> { if f == Nil then [] else [f.id] + Heads(f.rest) }

  lemma {:induction false} HeadsGrow(a: Forest, g: Forest)
    requires g != Nil
    ensures Heads(Append(a, Single(g))) == Heads(a) + [g.id]
  {
    if a != Nil {
      HeadsGrow(a.rest, g);
    }
  }

  lemma {:induction false} AppendFacts(a: Forest, b: Forest)
    ensures Preorder(Append(a, b)) == Preorder(a) + Preorder(b)
    ensures Ids(Append(a, b)) == Ids(a) + Ids(b) && Size(Append(a, b)) == Size(a) + Size(b)
    ensures Distinct(Append(a, b)) <==> Distinct(a) && Distinct(b) && Ids(a) !! Ids(b)
  {
    match a {
      case Nil =>
      case Node(i, k, r) =>
        AppendFacts(r, b);
        assert Preorder(a) + Preorder(b) == [i] + (Preorder(k) + (Preorder(r) + Preorder(b)));
    }
  }

  lemma {:induction false} AppendNil(a: Forest)
    ensures Append(a, Nil) == a
  {
    match a {
      case Nil =>
      case Node(i, k, r) => AppendNil(r);
    }
  }

  lemma {:induction false} AppendAssoc(a: Forest, b: Forest, c: Forest)
    ensures Append(Append(a, b), c) == Append(a, Append(b, c))
  {
    match a {
      case Nil =>
      case Node(i, k, r) => AppendAssoc(r, b, c);
    }
  }

  // ---- links ----

  datatype Links = Links(next: seq<Link>, list: seq<Link>, parent: seq<Link>)

  ghost predicate Sized(l: Links) { |l.next| == |l.list| == |l.parent| }

  /** The chain of links from at, whose nodes have parent p and whose last node is followed by end, is the forest f. */
  ghost predicate Rep(l: Links, at: Link, f: Forest, p: Link, end: Link)
    requires Sized(l)
    decreases f
  {
    match f
    case Nil => at == end
    case Node(i, k, r) =>
      && at == Some(i) && i < |l.next| && l.parent[i] == p
      && Rep(l, l.list[i], k, Some(i), None) && Rep(l, l.next[i], r, p, end)
  }

  function First(f: Forest, end: Link): Link { if f.Nil? then end else Some(f.id) }

  ghost predicate Agree(l: Links, m: Links, ids: set<Id>) {
    && Sized(l) && Sized(m) && |l.next| == |m.next|
    && forall i | i in ids && i < |l.next| ::
         l.next[i] == m.next[i] && l.list[i] == m.list[i] && l.parent[i] == m.parent[i]
  }

  lemma {:induction false} RepFrame(l: Links, m: Links, at: Link, f: Forest, p: Link, end: Link)
    requires Agree(l, m, Ids(f)) && Rep(l, at, f, p, end)
    ensures Rep(m, at, f, p, end)
    decreases f
  {
    match f {
      case Nil =>
      case Node(i, k, r) =>
        RepFrame(l, m, l.list[i], k, Some(i), None);
        RepFrame(l, m, l.next[i], r, p, end);
    }
  }

  lemma {:induction false} RepAppend(l: Links, at: Link, a: Forest, b: Forest, p: Link, end: Link)
    requires Sized(l)
    ensures Rep(l, at, Append(a, b), p, end) <==>
            Rep(l, at, a, p, First(b, end)) && Rep(l, First(b, end), b, p, end)
    decreases a
  {
    match a {
      case Nil =>
      case Node(i, k, r) =>
        if i < |l.next| {
          RepAppend(l, l.next[i], r, b, p, end);
        }
    }
  }

  function LastId(f: Forest): Id
    requires f != Nil
  {
    if f.rest == Nil then f.id else LastId(f.rest)
  }

  lemma {:induction false} LastIn(f: Forest)
    requires f != Nil
    ensures LastId(f) in Ids(f)
  {
    if f.rest != Nil {
      LastIn(f.rest);
    }
  }

  /** Redirecting the last node of a chain. */
  lemma {:induction false} RepCut(l: Links, at: Link, f: Forest, p: Link, end: Link, end': Link)
    requires Sized(l) && f != Nil && Distinct(f) && Rep(l, at, f, p, end)
    ensures LastId(f) < |l.next|
    ensures Rep(l.(next := l.next[LastId(f) := end']), at, f, p, end')
    decreases f
  {
    var c := LastId(f);
    if f.rest == Nil {
      var m := l.(next := l.next[c := end']);
      RepFrame(l, m, l.list[c], f.kids, Some(c), None);
    } else {
      RepCut(l, l.next[f.id], f.rest, p, end, end');
      var m := l.(next := l.next[c := end']);
      LastIn(f.rest);
      RepFrame(l, m, l.list[f.id], f.kids, Some(f.id), None);
    }
  }

  // ---- flattening ----

  /** What the surgery asks about a node. */
  datatype Nodes = Nodes(prompt: seq<bool>, kind: seq<Kind>)

  predicate IsIf(t: Nodes, i: Id) { i < |t.kind| && t.kind[i] == If }

  /** Nodes without a prompt do not keep children of their own, unless they are choices. */
  predicate Loose(t: Nodes, i: Id) {
    i < |t.prompt| && !t.prompt[i] && i < |t.kind| && t.kind[i] != Choice
  }

  function Flat(t: Nodes, f: Forest): Forest
    decreases Size(f)
  {
    match f
    case Nil => Nil
    case Node(i, k, r) =>
      AppendFacts(k, r);
      if k != Nil && Loose(t, i) then Node(i, Nil, Flat(t, Append(k, r))) else Node(i, k, Flat(t, r))
  }

  lemma {:induction false} FlatFacts(t: Nodes, f: Forest)
    ensures Preorder(Flat(t, f)) == Preorder(f) && Ids(Flat(t, f)) == Ids(f) && Size(Flat(t, f)) == Size(f)
    ensures Distinct(f) ==> Distinct(Flat(t, f))
    ensures First(Flat(t, f), None) == First(f, None)
    decreases Size(f)
  {
    match f {
      case Nil =>
      case Node(i, k, r) =>
        AppendFacts(k, r);
        if k != Nil && Loose(t, i) {
          FlatFacts(t, Append(k, r));
        } else {
          FlatFacts(t, r);
        }
    }
  }

  function Single(f: Forest): Forest
    requires f != Nil
  {
    Node(f.id, f.kids, Nil)
  }

  /** A node joins the nodes before it under their parent. */
  lemma AdoptStep(l: Links, first: Link, k1: Forest, k2: Forest, q: Link, p: Link)
    requires Sized(l) && k2 != Nil && Distinct(Append(k1, k2)) && k2.id < |l.next|
    requires Rep(l, first, k1, q, Some(k2.id)) && Rep(l, Some(k2.id), k2, p, None)
    ensures var m := l.(parent := l.parent[k2.id := q]);
            && l.next[k2.id] == First(k2.rest, None)
            && Rep(m, first, Append(k1, Single(k2)), q, First(k2.rest, None))
            && Rep(m, First(k2.rest, None), k2.rest, p, None)
  {
    var i, m := k2.id, l.(parent := l.parent[k2.id := q]);
    AppendFacts(k1, k2);
    RepFrame(l, m, first, k1, q, Some(i));
    RepFrame(l, m, l.list[i], k2.kids, Some(i), None);
    RepFrame(l, m, l.next[i], k2.rest, p, None);
    FirstOf(l, l.next[i], k2.rest, p, None);
    RepAppend(m, first, k1, Single(k2), q, First(k2.rest, None));
  }

  lemma FirstOf(l: Links, at: Link, f: Forest, p: Link, end: Link)
    requires Sized(l) && Rep(l, at, f, p, end)
    ensures at == First(f, end)
  {
  }

  /** Nothing but the links of these nodes differs. */
  ghost predicate Only(l: Links, m: Links, ids: set<Id>) {
    && Sized(l) && Sized(m) && |l.next| == |m.next|
    && forall i | 0 <= i < |l.next| && i !in ids ::
         l.next[i] == m.next[i] && l.list[i] == m.list[i] && l.parent[i] == m.parent[i]
  }

  /** Children that have their grandparent for parent take the place after their parent. */
  lemma FlattenStep(m: Links, i: Id, k: Forest, r: Forest, p: Link)
    requires Sized(m) && i < |m.next| && k != Nil && Distinct(Node(i, k, r)) && m.parent[i] == p
    requires Rep(m, m.list[i], k, p, None) && Rep(m, m.next[i], r, p, None)
    ensures LastId(k) < |m.next|
    ensures Rep(Links(m.next[LastId(k) := m.next[i]][i := m.list[i]], m.list[i := None], m.parent),
                Some(i), Node(i, Nil, Append(k, r)), p, None)
  {
    var last := LastId(k);
    RepCut(m, m.list[i], k, p, None, m.next[i]);
    LastIn(k);
    var m1 := m.(next := m.next[last := m.next[i]]);
    RepFrame(m, m1, m.next[i], r, p, None);
    FirstOf(m, m.next[i], r, p, None);
    RepAppend(m1, m.list[i], k, r, p, None);
    AppendFacts(k, r);
    var n := Links(m1.next[i := m.list[i]], m.list[i := None], m.parent);
    RepFrame(m1, n, m.list[i], Append(k, r), p, None);
  }

  class Tree {
    const t: Nodes
    /** Whether the second node depends on the first, once dependencies have been propagated to its level. */
    const depends: (Id, Id) -> bool
    var next: seq<Link>
    var list: seq<Link>
    var parent: seq<Link>

    ghost function L(): Links
      reads this
    {
      Links(next, list, parent)
    }

    constructor (t: Nodes, depends: (Id, Id) -> bool, next: seq<Link>, list: seq<Link>, parent: seq<Link>)
      ensures this.t == t && this.depends == depends && L() == Links(next, list, parent)
    {
      this.t, this.depends, this.next, this.list, this.parent := t, depends, next, list, parent;
    }

    /** Give a whole chain of siblings the parent q, and find its last node. */
    method Adopt(first: Id, q: Link, ghost k: Forest, ghost p: Link) returns (last: Id)
      requires Sized(L()) && k != Nil && Distinct(k) && Rep(L(), Some(first), k, p, None)
      modifies `parent
      ensures Sized(L()) && Rep(L(), Some(first), k, q, None) && last == LastId(k) && Only(old(L()), L(), Ids(k))
    {
      hide Rep, Distinct, LastId, Only;
      last := first;
      ghost var k1, k2 := Nil, k;
      FirstOf(L(), Some(first), k, p, None);
      HeadIn(L(), k, p, None);
      EmptyRep(L(), Some(first), q);
      OnlyNothing(L(), Ids(k));
      while true
        invariant Sized(L()) && k == Append(k1, k2) && k2 != Nil && last == k2.id < |next| && last in Ids(k)
        invariant Rep(L(), Some(first), k1, q, Some(last)) && Rep(L(), Some(last), k2, p, None)
        invariant Only(old(L()), L(), Ids(k))
        decreases Size(k2)
      {
        AdoptStep(L(), Some(first), k1, k2, q, p);
        OnlyParent(old(L()), L(), Ids(k), last, q);
        parent := parent[last := q];
        AppendAssoc(k1, Single(k2), k2.rest);
        if next[last] == None {
          AppendNil(Append(k1, Single(k2)));
          LastOfAppend(k1, k2);
          break;
        }
        last := next[last].id;
        k1, k2 := Append(k1, Single(k2)), k2.rest;
        HeadIn(L(), k2, p, None);
        AppendFacts(k1, k2);
      }
    }

    /** The children of a node are put after it. */
    method Splice(i: Id, ghost first: Link, ghost done: Forest, ghost todo: Forest, ghost p: Link)
      requires Walk(L(), first, done, todo, p) && todo != Nil && todo.id == i && todo.kids != Nil
      modifies `next, `list, `parent
      ensures Walk(L(), first, done, Node(i, Nil, Append(todo.kids, todo.rest)), p)
      ensures Only(old(L()), L(), Ids(todo))
    {
      hide Rep, LastId, Walk, Only, Distinct;
      ghost var l := L();
      WalkOn(l, first, done, todo, p);
      WalkDistinct(l, first, done, todo, p);
      var last := Adopt(list[i].id, parent[i], todo.kids, Some(i));
      SpliceStep(l, L(), first, done, todo, p);
      next := next[last := next[i]];
      next := next[i := list[i]];
      list := list[i := None];
    }

    /** Children of loose nodes are put after them, level with them. */
    method Flatten(first: Id, ghost f: Forest, ghost p: Link)
      requires f != Nil && Walk(L(), Some(first), Nil, f, p)
      modifies `next, `list, `parent
      ensures Sized(L()) && Rep(L(), Some(first), Flat(t, f), p, None) && Only(old(L()), L(), Ids(f))
    {
      hide Rep, Distinct, Flat, Walk, Only;
      var node := Some(first);
      ghost var done, todo := Nil, f;
      WalkStart(L(), Some(first), f, p);
      while node != None
        invariant Walk(L(), Some(first), done, todo, p) && node == First(todo, None)
        invariant Append(done, Flat(t, todo)) == Flat(t, f)
        invariant Only(old(L()), L(), Ids(f)) && Ids(todo) <= Ids(f)
        decreases Size(todo)
      {
        var i := node.id;
        WalkOn(L(), Some(first), done, todo, p);
        FlatUnfolds(t, done, todo);
        if list[i] != None && Loose(t, i) {
          ghost var l, was := L(), todo;
          Splice(i, Some(first), done, todo, p);
          OnlyMore(old(L()), l, L(), Ids(f), Ids(todo));
          todo := Node(i, Nil, Append(todo.kids, todo.rest));
          AppendFacts(was.kids, was.rest);
          WalkOn(L(), Some(first), done, todo, p);
        }
        done, todo := Append(done, Single(todo)), todo.rest;
        node := next[i];
      }
      WalkEnd(L(), Some(first), done, p);
    }

    /** Skip the 'if' nodes at the front of a chain. */
    method SkipIfs(at: Link, ghost f: Forest, ghost p: Link) returns (cur: Link, ghost g: Forest)
      requires Sized(L()) && Rep(L(), at, f, p, None)
      ensures cur == First(g, None) && Rep(L(), cur, g, p, None) && Drop(t, g) == Drop(t, f)
      ensures (g != Nil ==> !IsIf(t, g.id)) && Ids(g) <= Ids(f) && (Distinct(f) ==> Distinct(g)) && Size(g) <= Size(f)
    {
      cur, g := at, f;
      FirstOf(L(), at, f, p, None);
      while cur != None && IsIf(t, cur.id)
        invariant Sized(L()) && cur == First(g, None) && Rep(L(), cur, g, p, None) && Drop(t, g) == Drop(t, f)
        invariant Ids(g) <= Ids(f) && (Distinct(f) ==> Distinct(g)) && Size(g) <= Size(f)
        decreases Size(g)
      {
        cur := next[cur.id];
        g := g.rest;
        FirstOf(L(), cur, g, p, None);
      }
    }

    method RemoveIfs(node: Id, ghost f: Forest)
      requires Sized(L()) && node < |list| && node !in Ids(f) && Distinct(f)
      requires Rep(L(), list[node], f, Some(node), None)
      modifies `next, `list
      ensures Sized(L()) && |list| == old(|list|) && Rep(L(), list[node], Drop(t, f), Some(node), None)
      ensures Only(old(L()), L(), Ids(f) + {node}) && next[node] == old(next[node]) && parent[node] == old(parent[node])
    {
      hide Rep, Distinct, Walk, Only, Drop;
      ghost var p, ids := Some(node), Ids(f) + {node};
      ghost var done, todo := Nil, f;
      var cur;
      cur, todo := SkipIfs(list[node], f, p);
      HeadSet(L(), node, cur, todo, f, p);
      list := list[node := cur];
      while cur != None
        invariant Sized(L()) && |list| == old(|list|)
        invariant Walk(L(), list[node], done, todo, p) && cur == First(todo, None) && (todo != Nil ==> !IsIf(t, todo.id))
        invariant Append(done, Drop(t, todo)) == Drop(t, f) && Ids(todo) <= Ids(f)
        invariant Only(old(L()), L(), ids) && next[node] == old(next[node])
        decreases Size(todo)
      {
        ghost var l := L();
        WalkOn(l, list[node], done, todo, p);
        WalkDistinct(l, list[node], done, todo, p);
        var nxt;
        ghost var rest;
        nxt, rest := SkipIfs(next[cur.id], todo.rest, p);
        Relinked(l, list[node], done, todo, rest, p);
        DropUnfolds(t, done, todo, rest);
        next := next[cur.id := nxt];
        OnlyMore(old(L()), l, L(), ids, Ids(todo));
        WalkOn(L(), list[node], done, Node(todo.id, todo.kids, rest), p);
        done, todo := Append(done, Single(todo)), rest;
        cur := nxt;
      }
      DropNil(t);
      WalkEnd(L(), list[node], done, p);
    }

    /** Flatten the children of a node and drop the 'if' nodes among them. */
    method FinishLevel(node: Id, ghost k: Forest) returns (ghost done: Forest)
      requires NodesOk(t) && Sized(L()) && node < |list| && node !in Ids(k) && Distinct(k) && Settled(t, k)
      requires Rep(L(), list[node], k, Some(node), None)
      modifies `next, `list, `parent
      ensures Sized(L()) && |list| == old(|list|) && Rep(L(), list[node], done, Some(node), None)
      ensures Only(old(L()), L(), Ids(k) + {node}) && next[node] == old(next[node]) && parent[node] == old(parent[node])
      ensures Keeps(t, k, done) && Neat(t, done) && done == Drop(t, Flat(t, k))
    {
      hide Rep, Distinct, Only, Flat, Drop, Keep, Preorder, Neat, Settled, Tidy;
      FirstOf(L(), list[node], k, Some(node), None);
      LevelFacts(t, k);
      done := Drop(t, Flat(t, k));
      if list[node] != None {
        ghost var l := L();
        AsWalk(l, list[node], k, Some(node));
        Flatten(list[node].id, k, Some(node));
        ghost var m := L();
        Unaffected(l, m, Ids(k), node);
        FlatFacts(t, k);
        RemoveIfs(node, Flat(t, k));
        OnlyBoth(l, m, L(), Ids(k), node);
      } else {
        OnlyNothing(L(), Ids(k) + {node});
      }
    }

    /** Finalise the children of a node one after the other; a child may take its followers for children of its own. */
    method FinalizeChildren(node: Id, ghost k: Forest) returns (ghost g: Forest, ghost nested: Forest)
      requires NodesOk(t) && Sized(L()) && node < |list| && node !in Ids(k) && Distinct(k) && Raw(t, k)
      requires Rep(L(), list[node], k, Some(node), None)
      modifies `next, `list, `parent
      ensures Sized(L()) && |list| == old(|list|) && Rep(L(), list[node], g, Some(node), None)
      ensures Only(old(L()), L(), Ids(k)) && Keeps(t, k, g) && Settled(t, g)
      ensures g == Each(t, nested) && Nests(t, depends, k, nested, Nil)
      decreases Size(k), 3
    {
      hide Rep, Distinct, Walk, Only, Keeps, Raw, Settled, Neat, Each, Nests;
      ghost var p, done, todo := Some(node), Nil, k;
      nested := Nil;
      NestsNothing(t, depends, k);
      var cur := list[node];
      AsWalk(L(), cur, k, p);
      Fresh(t, L(), k);
      while cur != None
        invariant Sized(L()) && |list| == old(|list|) && list[node] == old(list[node])
        invariant Walk(L(), list[node], done, todo, p) && cur == First(todo, None)
        invariant Settled(t, done) && Raw(t, todo) && Keeps(t, k, Append(done, todo)) && Only(old(L()), L(), Ids(k))
        invariant Ids(todo) <= Ids(k) && Size(todo) <= Size(k)
        invariant done == Each(t, nested) && Nests(t, depends, k, nested, todo)
        decreases Size(todo)
      {
        ghost var l := L();
        WalkOn(l, list[node], done, todo, p);
        WalkDistinct(l, list[node], done, todo, p);
        ghost var one;
        g, one := FinalizeNode(cur.id, todo, p);
        NestsMore(t, depends, k, nested, todo, one);
        nested := Append(nested, Single(one));
        Unaffected(l, L(), Ids(todo), node);
        ChildDone(t, l, L(), list[node], done, todo, g, p, k);
        OnlyMore(old(L()), l, L(), Ids(k), Ids(todo));
        WalkOn(L(), list[node], done, g, p);
        cur := next[cur.id];
        done, todo := Append(done, Single(g)), g.rest;
      }
      WalkEnd(L(), list[node], done, p);
      g := done;
    }

    /** A symbol takes the nodes after it for its children, up to the first that does not depend on it. */
    method TakeDependents(node: Id, ghost f: Forest, ghost p: Link)
      returns (ghost taken: Forest, ghost todo: Forest, ghost nested: Forest)
      requires NodesOk(t) && Raw(t, f) && f != Nil && f.id == node && f.kids == Nil && Sized(L()) && Distinct(f)
      requires Rep(L(), Some(node), f, p, None)
      modifies `next, `list, `parent
      ensures Sized(L()) && |list| == old(|list|) && Rep(L(), Some(node), Node(node, taken, todo), p, None)
      ensures Only(old(L()), L(), Ids(f)) && Keeps(t, f, Node(node, taken, todo)) && Settled(t, taken) && Raw(t, todo)
      ensures (forall x | x in Heads(taken) :: depends(node, x)) && (todo != Nil ==> !depends(node, todo.id))
      ensures taken == Each(t, nested) && Nests(t, depends, f.rest, nested, todo)
      decreases Size(f), 1
    {
      hide Rep, Distinct, Only, Keeps, Raw, Settled, Neat, Tilt, Each, Nests;
      taken, todo, nested := Nil, f.rest, Nil;
      NestsNothing(t, depends, f.rest);
      var cur := node;
      TiltStart(t, L(), f, p);
      Fresh(t, L(), f);
      while true
        invariant Sized(L()) && |list| == old(|list|)
        invariant Tilt(L(), node, taken, todo, p, cur) && Settled(t, taken) && Raw(t, todo)
        invariant Keeps(t, f, Node(node, taken, todo)) && Only(old(L()), L(), Ids(f))
        invariant Ids(todo) <= Ids(f) && Size(todo) < Size(f)
        invariant forall x | x in Heads(taken) :: depends(node, x)
        invariant taken == Each(t, nested) && Nests(t, depends, f.rest, nested, todo)
        decreases Size(todo)
      {
        ghost var l := L();
        TiltNext(l, node, taken, todo, p, cur);
        if next[cur] == None || !depends(node, next[cur].id) {
          break;
        }
        ghost var g, one := FinalizeNode(next[cur].id, todo, p);
        NestsMore(t, depends, f.rest, nested, todo, one);
        nested := Append(nested, Single(one));
        Unaffected(l, L(), Ids(todo), cur);
        KeepsDistinct(t, todo, g);
        TiltStep(l, L(), node, taken, todo, g, p, cur);
        TakenOne(t, f, node, taken, todo, g);
        cur := next[cur].id;
        OnlyMore(old(L()), l, L(), Ids(f), Ids(todo));
        OnlyParent(old(L()), L(), Ids(f), cur, Some(node));
        parent := parent[cur := Some(node)];
        HeadsGrow(taken, g);
        taken, todo := Append(taken, Single(g)), g.rest;
      }
      KeepsDistinct(t, f, Node(node, taken, todo));
      TiltEnd(L(), node, taken, todo, p, cur, Ids(f), old(L()));
      if cur != node {
        list := list[node := next[node]];
        next := next[node := next[cur]];
        next := next[cur := None];
      }
    }

    /** Finalise a node and everything below it. */
    method FinalizeNode(node: Id, ghost f: Forest, ghost p: Link) returns (ghost g: Forest, ghost one: Forest)
      requires NodesOk(t) && Raw(t, f) && f != Nil && f.id == node && Sized(L()) && Distinct(f)
      requires Rep(L(), Some(node), f, p, None)
      modifies `next, `list, `parent
      ensures Sized(L()) && |list| == old(|list|) && Rep(L(), Some(node), g, p, None)
      ensures Only(old(L()), L(), Ids(f)) && Keeps(t, f, g)
      ensures g != Nil && g.id == node && Neat(t, g.kids) && Raw(t, g.rest)
      ensures if IsSym(t, node) then g.rest != Nil ==> !depends(node, g.rest.id) else g.rest == f.rest
      ensures one != Nil && one.id == node && g == Node(node, Done(t, one.kids), one.rest)
      ensures Nests(t, depends, f, Single(one), one.rest)
      decreases Size(f), 2
    {
      hide Distinct, Only, Keeps, Raw, Settled, Neat, Each, Nests;
      RawParts(t, f);
      DistinctParts(f);
      Fresh(t, L(), f);
      ghost var l := L();
      FirstOf(l, list[node], f.kids, Some(node), None);
      g := f;
      if IsSym(t, node) {
        ghost var taken, todo, nested := TakeDependents(node, f, p);
        g, one := Node(node, taken, todo), Node(node, nested, todo);
        NestsSymbol(t, depends, f, one);
      } else if list[node] != None {
        ghost var k, nested := FinalizeChildren(node, f.kids);
        KidsDone(t, l, L(), f, k, p);
        g, one := Node(node, k, f.rest), Node(node, nested, f.rest);
        NestsOther(t, depends, f, one);
      } else {
        NilSettled(t);
        NestsNothing(t, depends, Nil);
        one := f;
        NestsOther(t, depends, f, one);
      }
      ghost var m, g1 := L(), g;
      KeepsDistinct(t, f, g1);
      DistinctParts(g1);
      ghost var k := FinishLevel(node, g1.kids);
      KidsFinished(t, m, L(), g1, k, p);
      KeepsMore(t, f, g1, Node(node, k, g1.rest));
      OnlyMore(l, m, L(), Ids(f), Ids(g1));
      g := Node(node, k, g1.rest);
    }

    /** Up by parent links until a node with a next one is found, and on to that. */
    method Climb(at: Id, ghost at': Forest, ghost stack': seq<Forest>)
      returns (found: bool, node: Id, ghost cur: Forest, ghost stack: seq<Forest>)
      requires at' != Nil && At(L(), at', stack') && at == at'.id
      ensures found ==> cur != Nil && At(L(), cur, stack) && node == cur.id && Up(stack') == Preorder(cur) + Up(stack)
      ensures !found ==> Up(stack') == []
    {
      hide At, Up, Preorder;
      found, node, cur, stack := false, at, at', stack';
      AtNode(L(), cur, stack);
      while parent[node] != None
        invariant cur != Nil && At(L(), cur, stack) && node == cur.id < |next| == |parent| && parent[node] == Above(stack)
        invariant Up(stack') == Up(stack)
        decreases |stack|
      {
        Climbed(L(), cur, stack);
        node := parent[node].id;
        cur, stack := stack[0], stack[1..];
        AtNode(L(), cur, stack);
        if next[node] != None {
          return true, next[node].id, cur.rest, stack;
        }
      }
      NothingUp(stack);
    }

    /** The iterative walk over all nodes below the top: down, along, or up. */
    method NodeIter(top: Id, ghost kids: Forest) returns (visited: seq<Id>)
      requires Sized(L()) && Rep(L(), Some(top), Node(top, kids, Nil), None, None)
      ensures visited == Preorder(kids)
    {
      hide At, Up, Preorder, Ahead, Rep;
      visited := [];
      var node := top;
      ghost var cur, stack: seq<Forest> := Node(top, kids, Nil), [];
      AtTop(L(), top, kids);
      while true
        invariant cur != Nil && At(L(), cur, stack) && node == cur.id && Preorder(kids) == visited + Ahead(cur, stack)
        decreases |Ahead(cur, stack)|
      {
        ghost var ahead := Ahead(cur, stack);
        AtNode(L(), cur, stack);
        AheadFrom(cur, stack);
        if list[node] != None {
          node := list[node].id;
          cur, stack := cur.kids, [cur] + stack;
        } else if next[node] != None {
          node := next[node].id;
          cur := cur.rest;
        } else {
          var found;
          found, node, cur, stack := Climb(node, cur, stack);
          if !found {
            break;
          }
          AheadOf(cur, stack);
        }
        assert visited + ([node] + Ahead(cur, stack)) == visited + [node] + Ahead(cur, stack);
        visited := visited + [node];
      }
    }

    /** Up by parent links as before, telling the nodes that are left on the way, the top excepted. */
    method ClimbOut(at: Id, top: Id, ghost kids: Forest, ghost at': Forest, ghost stack': seq<Forest>)
      returns (found: bool, node: Id, left: seq<Event>, ghost cur: Forest, ghost stack: seq<Forest>)
      requires at' != Nil && At(L(), at', stack') && at == at'.id && Under(top, kids, at', stack')
      ensures found ==> cur != Nil && At(L(), cur, stack) && node == cur.id && Under(top, kids, cur, stack)
                        && TourUp(stack') == left + (Tour(cur) + TourUp(stack)) && |stack| > 0
      ensures !found ==> TourUp(stack') == left
    {
      hide At, TourUp, Tour, Under, Ids;
      found, node, left, cur, stack := false, at, [], at', stack';
      AtNode(L(), cur, stack);
      while parent[node] != None
        invariant cur != Nil && At(L(), cur, stack) && node == cur.id < |next| == |parent| && parent[node] == Above(stack)
        invariant Under(top, kids, cur, stack) && TourUp(stack') == left + TourUp(stack)
        decreases |stack|
      {
        Climbed(L(), cur, stack);
        LeftBehind(top, kids, cur, stack);
        node := parent[node].id;
        ghost var out := Exit(stack);
        cur, stack := stack[0], stack[1..];
        AtNode(L(), cur, stack);
        Joined(left, out, cur.rest, TourUp(stack));
        if node != top {
          left := left + [Leave(node)];
        }
        if next[node] != None {
          return true, next[node].id, left, cur.rest, stack;
        }
      }
      NoTourUp(stack);
    }

    /** The walk that writing a file makes: nodes as they are entered, and nodes with children as they are left. */
    method EventWalk(top: Id, ghost kids: Forest) returns (events: seq<Event>)
      requires Sized(L()) && Distinct(Node(top, kids, Nil)) && Rep(L(), Some(top), Node(top, kids, Nil), None, None)
      ensures events == Tour(kids)
    {
      hide At, TourUp, Tour, TourAhead, Rep, Under, Distinct;
      events := [];
      var node := top;
      ghost var cur, stack: seq<Forest> := Node(top, kids, Nil), [];
      AtTop(L(), top, kids);
      TourStart(top, kids);
      while true
        invariant cur != Nil && At(L(), cur, stack) && node == cur.id && Under(top, kids, cur, stack)
        invariant Tour(kids) == events + TourAhead(cur, stack)
        decreases |TourAhead(cur, stack)|
      {
        AtNode(L(), cur, stack);
        TourFrom(cur, stack);
        UnderFrom(top, kids, cur, stack);
        var left: seq<Event> := [];
        if list[node] != None {
          node := list[node].id;
          cur, stack := cur.kids, [cur] + stack;
        } else if next[node] != None {
          node := next[node].id;
          cur := cur.rest;
        } else {
          var found;
          found, node, left, cur, stack := ClimbOut(node, top, kids, cur, stack);
          if !found {
            events := events + left;
            break;
          }
          TourOf(cur, stack);
        }
        assert events + (left + ([Enter(node)] + TourAhead(cur, stack)))
            == events + left + [Enter(node)] + TourAhead(cur, stack);
        events := events + left + [Enter(node)];
      }
    }

    /** Menu finalisation keeps order and loses nothing: walking the finalised tree visits exactly the nodes of the
        parsed tree other than 'if' nodes, in the order in which they were parsed. And it nests them as it should: with
        implicit submenus taken, as far as each reaches, a node ends up below the nearest node above it that has a
        prompt or is a choice. */
    method FinalizeMenu(top: Id, ghost kids: Forest)
      returns (visited: seq<Id>, ghost done: Forest, ghost nested: Forest)
      requires NodesOk(t) && Raw(t, Node(top, kids, Nil)) && Sized(L()) && Distinct(Node(top, kids, Nil))
      requires !IsSym(t, top) && Rep(L(), Some(top), Node(top, kids, Nil), None, None) && |t.kind| == |next|
      modifies `next, `list, `parent
      ensures visited == Keep(t, Preorder(kids))
      ensures Sized(L()) && Rep(L(), Some(top), Node(top, done, Nil), None, None) && Neat(t, done)
      ensures Parsed(t, nested) == kids && Reaches(t, depends, nested, None)
      ensures forall x | x in Ids(kids) :: x < |t.kind| && (x in visited <==> t.kind[x] != If)
      ensures forall x | x in visited :: x < |parent| && Holds(t, nested, top, parent[x], x)
    {
      hide Rep, Preorder, Keep, Distinct, Raw, Neat, Only, Nests, Done;
      ghost var f := Node(top, kids, Nil);
      TopKids(L(), top, kids);
      ghost var g, one := FinalizeNode(top, f, None);
      AllBelow(t, f, g);
      done, nested := g.kids, one.kids;
      visited := NodeIter(top, done);
      NestedTop(t, depends, top, kids, one);
      VisitedNodes(t, kids, done, nested, visited);
      forall x | x in visited
        ensures x < |parent| && Holds(t, nested, top, parent[x], x)
      {
        HeldBy(t, L(), top, nested, x);
      }
    }
  }

  lemma HeadSet(l: Links, node: Id, cur: Link, todo: Forest, f: Forest, p: Link)
    requires Sized(l) && node < |l.list| && node !in Ids(f) && Ids(todo) <= Ids(f) && Distinct(todo)
    requires cur == First(todo, None) && Rep(l, cur, todo, p, None)
    ensures var m := l.(list := l.list[node := cur]);
            Walk(m, cur, Nil, todo, p) && Only(l, m, Ids(f) + {node})
  {
    var m := l.(list := l.list[node := cur]);
    assert Only(l, m, Ids(f) + {node});
    RepFrame(l, m, cur, todo, p, None);
    hide Ids, Distinct, Only;
  }

  lemma Relinked(l: Links, first: Link, done: Forest, todo: Forest, rest: Forest, p: Link)
    requires Walk(l, first, done, todo, p) && todo != Nil && todo.id < |l.next|
    requires Rep(l, First(rest, None), rest, p, None) && Ids(rest) <= Ids(todo.rest) && Distinct(rest)
    ensures var m := l.(next := l.next[todo.id := First(rest, None)]);
            Walk(m, first, done, Node(todo.id, todo.kids, rest), p) && Only(l, m, Ids(todo))
  {
    var m := l.(next := l.next[todo.id := First(rest, None)]);
    AppendFacts(done, todo);
    RepFrame(l, m, First(rest, None), rest, p, None);
    RepFrame(l, m, l.list[todo.id], todo.kids, Some(todo.id), None);
    WalkChanged(l, m, first, done, todo, Node(todo.id, todo.kids, rest), p);
  }

  lemma DropUnfolds(t: Nodes, done: Forest, todo: Forest, rest: Forest)
    requires todo != Nil && !IsIf(t, todo.id) && Drop(t, rest) == Drop(t, todo.rest)
    ensures Append(done, Drop(t, todo)) == Append(Append(done, Single(todo)), Drop(t, rest))
  {
    AppendAssoc(done, Single(todo), Drop(t, rest));
  }

  lemma DropNil(t: Nodes)
    ensures Drop(t, Nil) == Nil
  {
  }

  /** A node that is an 'if' has no prompt. */
  ghost predicate NodesOk(t: Nodes) {
    |t.prompt| == |t.kind| && forall i | 0 <= i < |t.kind| :: t.kind[i] == If ==> !t.prompt[i]
  }

  /** A finished level and all levels below it: no 'if' node, and no loose node with children. */
  ghost predicate Neat(t: Nodes, f: Forest) {
    f.Node? ==> !IsIf(t, f.id) && (Loose(t, f.id) ==> f.kids == Nil) && Neat(t, f.kids) && Neat(t, f.rest)
  }

  /** The nodes of this level are finalised: the levels below them are finished. */
  ghost predicate Settled(t: Nodes, f: Forest) {
    f.Node? ==> Neat(t, f.kids) && Settled(t, f.rest)
  }

  /** As parsed: symbols have no children yet. */
  ghost predicate Raw(t: Nodes, f: Forest) {
    f.Node? ==> (f.id < |t.kind| && t.kind[f.id] == Sym ==> f.kids == Nil) && Raw(t, f.kids) && Raw(t, f.rest)
  }

  /** g has the nodes of f in the same order, up to 'if' nodes. */
  ghost predicate Keeps(t: Nodes, f: Forest, g: Forest) {
    && Keep(t, Preorder(g)) == Keep(t, Preorder(f))
    && Ids(g) <= Ids(f) && Size(g) <= Size(f) && (Distinct(f) ==> Distinct(g))
  }

  lemma {:induction false} NeatSettled(t: Nodes, f: Forest)
    requires Neat(t, f)
    ensures Settled(t, f)
  {
    if f != Nil {
      NeatSettled(t, f.rest);
    }
  }

  lemma {:induction false} SettledAppend(t: Nodes, a: Forest, b: Forest)
    ensures Settled(t, Append(a, b)) <==> Settled(t, a) && Settled(t, b)
  {
    if a != Nil {
      SettledAppend(t, a.rest, b);
    }
  }

  lemma {:induction false} FlatSettled(t: Nodes, f: Forest)
    requires NodesOk(t) && Settled(t, f)
    ensures Settled(t, Flat(t, f)) && Tidy(t, Flat(t, f))
    decreases Size(f)
  {
    if f != Nil {
      AppendFacts(f.kids, f.rest);
      if f.kids != Nil && Loose(t, f.id) {
        NeatSettled(t, f.kids);
        SettledAppend(t, f.kids, f.rest);
        FlatSettled(t, Append(f.kids, f.rest));
      } else {
        FlatSettled(t, f.rest);
      }
    }
  }

  lemma {:induction false} DropClean(t: Nodes, f: Forest)
    requires Settled(t, f) && Tidy(t, f)
    ensures Neat(t, Drop(t, f))
  {
    if f != Nil {
      DropClean(t, f.rest);
    }
  }

  lemma LevelFacts(t: Nodes, k: Forest)
    requires NodesOk(t) && Settled(t, k) && Distinct(k)
    ensures var g := Drop(t, Flat(t, k));
            Keeps(t, k, g) && Neat(t, g) && (k == Nil ==> g == Nil)
  {
    hide Keep, Preorder, Distinct, Tidy, Settled;
    FlatFacts(t, k);
    FlatSettled(t, k);
    DropFacts(t, Flat(t, k));
    DropClean(t, Flat(t, k));
  }

  lemma AsWalk(l: Links, at: Link, f: Forest, p: Link)
    requires Sized(l) && Distinct(f) && Rep(l, at, f, p, None)
    ensures Walk(l, at, Nil, f, p) && at == First(f, None)
  {
  }

  lemma Unaffected(l: Links, m: Links, ids: set<Id>, i: Id)
    requires Only(l, m, ids) && i !in ids && i < |l.next|
    ensures Sized(m) && |m.next| == |l.next|
    ensures m.next[i] == l.next[i] && m.list[i] == l.list[i] && m.parent[i] == l.parent[i]
  {
  }

  lemma OnlyBoth(l: Links, m: Links, n: Links, ids: set<Id>, i: Id)
    requires Only(l, m, ids) && Only(m, n, ids + {i})
    ensures Only(l, n, ids + {i})
  {
  }

  predicate IsSym(t: Nodes, i: Id) { i < |t.kind| && t.kind[i] == Sym }

  lemma RawParts(t: Nodes, f: Forest)
    requires f != Nil && Raw(t, f)
    ensures (IsSym(t, f.id) ==> f.kids == Nil) && Raw(t, f.kids) && Raw(t, f.rest)
  {
  }

  lemma DistinctParts(f: Forest)
    requires f != Nil && Distinct(f)
    ensures f.id !in Ids(f.kids) && Distinct(f.kids) && Distinct(f.rest)
  {
  }

  lemma Fresh(t: Nodes, l: Links, f: Forest)
    requires Sized(l)
    ensures Keeps(t, f, f) && Only(l, l, Ids(f)) && Settled(t, Nil) && Append(Nil, f) == f
    ensures f != Nil ==> Size(f.rest) < Size(f) && Ids(f.rest) <= Ids(f)
  {
  }

  lemma NilSettled(t: Nodes)
    ensures Settled(t, Nil)
  {
  }

  lemma KeepsDistinct(t: Nodes, f: Forest, g: Forest)
    requires Keeps(t, f, g) && Distinct(f)
    ensures Distinct(g) && Ids(g) <= Ids(f) && Size(g) <= Size(f)
  {
  }

  lemma KeepsMore(t: Nodes, f: Forest, g: Forest, h: Forest)
    requires Keeps(t, f, g) && Keeps(t, g, h)
    ensures Keeps(t, f, h) && Ids(g) <= Ids(f)
  {
  }

  lemma KeepsKids(t: Nodes, f: Forest, k: Forest)
    requires f != Nil && Keeps(t, f.kids, k)
    ensures Keeps(t, f, Node(f.id, k, f.rest))
  {
    hide Keep, Preorder;
    KeepNode(t, f);
    KeepNode(t, Node(f.id, k, f.rest));
  }

  lemma {:induction false} KeepsBehind(t: Nodes, a: Forest, f: Forest, g: Forest)
    requires Keeps(t, f, g)
    ensures Keeps(t, Append(a, f), Append(a, g))
  {
    hide Keep, Preorder;
    AppendFacts(a, f);
    AppendFacts(a, g);
    KeepAppend(t, Preorder(a), Preorder(f));
    KeepAppend(t, Preorder(a), Preorder(g));
  }

  lemma KidsDone(t: Nodes, l: Links, m: Links, f: Forest, k: Forest, p: Link)
    requires Sized(l) && f != Nil && Distinct(f) && Rep(l, Some(f.id), f, p, None) && Only(l, m, Ids(f.kids))
    requires Keeps(t, f.kids, k) && Rep(m, m.list[f.id], k, Some(f.id), None)
    ensures Rep(m, Some(f.id), Node(f.id, k, f.rest), p, None) && Only(l, m, Ids(f)) && Keeps(t, f, Node(f.id, k, f.rest))
  {
    hide Keeps;
    RepFrame(l, m, l.next[f.id], f.rest, p, None);
    KeepsKids(t, f, k);
  }

  lemma KidsFinished(t: Nodes, l: Links, m: Links, f: Forest, k: Forest, p: Link)
    requires Sized(l) && f != Nil && Distinct(f) && Rep(l, Some(f.id), f, p, None) && Only(l, m, Ids(f.kids) + {f.id})
    requires m.next[f.id] == l.next[f.id] && m.parent[f.id] == l.parent[f.id]
    requires Keeps(t, f.kids, k) && Rep(m, m.list[f.id], k, Some(f.id), None)
    ensures Rep(m, Some(f.id), Node(f.id, k, f.rest), p, None) && Only(l, m, Ids(f)) && Keeps(t, f, Node(f.id, k, f.rest))
  {
    hide Keeps;
    RepFrame(l, m, l.next[f.id], f.rest, p, None);
    KeepsKids(t, f, k);
  }

  /** One more child of a level is finalised. */
  lemma ChildDone(t: Nodes, l: Links, m: Links, first: Link, done: Forest, todo: Forest, g: Forest, p: Link, k: Forest)
    requires Walk(l, first, done, todo, p) && todo != Nil && Only(l, m, Ids(todo)) && g != Nil && g.id == todo.id
    requires Rep(m, Some(g.id), g, p, None) && Keeps(t, todo, g) && Distinct(todo) && Neat(t, g.kids)
    requires Settled(t, done) && Keeps(t, k, Append(done, todo))
    ensures Walk(m, first, done, g, p) && Settled(t, Append(done, Single(g)))
    ensures Keeps(t, k, Append(Append(done, Single(g)), g.rest))
    ensures Ids(g.rest) <= Ids(todo) && Size(g.rest) < Size(todo)
  {
    WalkChanged(l, m, first, done, todo, g, p);
    KeepsBehind(t, done, todo, g);
    AppendAssoc(done, Single(g), g.rest);
    SettledAppend(t, done, Single(g));
  }

  /** A symbol on its way to an implicit submenu: the nodes taken already have it for parent, the last of them or the
      symbol itself is cur, and the nodes after that are as they were. */
  ghost predicate Tilt(l: Links, node: Id, taken: Forest, todo: Forest, p: Link, cur: Id) {
    && Sized(l) && node < |l.next| && Distinct(Node(node, taken, todo))
    && l.parent[node] == p && l.list[node] == None
    && Rep(l, l.next[node], taken, Some(node), First(todo, None)) && Rep(l, First(todo, None), todo, p, None)
    && cur == if taken == Nil then node else LastId(taken)
  }

  lemma TiltStart(t: Nodes, l: Links, f: Forest, p: Link)
    requires Sized(l) && f != Nil && f.kids == Nil && Distinct(f) && Raw(t, f) && Rep(l, Some(f.id), f, p, None)
    ensures Tilt(l, f.id, Nil, f.rest, p, f.id) && Raw(t, f.rest) && f == Node(f.id, Nil, f.rest)
  {
    FirstOf(l, l.next[f.id], f.rest, p, None);
  }

  lemma {:induction false} RepLast(l: Links, at: Link, f: Forest, p: Link, end: Link)
    requires Sized(l) && f != Nil && Rep(l, at, f, p, end)
    ensures LastId(f) < |l.next| && l.next[LastId(f)] == end
    decreases f
  {
    if f.rest != Nil {
      RepLast(l, l.next[f.id], f.rest, p, end);
    }
  }

  lemma TiltNext(l: Links, node: Id, taken: Forest, todo: Forest, p: Link, cur: Id)
    requires Tilt(l, node, taken, todo, p, cur)
    ensures Sized(l) && cur < |l.next| && l.next[cur] == First(todo, None) && Distinct(todo) && cur !in Ids(todo)
    ensures Rep(l, First(todo, None), todo, p, None)
  {
    if taken != Nil {
      RepLast(l, l.next[node], taken, Some(node), First(todo, None));
      LastIn(taken);
    }
  }

  lemma TiltDistinct(node: Id, taken: Forest, todo: Forest, g: Forest)
    requires Distinct(Node(node, taken, todo)) && g != Nil && Ids(g) <= Ids(todo) && Distinct(g)
    ensures Distinct(Node(node, Append(taken, Single(g)), g.rest)) && Distinct(Append(taken, g))
    ensures node !in Ids(todo) && node != g.id
    ensures Ids(Node(node, Append(taken, Single(g)), g.rest)) <= Ids(Node(node, taken, todo))
  {
    AppendFacts(taken, g);
    AppendFacts(taken, Single(g));
  }

  lemma TiltStep(l: Links, m: Links, node: Id, taken: Forest, todo: Forest, g: Forest, p: Link, cur: Id)
    requires todo != Nil && Tilt(l, node, taken, todo, p, cur)
    requires Only(l, m, Ids(todo)) && g != Nil && g.id == todo.id && Rep(m, Some(g.id), g, p, None)
    requires Ids(g) <= Ids(todo) && Distinct(g)
    ensures g.id < |m.parent| && g.id in Ids(todo)
    ensures Tilt(m.(parent := m.parent[g.id := Some(node)]), node, Append(taken, Single(g)), g.rest, p, g.id)
  {
    hide LastId;
    TiltDistinct(node, taken, todo, g);
    HeadIn(m, g, p, None);
    Unaffected(l, m, Ids(todo), node);
    TakenFrame(l, m, node, taken, todo);
    hide Rep, Distinct, Only;
    AdoptStep(m, m.next[node], taken, g, Some(node), p);
    LastOfAppend(taken, Single(g));
  }

  lemma TakenFrame(l: Links, m: Links, node: Id, taken: Forest, todo: Forest)
    requires todo != Nil && Only(l, m, Ids(todo)) && Distinct(Node(node, taken, todo)) && node < |l.next|
    requires Rep(l, l.next[node], taken, Some(node), Some(todo.id))
    ensures Rep(m, l.next[node], taken, Some(node), Some(todo.id))
  {
    RepFrame(l, m, l.next[node], taken, Some(node), Some(todo.id));
  }

  lemma TakenOne(t: Nodes, f: Forest, node: Id, taken: Forest, todo: Forest, g: Forest)
    requires Keeps(t, f, Node(node, taken, todo)) && Keeps(t, todo, g) && g != Nil && Settled(t, taken) && Neat(t, g.kids)
    ensures Keeps(t, f, Node(node, Append(taken, Single(g)), g.rest)) && Settled(t, Append(taken, Single(g)))
    ensures Ids(g.rest) <= Ids(todo) && Size(g.rest) < Size(todo)
  {
    hide Keep, Preorder, Distinct;
    var a, b := Node(node, taken, todo), Node(node, Append(taken, Single(g)), g.rest);
    SettledAppend(t, taken, Single(g));
    KeepMoved(t, node, taken, todo, g);
    AppendFacts(taken, Single(g));
    if Distinct(a) {
      DistinctParts(a);
      TiltDistinct(node, taken, todo, g);
    }
  }

  lemma KeepMoved(t: Nodes, node: Id, taken: Forest, todo: Forest, g: Forest)
    requires g != Nil && Keep(t, Preorder(g)) == Keep(t, Preorder(todo))
    ensures Keep(t, Preorder(Node(node, Append(taken, Single(g)), g.rest))) == Keep(t, Preorder(Node(node, taken, todo)))
  {
    hide Keep, Preorder, Distinct, Ids, Size;
    KeepNode(t, Node(node, taken, todo));
    KeepNode(t, Node(node, Append(taken, Single(g)), g.rest));
    KeepNode(t, g);
    KeepNode(t, Single(g));
    KeepNil(t);
    AppendFacts(taken, Single(g));
    KeepAppend(t, Preorder(taken), Preorder(Single(g)));
    Regroup(Keep(t, [node]), Keep(t, Preorder(taken)), Keep(t, [g.id]), Keep(t, Preorder(g.kids)),
            Keep(t, Preorder(g.rest)));
  }

  lemma Regroup(n: seq<Id>, x: seq<Id>, h: seq<Id>, y: seq<Id>, z: seq<Id>)
    ensures n + (x + (h + (y + [])) + z) == n + (x + (h + (y + z)))
  {
  }

  lemma KeepNil(t: Nodes)
    ensures Keep(t, Preorder(Nil)) == []
  {
  }

  lemma TiltEnd(l: Links, node: Id, taken: Forest, todo: Forest, p: Link, cur: Id, ids: set<Id>, l0: Links)
    requires Tilt(l, node, taken, todo, p, cur) && Only(l0, l, ids) && node in ids && Ids(taken) <= ids
    ensures cur < |l.next| && (cur == node <==> taken == Nil)
    ensures cur == node ==> Rep(l, Some(node), Node(node, taken, todo), p, None)
    ensures cur != node ==>
              var n := Links(l.next[node := l.next[cur]][cur := None], l.list[node := l.next[node]], l.parent);
              Rep(n, Some(node), Node(node, taken, todo), p, None) && Only(l0, n, ids)
  {
    TiltNext(l, node, taken, todo, p, cur);
    if taken != Nil {
      LastIn(taken);
      RepCut(l, l.next[node], taken, Some(node), First(todo, None), None);
      var m := l.(next := l.next[cur := None]);
      var n := Links(l.next[node := l.next[cur]][cur := None], l.list[node := l.next[node]], l.parent);
      RepFrame(m, n, l.next[node], taken, Some(node), None);
      RepFrame(l, n, First(todo, None), todo, p, None);
    }
  }

  // ---- walking the tree ----

  function Above(stack: seq<Forest>): Link { if stack == [] || stack[0] == Nil then None else Some(stack[0].id) }

  /** The walk is at the node cur, with the nodes above it on the stack, nearest first. */
  ghost predicate At(l: Links, cur: Forest, stack: seq<Forest>)
    decreases |stack|
  {
    && Sized(l) && cur != Nil && Rep(l, Some(cur.id), cur, Above(stack), None)
    && (stack != [] ==> At(l, stack[0], stack[1..]))
  }

  /** What is left to visit after everything below the top of the stack. */
  function Up(stack: seq<Forest>): seq<Id> {
    if stack == [] || stack[0] == Nil then [] else Preorder(stack[0].rest) + Up(stack[1..])
  }

  function Ahead(cur: Forest, stack: seq<Forest>): seq<Id>
    requires cur != Nil
  {
    Preorder(cur.kids) + (Preorder(cur.rest) + Up(stack))
  }

  lemma AtTop(l: Links, top: Id, kids: Forest)
    requires Sized(l) && Rep(l, Some(top), Node(top, kids, Nil), None, None)
    ensures At(l, Node(top, kids, Nil), []) && [] + Ahead(Node(top, kids, Nil), []) == Preorder(kids)
  {
  }

  lemma AheadOf(cur: Forest, stack: seq<Forest>)
    requires cur != Nil
    ensures Preorder(cur) + Up(stack) == [cur.id] + Ahead(cur, stack)
  {
  }

  /** The links of the current node, and where they lead. */
  lemma AtNode(l: Links, cur: Forest, stack: seq<Forest>)
    requires At(l, cur, stack)
    ensures Sized(l) && cur != Nil && cur.id < |l.next| && l.parent[cur.id] == Above(stack)
    ensures l.list[cur.id] == First(cur.kids, None) && l.next[cur.id] == First(cur.rest, None)
    ensures cur.kids != Nil ==> At(l, cur.kids, [cur] + stack)
    ensures cur.rest != Nil ==> At(l, cur.rest, stack)
  {
    NodeOf(l, cur, Above(stack));
    hide Rep;
    assert ([cur] + stack)[1..] == stack;
  }

  /** What comes next is the first child, or else the next node, or else whatever is found further up. */
  lemma AheadFrom(cur: Forest, stack: seq<Forest>)
    requires cur != Nil
    ensures cur.kids != Nil ==> Ahead(cur, stack) == [cur.kids.id] + Ahead(cur.kids, [cur] + stack)
    ensures cur.kids == Nil && cur.rest != Nil ==> Ahead(cur, stack) == [cur.rest.id] + Ahead(cur.rest, stack)
    ensures cur.kids == Nil && cur.rest == Nil ==> Ahead(cur, stack) == Up(stack)
  {
    NoNodes();
    if cur.kids != Nil {
      assert ([cur] + stack)[1..] == stack;
      PreorderNode(cur.kids);
      hide Preorder;
      var a, b, c, d := Preorder(cur.kids.kids), Preorder(cur.kids.rest), Preorder(cur.rest), Up(stack);
      assert [cur.kids.id] + (a + b) + (c + d) == [cur.kids.id] + (a + (b + (c + d)));
    } else if cur.rest != Nil {
      PreorderNode(cur.rest);
      hide Preorder;
      var a, b, d := Preorder(cur.rest.kids), Preorder(cur.rest.rest), Up(stack);
      assert [] + ([cur.rest.id] + (a + b) + d) == [cur.rest.id] + (a + (b + d));
    }
  }

  lemma Climbed(l: Links, cur: Forest, stack: seq<Forest>)
    requires At(l, cur, stack) && stack != []
    ensures At(l, stack[0], stack[1..]) && Above(stack) == Some(stack[0].id)
    ensures Up(stack) == Preorder(stack[0].rest) + Up(stack[1..])
    ensures stack[0].rest == Nil ==> Up(stack) == Up(stack[1..])
  {
    hide Rep;
  }

  lemma NothingUp(stack: seq<Forest>)
    requires Above(stack) == None
    ensures Up(stack) == []
  {
  }

  lemma NodeOf(l: Links, f: Forest, p: Link)
    requires Sized(l) && f != Nil && Rep(l, Some(f.id), f, p, None)
    ensures f.id < |l.next| && l.parent[f.id] == p
    ensures l.list[f.id] == First(f.kids, None) && l.next[f.id] == First(f.rest, None)
    ensures f.kids != Nil ==> Rep(l, Some(f.kids.id), f.kids, Some(f.id), None)
    ensures f.rest != Nil ==> Rep(l, Some(f.rest.id), f.rest, p, None)
  {
    FirstOf(l, l.list[f.id], f.kids, Some(f.id), None);
    FirstOf(l, l.next[f.id], f.rest, p, None);
  }

  lemma NoNodes()
    ensures Preorder(Nil) == []
  {
  }

  lemma PreorderNode(f: Forest)
    requires f != Nil
    ensures Preorder(f) == [f.id] + (Preorder(f.kids) + Preorder(f.rest))
  {
  }

  // ---- walking with farewells ----

  datatype Event = Enter(id: Id) | Leave(id: Id)

  /** A node is entered, its children are toured, and then it is left, if it has any; the next node follows. */
  function Tour(f: Forest): seq<Event> {
    match f
    case Nil => []
    case Node(i, k, r) => [Enter(i)] + (Tour(k) + ((if k != Nil then [Leave(i)] else []) + Tour(r)))
  }

  function OneOf(e: Event, entered: bool): seq<Id> { if e.Enter? == entered then [e.id] else [] }

  /** The nodes entered, or those left, in order. */
  function Those(es: seq<Event>, entered: bool): seq<Id> {
    if es == [] then [] else OneOf(es[0], entered) + Those(es[1..], entered)
  }

  /** The nodes with children, each after all that is below it. */
  function InnerPostorder(f: Forest): seq<Id> {
    match f
    case Nil => []
    case Node(i, k, r) => InnerPostorder(k) + ((if k != Nil then [i] else []) + InnerPostorder(r))
  }

  lemma ThoseFrom(e: Event, es: seq<Event>, entered: bool)
    ensures Those([e] + es, entered) == OneOf(e, entered) + Those(es, entered)
  {
    assert ([e] + es)[1..] == es;
  }

  lemma {:induction false} ThoseOfTwo(a: seq<Event>, b: seq<Event>, entered: bool)
    ensures Those(a + b, entered) == Those(a, entered) + Those(b, entered)
  {
    if a == [] {
      assert a + b == b;
    } else {
      hide Those, OneOf;
      ThoseFrom(a[0], a[1..], entered);
      ThoseFrom(a[0], a[1..] + b, entered);
      ThoseOfTwo(a[1..], b, entered);
      assert [a[0]] + a[1..] == a && [a[0]] + (a[1..] + b) == a + b;
      ThreeParts(OneOf(a[0], entered), Those(a[1..], entered), Those(b, entered));
    }
  }

  lemma ThreeParts(x: seq<Id>, y: seq<Id>, z: seq<Id>)
    ensures x + (y + z) == x + y + z
  {
  }

  /** The nodes are entered in the order of a plain walk, and those with children are left in postorder. */
  lemma {:induction false} TourVisits(f: Forest, entered: bool)
    ensures Those(Tour(f), entered) == if entered then Preorder(f) else InnerPostorder(f)
  {
    if f != Nil {
      TourVisits(f.kids, entered);
      TourVisits(f.rest, entered);
      var a, b, c := Tour(f.kids), if f.kids != Nil then [Leave(f.id)] else [], Tour(f.rest);
      LeftOnce(f, entered);
      assert Tour(f) == [Enter(f.id)] + (a + (b + c));
      hide Those, Tour;
      ThoseFrom(Enter(f.id), a + (b + c), entered);
      ThoseOfTwo(a, b + c, entered);
      ThoseOfTwo(b, c, entered);
    }
  }

  lemma LeftOnce(f: Forest, entered: bool)
    requires f != Nil
    ensures Those(if f.kids != Nil then [Leave(f.id)] else [], entered) == if !entered && f.kids != Nil then [f.id] else []
  {
    ThoseFrom(Leave(f.id), [], entered);
    assert [Leave(f.id)] + [] == [Leave(f.id)];
  }

  /** Leaving the nearest node of the stack, unless that is the top. */
  function Exit(stack: seq<Forest>): seq<Event> {
    if |stack| > 1 && stack[0] != Nil then [Leave(stack[0].id)] else []
  }

  function TourUp(stack: seq<Forest>): seq<Event> {
    if stack == [] || stack[0] == Nil then [] else Exit(stack) + (Tour(stack[0].rest) + TourUp(stack[1..]))
  }

  function TourAhead(cur: Forest, stack: seq<Forest>): seq<Event>
    requires cur != Nil
  {
    Tour(cur.kids) + ((if cur.kids != Nil && stack != [] then [Leave(cur.id)] else []) + (Tour(cur.rest) + TourUp(stack)))
  }

  /** cur is the top, or somewhere among its descendants, of which the top is none. */
  ghost predicate Under(top: Id, kids: Forest, cur: Forest, stack: seq<Forest>)
    decreases |stack|
  {
    && top !in Ids(kids) && cur != Nil
    && if stack == [] then cur == Node(top, kids, Nil)
       else Ids(cur) <= Ids(kids) && Under(top, kids, stack[0], stack[1..])
  }

  lemma TourStart(top: Id, kids: Forest)
    requires Distinct(Node(top, kids, Nil))
    ensures Under(top, kids, Node(top, kids, Nil), []) && [] + TourAhead(Node(top, kids, Nil), []) == Tour(kids)
  {
  }

  lemma TourOf(cur: Forest, stack: seq<Forest>)
    requires cur != Nil && stack != []
    ensures Tour(cur) + TourUp(stack) == [Enter(cur.id)] + TourAhead(cur, stack)
  {
    var a, b, c, d := Tour(cur.kids), if cur.kids != Nil then [Leave(cur.id)] else [], Tour(cur.rest), TourUp(stack);
    assert Tour(cur) == [Enter(cur.id)] + (a + (b + c));
    hide Tour, TourUp;
    FlatTour([Enter(cur.id)], a, b, c, d);
  }

  lemma FlatTour(x: seq<Event>, a: seq<Event>, b: seq<Event>, c: seq<Event>, d: seq<Event>)
    ensures x + (a + (b + c)) + d == x + (a + (b + (c + d)))
  {
  }

  lemma TourFrom(cur: Forest, stack: seq<Forest>)
    requires cur != Nil
    ensures cur.kids != Nil ==> TourAhead(cur, stack) == [] + ([Enter(cur.kids.id)] + TourAhead(cur.kids, [cur] + stack))
    ensures cur.kids == Nil && cur.rest != Nil && stack != [] ==>
              TourAhead(cur, stack) == [] + ([Enter(cur.rest.id)] + TourAhead(cur.rest, stack))
    ensures cur.kids == Nil && cur.rest == Nil ==> TourAhead(cur, stack) == TourUp(stack)
  {
    assert Tour(Nil) == [];
    if cur.kids != Nil {
      var up := [cur] + stack;
      assert up[1..] == stack && up[0] == cur;
      assert TourUp(up) == Exit(up) + (Tour(cur.rest) + TourUp(stack));
      TourOf(cur.kids, up);
      hide Tour, TourUp;
    } else if cur.rest != Nil && stack != [] {
      TourOf(cur.rest, stack);
      hide Tour, TourUp;
    }
  }

  lemma UnderFrom(top: Id, kids: Forest, cur: Forest, stack: seq<Forest>)
    requires Under(top, kids, cur, stack)
    ensures cur.kids != Nil ==> Under(top, kids, cur.kids, [cur] + stack)
    ensures cur.rest != Nil ==> stack != [] && Under(top, kids, cur.rest, stack)
  {
    assert ([cur] + stack)[1..] == stack;
  }

  lemma LeftBehind(top: Id, kids: Forest, cur: Forest, stack: seq<Forest>)
    requires Under(top, kids, cur, stack) && stack != []
    ensures stack[0] != Nil && Under(top, kids, stack[0], stack[1..])
    ensures Exit(stack) == if stack[0].id != top then [Leave(stack[0].id)] else []
    ensures TourUp(stack) == Exit(stack) + (Tour(stack[0].rest) + TourUp(stack[1..]))
    ensures stack[0].rest != Nil ==> |stack[1..]| > 0 && Under(top, kids, stack[0].rest, stack[1..])
  {
  }

  lemma Joined(left: seq<Event>, out: seq<Event>, rest: Forest, up: seq<Event>)
    ensures left + (out + (Tour(rest) + up)) == left + out + (Tour(rest) + up)
    ensures rest == Nil ==> left + out + (Tour(rest) + up) == left + out + up
    ensures out == [] ==> left + out == left
  {
  }

  lemma NoTourUp(stack: seq<Forest>)
    requires Above(stack) == None
    ensures TourUp(stack) == []
  {
  }

  lemma {:induction false} KeepAll(t: Nodes, f: Forest)
    requires Neat(t, f)
    ensures Keep(t, Preorder(f)) == Preorder(f)
  {
    if f != Nil {
      KeepAll(t, f.kids);
      KeepAll(t, f.rest);
      KeepNode(t, f);
    }
  }

  lemma AllBelow(t: Nodes, f: Forest, g: Forest)
    requires f != Nil && g != Nil && f.rest == g.rest == Nil && g.id == f.id && Neat(t, g.kids) && Keeps(t, f, g)
    ensures Preorder(g.kids) == Keep(t, Preorder(f.kids))
  {
    hide Keep, Preorder, Neat, Distinct;
    KeepNode(t, f);
    KeepNode(t, g);
    KeepAll(t, g.kids);
    KeepNil(t);
    var h, x, y := Keep(t, [f.id]), Keep(t, Preorder(f.kids)), Keep(t, Preorder(g.kids));
    assert x == (h + (x + []))[|h|..] && y == (h + (y + []))[|h|..];
  }

  /** The state of a walk along a level: the nodes before and from the current one. */
  ghost predicate Walk(l: Links, first: Link, done: Forest, todo: Forest, p: Link) {
    && Sized(l) && Distinct(Append(done, todo))
    && Rep(l, first, done, p, First(todo, None)) && Rep(l, First(todo, None), todo, p, None)
  }

  lemma WalkStart(l: Links, first: Link, f: Forest, p: Link)
    ensures Walk(l, first, Nil, f, p) ==> first == First(f, None)
    ensures Only(l, l, Ids(f)) <==> Sized(l)
    ensures Walk(l, first, Nil, f, p) ==> Sized(l)
  {
  }

  function SplicedLinks(m: Links, i: Id, last: Id): Links
    requires Sized(m) && i < |m.next| && last < |m.next|
  {
    Links(m.next[last := m.next[i]][i := m.list[i]], m.list[i := None], m.parent)
  }

  lemma SplicedRep(l: Links, m: Links, todo: Forest, p: Link)
    requires Sized(l) && todo != Nil && todo.kids != Nil && Distinct(todo) && Rep(l, Some(todo.id), todo, p, None)
    requires Only(l, m, Ids(todo.kids)) && Rep(m, l.list[todo.id], todo.kids, p, None)
    ensures Sized(m) && todo.id < |m.next| && LastId(todo.kids) < |m.next| && m.list[todo.id] == l.list[todo.id]
    ensures Rep(SplicedLinks(m, todo.id, LastId(todo.kids)), Some(todo.id),
                Node(todo.id, Nil, Append(todo.kids, todo.rest)), p, None)
  {
    Unaffected(l, m, Ids(todo.kids), todo.id);
    RepFrame(l, m, l.next[todo.id], todo.rest, p, None);
    FlattenStep(m, todo.id, todo.kids, todo.rest, p);
  }

  lemma SplicedOnly(l: Links, m: Links, todo: Forest, last: Id)
    requires todo != Nil && Only(l, m, Ids(todo.kids)) && last in Ids(todo.kids) && last < |m.next| && todo.id < |m.next|
    ensures Only(l, SplicedLinks(m, todo.id, last), Ids(todo))
  {
  }

  lemma SpliceStep(l: Links, m: Links, first: Link, done: Forest, todo: Forest, p: Link)
    requires Walk(l, first, done, todo, p) && todo != Nil && todo.kids != Nil && todo.id < |l.next|
    requires Only(l, m, Ids(todo.kids)) && Rep(m, l.list[todo.id], todo.kids, p, None)
    ensures Sized(m) && todo.id < |m.next| && LastId(todo.kids) < |m.next| && m.list[todo.id] == l.list[todo.id]
    ensures var n := SplicedLinks(m, todo.id, LastId(todo.kids));
            Walk(n, first, done, Node(todo.id, Nil, Append(todo.kids, todo.rest)), p) && Only(l, n, Ids(todo))
  {
    hide LastId, Rep, Only, SplicedLinks, Walk;
    WalkDistinct(l, first, done, todo, p);
    SplicedRep(l, m, todo, p);
    LastIn(todo.kids);
    SplicedOnly(l, m, todo, LastId(todo.kids));
    AppendFacts(todo.kids, todo.rest);
    WalkChanged(l, SplicedLinks(m, todo.id, LastId(todo.kids)), first, done, todo,
                Node(todo.id, Nil, Append(todo.kids, todo.rest)), p);
  }

  lemma WalkEnd(l: Links, first: Link, done: Forest, p: Link)
    requires Walk(l, first, done, Nil, p)
    ensures Sized(l) && Rep(l, first, done, p, None) && Append(done, Nil) == done
    ensures forall t :: Flat(t, Nil) == Nil
  {
    AppendNil(done);
  }

  lemma WalkDistinct(l: Links, first: Link, done: Forest, todo: Forest, p: Link)
    requires Walk(l, first, done, todo, p) && todo != Nil
    ensures Sized(l) && Distinct(todo)
    ensures Rep(l, l.next[todo.id], todo.rest, p, None) && Rep(l, Some(todo.id), todo, p, None)
  {
    AppendFacts(done, todo);
  }

  lemma OnlyMore(l0: Links, l1: Links, l2: Links, ids: set<Id>, some: set<Id>)
    requires Only(l0, l1, ids) && Only(l1, l2, some) && some <= ids
    ensures Only(l0, l2, ids)
  {
  }

  lemma FlatUnfolds(t: Nodes, done: Forest, todo: Forest)
    requires todo != Nil
    ensures var next := if todo.kids != Nil && Loose(t, todo.id)
                        then Node(todo.id, Nil, Append(todo.kids, todo.rest)) else todo;
            Append(done, Flat(t, todo)) == Append(Append(done, Single(next)), Flat(t, next.rest))
  {
    var next := if todo.kids != Nil && Loose(t, todo.id)
                then Node(todo.id, Nil, Append(todo.kids, todo.rest)) else todo;
    AppendAssoc(done, Single(next), Flat(t, next.rest));
  }

  lemma WalkOn(l: Links, first: Link, done: Forest, todo: Forest, p: Link)
    requires Walk(l, first, done, todo, p) && todo != Nil
    ensures Walk(l, first, Append(done, Single(todo)), todo.rest, p)
    ensures Sized(l) && todo.id < |l.next| && l.next[todo.id] == First(todo.rest, None) && l.parent[todo.id] == p
    ensures l.list[todo.id] == First(todo.kids, None) && Rep(l, l.list[todo.id], todo.kids, Some(todo.id), None)
    ensures Append(Append(done, Single(todo)), todo.rest) == Append(done, todo)
  {
    AppendAssoc(done, Single(todo), todo.rest);
    FirstOf(l, l.next[todo.id], todo.rest, p, None);
    FirstOf(l, l.list[todo.id], todo.kids, Some(todo.id), None);
    RepAppend(l, first, done, Single(todo), p, First(todo.rest, None));
  }

  /** The walk survives a change to the nodes still ahead that keeps the current one. */
  lemma WalkChanged(l: Links, m: Links, first: Link, done: Forest, todo: Forest, todo': Forest, p: Link)
    requires Walk(l, first, done, todo, p) && Only(l, m, Ids(todo)) && First(todo', None) == First(todo, None)
    requires Rep(m, First(todo', None), todo', p, None) && Ids(todo') <= Ids(todo) && Distinct(todo')
    ensures Walk(m, first, done, todo', p)
  {
    AppendFacts(done, todo);
    AppendFacts(done, todo');
    RepFrame(l, m, first, done, p, First(todo, None));
  }

  lemma OnlyNothing(l: Links, ids: set<Id>)
    requires Sized(l)
    ensures Only(l, l, ids)
  {
  }

  lemma OnlyParent(l: Links, m: Links, ids: set<Id>, i: Id, q: Link)
    requires Only(l, m, ids) && i in ids && i < |m.parent|
    ensures Only(l, m.(parent := m.parent[i := q]), ids)
  {
  }

  // ---- removing 'if' nodes ----

  function Drop(t: Nodes, f: Forest): Forest {
    match f
    case Nil => Nil
    case Node(i, k, r) => if IsIf(t, i) then Drop(t, r) else Node(i, k, Drop(t, r))
  }

  /** The nodes that stay: everything but 'if' nodes. */
  function Keep(t: Nodes, ids: seq<Id>): seq<Id> {
    if ids == [] then [] else (if IsIf(t, ids[0]) then [] else [ids[0]]) + Keep(t, ids[1..])
  }

  lemma {:induction false} KeepAppend(t: Nodes, a: seq<Id>, b: seq<Id>)
    ensures Keep(t, a + b) == Keep(t, a) + Keep(t, b)
  {
    if a == [] {
      assert a + b == b;
    } else {
      hide IsIf;
      var h := if IsIf(t, a[0]) then [] else [a[0]];
      assert (a + b)[0] == a[0] && (a + b)[1..] == a[1..] + b;
      assert Keep(t, a + b) == h + Keep(t, a[1..] + b);
      KeepAppend(t, a[1..], b);
      assert h + (Keep(t, a[1..]) + Keep(t, b)) == h + Keep(t, a[1..]) + Keep(t, b);
    }
  }

  lemma KeepNode(t: Nodes, f: Forest)
    requires f != Nil
    ensures Keep(t, Preorder(f)) ==
            Keep(t, [f.id]) + (Keep(t, Preorder(f.kids)) + Keep(t, Preorder(f.rest)))
  {
    KeepAppend(t, [f.id], Preorder(f.kids) + Preorder(f.rest));
    KeepAppend(t, Preorder(f.kids), Preorder(f.rest));
  }

  /** No loose node of this level has children left. */
  ghost predicate Tidy(t: Nodes, f: Forest) {
    f.Node? ==> (Loose(t, f.id) ==> f.kids == Nil) && Tidy(t, f.rest)
  }

  lemma {:induction false} DropFacts(t: Nodes, f: Forest)
    requires NodesOk(t)
    ensures Tidy(t, f) ==> Keep(t, Preorder(Drop(t, f))) == Keep(t, Preorder(f))
    ensures Ids(Drop(t, f)) <= Ids(f) && Size(Drop(t, f)) <= Size(f) && (Distinct(f) ==> Distinct(Drop(t, f)))
  {
    if f != Nil {
      DropFacts(t, f.rest);
      KeepNode(t, f);
      if !IsIf(t, f.id) {
        KeepNode(t, Drop(t, f));
      }
    }
  }

  lemma EmptyRep(l: Links, at: Link, p: Link)
    requires Sized(l)
    ensures Rep(l, at, Nil, p, at)
  {
  }

  lemma HeadIn(l: Links, f: Forest, p: Link, end: Link)
    requires Sized(l) && f != Nil && Rep(l, Some(f.id), f, p, end)
    ensures f.id < |l.next| && f.id in Ids(f)
  {
  }

  lemma {:induction false} LastOfAppend(a: Forest, b: Forest)
    requires b != Nil
    ensures Append(a, b) != Nil && LastId(Append(a, b)) == LastId(b)
    ensures b.rest == Nil ==> LastId(b) == b.id
  {
    match a {
      case Nil =>
      case Node(i, k, r) => LastOfAppend(r, b);
    }
  }

  // ---- nesting ----

  /** The nodes of a level, with the levels below them finished. */
  function Each(t: Nodes, f: Forest): Forest
    decreases f, 0
  {
    match f
    case Nil => Nil
    case Node(i, k, r) => Node(i, Done(t, k), Each(t, r))
  }

  /** A finished level. */
  function Done(t: Nodes, f: Forest): Forest
    decreases f, 1
  {
    Drop(t, Flat(t, Each(t, f)))
  }

  /** A level as it was parsed, before symbols took the nodes after them. */
  function Parsed(t: Nodes, f: Forest): Forest {
    match f
    case Nil => Nil
    case Node(i, k, r) =>
      if i < |t.kind| && t.kind[i] == Sym then Node(i, Nil, Append(Parsed(t, k), Parsed(t, r)))
      else Node(i, Parsed(t, k), Parsed(t, r))
  }

  /** Every symbol has for children nodes that depend on it, and the node that was parsed after all of them does not;
      after is the node parsed after this level. */
  ghost predicate Reaches(t: Nodes, depends: (Id, Id) -> bool, f: Forest, after: Link) {
    match f
    case Nil => true
    case Node(i, k, r) =>
      var follower := First(r, after);
      if i < |t.kind| && t.kind[i] == Sym then
        && (forall x | x in Heads(k) :: depends(i, x)) && (follower.Some? ==> !depends(i, follower.id))
        && Reaches(t, depends, k, follower) && Reaches(t, depends, r, after)
      else Reaches(t, depends, k, None) && Reaches(t, depends, r, after)
  }

  /** f is what nested was parsed as, and then todo. */
  ghost predicate Nests(t: Nodes, depends: (Id, Id) -> bool, f: Forest, nested: Forest, todo: Forest) {
    f == Append(Parsed(t, nested), todo) && Reaches(t, depends, nested, First(todo, None))
  }

  lemma {:induction false} ParsedAppend(t: Nodes, a: Forest, b: Forest)
    ensures Parsed(t, Append(a, b)) == Append(Parsed(t, a), Parsed(t, b))
  {
    if a != Nil {
      ParsedAppend(t, a.rest, b);
      AppendAssoc(Parsed(t, a.kids), Parsed(t, a.rest), Parsed(t, b));
    }
  }

  lemma {:induction false} EachAppend(t: Nodes, a: Forest, b: Forest)
    ensures Each(t, Append(a, b)) == Append(Each(t, a), Each(t, b))
  {
    hide Done;
    if a != Nil {
      EachAppend(t, a.rest, b);
    }
  }

  lemma {:induction false} ReachesAppend(t: Nodes, depends: (Id, Id) -> bool, a: Forest, b: Forest, after: Link)
    ensures Reaches(t, depends, Append(a, b), after)
            <==> Reaches(t, depends, a, First(b, after)) && Reaches(t, depends, b, after)
  {
    if a != Nil {
      ReachesAppend(t, depends, a.rest, b, after);
    }
  }

  lemma NestsNothing(t: Nodes, depends: (Id, Id) -> bool, f: Forest)
    ensures Nests(t, depends, f, Nil, f) && Each(t, Nil) == Nil
  {
  }

  lemma NestsMore(t: Nodes, depends: (Id, Id) -> bool, f: Forest, nested: Forest, todo: Forest, one: Forest)
    requires Nests(t, depends, f, nested, todo) && one != Nil && todo != Nil && one.id == todo.id
    requires Nests(t, depends, todo, Single(one), one.rest)
    ensures Nests(t, depends, f, Append(nested, Single(one)), one.rest)
    ensures Each(t, Append(nested, Single(one))) == Append(Each(t, nested), Node(one.id, Done(t, one.kids), Nil))
  {
    hide Done;
    ParsedAppend(t, nested, Single(one));
    AppendAssoc(Parsed(t, nested), Parsed(t, Single(one)), one.rest);
    ReachesAppend(t, depends, nested, Single(one), First(one.rest, None));
    EachAppend(t, nested, Single(one));
  }

  lemma NestsSymbol(t: Nodes, depends: (Id, Id) -> bool, f: Forest, one: Forest)
    requires f != Nil && f.kids == Nil && one != Nil && one.id == f.id && IsSym(t, f.id)
    requires Nests(t, depends, f.rest, one.kids, one.rest)
    requires forall x | x in Heads(Each(t, one.kids)) :: depends(f.id, x)
    requires one.rest != Nil ==> !depends(f.id, one.rest.id)
    ensures Nests(t, depends, f, Single(one), one.rest)
  {
    EachHeads(t, one.kids);
    AppendNil(Parsed(t, one.kids));
  }

  lemma {:induction false} EachHeads(t: Nodes, f: Forest)
    ensures Heads(Each(t, f)) == Heads(f)
  {
    hide Done;
    if f != Nil {
      EachHeads(t, f.rest);
    }
  }

  lemma NestsOther(t: Nodes, depends: (Id, Id) -> bool, f: Forest, one: Forest)
    requires f != Nil && one != Nil && one.id == f.id && one.rest == f.rest && !IsSym(t, f.id)
    requires Nests(t, depends, f.kids, one.kids, Nil)
    ensures Nests(t, depends, f, Single(one), one.rest)
  {
    AppendNil(Parsed(t, one.kids));
  }

  lemma NestedTop(t: Nodes, depends: (Id, Id) -> bool, top: Id, kids: Forest, one: Forest)
    requires one != Nil && one.id == top && !IsSym(t, top)
    requires Nests(t, depends, Node(top, kids, Nil), Single(one), one.rest)
    ensures Parsed(t, one.kids) == kids && Reaches(t, depends, one.kids, None)
  {
  }

  // ---- the level a node ends up in ----

  /** What finishing comes to: nodes that do not hold their children pass them on to their level, and 'if' nodes go. */
  function Lift(t: Nodes, f: Forest): Forest {
    match f
    case Nil => Nil
    case Node(i, k, r) =>
      if IsIf(t, i) then Append(Lift(t, k), Lift(t, r))
      else if Loose(t, i) then Node(i, Nil, Append(Lift(t, k), Lift(t, r)))
      else Node(i, Lift(t, k), Lift(t, r))
  }

  lemma {:induction false} FlatAppend(t: Nodes, a: Forest, b: Forest)
    ensures Flat(t, Append(a, b)) == Append(Flat(t, a), Flat(t, b))
    decreases Size(a)
  {
    if a != Nil {
      AppendFacts(a.kids, a.rest);
      AppendAssoc(a.kids, a.rest, b);
      if a.kids != Nil && Loose(t, a.id) {
        FlatAppend(t, Append(a.kids, a.rest), b);
      } else {
        FlatAppend(t, a.rest, b);
      }
    }
  }

  lemma {:induction false} DropAppend(t: Nodes, a: Forest, b: Forest)
    ensures Drop(t, Append(a, b)) == Append(Drop(t, a), Drop(t, b))
  {
    if a != Nil {
      DropAppend(t, a.rest, b);
    }
  }

  lemma {:induction false} NeatStays(t: Nodes, f: Forest)
    requires Neat(t, f)
    ensures Flat(t, f) == f && Drop(t, f) == f
  {
    if f != Nil {
      NeatStays(t, f.rest);
    }
  }

  lemma {:induction false} DoneIsLift(t: Nodes, f: Forest)
    requires NodesOk(t)
    ensures Done(t, f) == Lift(t, f) && Neat(t, Done(t, f)) && Settled(t, Each(t, f))
  {
    if f != Nil {
      DoneIsLift(t, f.kids);
      DoneIsLift(t, f.rest);
      LiftNode(t, f);
    }
    FlatSettled(t, Each(t, f));
    DropClean(t, Flat(t, Each(t, f)));
  }

  lemma LiftNode(t: Nodes, f: Forest)
    requires NodesOk(t) && f != Nil && Neat(t, Done(t, f.kids))
    requires Done(t, f.kids) == Lift(t, f.kids) && Done(t, f.rest) == Lift(t, f.rest)
    ensures Done(t, f) == Lift(t, f)
  {
    hide Neat;
    var k, r := Done(t, f.kids), Each(t, f.rest);
    NeatStays(t, k);
    FlatAppend(t, k, r);
    DropAppend(t, k, Flat(t, r));
  }

  /** a is above x in the tree. */
  predicate Over(f: Forest, a: Id, x: Id) {
    match f
    case Nil => false
    case Node(i, k, r) => (a == i && x in Ids(k)) || Over(k, a, x) || Over(r, a, x)
  }

  /** x is a child of q, in a level whose parent is p. */
  predicate Child(f: Forest, p: Id, q: Id, x: Id) {
    match f
    case Nil => false
    case Node(i, k, r) => (q == p && x == i) || Child(k, i, q, x) || Child(r, p, q, x)
  }

  /** The link leads from x to the nearest node above it that has a prompt or is a choice, or else to the top. */
  ghost predicate Holds(t: Nodes, f: Forest, top: Id, link: Link, x: Id)
    requires |t.prompt| == |t.kind|
  {
    && link.Some?
    && (link.id == top || Over(f, link.id, x))
    && (link.id == top || (link.id < |t.kind| && (t.prompt[link.id] || t.kind[link.id] == Choice)))
    && (forall a: Id | Over(f, a, x) && (link.id == top || Over(f, link.id, a)) ::
          a < |t.kind| && !t.prompt[a] && t.kind[a] != Choice)
  }

  lemma {:induction false} OverIn(f: Forest, a: Id, x: Id)
    requires Over(f, a, x)
    ensures a in Ids(f) && x in Ids(f)
  {
    if a == f.id && x in Ids(f.kids) {
    } else if Over(f.kids, a, x) {
      OverIn(f.kids, a, x);
    } else {
      OverIn(f.rest, a, x);
    }
  }

  lemma {:induction false} ChildAppend(a: Forest, b: Forest, p: Id, q: Id, x: Id)
    ensures Child(Append(a, b), p, q, x) <==> Child(a, p, q, x) || Child(b, p, q, x)
  {
    if a != Nil {
      ChildAppend(a.rest, b, p, q, x);
    }
  }

  /** q is p with nothing above x that holds it, or the nearest node above x that does. */
  ghost predicate Nearest(t: Nodes, f: Forest, p: Id, q: Id, x: Id) {
    && x in Ids(f)
    && ((q == p && forall a | Over(f, a, x) :: Loose(t, a))
        || (Over(f, q, x) && !Loose(t, q) && forall a | Over(f, q, a) && Over(f, a, x) :: Loose(t, a)))
  }

  lemma {:induction false} LiftedTo(t: Nodes, f: Forest, p: Id, q: Id, x: Id)
    requires NodesOk(t) && Distinct(f) && Child(Lift(t, f), p, q, x)
    ensures Nearest(t, f, p, q, x)
  {
    hide Nearest, Distinct;
    var i, k, r := f.id, f.kids, f.rest;
    DistinctParts(f);
    ChildAppend(Lift(t, k), Lift(t, r), p, q, x);
    if Child(Lift(t, r), p, q, x) {
      LiftedTo(t, r, p, q, x);
      NearestRest(t, f, p, q, x);
    } else if IsIf(t, i) || Loose(t, i) {
      if Child(Lift(t, k), p, q, x) {
        LiftedTo(t, k, p, q, x);
        NearestKids(t, f, p, p, q, x);
      } else {
        NearestHead(t, f, p);
      }
    } else if Child(Lift(t, k), i, q, x) {
      LiftedTo(t, k, i, q, x);
      NearestKids(t, f, p, i, q, x);
    } else {
      NearestHead(t, f, p);
    }
  }

  lemma NearestHead(t: Nodes, f: Forest, p: Id)
    requires f != Nil && Distinct(f)
    ensures Nearest(t, f, p, p, f.id)
  {
    forall a
      ensures !Over(f, a, f.id)
    {
      OverNotHead(f, a);
    }
  }

  lemma OverNotHead(f: Forest, a: Id)
    requires f != Nil && Distinct(f)
    ensures !Over(f, a, f.id)
  {
    if Over(f.kids, a, f.id) {
      OverIn(f.kids, a, f.id);
    }
    if Over(f.rest, a, f.id) {
      OverIn(f.rest, a, f.id);
    }
  }

  lemma NearestRest(t: Nodes, f: Forest, p: Id, q: Id, x: Id)
    requires f != Nil && Distinct(f) && Nearest(t, f.rest, p, q, x)
    ensures Nearest(t, f, p, q, x)
  {
    forall a, y | y in Ids(f.rest)
      ensures Over(f, a, y) <==> Over(f.rest, a, y)
    {
      OverRest(f, a, y);
    }
    forall a | Over(f.rest, a, x)
      ensures a in Ids(f.rest)
    {
      OverIn(f.rest, a, x);
    }
  }

  lemma OverRest(f: Forest, a: Id, y: Id)
    requires f != Nil && Distinct(f) && y in Ids(f.rest)
    ensures Over(f, a, y) <==> Over(f.rest, a, y)
  {
    if Over(f.kids, a, y) {
      OverIn(f.kids, a, y);
    }
  }

  lemma OverKids(f: Forest, a: Id, y: Id)
    requires f != Nil && Distinct(f) && y in Ids(f.kids)
    ensures Over(f, a, y) <==> a == f.id || Over(f.kids, a, y)
  {
    if Over(f.rest, a, y) {
      OverIn(f.rest, a, y);
    }
  }

  lemma NearestKids(t: Nodes, f: Forest, p: Id, p': Id, q: Id, x: Id)
    requires NodesOk(t) && f != Nil && Distinct(f) && Nearest(t, f.kids, p', q, x)
    requires if IsIf(t, f.id) || Loose(t, f.id) then p' == p else p' == f.id
    ensures Nearest(t, f, p, q, x)
  {
    forall a, y | y in Ids(f.kids)
      ensures Over(f, a, y) <==> a == f.id || Over(f.kids, a, y)
    {
      OverKids(f, a, y);
    }
    forall a | Over(f.kids, a, x)
      ensures a in Ids(f.kids)
    {
      OverIn(f.kids, a, x);
    }
    OverHeadNever(f);
  }

  lemma OverHeadNever(f: Forest)
    requires f != Nil && Distinct(f)
    ensures forall a :: !Over(f, a, f.id)
  {
    forall a
      ensures !Over(f, a, f.id)
    {
      OverNotHead(f, a);
    }
  }

  lemma {:induction false} ParentLinks(l: Links, at: Link, f: Forest, p: Id, x: Id)
    requires Sized(l) && Rep(l, at, f, Some(p), None) && x in Ids(f)
    ensures x < |l.parent| && l.parent[x].Some? && Child(f, p, l.parent[x].id, x)
    decreases f
  {
    if x == f.id {
    } else if x in Ids(f.kids) {
      ParentLinks(l, l.list[f.id], f.kids, f.id, x);
    } else {
      ParentLinks(l, l.next[f.id], f.rest, p, x);
    }
  }

  lemma HeldBy(t: Nodes, l: Links, top: Id, nested: Forest, x: Id)
    requires NodesOk(t) && Sized(l) && Distinct(nested) && (forall i | i in Ids(nested) :: i < |t.kind| && i != top)
    requires Rep(l, Some(top), Node(top, Done(t, nested), Nil), None, None) && x in Ids(Done(t, nested))
    ensures x < |l.parent| && Holds(t, nested, top, l.parent[x], x)
  {
    hide Done, Ids, Distinct, Over, Holds, Child;
    ParentLinks(l, l.list[top], Done(t, nested), top, x);
    DoneIsLift(t, nested);
    LiftedTo(t, nested, top, l.parent[x].id, x);
    NearestHolds(t, nested, top, l.parent[x].id, x);
  }

  lemma NearestHolds(t: Nodes, f: Forest, top: Id, q: Id, x: Id)
    requires NodesOk(t) && (forall i | i in Ids(f) :: i < |t.kind| && i != top) && Nearest(t, f, top, q, x)
    ensures Holds(t, f, top, Some(q), x)
  {
    hide Ids, Over;
    forall a: Id | Over(f, a, x)
      ensures a < |t.kind| && a in Ids(f)
    {
      OverIn(f, a, x);
    }
  }

  lemma {:induction false} PreorderIds(f: Forest, x: Id)
    ensures x in Preorder(f) <==> x in Ids(f)
  {
    if f != Nil {
      PreorderIds(f.kids, x);
      PreorderIds(f.rest, x);
    }
  }

  lemma {:induction false} KeepIn(t: Nodes, ids: seq<Id>, x: Id)
    ensures x in Keep(t, ids) <==> x in ids && !IsIf(t, x)
  {
    if ids != [] {
      KeepIn(t, ids[1..], x);
      assert x in ids <==> x == ids[0] || x in ids[1..];
    }
  }

  lemma {:induction false} ParsedIds(t: Nodes, f: Forest)
    ensures Ids(Parsed(t, f)) == Ids(f) && (Distinct(Parsed(t, f)) ==> Distinct(f))
  {
    if f != Nil {
      ParsedIds(t, f.kids);
      ParsedIds(t, f.rest);
      AppendFacts(Parsed(t, f.kids), Parsed(t, f.rest));
    }
  }

  lemma {:induction false} IdsInRange(l: Links, at: Link, f: Forest, p: Link)
    requires Sized(l) && Rep(l, at, f, p, None)
    ensures forall i | i in Ids(f) :: i < |l.next|
    decreases f
  {
    if f != Nil {
      IdsInRange(l, l.list[f.id], f.kids, Some(f.id));
      IdsInRange(l, l.next[f.id], f.rest, p);
    }
  }

  lemma TopKids(l: Links, top: Id, kids: Forest)
    requires Sized(l) && Distinct(Node(top, kids, Nil)) && Rep(l, Some(top), Node(top, kids, Nil), None, None)
    ensures (forall i | i in Ids(kids) :: i < |l.next| && i != top) && Distinct(kids)
  {
    IdsInRange(l, l.list[top], kids, Some(top));
  }

  lemma VisitedNodes(t: Nodes, kids: Forest, done: Forest, nested: Forest, visited: seq<Id>)
    requires visited == Keep(t, Preorder(kids)) == Preorder(done) && Parsed(t, nested) == kids && Distinct(kids)
    ensures forall x | x in Ids(kids) :: x in visited <==> !IsIf(t, x)
    ensures (forall x | x in visited :: x in Ids(done)) && Ids(nested) == Ids(kids) && Distinct(nested)
  {
    hide Keep, Preorder, Ids, Distinct;
    forall x
      ensures x in visited <==> x in Ids(kids) && !IsIf(t, x)
      ensures x in visited ==> x in Ids(done)
    {
      KeepIn(t, Preorder(kids), x);
      PreorderIds(kids, x);
      PreorderIds(done, x);
    }
    ParsedIds(t, nested);
  }
}
