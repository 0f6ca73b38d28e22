/** Dependency loop detection in scripts/kconfiglib.py: a depth-first search with three visit marks over symbols and
    choices, which collects a loop on the way back from where it was met. */
module KLoop {
  import opened Basics

  type Node = nat

  datatype Kind = Symbol(choice: Option<Node>) | Choice(syms: seq<Node>)

  /** deps[v] lists the dependents of v, other than the symbols of a choice v. The search visits the dependents of a
      symbol in this order; from a choice it goes on to the symbols of the choice, and not to its dependents. */
  datatype Graph = Graph(deps: seq<seq<Node>>, kind: seq<Kind>)

  predicate IsSym(g: Graph, v: Node) { v < |g.kind| && g.kind[v].Symbol? }

  predicate IsChoice(g: Graph, v: Node) { v < |g.kind| && g.kind[v].Choice? }

  predicate Edge(g: Graph, v: Node, w: Node) { v < |g.deps| && w in g.deps[v] }

  /** Choices and their symbols know each other. */
  ghost predicate WellFormed(g: Graph) {
    && |g.deps| == |g.kind|
    && (forall v: Node, w: Node | Edge(g, v, w) :: w < |g.kind|)
    && (forall c: Node, s: Node | IsChoice(g, c) && s in g.kind[c].syms :: IsSym(g, s) && g.kind[s].choice == Some(c))
    && (forall s: Node | IsSym(g, s) && g.kind[s].choice.Some? ::
          IsChoice(g, g.kind[s].choice.value) && s in g.kind[g.kind[s].choice.value].syms)
  }

  // ---- loops ----

  /** A choice and its symbols stand and fall together. */
  function Group(g: Graph, v: Node): Node {
    if IsSym(g, v) && g.kind[v].choice.Some? then g.kind[v].choice.value else v
  }

  /** Something in group y depends on something in group x. */
  ghost predicate GroupEdge(g: Graph, x: Node, y: Node) {
    exists v, w :: Edge(g, v, w) && Group(g, v) == x && Group(g, w) == y
  }

  ghost predicate IsWalk(g: Graph, p: seq<Node>) {
    p != [] && forall i | 0 < i < |p| :: GroupEdge(g, p[i - 1], p[i])
  }

  ghost predicate IsLoop(g: Graph, p: seq<Node>) {
    IsWalk(g, p) && |p| > 1 && p[0] == p[|p| - 1]
  }

  /** No group depends on itself. */
  ghost predicate Acyclic(g: Graph) { forall p :: !IsLoop(g, p) }

  // ---- the search, as a function ----

  /** How a search from one node ends: nothing found, a loop still being collected, or the loop reported. */
  datatype Result = NoLoop | Collecting(loop: seq<Node>) | Raised(loop: seq<Node>)

  /** The visit marks, and the nodes in the order in which they were finished. */
  datatype State = State(visited: seq<nat>, done: seq<Node>)

  datatype Out = Out(st: State, res: Result)

  function White(st: State): set<Node> { set v: Node | v < |st.visited| && st.visited[v] == 0 }

  ghost predicate Fits(g: Graph, st: State) { WellFormed(g) && |st.visited| == |g.kind| }

  function Marked(st: State, v: Node): State
    requires v < |st.visited|
  {
    st.(visited := st.visited[v := 1])
  }

  function Finished(st: State, v: Node): State
    requires v < |st.visited|
  {
    State(st.visited[v := 2], st.done + [v])
  }

  /** On the way back: the loop is complete when it has come round to its start. */
  function Found(res: Result, cur: Node): Result {
    if res.Collecting? then
      if res.loop != [] && cur == res.loop[0] then Raised(res.loop) else Collecting(res.loop + [cur])
    else res
  }

  function SearchSym(g: Graph, st: State, s: Node, ignoreChoice: bool): (o: Out)
    requires Fits(g, st) && IsSym(g, s)
    ensures Fits(g, o.st) && White(o.st) <= White(st)
    decreases White(st), 1
  {
    if st.visited[s] == 2 then Out(st, NoLoop)
    else if st.visited[s] != 0 then Out(st, Collecting([s]))
    else
      assert s in White(st) && s !in White(Marked(st, s));
      var o := SearchDeps(g, Marked(st, s), s, 0);
      if !o.res.NoLoop? then o else
      var c := g.kind[s].choice;
      if c.None? || ignoreChoice then Out(Finished(o.st, s), NoLoop) else
      var o2 := SearchChoice(g, o.st, c.value, Some(s));
      if o2.res.NoLoop? then Out(Finished(o2.st, s), NoLoop) else Out(o2.st, Found(o2.res, s))
  }

  function SearchDeps(g: Graph, st: State, s: Node, i: nat): (o: Out)
    requires Fits(g, st) && IsSym(g, s) && i <= |g.deps[s]|
    ensures Fits(g, o.st) && White(o.st) <= White(st)
    decreases White(st), 2, |g.deps[s]| - i
  {
    if i == |g.deps[s]| then Out(st, NoLoop) else
    var d := g.deps[s][i];
    assert Edge(g, s, d);
    var o := if IsChoice(g, d) then SearchChoice(g, st, d, None) else SearchSym(g, st, d, false);
    if o.res.NoLoop? then SearchDeps(g, o.st, s, i + 1) else Out(o.st, Found(o.res, s))
  }

  function SearchChoice(g: Graph, st: State, c: Node, skip: Option<Node>): (o: Out)
    requires Fits(g, st) && IsChoice(g, c)
    ensures Fits(g, o.st) && White(o.st) <= White(st)
    decreases White(st), 1
  {
    if st.visited[c] == 2 then Out(st, NoLoop)
    else if st.visited[c] != 0 then Out(st, Collecting([c]))
    else
      assert c in White(st) && c !in White(Marked(st, c));
      var o := SearchSyms(g, Marked(st, c), c, skip, 0);
      if o.res.NoLoop? then Out(Finished(o.st, c), NoLoop) else o
  }

  function SearchSyms(g: Graph, st: State, c: Node, skip: Option<Node>, i: nat): (o: Out)
    requires Fits(g, st) && IsChoice(g, c) && i <= |g.kind[c].syms|
    ensures Fits(g, o.st) && White(o.st) <= White(st)
    decreases White(st), 2, |g.kind[c].syms| - i
  {
    if i == |g.kind[c].syms| then Out(st, NoLoop) else
    var s := g.kind[c].syms[i];
    assert s in g.kind[c].syms;
    if Some(s) == skip then SearchSyms(g, st, c, skip, i + 1) else
    var o := SearchSym(g, st, s, true);
    if o.res.NoLoop? then SearchSyms(g, o.st, c, skip, i + 1) else Out(o.st, Found(o.res, c))
  }

  function SearchAll(g: Graph, st: State, starts: seq<Node>): Out
    requires Fits(g, st) && forall s | s in starts :: IsSym(g, s)
    decreases |starts|
  {
    if starts == [] then Out(st, NoLoop) else
    var o := SearchSym(g, st, starts[0], false);
    if o.res.NoLoop? then SearchAll(g, o.st, starts[1..]) else o
  }

  function Start(g: Graph): State { State(seq(|g.kind|, _ => 0), []) }

  // ---- the search, as it is done ----

  class Checker {
    const g: Graph
    var visited: seq<nat>
    ghost var done: seq<Node>

    ghost function Now(): State
      reads this
    {
      State(visited, done)
    }

    constructor (g: Graph)
      requires WellFormed(g)
      ensures this.g == g && Now() == Start(g)
    {
      this.g := g;
      visited := seq(|g.kind|, _ => 0);
      done := [];
    }

    method CheckSym(sym: Node, ignoreChoice: bool) returns (res: Result)
      requires Fits(g, Now()) && IsSym(g, sym)
      modifies this
      ensures Out(Now(), res) == SearchSym(g, old(Now()), sym, ignoreChoice)
      decreases White(Now()), 1
    {
      if visited[sym] == 0 {
        visited := visited[sym := 1];
        assert sym in old(White(Now())) && sym !in White(Now());
        ghost var goal := SearchDeps(g, Now(), sym, 0);
        var i := 0;
        while i < |g.deps[sym]|
          invariant 0 <= i <= |g.deps[sym]| && Fits(g, Now()) && White(Now()) < old(White(Now()))
          invariant SearchDeps(g, Now(), sym, i) == goal
        {
          var dep := g.deps[sym][i];
          assert Edge(g, sym, dep);
          var loop;
          if IsChoice(g, dep) {
            loop := CheckChoice(dep, None);
          } else {
            loop := CheckSym(dep, false);
          }
          if !loop.NoLoop? {
            return Found(loop, sym);
          }
          i := i + 1;
        }
        if g.kind[sym].choice.Some? && !ignoreChoice {
          var loop := CheckChoice(g.kind[sym].choice.value, Some(sym));
          if !loop.NoLoop? {
            return Found(loop, sym);
          }
        }
        visited := visited[sym := 2];
        done := done + [sym];
        return NoLoop;
      }
      if visited[sym] == 2 {
        return NoLoop;
      }
      res := Collecting([sym]);
    }

    method CheckChoice(choice: Node, skip: Option<Node>) returns (res: Result)
      requires Fits(g, Now()) && IsChoice(g, choice)
      modifies this
      ensures Out(Now(), res) == SearchChoice(g, old(Now()), choice, skip)
      decreases White(Now()), 1
    {
      if visited[choice] == 0 {
        visited := visited[choice := 1];
        assert choice in old(White(Now())) && choice !in White(Now());
        ghost var goal := SearchSyms(g, Now(), choice, skip, 0);
        var i := 0;
        while i < |g.kind[choice].syms|
          invariant 0 <= i <= |g.kind[choice].syms| && Fits(g, Now()) && White(Now()) < old(White(Now()))
          invariant SearchSyms(g, Now(), choice, skip, i) == goal
        {
          var sym := g.kind[choice].syms[i];
          assert sym in g.kind[choice].syms;
          if Some(sym) != skip {
            var loop := CheckSym(sym, true);
            if !loop.NoLoop? {
              return Found(loop, choice);
            }
          }
          i := i + 1;
        }
        visited := visited[choice := 2];
        done := done + [choice];
        return NoLoop;
      }
      if visited[choice] == 2 {
        return NoLoop;
      }
      res := Collecting([choice]);
    }
  }

  // ---- what is reported is a loop ----

  /** A walk over groups from one node's to another's. */
  ghost predicate Leads(g: Graph, p: seq<Node>, v: Node, w: Node) {
    IsWalk(g, p) && p[0] == Group(g, v) && p[|p| - 1] == Group(g, w)
  }

  /** w depends on v, or they are a choice and a symbol of it. */
  predicate Link(g: Graph, v: Node, w: Node) {
    || Edge(g, v, w)
    || (IsSym(g, v) && g.kind[v].choice == Some(w))
    || (IsChoice(g, v) && w in g.kind[v].syms)
  }

  ghost predicate IsChain(g: Graph, loop: seq<Node>) {
    loop != [] && forall i | 0 < i < |loop| :: Link(g, loop[i], loop[i - 1])
  }

  /** What a search that does not come out clean has found: its items are linked, and they lead from group to group. */
  ghost predicate Means(g: Graph, res: Result, v: Node, p: seq<Node>) {
    && (res.Collecting? ==> IsChain(g, res.loop) && res.loop[|res.loop| - 1] == v && Leads(g, p, v, res.loop[0]))
    && (res.Raised? ==> IsChain(g, res.loop) && Link(g, res.loop[0], res.loop[|res.loop| - 1]) && IsLoop(g, p))
  }

  lemma {:induction false} SymMeans(g: Graph, st: State, s: Node, ignoreChoice: bool) returns (p: seq<Node>)
    requires Fits(g, st) && IsSym(g, s)
    ensures var res := SearchSym(g, st, s, ignoreChoice).res;
            && Means(g, res, s, p)
            && (res.Collecting? && |p| == 1 ==> (res.loop[0] == s <==> st.visited[s] != 0))
            && (res.Collecting? && |p| == 1 && ignoreChoice ==> res.loop[0] == s)
    decreases White(st), 1
  {
    hide GroupEdge;
    p := [Group(g, s)];
    if st.visited[s] == 0 {
      assert s in White(st) && s !in White(Marked(st, s));
      var o := SearchDeps(g, Marked(st, s), s, 0);
      p := DepsMean(g, Marked(st, s), s, 0);
      var c := g.kind[s].choice;
      if o.res.NoLoop? && c.Some? && !ignoreChoice {
        p := ChoiceMeans(g, o.st, c.value, Some(s));
        MeansWithin(g, SearchChoice(g, o.st, c.value, Some(s)).res, s, c.value, p);
      }
    }
  }

  lemma {:induction false} DepsMean(g: Graph, st: State, s: Node, i: nat) returns (p: seq<Node>)
    requires Fits(g, st) && IsSym(g, s) && i <= |g.deps[s]|
    ensures var res := SearchDeps(g, st, s, i).res;
            Means(g, res, s, p) && (res.Collecting? ==> |p| > 1)
    decreases White(st), 2, |g.deps[s]| - i
  {
    hide GroupEdge, IsChain, IsWalk;
    p := [];
    if i < |g.deps[s]| {
      var d := g.deps[s][i];
      assert Edge(g, s, d);
      var o := if IsChoice(g, d) then SearchChoice(g, st, d, None) else SearchSym(g, st, d, false);
      if IsChoice(g, d) {
        p := ChoiceMeans(g, st, d, None);
      } else {
        p := SymMeans(g, st, d, false);
      }
      if o.res.NoLoop? {
        p := DepsMean(g, o.st, s, i + 1);
      } else if o.res.Collecting? {
        MeansBefore(g, o.res, s, d, p);
        p := [Group(g, s)] + p;
      }
    }
  }

  /** One item further back along an edge. */
  lemma MeansBefore(g: Graph, res: Result, v: Node, w: Node, p: seq<Node>)
    requires res.Collecting? && Means(g, res, w, p) && Edge(g, v, w)
    ensures p != [] && Means(g, Found(res, v), v, [Group(g, v)] + p)
  {
    assert GroupEdge(g, Group(g, v), Group(g, w));
    hide GroupEdge;
  }

  /** One item further back within a choice. */
  lemma MeansWithin(g: Graph, res: Result, v: Node, w: Node, p: seq<Node>)
    requires Means(g, res, w, p) && Link(g, v, w) && Group(g, v) == Group(g, w)
    requires res.Collecting? && |p| == 1 ==> res.loop[0] != v
    ensures Means(g, Found(res, v), v, p)
  {
    hide GroupEdge;
  }

  lemma {:induction false} ChoiceMeans(g: Graph, st: State, c: Node, skip: Option<Node>) returns (p: seq<Node>)
    requires Fits(g, st) && IsChoice(g, c) && (skip.Some? ==> IsSym(g, skip.value))
    ensures var res := SearchChoice(g, st, c, skip).res;
            Means(g, res, c, p) && (res.Collecting? && |p| == 1 ==> Some(res.loop[0]) != skip)
    decreases White(st), 1
  {
    hide GroupEdge;
    p := [c];
    if st.visited[c] == 0 {
      assert c in White(st) && c !in White(Marked(st, c));
      p := SymsMean(g, Marked(st, c), c, skip, 0);
    }
  }

  lemma {:induction false} SymsMean(g: Graph, st: State, c: Node, skip: Option<Node>, i: nat) returns (p: seq<Node>)
    requires Fits(g, st) && IsChoice(g, c) && i <= |g.kind[c].syms|
    ensures var res := SearchSyms(g, st, c, skip, i).res;
            Means(g, res, c, p) && (res.Collecting? && |p| == 1 ==> Some(res.loop[0]) != skip)
    decreases White(st), 2, |g.kind[c].syms| - i
  {
    hide GroupEdge, IsChain, IsWalk;
    p := [];
    if i < |g.kind[c].syms| {
      var s := g.kind[c].syms[i];
      assert s in g.kind[c].syms;
      if Some(s) == skip {
        p := SymsMean(g, st, c, skip, i + 1);
      } else {
        var o := SearchSym(g, st, s, true);
        p := SymMeans(g, st, s, true);
        if o.res.NoLoop? {
          p := SymsMean(g, o.st, c, skip, i + 1);
        } else {
          MeansWithin(g, o.res, c, s, p);
        }
      }
    }
  }

  // ---- what a clean search has seen ----

  predicate NoRepeats(s: seq<Node>) { forall i, j | 0 <= i < j < |s| :: s[i] != s[j] }

  /** w is among the nodes, with all its symbols if it is a choice. */
  ghost predicate Seen(g: Graph, s: seq<Node>, w: Node) {
    w in s && (IsChoice(g, w) ==> forall y | y in g.kind[w].syms :: y in s)
  }

  /** Every symbol comes after all its dependents. */
  ghost predicate InOrder(g: Graph, s: seq<Node>) {
    forall i, w | 0 <= i < |s| && IsSym(g, s[i]) && Edge(g, s[i], w) :: Seen(g, s[..i], w)
  }

  /** All symbols of the choices are there, but for the one the search came by. */
  ghost predicate Complete(g: Graph, s: seq<Node>, skip: Option<Node>) {
    forall c, y | c in s && IsChoice(g, c) && y in g.kind[c].syms :: y in s || Some(y) == skip
  }

  ghost predicate Sound(g: Graph, st: State, skip: Option<Node>) {
    && Fits(g, st) && (forall v: Node | v < |st.visited| :: st.visited[v] <= 2)
    && (forall v: Node :: v in st.done <==> v < |st.visited| && st.visited[v] == 2)
    && NoRepeats(st.done) && InOrder(g, st.done) && Complete(g, st.done, skip)
  }

  function Open(st: State): set<Node> { set v: Node | v < |st.visited| && st.visited[v] == 1 }

  /** A clean search leaves a sound state with the same nodes in progress and v done. */
  ghost predicate Clean(g: Graph, st: State, o: Out, v: Node, skip: Option<Node>) {
    o.res.NoLoop? ==> Sound(g, o.st, skip) && Open(o.st) == Open(st) && st.done <= o.st.done && v in o.st.done
  }

  /** One that found something has met a node in progress. */
  ghost predicate Met(st: State, res: Result) {
    res.Collecting? ==> res.loop != [] && res.loop[0] in Open(st)
  }

  lemma MarkSound(g: Graph, st: State, v: Node)
    requires Sound(g, st, None) && v < |st.visited| && st.visited[v] == 0
    ensures Sound(g, Marked(st, v), None) && Open(Marked(st, v)) == Open(st) + {v} && v !in Open(st)
    ensures White(Marked(st, v)) < White(st)
  {
    hide InOrder, Complete, WellFormed;
    assert v in White(st) && v !in White(Marked(st, v));
  }

  lemma FinishSound(g: Graph, st: State, v: Node, skip: Option<Node>, skip': Option<Node>)
    requires Sound(g, st, skip) && v in Open(st) && (IsSym(g, v) ==> forall w | Edge(g, v, w) :: Seen(g, st.done, w))
    requires forall y | (IsChoice(g, v) && y in g.kind[v].syms) || Some(y) == skip ::
               y in st.done || y == v || Some(y) == skip'
    ensures Sound(g, Finished(st, v), skip') && Open(Finished(st, v)) == Open(st) - {v}
    ensures st.done <= Finished(st, v).done
  {
    hide WellFormed, Seen;
    var s, t := st.done, st.done + [v];
    forall i, w | 0 <= i < |t| && IsSym(g, t[i]) && Edge(g, t[i], w)
      ensures Seen(g, t[..i], w)
    {
      if i < |s| {
        assert t[..i] == s[..i];
      } else {
        assert t[..i] == s;
      }
    }
  }

  lemma {:induction false} SymClean(g: Graph, st: State, s: Node, ignoreChoice: bool)
    requires Sound(g, st, None) && IsSym(g, s)
    ensures var o := SearchSym(g, st, s, ignoreChoice);
            Clean(g, st, o, s, None) && Met(st, o.res)
    decreases White(st), 1
  {
    hide InOrder, Complete, WellFormed, NoRepeats;
    if st.visited[s] == 0 {
      MarkSound(g, st, s);
      var st1 := Marked(st, s);
      DepsClean(g, st1, s, 0);
      var o := SearchDeps(g, st1, s, 0);
      if o.res.NoLoop? {
        EdgesListed(g, s);
        var c := g.kind[s].choice;
        if c.None? || ignoreChoice {
          FinishSound(g, o.st, s, None, None);
        } else {
          ChoiceKnown(g, s);
          ChoiceClean(g, o.st, c.value, Some(s));
          var o2 := SearchChoice(g, o.st, c.value, Some(s));
          if o2.res.NoLoop? {
            SeenMore(g, s, o.st.done, o2.st.done);
            FinishSound(g, o2.st, s, Some(s), None);
          }
        }
      }
    }
  }

  lemma EdgesListed(g: Graph, s: Node)
    requires WellFormed(g) && IsSym(g, s)
    ensures forall w | Edge(g, s, w) :: exists j :: 0 <= j < |g.deps[s]| && g.deps[s][j] == w
  {
  }

  lemma ChoiceKnown(g: Graph, s: Node)
    requires WellFormed(g) && IsSym(g, s) && g.kind[s].choice.Some?
    ensures IsChoice(g, g.kind[s].choice.value)
  {
  }

  lemma DependentKnown(g: Graph, s: Node, d: Node)
    requires WellFormed(g) && IsSym(g, s) && d in g.deps[s]
    ensures Edge(g, s, d) && (IsSym(g, d) || IsChoice(g, d))
  {
    assert Edge(g, s, d);
  }

  lemma SeenNext(g: Graph, ws: seq<Node>, i: nat, a: seq<Node>, b: seq<Node>)
    requires a <= b && Complete(g, b, None) && i < |ws| && ws[i] in b && forall j | 0 <= j < i :: Seen(g, a, ws[j])
    ensures forall j | 0 <= j < i + 1 :: Seen(g, b, ws[j])
  {
  }

  lemma SeenMore(g: Graph, s: Node, a: seq<Node>, b: seq<Node>)
    requires a <= b && forall w | Edge(g, s, w) :: Seen(g, a, w)
    ensures forall w | Edge(g, s, w) :: Seen(g, b, w)
  {
  }

  lemma {:induction false} DepsClean(g: Graph, st: State, s: Node, i: nat)
    requires Sound(g, st, None) && IsSym(g, s) && s in Open(st) && i <= |g.deps[s]|
    requires forall j | 0 <= j < i :: Seen(g, st.done, g.deps[s][j])
    ensures var o := SearchDeps(g, st, s, i);
            && (o.res.NoLoop? ==> Sound(g, o.st, None) && Open(o.st) == Open(st) && st.done <= o.st.done)
            && (o.res.NoLoop? ==> forall j | 0 <= j < |g.deps[s]| :: Seen(g, o.st.done, g.deps[s][j]))
            && Met(st, o.res) && (o.res.Collecting? ==> o.res.loop[0] != s)
    decreases White(st), 2, |g.deps[s]| - i
  {
    assert |g.deps| == |g.kind|;
    hide InOrder, NoRepeats, Complete, WellFormed, Seen;
    if i < |g.deps[s]| {
      var d := g.deps[s][i];
      DependentKnown(g, s, d);
      var o := if IsChoice(g, d) then SearchChoice(g, st, d, None) else SearchSym(g, st, d, false);
      if IsChoice(g, d) {
        ChoiceClean(g, st, d, None);
      } else {
        SymClean(g, st, d, false);
      }
      if o.res.NoLoop? {
        SeenNext(g, g.deps[s], i, st.done, o.st.done);
        DepsClean(g, o.st, s, i + 1);
      }
    }
  }

  lemma {:induction false} ChoiceClean(g: Graph, st: State, c: Node, skip: Option<Node>)
    requires Sound(g, st, None) && IsChoice(g, c) && (skip.Some? ==> skip.value in Open(st))
    ensures var o := SearchChoice(g, st, c, skip);
            Clean(g, st, o, c, skip) && Met(st, o.res)
    decreases White(st), 1
  {
    hide InOrder, WellFormed, NoRepeats;
    if st.visited[c] == 0 {
      MarkSound(g, st, c);
      var st1 := Marked(st, c);
      SymsClean(g, st1, c, skip, 0);
      var o := SearchSyms(g, st1, c, skip, 0);
      if o.res.NoLoop? {
        FinishSound(g, o.st, c, None, skip);
      }
    }
  }

  lemma {:induction false} SymsClean(g: Graph, st: State, c: Node, skip: Option<Node>, i: nat)
    requires Sound(g, st, None) && IsChoice(g, c) && c in Open(st) && i <= |g.kind[c].syms|
    requires forall j | 0 <= j < i :: g.kind[c].syms[j] in st.done || Some(g.kind[c].syms[j]) == skip
    ensures var o := SearchSyms(g, st, c, skip, i);
            && (o.res.NoLoop? ==> Sound(g, o.st, None) && Open(o.st) == Open(st) && st.done <= o.st.done)
            && (o.res.NoLoop? ==> forall y | y in g.kind[c].syms :: y in o.st.done || Some(y) == skip)
            && Met(st, o.res) && (o.res.Collecting? ==> o.res.loop[0] != c)
    decreases White(st), 2, |g.kind[c].syms| - i
  {
    hide InOrder, Complete, NoRepeats;
    if i < |g.kind[c].syms| {
      var s := g.kind[c].syms[i];
      assert s in g.kind[c].syms;
      if Some(s) == skip {
        SymsClean(g, st, c, skip, i + 1);
      } else {
        var o := SearchSym(g, st, s, true);
        SymClean(g, st, s, true);
        if o.res.NoLoop? {
          SymsClean(g, o.st, c, skip, i + 1);
        }
      }
    }
  }

  /** A whole check, from any state with nothing in progress: it ends clean or with a loop reported. */
  lemma {:induction false} AllSearched(g: Graph, st: State, starts: seq<Node>) returns (p: seq<Node>)
    requires Sound(g, st, None) && Open(st) == {} && forall s | s in starts :: IsSym(g, s)
    ensures var o := SearchAll(g, st, starts);
            && !o.res.Collecting?
            && (o.res.Raised? ==> Means(g, o.res, 0, p))
            && (o.res.NoLoop? ==> Sound(g, o.st, None) && st.done <= o.st.done)
            && (o.res.NoLoop? ==> forall s | s in starts :: s in o.st.done)
    decreases |starts|
  {
    hide WellFormed, InOrder, Complete, NoRepeats, IsChain, IsLoop;
    p := [];
    if starts != [] {
      var o := SearchSym(g, st, starts[0], false);
      SymClean(g, st, starts[0], false);
      if o.res.NoLoop? {
        p := AllSearched(g, o.st, starts[1..]);
      } else {
        p := SymMeans(g, st, starts[0], false);
      }
    }
  }

  // ---- rounds of edges, and where they change symbols within a choice ----

  /** The edge that follows the i-th of a round. */
  function After(es: seq<(Node, Node)>, i: nat): (Node, Node)
    requires i < |es|
  {
    if i + 1 < |es| then es[i + 1] else es[0]
  }

  /** Edges that lead from group to group and back to the first. */
  ghost predicate IsRound(g: Graph, es: seq<(Node, Node)>) {
    es != [] && forall i {:trigger After(es, i)} | 0 <= i < |es| ::
      Edge(g, es[i].0, es[i].1) && Group(g, es[i].1) == Group(g, After(es, i).0)
  }

  lemma RoundEdge(g: Graph, es: seq<(Node, Node)>, i: nat)
    requires IsRound(g, es) && i < |es|
    ensures Edge(g, es[i].0, es[i].1) && Group(g, es[i].1) == Group(g, After(es, i).0)
  {
    var next := After(es, i);
  }

  /** f goes on from the choice e leads to rather than from one of its symbols, or from another of its symbols. */
  predicate Hop(g: Graph, e: (Node, Node), f: (Node, Node)) {
    IsChoice(g, f.0) || (IsSym(g, e.1) && f.0 != e.1)
  }

  ghost predicate Hops(g: Graph, es: seq<(Node, Node)>) {
    exists i {:trigger After(es, i)} | 0 <= i < |es| :: Hop(g, es[i], After(es, i))
  }

  /** No loop comes into a choice by one symbol and leaves it by another, or by the choice itself. */
  ghost predicate HopFree(g: Graph) { forall es | IsRound(g, es) :: !Hops(g, es) }

  /** The position of v among the nodes. */
  function Pos(s: seq<Node>, v: Node): (i: nat)
    requires v in s
    ensures i < |s| && s[i] == v
  {
    if s[0] == v then 0 else 1 + Pos(s[1..], v)
  }

  lemma PosOf(s: seq<Node>, i: nat)
    requires i < |s| && NoRepeats(s)
    ensures Pos(s, s[i]) == i
  {
  }

  ghost predicate Settled(g: Graph, s: seq<Node>) {
    NoRepeats(s) && InOrder(g, s) && forall v, w | IsSym(g, v) && Edge(g, v, w) :: v in s
  }

  /** Where a round does not change symbols, the next edge starts at something finished earlier. */
  lemma StaysDown(g: Graph, s: seq<Node>, e: (Node, Node), f: (Node, Node))
    requires WellFormed(g) && Settled(g, s) && Edge(g, e.0, e.1) && Edge(g, f.0, f.1) && IsSym(g, e.0)
    requires Group(g, e.1) == Group(g, f.0) && !Hop(g, e, f)
    ensures e.0 in s && f.0 in s && Pos(s, f.0) < Pos(s, e.0)
  {
    var i := Pos(s, e.0);
    assert Seen(g, s[..i], e.1) && f.0 in s[..i];
    var j: nat :| j < i && s[..i][j] == f.0;
    PosOf(s, j);
  }

  lemma NextIsDown(g: Graph, s: seq<Node>, es: seq<(Node, Node)>, i: nat)
    requires WellFormed(g) && Settled(g, s) && IsRound(g, es) && !Hops(g, es) && i < |es|
    ensures es[i].0 in s && After(es, i).0 in s && Pos(s, After(es, i).0) < Pos(s, es[i].0)
  {
    RoundKind(g, es, i);
    hide Settled, WellFormed, Pos, Hop;
    var j := if i + 1 < |es| then i + 1 else 0;
    RoundEdge(g, es, i);
    RoundEdge(g, es, j);
    StaysDown(g, s, es[i], es[j]);
  }

  lemma RoundKind(g: Graph, es: seq<(Node, Node)>, j: nat)
    requires WellFormed(g) && IsRound(g, es) && !Hops(g, es) && j < |es|
    ensures IsSym(g, es[j].0)
  {
    var i := if j == 0 then |es| - 1 else j - 1;
    assert After(es, i) == es[j] && !Hop(g, es[i], After(es, i));
    RoundEdge(g, es, j);
  }

  lemma {:induction false} Descends(g: Graph, s: seq<Node>, es: seq<(Node, Node)>, i: nat)
    requires WellFormed(g) && Settled(g, s) && IsRound(g, es) && !Hops(g, es) && i < |es|
    ensures es[0].0 in s && es[i].0 in s && Pos(s, es[i].0) + i <= Pos(s, es[0].0)
  {
    hide Settled, WellFormed, IsRound, Hops, Pos;
    if i > 0 {
      Descends(g, s, es, i - 1);
      NextIsDown(g, s, es, i - 1);
    } else {
      NextIsDown(g, s, es, 0);
    }
  }

  /** After a clean search every round left changes symbols somewhere. */
  lemma SettledHops(g: Graph, s: seq<Node>, es: seq<(Node, Node)>)
    requires WellFormed(g) && Settled(g, s) && IsRound(g, es)
    ensures Hops(g, es)
  {
    if !Hops(g, es) {
      Descends(g, s, es, |es| - 1);
      NextIsDown(g, s, es, |es| - 1);
      assert false;
    }
  }

  /** The edges behind a walk over groups. */
  lemma {:induction false} WalkEdges(g: Graph, p: seq<Node>) returns (es: seq<(Node, Node)>)
    requires IsWalk(g, p)
    ensures |es| == |p| - 1
    ensures forall i | 0 <= i < |es| ::
              Edge(g, es[i].0, es[i].1) && Group(g, es[i].0) == p[i] && Group(g, es[i].1) == p[i + 1]
  {
    es := [];
    if |p| > 1 {
      var n := |p| - 1;
      es := WalkEdges(g, p[..n]);
      assert GroupEdge(g, p[n - 1], p[n]);
      var v, w :| Edge(g, v, w) && Group(g, v) == p[n - 1] && Group(g, w) == p[n];
      es := es + [(v, w)];
    }
  }

  lemma LoopIsRound(g: Graph, p: seq<Node>) returns (es: seq<(Node, Node)>)
    requires IsLoop(g, p)
    ensures IsRound(g, es)
  {
    es := WalkEdges(g, p);
  }

  lemma RoundIsLoop(g: Graph, es: seq<(Node, Node)>) returns (p: seq<Node>)
    requires IsRound(g, es)
    ensures IsLoop(g, p)
  {
    var n := |es|;
    p := seq(n + 1, i requires 0 <= i <= n => if i < n then Group(g, es[i].0) else Group(g, es[0].0));
    forall i | 0 < i < |p|
      ensures GroupEdge(g, p[i - 1], p[i])
    {
      RoundEdge(g, es, i - 1);
    }
  }

  /** The whole check over all symbols that anything depends on. A clean end leaves only loops that change symbols
      within a choice; whatever is reported is a loop. */
  method CheckAll(g: Graph, starts: seq<Node>) returns (res: Result)
    requires WellFormed(g) && forall s | s in starts :: IsSym(g, s)
    requires forall v, w | IsSym(g, v) && Edge(g, v, w) :: v in starts
    ensures res == SearchAll(g, Start(g), starts).res && !res.Collecting?
    ensures res.Raised? ==> IsChain(g, res.loop) && Link(g, res.loop[0], res.loop[|res.loop| - 1]) && !Acyclic(g)
    ensures res.NoLoop? ==> forall es | IsRound(g, es) :: Hops(g, es)
    ensures Acyclic(g) <==> res.NoLoop? && HopFree(g)
  {
    var checker := new Checker(g);
    ghost var goal := SearchAll(g, Start(g), starts);
    res := NoLoop;
    var i := 0;
    while i < |starts| && res.NoLoop?
      invariant 0 <= i <= |starts| && checker.g == g && Fits(g, checker.Now())
      invariant if res.NoLoop? then SearchAll(g, checker.Now(), starts[i..]) == goal else res == goal.res
    {
      ghost var before := checker.Now();
      assert starts[i] in starts && starts[i..][0] == starts[i] && starts[i..][1..] == starts[i + 1..];
      res := checker.CheckSym(starts[i], false);
      i := i + 1;
    }
    SearchDecides(g, starts);
  }

  lemma SearchDecides(g: Graph, starts: seq<Node>)
    requires WellFormed(g) && forall s | s in starts :: IsSym(g, s)
    requires forall v, w | IsSym(g, v) && Edge(g, v, w) :: v in starts
    ensures var res := SearchAll(g, Start(g), starts).res;
            && !res.Collecting?
            && (res.Raised? ==> IsChain(g, res.loop) && Link(g, res.loop[0], res.loop[|res.loop| - 1]) && !Acyclic(g))
            && (res.NoLoop? ==> forall es | IsRound(g, es) :: Hops(g, es))
            && (Acyclic(g) <==> res.NoLoop? && HopFree(g))
  {
    var o := SearchAll(g, Start(g), starts);
    assert Sound(g, Start(g), None) && Open(Start(g)) == {};
    var p := AllSearched(g, Start(g), starts);
    if o.res.NoLoop? {
      assert Settled(g, o.st.done);
      forall es | IsRound(g, es)
        ensures Hops(g, es)
      {
        SettledHops(g, o.st.done, es);
      }
      AcyclicIsRoundFree(g);
    }
  }

  lemma AcyclicIsRoundFree(g: Graph)
    ensures Acyclic(g) <==> forall es :: !IsRound(g, es)
  {
    hide IsLoop, IsRound;
    forall p | IsLoop(g, p)
      ensures exists es :: IsRound(g, es)
    {
      var es := LoopIsRound(g, p);
    }
    forall es | IsRound(g, es)
      ensures !Acyclic(g)
    {
      var p := RoundIsLoop(g, es);
    }
  }

  /** No choice is entered by an edge to one of its symbols and left by an edge from another, or by the choice itself:
      this can be read off the edges, and holds wherever there are no choices. */
  ghost predicate OneWay(g: Graph) {
    forall v, a, b, w | Edge(g, v, a) && Edge(g, b, w) && Group(g, a) == Group(g, b) :: !Hop(g, (v, a), (b, w))
  }

  lemma OneWayIsHopFree(g: Graph)
    requires OneWay(g)
    ensures HopFree(g)
  {
    forall es: seq<(Node, Node)> | IsRound(g, es)
      ensures !Hops(g, es)
    {
      forall i | 0 <= i < |es|
        ensures !Hop(g, es[i], After(es, i))
      {
        var j := if i + 1 < |es| then i + 1 else 0;
        RoundEdge(g, es, j);
      }
    }
  }

  // ---- loops the check does not see ----

  /** Node 6 is a choice of 3, 4 and 5. Symbol 7 depends on 5, and 4 depends on 7. */
  function Hopping(): Graph {
    Graph([[], [], [], [], [], [7], [], [4]],
          [Symbol(None), Symbol(None), Symbol(None), Symbol(Some(6)), Symbol(Some(6)), Symbol(Some(6)),
           Choice([3, 4, 5]), Symbol(None)])
  }

  lemma HoppingEdges()
    ensures forall v, w :: Edge(Hopping(), v, w) <==> (v == 5 && w == 7) || (v == 7 && w == 4)
  {
  }

  lemma HoppingIsGraph()
    ensures WellFormed(Hopping()) && Fits(Hopping(), Start(Hopping()))
  {
    var g := Hopping();
    HoppingEdges();
    hide Edge;
    assert forall c: Node, s: Node | IsChoice(g, c) && s in g.kind[c].syms :: c == 6 && (s == 3 || s == 4 || s == 5);
    assert forall s: Node | IsSym(g, s) && g.kind[s].choice.Some? :: s == 3 || s == 4 || s == 5;
  }

  lemma HoppingLoops()
    ensures !Acyclic(Hopping()) && !HopFree(Hopping())
  {
    var g, es := Hopping(), [(5, 7), (7, 4)];
    HoppingEdges();
    hide WellFormed, Hops, Edge;
    assert IsRound(g, es);
    assert Hops(g, es) by {
      assert Hop(g, es[1], After(es, 1));
    }
    AcyclicIsRoundFree(g);
  }

  /** The check passes this loop: when it comes to symbol 4 again that one is already finished. */
  lemma LoopMissed()
    ensures WellFormed(Hopping()) && SearchAll(Hopping(), Start(Hopping()), [2, 3, 4, 5, 7]).res == NoLoop
    ensures !Acyclic(Hopping()) && !HopFree(Hopping())
  {
    var g := Hopping();
    HoppingIsGraph();
    HoppingLoops();
    hide WellFormed, SearchSym, Edge, Acyclic, HopFree;
    NoDependents(g, Start(g), 2, false);
    var st := SearchSym(g, Start(g), 2, false).st;
    HoppingSearched(g, st);
    var done := SearchSym(g, st, 3, false).st;
    DoneAgain(g, done, 7);
    DoneAgain(g, done, 5);
    DoneAgain(g, done, 4);
    assert SearchAll(g, done, [7]) == SearchAll(g, done, []);
    assert [5, 7][1..] == [7] && SearchAll(g, done, [5, 7]) == SearchAll(g, done, [7]);
    assert [4, 5, 7][1..] == [5, 7] && SearchAll(g, done, [4, 5, 7]) == SearchAll(g, done, [5, 7]);
    assert [3, 4, 5, 7][1..] == [4, 5, 7] && SearchAll(g, st, [3, 4, 5, 7]) == SearchAll(g, done, [4, 5, 7]);
    assert [2, 3, 4, 5, 7][1..] == [3, 4, 5, 7];
  }

  lemma HoppingSearched(g: Graph, st: State)
    requires g == Hopping() && WellFormed(g) && st == State([0, 0, 2, 0, 0, 0, 0, 0], [2])
    ensures SearchSym(g, st, 3, false) == Out(State([0, 0, 2, 2, 2, 2, 2, 2], [2, 4, 7, 5, 6, 3]), NoLoop)
  {
    hide WellFormed;
    var st1 := Marked(st, 3);
    var st2 := Marked(st1, 6);
    assert st2 == State([0, 0, 2, 1, 0, 0, 1, 0], [2]);
    assert SearchDeps(g, st1, 3, 0) == Out(st1, NoLoop);
    HoppingChoice(g, st2);
    assert SearchSyms(g, st2, 6, Some(3), 0) == SearchSyms(g, st2, 6, Some(3), 1);
  }

  lemma HoppingChoice(g: Graph, st: State)
    requires g == Hopping() && WellFormed(g) && st == State([0, 0, 2, 1, 0, 0, 1, 0], [2])
    ensures SearchSyms(g, st, 6, Some(3), 1) == Out(State([0, 0, 2, 1, 2, 2, 1, 2], [2, 4, 7, 5]), NoLoop)
  {
    hide WellFormed, SearchSym, SearchDeps;
    NoDependents(g, st, 4, true);
    var st1 := State([0, 0, 2, 1, 2, 0, 1, 0], [2, 4]);
    assert SearchSym(g, st, 4, true) == Out(st1, NoLoop);
    HoppingBack(g, st1);
    var st2 := State([0, 0, 2, 1, 2, 2, 1, 2], [2, 4, 7, 5]);
    assert SearchSyms(g, st2, 6, Some(3), 3) == Out(st2, NoLoop);
    assert SearchSyms(g, st1, 6, Some(3), 2) == Out(st2, NoLoop);
  }

  lemma HoppingBack(g: Graph, st: State)
    requires g == Hopping() && WellFormed(g) && st == State([0, 0, 2, 1, 2, 0, 1, 0], [2, 4])
    ensures SearchSym(g, st, 5, true) == Out(State([0, 0, 2, 1, 2, 2, 1, 2], [2, 4, 7, 5]), NoLoop)
  {
    hide WellFormed, SearchSym, SearchDeps;
    var st1 := State([0, 0, 2, 1, 2, 1, 1, 0], [2, 4]);
    assert Marked(st, 5) == st1;
    DoneAgain(g, Marked(st1, 7), 4);
    OneDependent(g, st1, 7, false);
    assert SearchSym(g, st1, 7, false) == Out(State([0, 0, 2, 1, 2, 1, 1, 2], [2, 4, 7]), NoLoop);
    OneDependent(g, st, 5, true);
  }

  lemma DoneAgain(g: Graph, st: State, s: Node)
    requires Fits(g, st) && IsSym(g, s) && st.visited[s] == 2
    ensures SearchSym(g, st, s, false) == Out(st, NoLoop)
  {
  }

  lemma NoDependents(g: Graph, st: State, s: Node, ignoreChoice: bool)
    requires Fits(g, st) && IsSym(g, s) && st.visited[s] == 0 && (ignoreChoice || g.kind[s].choice.None?)
    requires g.deps[s] == []
    ensures SearchSym(g, st, s, ignoreChoice) == Out(Finished(Marked(st, s), s), NoLoop)
  {
    assert SearchDeps(g, Marked(st, s), s, 0) == Out(Marked(st, s), NoLoop);
  }

  lemma OneDependent(g: Graph, st: State, s: Node, ignoreChoice: bool)
    requires Fits(g, st) && IsSym(g, s) && st.visited[s] == 0 && (ignoreChoice || g.kind[s].choice.None?)
    requires |g.deps[s]| == 1 && IsSym(g, g.deps[s][0])
    ensures var o := SearchSym(g, Marked(st, s), g.deps[s][0], false);
            o.res.NoLoop? ==> SearchSym(g, st, s, ignoreChoice) == Out(Finished(o.st, s), NoLoop)
  {
    assert |g.deps| == |g.kind|;
    hide WellFormed;
    var o := SearchSym(g, Marked(st, s), g.deps[s][0], false);
    if o.res.NoLoop? {
      assert SearchDeps(g, o.st, s, 1) == Out(o.st, NoLoop);
      assert SearchDeps(g, Marked(st, s), s, 0) == Out(o.st, NoLoop);
    }
  }

  // ---- heights ----

  /** Dependents are higher than what they depend on. */
  ghost predicate Heights(g: Graph, h: map<Node, nat>) {
    && (forall v: Node | v < |g.kind| :: v in h)
    && (forall v | v in h :: h[v] < |h.Keys|)
    && forall x, y | x in h && y in h && GroupEdge(g, x, y) :: h[x] < h[y]
  }

  /** A group, of those given, that nothing among them depends on. */
  lemma {:induction false} Topmost(g: Graph, todo: set<Node>, p: seq<Node>) returns (x: Node)
    requires Acyclic(g) && IsWalk(g, p) && forall v | v in p :: v in todo
    ensures x in todo && forall y | y in todo :: !GroupEdge(g, x, y)
    decreases todo - set v | v in p
  {
    x := p[|p| - 1];
    if y :| y in todo && GroupEdge(g, x, y) {
      var q := p + [y];
      if y in p {
        var i: nat :| i < |p| && p[i] == y;
        assert IsLoop(g, q[i..]);
        assert false;
      }
      assert y in (todo - set v | v in p) && y !in (todo - set v | v in q);
      x := Topmost(g, todo, q);
    }
  }

  /** Groups without loops can be put in layers. */
  lemma {:induction false} Layers(g: Graph, todo: set<Node>) returns (h: map<Node, nat>)
    requires Acyclic(g)
    ensures h.Keys == todo && (forall v | v in todo :: h[v] < |todo|)
    ensures forall x, y | x in h && y in h && GroupEdge(g, x, y) :: h[x] < h[y]
    decreases todo
  {
    if todo == {} {
      h := map[];
    } else {
      var v :| v in todo;
      var x := Topmost(g, todo, [v]);
      h := Layers(g, todo - {x});
      h := h[x := |todo| - 1];
    }
  }

  /** Exactly the graphs without loops have heights. */
  lemma AcyclicIsLayered(g: Graph)
    requires WellFormed(g)
    ensures Acyclic(g) <==> exists h :: Heights(g, h)
  {
    if Acyclic(g) {
      var h := Layers(g, set v: Node | v < |g.kind| && (IsSym(g, v) || IsChoice(g, v)));
      assert Heights(g, h);
    }
    if h :| Heights(g, h) {
      forall p | IsLoop(g, p)
        ensures false
      {
        Climbs(g, h, p, |p| - 1);
      }
    }
  }

  lemma {:induction false} Climbs(g: Graph, h: map<Node, nat>, p: seq<Node>, i: nat)
    requires WellFormed(g) && Heights(g, h) && IsWalk(g, p) && |p| > 1 && i < |p|
    ensures p[0] in h && p[i] in h && h[p[0]] + i <= h[p[i]]
  {
    if i > 0 {
      Climbs(g, h, p, i - 1);
      assert GroupEdge(g, p[i - 1], p[i]);
    } else {
      assert GroupEdge(g, p[0], p[1]);
    }
  }
}
