/** Configurations at which properties fail: two that the loop check passes although no values satisfy their rules, so
    that evaluation goes round for ever, one whose values change when they are saved and loaded, and two in which what is
    named as assignable is not what setting does. */
module KExamples {
  import opened Basics
  import opened KValues
  import opened KReads
  import F = KFixpoint
  import L = KLoop
  import O = KOrder
  import R = KRoundTrip
  import A = KAssign

  const N := Symbol("n", Tristate, Some(0), false, [], [], [], Ref(0), Ref(0), Ref(0), None)
  const Y := Symbol("y", Tristate, Some(2), false, [], [], [], Ref(0), Ref(0), Ref(0), None)

  function Plain(name: string, ty: Type, prompts: seq<Expr>, defaults: seq<Default>): Item {
    Symbol(name, ty, None, true, prompts, defaults, [], Ref(0), Ref(0), Ref(1), None)
  }

  function Member(name: string, prompt: Expr): Item {
    Symbol(name, Bool, None, true, [prompt], [], [], Ref(0), Ref(0), Ref(6), Some(6))
  }

  ghost predicate Unsolvable(k: Config, u: Users) {
    forall r, env | O.Total(k, r) :: !F.Solves(k, r, u, env)
  }

  lemma UnsolvableIsUnordered(k: Config, u: Users)
    requires UsersOk(k, u) && Unsolvable(k, u)
    ensures !exists r :: F.Ordered(k, r) && O.Total(k, r)
  {
    hide F.Solves, F.Ordered, O.Total, F.Full, UsersOk;
    if r :| F.Ordered(k, r) && O.Total(k, r) {
      F.SolutionIsUnique(k, r, u, F.Full(k, r, u));
      assert false;
    }
  }

  lemma NoIds()
    ensures F.IdsOf([]) == {} && F.DefaultIds([]) == {} && F.RangeIds([]) == {}
  {
  }

  lemma OneIds(e: Expr)
    ensures F.IdsOf([e]) == F.ExprIds(e)
  {
    assert e in [e];
  }

  lemma MemberUses(k: Config, x: Id, name: string, e: Expr)
    requires ItemAt(k, x) == Member(name, e)
    ensures F.Uses(k, x) == F.ExprIds(e) + {0, 6}
  {
    NoIds();
    OneIds(e);
    hide F.IdsOf, F.DefaultIds, F.RangeIds;
  }

  lemma PlainUses(k: Config, x: Id, name: string, ty: Type, ps: seq<Expr>, ds: seq<Default>)
    requires ItemAt(k, x) == Plain(name, ty, ps, ds)
    ensures F.Uses(k, x) == F.IdsOf(ps) + F.DefaultIds(ds) + {0, 1}
  {
    NoIds();
    hide F.IdsOf, F.DefaultIds, F.RangeIds;
  }

  // ---- the modules symbol asks for a tristate, and that for the modules symbol ----

  /** MODULES defaults to y if T = y, and T is a tristate. */
  function AskedBack(numbers: Numbers): Config {
    Config([N, Y, Plain("MODULES", Bool, [], [Default(Ref(1), Rel(Equal, 3, 1))]), Plain("T", Tristate, [Ref(1)], [])],
           2, numbers)
  }

  /** The user asks for m of the tristate at 3. */
  const WANTS_M: Users := map[3 := User(Some(UserTri(1)), None)]

  function AskedBackGraph(): L.Graph {
    L.Graph([[], [], [], [2]], [L.Symbol(None), L.Symbol(None), L.Symbol(None), L.Symbol(None)])
  }

  /** What the constants and the visibilities come to. */
  predicate AskedBackBase(env: Env) {
    && LevelAt(env, Tri(0)) == 0 && LevelAt(env, Tri(1)) == 2
    && LevelAt(env, Vis(2)) == 0 && LevelAt(env, Vis(3)) == 2
  }

  lemma AskedBackModules(numbers: Numbers, env: Env)
    requires AskedBackBase(env)
    ensures var v := Compute(AskedBack(numbers), WANTS_M, env, Tri(2)).val;
            v.TriValue? && v.n == if LevelAt(env, Tri(3)) == 2 then 2 else 0
  {
    var k, u, cond := AskedBack(numbers), WANTS_M, Rel(Equal, 3, 1);
    var it := ItemAt(k, 2);
    assert ExprVal(k, u, env, cond).val == if LevelAt(env, Tri(3)) == 2 then 2 else 0;
    assert it.defaults == [Default(Ref(1), cond)] && it.defaults[1..] == [];
    assert FirstDefault(k, u, env, it.defaults).val == if LevelAt(env, Tri(3)) == 2 then 2 else 0;
    hide FirstDefault;
  }

  lemma AskedBackT(numbers: Numbers, env: Env)
    requires AskedBackBase(env)
    ensures var v := Compute(AskedBack(numbers), WANTS_M, env, Tri(3)).val;
            v.TriValue? && v.n == if LevelAt(env, Tri(2)) == 0 then 2 else 1
  {
  }

  lemma AskedBackStart(numbers: Numbers, env: Env)
    requires LevelAt(env, Tri(1)) == 2
    ensures var k := AskedBack(numbers);
            && Compute(k, WANTS_M, env, Tri(0)).val == TriValue(0, false)
            && Compute(k, WANTS_M, env, Tri(1)).val == TriValue(2, false)
            && Compute(k, WANTS_M, env, Vis(2)).val == Level(0)
            && Compute(k, WANTS_M, env, Vis(3)).val == Level(2)
  {
    var k, u := AskedBack(numbers), WANTS_M;
    assert ItemAt(k, 3).prompts == [Ref(1)] && [Ref(1)][1..] == [];
    assert MaxOf(k, u, env, [Ref(1)], 0).val == 2;
  }

  lemma AskedBackUnsolvable(numbers: Numbers)
    ensures Unsolvable(AskedBack(numbers), WANTS_M)
  {
    var k, u := AskedBack(numbers), WANTS_M;
    forall r, env | O.Total(k, r)
      ensures !F.Solves(k, r, u, env)
    {
      if F.Solves(k, r, u, env) {
        assert Tri(1) in r && Tri(0) in r && Vis(2) in r && Vis(3) in r && Tri(2) in r && Tri(3) in r;
        assert Compute(k, u, env, Tri(1)).val == TriValue(2, false);
        AskedBackStart(numbers, env);
        hide Compute;
        AskedBackModules(numbers, env);
        AskedBackT(numbers, env);
        assert false;
      }
    }
  }

  lemma AskedBackItems(numbers: Numbers)
    ensures F.WellFormed(AskedBack(numbers)) && UsersOk(AskedBack(numbers), WANTS_M)
  {
    var k := AskedBack(numbers);
    hide F.Mentioned;
    forall x
      ensures F.ItemOk(k, x)
    {
    }
  }

  lemma AskedBackNames(numbers: Numbers, x: Id, j: Id)
    ensures var k := AskedBack(numbers);
            && (O.Named(k, x, j) <==> j == 3 && x == 2)
            && (F.IsDefined(k, x) && j in F.Uses(k, x) ==> j < 4)
  {
    AskedBackUses(numbers);
    hide F.Uses;
  }

  lemma AskedBackEdges()
    ensures forall v, w :: L.Edge(AskedBackGraph(), v, w) <==> v == 3 && w == 2
    ensures L.WellFormed(AskedBackGraph())
  {
  }

  lemma AskedBackFormed(numbers: Numbers)
    ensures O.InRange(AskedBack(numbers)) && O.GraphOf(AskedBack(numbers), AskedBackGraph())
  {
    var k, g := AskedBack(numbers), AskedBackGraph();
    AskedBackEdges();
    hide L.Edge, O.Named, F.Uses, F.IsDefined, L.WellFormed;
    forall x, j
      ensures O.Named(k, x, j) <==> j == 3 && x == 2
      ensures F.IsDefined(k, x) && j in F.Uses(k, x) ==> j < 4
    {
      AskedBackNames(numbers, x, j);
    }
  }

  lemma AskedBackUses(numbers: Numbers)
    ensures F.Uses(AskedBack(numbers), 2) == {0, 1, 3} && F.Uses(AskedBack(numbers), 3) == {0, 1}
  {
    var k := AskedBack(numbers);
    var d := Default(Ref(1), Rel(Equal, 3, 1));
    assert d in [d] && F.ExprIds(d.cond) + F.ExprIds(d.value) == {1, 3};
    assert F.DefaultIds([d]) == {1, 3};
    NoIds();
    OneIds(Ref(1));
    hide F.IdsOf, F.DefaultIds, F.Uses;
    PlainUses(k, 2, "MODULES", Bool, [], [d]);
    PlainUses(k, 3, "T", Tristate, [Ref(1)], []);
  }

  /** MODULES reads T's text, T's type asks for MODULES. No property of T names MODULES, so that the dependents have no
      loop and the check passes; but no values satisfy the rules, and no order of the attributes exists. */
  lemma ModulesAskedBack(numbers: Numbers)
    ensures var k := AskedBack(numbers);
            && F.WellFormed(k) && O.InRange(k) && O.GraphOf(k, AskedBackGraph()) && UsersOk(k, WANTS_M)
            && L.Acyclic(AskedBackGraph()) && L.HopFree(AskedBackGraph())
            && Unsolvable(k, WANTS_M) && (!exists r :: F.Ordered(k, r) && O.Total(k, r)) && !O.ModulesSafe(k)
  {
    var k, g := AskedBack(numbers), AskedBackGraph();
    AskedBackItems(numbers);
    AskedBackFormed(numbers);
    AskedBackAcyclic();
    AskedBackUnsolvable(numbers);
    hide F.WellFormed, O.InRange, O.GraphOf, UsersOk, L.Acyclic, L.HopFree;
    hide Unsolvable, O.Total, F.Ordered, O.ModulesSafe;
    UnsolvableIsUnordered(k, WANTS_M);
    O.OrderExists(k, g);
  }

  lemma AskedBackAcyclic()
    ensures L.Acyclic(AskedBackGraph()) && L.HopFree(AskedBackGraph())
  {
    var g := AskedBackGraph();
    AskedBackEdges();
    hide L.Edge, L.WellFormed, L.IsRound, L.Acyclic;
    forall es
      ensures !L.IsRound(g, es)
    {
      AskedBackRound(es);
    }
    L.AcyclicIsRoundFree(g);
  }

  lemma AskedBackRound(es: seq<(Id, Id)>)
    ensures !L.IsRound(AskedBackGraph(), es)
  {
    var g := AskedBackGraph();
    AskedBackEdges();
    hide L.Edge, L.WellFormed, L.IsRound;
    if L.IsRound(g, es) {
      NonEmptyRound(g, es);
      L.RoundEdge(g, es, 0);
      L.RoundEdge(g, es, if 1 < |es| then 1 else 0);
      assert false;
    }
  }

  lemma NonEmptyRound(g: L.Graph, es: seq<(Id, Id)>)
    requires L.IsRound(g, es)
    ensures |es| > 0
  {
  }

  // ---- a loop from one symbol of a choice to another ----

  /** A choice of Z, B1 and B2 that defaults to B2. W defaults to y if B2, and B1 is visible if W. */
  function Hopped(numbers: Numbers): Config {
    Config([N, Y, Plain("MODULES", Bool, [], []),
            Member("Z", Ref(6)), Member("B1", And(Ref(6), Ref(7))), Member("B2", Ref(6)),
            Choice(Bool, false, [Ref(1)], [ChoiceDefault(5, Ref(1))], [3, 4, 5]),
            Plain("W", Bool, [], [Default(Ref(1), Ref(5))])],
           2, numbers)
  }

  /** The user picks B1. */
  const WANTS_B1: Users := map[6 := User(None, Some(4))]

  predicate HoppedBase(env: Env) {
    && LevelAt(env, Tri(0)) == 0 && LevelAt(env, Tri(1)) == 2
    && LevelAt(env, Vis(6)) == 2 && LevelAt(env, Vis(5)) == 2 && LevelAt(env, Vis(7)) == 0
  }

  lemma HoppedMode(numbers: Numbers, env: Env)
    requires LevelAt(env, Vis(6)) == 2
    ensures ChoiceTri(Hopped(numbers), WANTS_B1, env, 6).val == 2
  {
  }

  lemma HoppedStart(numbers: Numbers, env: Env)
    requires LevelAt(env, Tri(1)) == 2
    ensures var k := Hopped(numbers);
            && Compute(k, WANTS_B1, env, Vis(6)).val == Level(2)
            && Compute(k, WANTS_B1, env, Vis(7)).val == Level(0)
            && (LevelAt(env, Vis(6)) == 2 ==> Compute(k, WANTS_B1, env, Vis(5)).val == Level(2))
  {
    var k, u := Hopped(numbers), WANTS_B1;
    assert MaxOf(k, u, env, [], 2).val == 2;
    assert [Ref(1)][1..] == [] && [Ref(6)][1..] == [];
    assert MaxOf(k, u, env, [Ref(1)], 0).val == 2;
    if LevelAt(env, Vis(6)) == 2 {
      HoppedMode(numbers, env);
      assert MaxOf(k, u, env, [Ref(6)], 0).val == 2;
    }
  }

  lemma HoppedSelection(numbers: Numbers, env: Env)
    requires HoppedBase(env)
    ensures Compute(Hopped(numbers), WANTS_B1, env, Selection(6)).val
         == Picked(Some(if LevelAt(env, Vis(4)) != 0 then 4 else 5))
  {
    var k, u := Hopped(numbers), WANTS_B1;
    HoppedMode(numbers, env);
    hide ChoiceTri;
    var ds := [ChoiceDefault(5, Ref(1))];
    assert ExprVal(k, u, env, Ref(1)).val == 2;
    assert DefaultPick(k, u, env, ds).val == Some(5);
    hide DefaultPick;
  }

  lemma HoppedB2(numbers: Numbers, env: Env)
    requires HoppedBase(env)
    ensures var v := Compute(Hopped(numbers), WANTS_B1, env, Tri(5)).val;
            v.TriValue? && v.n == if Selection(6) in env && env[Selection(6)] == Picked(Some(5)) then 2 else 0
  {
  }

  lemma HoppedW(numbers: Numbers, env: Env)
    requires HoppedBase(env) && LevelAt(env, Tri(5)) in {0, 2}
    ensures var v := Compute(Hopped(numbers), WANTS_B1, env, Tri(7)).val;
            v.TriValue? && v.n == LevelAt(env, Tri(5))
  {
    var k, u := Hopped(numbers), WANTS_B1;
    var ds := [Default(Ref(1), Ref(5))];
    assert ItemAt(k, 7).defaults == ds && ds[1..] == [];
    assert FirstDefault(k, u, env, ds).val == LevelAt(env, Tri(5));
    hide FirstDefault;
  }

  lemma HoppedB1(numbers: Numbers, env: Env)
    requires HoppedBase(env) && LevelAt(env, Tri(7)) in {0, 2}
    ensures Compute(Hopped(numbers), WANTS_B1, env, Vis(4)).val == Level(LevelAt(env, Tri(7)))
  {
    var k, u, e := Hopped(numbers), WANTS_B1, And(Ref(6), Ref(7));
    HoppedMode(numbers, env);
    hide ChoiceTri;
    assert ItemAt(k, 4).prompts == [e] && [e][1..] == [];
    assert ExprVal(k, u, env, e).val == LevelAt(env, Tri(7));
    assert MaxOf(k, u, env, [], LevelAt(env, Tri(7))).val == LevelAt(env, Tri(7));
    assert MaxOf(k, u, env, [e], 0).val == LevelAt(env, Tri(7));
    hide MaxOf;
  }

  lemma HoppedConstants(numbers: Numbers, env: Env)
    ensures Compute(Hopped(numbers), WANTS_B1, env, Tri(0)).val == TriValue(0, false)
    ensures Compute(Hopped(numbers), WANTS_B1, env, Tri(1)).val == TriValue(2, false)
  {
  }

  lemma HoppedSolvedBase(numbers: Numbers, r: F.Rank, env: Env)
    requires O.Total(Hopped(numbers), r) && F.Solves(Hopped(numbers), r, WANTS_B1, env)
    ensures HoppedBase(env)
  {
    assert Tri(0) in r && Tri(1) in r && Vis(5) in r && Vis(6) in r && Vis(7) in r;
    hide Compute, Hopped, O.Total;
    HoppedConstants(numbers, env);
    HoppedStart(numbers, env);
  }

  /** B1 visible: B1 is picked, B2 is n, W is n, B1 is hidden. B1 hidden: B2 is picked, W is y, B1 is visible. */
  lemma HoppedUnsolved(numbers: Numbers, r: F.Rank, env: Env)
    requires O.Total(Hopped(numbers), r)
    ensures !F.Solves(Hopped(numbers), r, WANTS_B1, env)
  {
    assert Vis(4) in r && Selection(6) in r && Tri(5) in r && Tri(7) in r;
    hide Compute, Hopped, O.Total;
    if F.Solves(Hopped(numbers), r, WANTS_B1, env) {
      HoppedSolvedBase(numbers, r, env);
      hide HoppedBase;
      HoppedSelection(numbers, env);
      HoppedB2(numbers, env);
      HoppedW(numbers, env);
      HoppedB1(numbers, env);
      assert false;
    }
  }

  lemma HoppedAt(numbers: Numbers)
    ensures var k := Hopped(numbers);
            && k.modules == 2 && ItemAt(k, 0) == N && ItemAt(k, 1) == Y
            && ItemAt(k, 2) == Plain("MODULES", Bool, [], [])
            && ItemAt(k, 3) == Member("Z", Ref(6)) && ItemAt(k, 4) == Member("B1", And(Ref(6), Ref(7)))
            && ItemAt(k, 5) == Member("B2", Ref(6)) && ItemAt(k, 7) == Plain("W", Bool, [], [Default(Ref(1), Ref(5))])
            && ItemAt(k, 6) == Choice(Bool, false, [Ref(1)], [ChoiceDefault(5, Ref(1))], [3, 4, 5])
  {
  }

  lemma HoppedDefaults()
    ensures F.DefaultIds([Default(Ref(1), Ref(5))]) == {1, 5} && F.PickIds([ChoiceDefault(5, Ref(1))]) == {1}
  {
    var d, p := Default(Ref(1), Ref(5)), ChoiceDefault(5, Ref(1));
    assert d in [d] && F.ExprIds(d.cond) + F.ExprIds(d.value) == {1, 5};
    assert p in [p] && F.ExprIds(p.cond) == {1};
  }

  lemma HoppedUses(numbers: Numbers)
    ensures var k := Hopped(numbers);
            && F.Uses(k, 2) == {0, 1} && F.Uses(k, 3) == {0, 6} && F.Uses(k, 4) == {0, 6, 7}
            && F.Uses(k, 5) == {0, 6} && F.Uses(k, 6) == {1} && F.Uses(k, 7) == {0, 1, 5}
  {
    hide Hopped, Plain, Member, ItemAt, F.IdsOf, F.DefaultIds, F.PickIds, F.RangeIds;
    var k := Hopped(numbers);
    HoppedAt(numbers);
    HoppedDefaults();
    NoIds();
    OneIds(Ref(1));
    assert F.Uses(k, 6) == {1};
    hide F.Uses;
    PlainUses(k, 2, "MODULES", Bool, [], []);
    MemberUses(k, 3, "Z", Ref(6));
    MemberUses(k, 4, "B1", And(Ref(6), Ref(7)));
    MemberUses(k, 5, "B2", Ref(6));
    PlainUses(k, 7, "W", Bool, [], [Default(Ref(1), Ref(5))]);
  }

  lemma HoppedNames(numbers: Numbers, x: Id, j: Id)
    ensures var k := Hopped(numbers);
            && (O.Named(k, x, j) <==> (j == 5 && x == 7) || (j == 7 && x == 4))
            && (F.IsDefined(k, x) && j in F.Uses(k, x) ==> j < 8)
  {
    HoppedUses(numbers);
    hide F.Uses;
  }

  lemma HoppedItems(numbers: Numbers)
    ensures F.WellFormed(Hopped(numbers)) && UsersOk(Hopped(numbers), WANTS_B1)
  {
    var k := Hopped(numbers);
    HoppedUses(numbers);
    hide F.Uses;
    forall x
      ensures F.ItemOk(k, x)
    {
    }
  }

  lemma HoppedFormed(numbers: Numbers)
    ensures O.InRange(Hopped(numbers)) && O.GraphOf(Hopped(numbers), L.Hopping())
  {
    var k, g := Hopped(numbers), L.Hopping();
    L.HoppingEdges();
    L.HoppingIsGraph();
    hide L.Edge, O.Named, F.Uses, F.IsDefined, L.WellFormed;
    forall x, j
      ensures O.Named(k, x, j) <==> (j == 5 && x == 7) || (j == 7 && x == 4)
      ensures F.IsDefined(k, x) && j in F.Uses(k, x) ==> j < 8
    {
      HoppedNames(numbers, x, j);
    }
  }

  lemma HoppedModulesReads(numbers: Numbers, c: Cell, e: Cell)
    requires c in {Tri(2), Vis(2), Tri(0), Tri(1)} && FromCell(e) in CellSources(Hopped(numbers), c)
    ensures e in {Tri(2), Vis(2), Tri(0), Tri(1)}
  {
    assert AllSources(Hopped(numbers), []) == {} && DefaultSources(Hopped(numbers), []) == {};
    hide AllSources, DefaultSources;
  }

  lemma HoppedModules(numbers: Numbers)
    ensures O.ModulesSafe(Hopped(numbers))
  {
    var k := Hopped(numbers);
    var cs := {Tri(2), Vis(2), Tri(0), Tri(1)};
    HoppedAt(numbers);
    hide CellSources, O.Behind, Hopped, ItemAt;
    forall c, e | c in cs && FromCell(e) in CellSources(k, c)
      ensures e in cs
    {
      HoppedModulesReads(numbers, c, e);
    }
    forall c | O.Behind(k, c)
      ensures !O.IsTristate(k, c)
    {
      O.BehindStays(k, cs, c);
    }
  }

  /** The check passes, and MODULES depends on nothing, but the loop from B2 over W to B1 and the selection leaves no
      values that satisfy the rules, and no order of the attributes. */
  lemma LoopHopped(numbers: Numbers)
    ensures var k := Hopped(numbers);
            && F.WellFormed(k) && O.InRange(k) && O.GraphOf(k, L.Hopping()) && UsersOk(k, WANTS_B1) && O.ModulesSafe(k)
            && L.SearchAll(L.Hopping(), L.Start(L.Hopping()), [2, 3, 4, 5, 7]).res == L.NoLoop
            && Unsolvable(k, WANTS_B1) && (!exists r :: F.Ordered(k, r) && O.Total(k, r)) && !L.HopFree(L.Hopping())
  {
    var k := Hopped(numbers);
    HoppedItems(numbers);
    HoppedFormed(numbers);
    HoppedModules(numbers);
    L.LoopMissed();
    hide F.WellFormed, O.InRange, O.GraphOf, UsersOk, O.ModulesSafe, O.Total, F.Ordered, F.Solves, Hopped;
    hide L.HopFree, L.Hopping, L.Start, L.SearchAll;
    forall r, env | O.Total(k, r)
      ensures !F.Solves(k, r, WANTS_B1, env)
    {
      HoppedUnsolved(numbers, r, env);
    }
    UnsolvableIsUnordered(k, WANTS_B1);
  }

  // ---- tristates visible at m ----

  /** MODULES defaults to y, X is a tristate the user wants at m, and t is some further symbol. */
  function WithX(numbers: Numbers, t: Item): Config {
    Config([N, Y, Plain("MODULES", Bool, [], [Default(Ref(1), Ref(1))]), Plain("X", Tristate, [Ref(1)], []), t], 2, numbers)
  }

  predicate WithXBase(env: Env) {
    LevelAt(env, Tri(0)) == 0 && LevelAt(env, Tri(1)) == 2 && LevelAt(env, Vis(2)) == 0 && LevelAt(env, Vis(3)) == 2
  }

  lemma WithXConstants(numbers: Numbers, t: Item, env: Env)
    ensures Compute(WithX(numbers, t), WANTS_M, env, Tri(0)).val == TriValue(0, false)
    ensures Compute(WithX(numbers, t), WANTS_M, env, Tri(1)).val == TriValue(2, false)
  {
  }

  lemma WithXStart(numbers: Numbers, t: Item, env: Env)
    requires LevelAt(env, Tri(1)) == 2
    ensures Compute(WithX(numbers, t), WANTS_M, env, Vis(2)).val == Level(0)
    ensures Compute(WithX(numbers, t), WANTS_M, env, Vis(3)).val == Level(2)
  {
    var k, u := WithX(numbers, t), WANTS_M;
    assert ItemAt(k, 3).prompts == [Ref(1)] && [Ref(1)][1..] == [];
    assert MaxOf(k, u, env, [Ref(1)], 0).val == 2;
  }

  lemma WithXModules(numbers: Numbers, t: Item, env: Env)
    requires WithXBase(env)
    ensures var v := Compute(WithX(numbers, t), WANTS_M, env, Tri(2)).val; v.TriValue? && v.n == 2
  {
    var k, u, ds := WithX(numbers, t), WANTS_M, [Default(Ref(1), Ref(1))];
    assert ItemAt(k, 2).defaults == ds;
    assert FirstDefault(k, u, env, ds).val == 2;
    hide FirstDefault;
  }

  lemma WithXAtM(numbers: Numbers, t: Item, env: Env)
    requires WithXBase(env) && LevelAt(env, Tri(2)) == 2
    ensures var v := Compute(WithX(numbers, t), WANTS_M, env, Tri(3)).val; v.TriValue? && v.n == 1
  {
  }

  lemma WithXPrompt(numbers: Numbers, t: Item, env: Env)
    requires t.Symbol? && t.ty == Tristate && t.prompts == [Ref(3)] && t.choice.None?
    requires LevelAt(env, Tri(2)) == 2 && LevelAt(env, Tri(3)) == 1
    ensures Compute(WithX(numbers, t), WANTS_M, env, Vis(4)).val == Level(1)
  {
    var k, u := WithX(numbers, t), WANTS_M;
    assert ItemAt(k, 4).prompts == [Ref(3)] && [Ref(3)][1..] == [];
    assert MaxOf(k, u, env, [Ref(3)], 0).val == 1;
  }

  /** So X is at m, and what has a prompt if X is visible at m. */
  lemma WithXSolved(numbers: Numbers, t: Item, r: F.Rank, env: Env)
    requires (forall c: Cell | c.item < 5 :: c in r) && F.Solves(WithX(numbers, t), r, WANTS_M, env)
    requires t.Symbol? && t.ty == Tristate && t.prompts == [Ref(3)] && t.choice.None?
    ensures WithXBase(env) && LevelAt(env, Tri(2)) == 2 && LevelAt(env, Tri(3)) == 1 && LevelAt(env, Vis(4)) == 1
  {
    assert Tri(0) in r && Tri(1) in r && Vis(2) in r && Vis(3) in r && Tri(2) in r && Tri(3) in r && Vis(4) in r;
    hide Compute, WithX;
    WithXConstants(numbers, t, env);
    WithXStart(numbers, t, env);
    WithXModules(numbers, t, env);
    WithXAtM(numbers, t, env);
    WithXPrompt(numbers, t, env);
  }

  /** A tristate with a prompt if X that defaults to y. */
  const DEFAULTS_TO_Y := Plain("T", Tristate, [Ref(3)], [Default(Ref(1), Ref(1))])

  /** With X at m, the values of this configuration do not survive: T is y, and m after loading. */
  lemma DefaultAboveVisibility(numbers: Numbers, r: F.Rank, env: Env)
    requires forall c: Cell | c.item < 5 :: c in r
    requires F.Solves(WithX(numbers, DEFAULTS_TO_Y), r, WANTS_M, env)
    ensures R.Lost(WithX(numbers, DEFAULTS_TO_Y), WANTS_M, env, 4)
  {
    assert Tri(4) in r;
    WithXSolved(numbers, DEFAULTS_TO_Y, r, env);
    DefaultIsY(numbers, env);
    hide Compute;
  }

  lemma DefaultIsY(numbers: Numbers, env: Env)
    requires WithXBase(env) && LevelAt(env, Vis(4)) == 1
    ensures var v := Compute(WithX(numbers, DEFAULTS_TO_Y), WANTS_M, env, Tri(4)).val; v.TriValue? && v.n == 2
  {
    var k, u, ds := WithX(numbers, DEFAULTS_TO_Y), WANTS_M, [Default(Ref(1), Ref(1))];
    assert ItemAt(k, 4).defaults == ds;
    assert FirstDefault(k, u, env, ds).val == 2;
    hide FirstDefault;
  }

  /** A tristate with a prompt if X, selected by X and implied by y. */
  const SELECTED_AND_IMPLIED := Symbol("T", Tristate, None, true, [Ref(3)], [], [], Ref(3), Ref(1), Ref(1), None)

  /** With X at m, m is named as the one assignable value of T, but T is y whatever is set. */
  lemma AssignableInVain(numbers: Numbers, r: F.Rank, env: Env)
    requires forall c: Cell | c.item < 5 :: c in r
    requires F.Solves(WithX(numbers, SELECTED_AND_IMPLIED), r, WANTS_M, env)
    ensures A.Quirk(WithX(numbers, SELECTED_AND_IMPLIED), WANTS_M, env, 4)
  {
    WithXSolved(numbers, SELECTED_AND_IMPLIED, r, env);
    hide Compute;
  }

  // ---- an implied symbol the user sets to n ----

  function Implied(numbers: Numbers): Config {
    Config([N, Y, Symbol("MODULES", Bool, None, true, [Ref(1)], [], [], Ref(0), Ref(1), Ref(1), None)], 2, numbers)
  }

  const WANTS_N: Users := map[2 := User(Some(UserTri(0)), None)]

  /** It is n, although y is implied and its dependencies are met. */
  lemma ImpliedInVain(numbers: Numbers, r: F.Rank, env: Env)
    requires (forall c: Cell | c.item < 3 :: c in r) && F.Solves(Implied(numbers), r, WANTS_N, env)
    ensures LevelAt(env, Tri(2)) == 0 && ExprVal(Implied(numbers), WANTS_N, env, Ref(1)).val == 2
  {
    assert Tri(0) in r && Tri(1) in r && Vis(2) in r && Tri(2) in r;
    hide Compute, Implied;
    ImpliedComputes(numbers, env);
  }

  lemma ImpliedComputes(numbers: Numbers, env: Env)
    ensures var k, u := Implied(numbers), WANTS_N;
            && Compute(k, u, env, Tri(0)).val == TriValue(0, false) && Compute(k, u, env, Tri(1)).val == TriValue(2, false)
            && (LevelAt(env, Tri(1)) == 2 ==> ExprVal(k, u, env, Ref(1)).val == 2
                                              && Compute(k, u, env, Vis(2)).val == Level(2))
            && (LevelAt(env, Tri(0)) == 0 && LevelAt(env, Vis(2)) == 2 ==>
                  Compute(k, u, env, Tri(2)).val == TriValue(0, true))
  {
    var k, u := Implied(numbers), WANTS_N;
    assert ItemAt(k, 2).prompts == [Ref(1)] && [Ref(1)][1..] == [];
    if LevelAt(env, Tri(1)) == 2 {
      assert MaxOf(k, u, env, [Ref(1)], 0).val == 2;
    }
  }

  // ---- a choice of two symbols ----

  function OneOfTwo(name: string): Item {
    Symbol(name, Bool, None, true, [Ref(3)], [], [], Ref(0), Ref(0), Ref(1), Some(3))
  }

  function Pair(numbers: Numbers): Config {
    Config([N, Y, Plain("MODULES", Bool, [], []), Choice(Bool, false, [Ref(1)], [], [4, 5]), OneOfTwo("A"),
            OneOfTwo("B")], 2, numbers)
  }

  lemma PairShows(numbers: Numbers, env: Env)
    ensures Compute(Pair(numbers), map[], env, Tri(1)).val == TriValue(2, false)
    ensures LevelAt(env, Tri(1)) == 2 ==> Compute(Pair(numbers), map[], env, Vis(3)).val == Level(2)
    ensures LevelAt(env, Vis(3)) == 2 ==> Compute(Pair(numbers), map[], env, Vis(4)).val == Level(2)
                                          && Compute(Pair(numbers), map[], env, Vis(5)).val == Level(2)
  {
    var k, u: Users := Pair(numbers), map[];
    assert ItemAt(k, 3).prompts == [Ref(1)] && [Ref(1)][1..] == [];
    assert ItemAt(k, 4).prompts == [Ref(3)] == ItemAt(k, 5).prompts && [Ref(3)][1..] == [];
    if LevelAt(env, Tri(1)) == 2 {
      assert MaxOf(k, u, env, [Ref(1)], 0).val == 2;
    }
    if LevelAt(env, Vis(3)) == 2 {
      assert ExprVal(k, u, env, Ref(3)).val == 2;
      assert MaxOf(k, u, env, [Ref(3)], 0).val == 2;
    }
  }

  lemma PairPicks(numbers: Numbers, env: Env)
    requires LevelAt(env, Vis(3)) == 2 && LevelAt(env, Vis(4)) == 2 && LevelAt(env, Vis(5)) == 2
    ensures Compute(Pair(numbers), map[], env, Selection(3)).val == Picked(Some(4))
    ensures Compute(Pair(numbers), map[], env, Assignable(5)).val == Levels([2])
    ensures Selection(3) in env && env[Selection(3)] == Picked(Some(4)) ==>
              Compute(Pair(numbers), map[], env, Tri(5)).val == TriValue(0, true)
  {
    var k := Pair(numbers);
    assert ItemAt(k, 3).syms == [4, 5] && ItemAt(k, 3).choiceDefaults == [];
    assert VisiblePick(env, [4, 5]).val == Some(4);
  }

  /** With nothing assigned, the first symbol of the choice is y. For the other, y is named as the one assignable value,
      though it is n, and stays it when it is set to n. */
  lemma NotNamedButTaken(numbers: Numbers, r: F.Rank, env: Env)
    requires (forall c: Cell | c.item < 6 :: c in r) && F.Solves(Pair(numbers), r, map[], env)
    ensures env[Assignable(5)] == Levels([2]) && LevelAt(env, Tri(5)) == 0
    ensures env[Selection(3)] == Picked(Some(4)) && !A.IsPicked(env, 3, 5)
  {
    assert Tri(1) in r && Vis(3) in r && Vis(4) in r && Vis(5) in r;
    assert Selection(3) in r && Assignable(5) in r && Tri(5) in r;
    hide Compute, Pair;
    PairShows(numbers, env);
    PairPicks(numbers, env);
  }
}
