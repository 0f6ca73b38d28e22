/** The values of a whole configuration, with no cache: the solution of all value rules along an order in which
    no attribute depends on itself. And what makes a set of cached values trustworthy. */
module KFixpoint {
  import opened Basics
  import opened KValues
  import opened KReads

  /** A rank for attributes: the order the dependency loop check guarantees. */
  type Rank = map<Cell, nat>

  ghost predicate Below(r: Rank, src: set<Source>, n: nat) {
    forall s | s in src && s.FromCell? :: s.cell in r && r[s.cell] < n
  }

  ghost predicate Ordered(k: Config, r: Rank) {
    forall c | c in r :: Below(r, CellSources(k, c), r[c])
  }

  ghost function ValueOf(k: Config, r: Rank, u: Users, c: Cell): Value
    requires c in r
    decreases r[c], 1
  {
    Compute(k, u, EnvBelow(k, r, u, r[c]), c).val
  }

  ghost function EnvBelow(k: Config, r: Rank, u: Users, n: nat): Env
    decreases n, 0
  {
    map c | c in r && r[c] < n :: ValueOf(k, r, u, c)
  }

  /** Every attribute's value, computed with nothing cached. */
  ghost function Full(k: Config, r: Rank, u: Users): Env {
    map c | c in r :: ValueOf(k, r, u, c)
  }

  /** The values solve the rules. */
  lemma FullSolves(k: Config, r: Rank, u: Users, c: Cell)
    requires Ordered(k, r) && UsersOk(k, u) && c in r
    ensures Compute(k, u, EnvBelow(k, r, u, r[c]), c) == Compute(k, u, Full(k, r, u), c)
    ensures c in Full(k, r, u)
    ensures Full(k, r, u)[c] == ValueOf(k, r, u, c) == Compute(k, u, Full(k, r, u), c).val
  {
    hide Compute, CellSources, UsersOk;
    var e1, e2 := EnvBelow(k, r, u, r[c]), Full(k, r, u);
    ComputeBound(k, u, e1, c);
    assert Below(r, CellSources(k, c), r[c]);
    forall s | s in Compute(k, u, e1, c).src
      ensures SameSource(u, e1, u, e2, s)
    {
    }
    ComputeSame(k, u, e1, u, e2, c);
  }

  /** env gives every ranked attribute what its rule makes of env. */
  ghost predicate Solves(k: Config, r: Rank, u: Users, env: Env) {
    env.Keys == r.Keys && forall c | c in r :: env[c] == Compute(k, u, env, c).val
  }

  lemma {:induction false} SolutionAt(k: Config, r: Rank, u: Users, env: Env, c: Cell)
    requires Ordered(k, r) && UsersOk(k, u) && Solves(k, r, u, env) && c in r
    ensures env[c] == Full(k, r, u)[c]
    decreases r[c]
  {
    hide Compute, CellSources, Full, ValueOf;
    var full := Full(k, r, u);
    FullSolves(k, r, u, c);
    ComputeBound(k, u, env, c);
    forall s | s in Compute(k, u, env, c).src && s.FromCell?
      ensures s.cell in env && s.cell in full && env[s.cell] == full[s.cell]
    {
      assert Below(r, CellSources(k, c), r[c]);
      SolutionAt(k, r, u, env, s.cell);
      FullSolves(k, r, u, s.cell);
    }
    ComputeSame(k, u, env, u, full, c);
  }

  /** The rules have one solution. */
  lemma SolutionIsUnique(k: Config, r: Rank, u: Users, env: Env)
    requires Ordered(k, r) && UsersOk(k, u)
    ensures Solves(k, r, u, env) <==> env == Full(k, r, u)
  {
    hide Compute, CellSources, ValueOf, Ordered, UsersOk;
    var full := Full(k, r, u);
    forall c | c in r
      ensures c in full && full[c] == Compute(k, u, full, c).val
    {
      FullSolves(k, r, u, c);
    }
    if Solves(k, r, u, env) {
      forall c | c in r
        ensures env[c] == full[c]
      {
        SolutionAt(k, r, u, env, c);
      }
    }
  }

  /** Hence what an attribute is does not depend on the order it was found along. */
  lemma {:induction false} RanksAgree(k: Config, r1: Rank, r2: Rank, u: Users, c: Cell)
    requires Ordered(k, r1) && Ordered(k, r2) && UsersOk(k, u) && c in r1 && c in r2
    ensures ValueOf(k, r1, u, c) == ValueOf(k, r2, u, c)
    decreases r1[c]
  {
    hide Compute, CellSources, Full, ValueOf;
    var e1, e2 := Full(k, r1, u), Full(k, r2, u);
    FullSolves(k, r1, u, c);
    FullSolves(k, r2, u, c);
    ComputeBound(k, u, e1, c);
    forall s | s in Compute(k, u, e1, c).src && s.FromCell?
      ensures s.cell in e1 && s.cell in e2 && e1[s.cell] == e2[s.cell]
    {
      assert Below(r1, CellSources(k, c), r1[c]) && Below(r2, CellSources(k, c), r2[c]);
      RanksAgree(k, r1, r2, u, s.cell);
      FullSolves(k, r1, u, s.cell);
      FullSolves(k, r2, u, s.cell);
    }
    ComputeSame(k, u, e1, u, e2, c);
  }

  // ---- which items depend on which ----

  function ExprIds(e: Expr): set<Id> {
    match e
    case Ref(i) => {i}
    case And(a, b) => ExprIds(a) + ExprIds(b)
    case Or(a, b) => ExprIds(a) + ExprIds(b)
    case Not(a) => ExprIds(a)
    case Rel(op, i, j) => {i, j}
  }

  function IdsOf(es: seq<Expr>): set<Id> { set e, i | e in es && i in ExprIds(e) :: i }

  function DefaultIds(ds: seq<Default>): set<Id> {
    set d, i | d in ds && i in ExprIds(d.cond) + ExprIds(d.value) :: i
  }

  function RangeIds(rs: seq<Range>): set<Id> {
    set r, i | r in rs && i in ExprIds(r.cond) + {r.low, r.high} :: i
  }

  function PickIds(ds: seq<ChoiceDefault>): set<Id> { set d, i | d in ds && i in ExprIds(d.cond) :: i }

  /** Everything an item's properties mention. */
  function Uses(k: Config, x: Id): set<Id> {
    var it := ItemAt(k, x);
    IdsOf(it.prompts) +
    if it.Symbol? then
      DefaultIds(it.defaults) + RangeIds(it.ranges)
      + ExprIds(it.revDep) + ExprIds(it.weakRevDep) + ExprIds(it.directDep)
    else PickIds(it.choiceDefaults)
  }

  /** A choice also depends on its own symbols. */
  function Mentioned(k: Config, x: Id): set<Id> {
    Uses(k, x) + if ItemAt(k, x).Choice? then set s | s in ItemAt(k, x).syms else {}
  }

  predicate IsDefined(k: Config, x: Id) {
    x < |k.items| && (k.items[x].Symbol? ==> k.items[x].defined)
  }

  /** x is recorded as a dependent of j. */
  predicate Dependent(k: Config, x: Id, j: Id) {
    IsDefined(k, x) && j in Mentioned(k, x)
  }

  /** What the parsed configuration looks like: choice symbols belong to a choice that is propagated to their
      properties, a choice's defaults are its own symbols, undefined symbols and constants are bare, and item 0
      is the constant n. */
  predicate ItemOk(k: Config, x: Id) {
    var it := ItemAt(k, x);
    if it.Choice? then
      (forall d | d in it.choiceDefaults :: d.sym in it.syms)
    else
      && (it.choice.Some? ==> ItemAt(k, it.choice.value).Choice? && x in ItemAt(k, it.choice.value).syms
                              && it.choice.value in Mentioned(k, x))
      && (it.fixed.Some? ==> !it.defined && BoolLike(it.ty) && it.revDep == it.weakRevDep == Ref(0))
      && (!it.defined ==> it.prompts == [] && it.choice.None? && (it.fixed.Some? || it.ty == Unknown))
      && (!BoolLike(it.ty) ==> forall d | d in it.defaults :: d.value.Ref?)
  }

  ghost predicate WellFormed(k: Config) {
    && (forall x :: ItemOk(k, x))
    && ItemAt(k, k.modules).Symbol?
    && ItemAt(k, 0).Symbol? && ItemAt(k, 0).fixed == Some(0)
  }

  predicate Covered(k: Config, x: Id, s: Source) {
    match s
    case FromCell(d) => d.item == x || ConstCell(k, d) || Dependent(k, x, d.item) || d == Tri(k.modules)
    case FromUser(j) => j == x || (ItemAt(k, j).Choice? && Dependent(k, x, j))
  }

  lemma {:induction false} ExprCovered(k: Config, e: Expr, s: Source)
    requires s in ExprSources(k, e)
    ensures s.FromCell? ==> s.cell.item in ExprIds(e) || s.cell == Tri(k.modules)
    ensures s.FromUser? ==> s.id in ExprIds(e) && ItemAt(k, s.id).Choice?
  {
    match e {
      case Ref(i) =>
      case And(a, b) =>
        if s in ExprSources(k, a) { ExprCovered(k, a, s); } else { ExprCovered(k, b, s); }
      case Or(a, b) =>
        if s in ExprSources(k, a) { ExprCovered(k, a, s); } else { ExprCovered(k, b, s); }
      case Not(a) => ExprCovered(k, a, s);
      case Rel(op, i, j) =>
    }
  }

  /** A property expression of a defined item is covered by its dependencies. */
  lemma PropertyCovered(k: Config, x: Id, e: Expr, s: Source)
    requires IsDefined(k, x) && ExprIds(e) <= Mentioned(k, x) && s in ExprSources(k, e)
    ensures Covered(k, x, s)
  {
    hide Mentioned, ExprSources, ConstCell;
    ExprCovered(k, e, s);
  }

  lemma OwnChoiceCovered(k: Config, x: Id, s: Source)
    requires WellFormed(k) && s in OwnChoiceSources(k, ItemAt(k, x))
    ensures Covered(k, x, s)
  {
    hide Mentioned, ConstCell;
    assert ItemOk(k, x);
  }

  lemma TypeCovered(k: Config, x: Id, s: Source)
    requires WellFormed(k) && s in TypeSources(k, ItemAt(k, x))
    ensures Covered(k, x, s)
  {
    hide OwnChoiceSources, WellFormed;
    if s in OwnChoiceSources(k, ItemAt(k, x)) {
      OwnChoiceCovered(k, x, s);
    }
  }

  lemma VisCovered(k: Config, x: Id, s: Source)
    requires WellFormed(k) && s in CellSources(k, Vis(x))
    ensures Covered(k, x, s)
  {
    hide ExprSources, Covered, OwnChoiceSources, TypeSources, Mentioned;
    assert ItemOk(k, x);
    var it := ItemAt(k, x);
    if s in OwnChoiceSources(k, it) {
      OwnChoiceCovered(k, x, s);
    } else if s in TypeSources(k, it) {
      TypeCovered(k, x, s);
    } else {
      var e :| e in it.prompts && s in ExprSources(k, e);
      PromptMentioned(k, x, e);
      PropertyCovered(k, x, e, s);
    }
  }

  lemma PromptMentioned(k: Config, x: Id, e: Expr)
    requires e in ItemAt(k, x).prompts
    ensures ExprIds(e) <= Uses(k, x) <= Mentioned(k, x)
  {
    assert ExprIds(e) <= IdsOf(ItemAt(k, x).prompts);
  }

  lemma DefaultMentioned(k: Config, x: Id, d: Default)
    requires ItemAt(k, x).Symbol? && d in ItemAt(k, x).defaults
    ensures ExprIds(d.cond) + ExprIds(d.value) <= Uses(k, x) <= Mentioned(k, x)
  {
    assert ExprIds(d.cond) + ExprIds(d.value) <= DefaultIds(ItemAt(k, x).defaults);
  }

  lemma RangeMentioned(k: Config, x: Id, rg: Range)
    requires ItemAt(k, x).Symbol? && rg in ItemAt(k, x).ranges
    ensures ExprIds(rg.cond) + {rg.low, rg.high} <= Uses(k, x) <= Mentioned(k, x)
  {
    assert ExprIds(rg.cond) + {rg.low, rg.high} <= RangeIds(ItemAt(k, x).ranges);
  }

  lemma PickMentioned(k: Config, x: Id, d: ChoiceDefault)
    requires ItemAt(k, x).Choice? && d in ItemAt(k, x).choiceDefaults
    ensures ExprIds(d.cond) <= Uses(k, x) <= Mentioned(k, x)
  {
    assert ExprIds(d.cond) <= PickIds(ItemAt(k, x).choiceDefaults);
  }

  lemma TriCovered(k: Config, x: Id, s: Source)
    requires WellFormed(k) && s in CellSources(k, Tri(x))
    ensures Covered(k, x, s)
  {
    hide ExprSources, TypeSources;
    assert ItemOk(k, x);
    var it := ItemAt(k, x);
    if it.choice.Some? {
    } else if s in TypeSources(k, it) {
      TypeCovered(k, x, s);
    } else if s in ExprSources(k, it.revDep) {
      PropertyCovered(k, x, it.revDep, s);
    } else if s in ExprSources(k, it.weakRevDep) {
      PropertyCovered(k, x, it.weakRevDep, s);
    } else if s in ExprSources(k, it.directDep) {
      PropertyCovered(k, x, it.directDep, s);
    } else if s in DefaultSources(k, it.defaults) {
      var d :| d in it.defaults && s in ExprSources(k, d.cond) + ExprSources(k, d.value);
      DefaultMentioned(k, x, d);
      if s in ExprSources(k, d.cond) {
        PropertyCovered(k, x, d.cond, s);
      } else {
        PropertyCovered(k, x, d.value, s);
      }
    }
  }

  lemma StrCovered(k: Config, x: Id, s: Source)
    requires WellFormed(k) && s in CellSources(k, Str(x))
    ensures Covered(k, x, s)
  {
    hide ExprSources, Mentioned;
    assert ItemOk(k, x);
    var it := ItemAt(k, x);
    if !BoolLike(it.ty) {
      if s in RangeSources(k, it.ranges) {
        var rg :| rg in it.ranges && s in ExprSources(k, rg.cond) + {FromCell(Str(rg.low)), FromCell(Str(rg.high))};
        RangeMentioned(k, x, rg);
        if s in ExprSources(k, rg.cond) {
          PropertyCovered(k, x, rg.cond, s);
        }
      } else if s in TextSources(k, it.defaults) {
        var d :| d in it.defaults && s in ExprSources(k, d.cond) + {FromCell(Str(RefId(d.value)))};
        DefaultMentioned(k, x, d);
        if s in ExprSources(k, d.cond) {
          PropertyCovered(k, x, d.cond, s);
        }
      }
    }
  }

  lemma AssignableCovered(k: Config, x: Id, s: Source)
    requires WellFormed(k) && s in CellSources(k, Assignable(x))
    ensures Covered(k, x, s)
  {
    hide TypeSources;
    assert ItemOk(k, x);
    var it := ItemAt(k, x);
    if s in TypeSources(k, it) {
      TypeCovered(k, x, s);
    } else if it.Symbol? && it.defined {
      if s in ExprSources(k, it.revDep) {
        PropertyCovered(k, x, it.revDep, s);
      } else if s in ExprSources(k, it.weakRevDep) {
        PropertyCovered(k, x, it.weakRevDep, s);
      }
    }
  }

  lemma SelectionCovered(k: Config, x: Id, s: Source)
    requires WellFormed(k) && s in CellSources(k, Selection(x))
    ensures Covered(k, x, s)
  {
    hide ExprSources;
    assert ItemOk(k, x);
    var it := ItemAt(k, x);
    if it.Choice? {
      if s in PickSources(k, it.choiceDefaults) {
        var d :| d in it.choiceDefaults && s in ExprSources(k, d.cond) + {FromCell(Vis(d.sym))};
        PickMentioned(k, x, d);
        if s in ExprSources(k, d.cond) {
          PropertyCovered(k, x, d.cond, s);
        }
      }
    }
  }

  /** Every read of a rule goes to its own item, to an item it is recorded as depending on, to a constant, or
      to the modules symbol. */
  lemma ReadsCovered(k: Config, u: Users, env: Env, c: Cell, s: Source)
    requires WellFormed(k) && UsersOk(k, u) && s in Compute(k, u, env, c).src
    ensures Covered(k, c.item, s)
  {
    hide Compute, Covered, CellSources, WellFormed, UsersOk;
    ComputeBound(k, u, env, c);
    match c {
      case Vis(i) => VisCovered(k, i, s);
      case Tri(i) => TriCovered(k, i, s);
      case Str(i) => StrCovered(k, i, s);
      case Assignable(i) => AssignableCovered(k, i, s);
      case Selection(i) => SelectionCovered(k, i, s);
    }
  }

  // ---- trustworthy caches ----

  ghost predicate Live(k: Config, cache: Env, src: set<Source>) {
    forall s | s in src && s.FromCell? :: s.cell in cache || ConstCell(k, s.cell)
  }

  predicate FlagKept(k: Config, cache: Env, c: Cell) {
    ConstCell(k, c) || Vis(c.item) in cache
  }

  /** Cached values are the true ones, everything they were read from is still cached, and an item with any
      cached value that can change has a cached visibility. */
  ghost predicate CacheOk(k: Config, r: Rank, u: Users, cache: Env) {
    forall c | c in cache ::
      && c in r
      && cache[c] == ValueOf(k, r, u, c)
      && FlagKept(k, cache, c)
      && Live(k, cache, Compute(k, u, Full(k, r, u), c).src)
  }

  lemma EmptyCacheOk(k: Config, r: Rank, u: Users)
    ensures CacheOk(k, r, u, map[])
  {
  }

  lemma CacheOkAdds(k: Config, r: Rank, u: Users, cache: Env, c: Cell, v: Value)
    requires Ordered(k, r) && UsersOk(k, u) && CacheOk(k, r, u, cache) && c in r
    requires var o := Compute(k, u, Full(k, r, u), c); v == o.val && Live(k, cache, o.src)
    requires FlagKept(k, cache[c := v], c)
    ensures CacheOk(k, r, u, cache[c := v])
  {
    hide Compute, Full, ValueOf, ConstCell;
    FullSolves(k, r, u, c);
  }

  /** What a pruned recursive invalidation of root leaves of a cache. */
  ghost predicate Pruned(k: Config, root: Id, before: Env, after: Env) {
    && (forall c | c in after :: c in before && after[c] == before[c])
    && (forall c, d | c in before && c !in after && d in after :: c.item != d.item)
    && (forall d | d in after :: d.item != root)
    && (forall j, x | Dependent(k, x, j) && (j == root || (Vis(j) in before && Vis(j) !in after)) :: Vis(x) !in after)
    && (root == k.modules || (Vis(k.modules) in before && Vis(k.modules) !in after)
        ==> forall d | d in after :: !IsDefined(k, d.item))
  }

  lemma UndefinedVis(k: Config, u: Users, env: Env, x: Id)
    requires WellFormed(k) && !IsDefined(k, x)
    ensures VisVal(k, u, env, x) == Out(0, {})
  {
    assert ItemOk(k, x);
  }

  /** The attributes of undefined symbols and constants depend on nothing else. */
  lemma UndefinedReads(k: Config, r: Rank, u: Users, c: Cell, s: Source)
    requires WellFormed(k) && Ordered(k, r) && UsersOk(k, u) && c in r && !IsDefined(k, c.item)
    requires s in Compute(k, u, Full(k, r, u), c).src
    ensures s.FromCell? && s.cell.item == c.item
  {
    hide Full, VisVal;
    var x := c.item;
    assert ItemOk(k, x);
    UndefinedVis(k, u, Full(k, r, u), x);
    if c.Assignable? && !ConstCell(k, c) {
      assert FromCell(Vis(x)) in CellSources(k, c);
      FullSolves(k, r, u, Vis(x));
    }
  }

  lemma ConstReadsNothing(k: Config, u: Users, env: Env, c: Cell)
    requires UsersOk(k, u) && ConstCell(k, c)
    ensures Compute(k, u, env, c).src == {}
  {
    hide Compute, UsersOk;
    ComputeBound(k, u, env, c);
  }

  lemma PrunedKeepsReads(k: Config, r: Rank, u: Users, root: Id, before: Env, after: Env, c: Cell, s: Source)
    requires WellFormed(k) && Ordered(k, r) && UsersOk(k, u)
    requires CacheOk(k, r, u, before) && Pruned(k, root, before, after)
    requires c in after && s in Compute(k, u, Full(k, r, u), c).src && s.FromCell?
    ensures s.cell in after || ConstCell(k, s.cell)
  {
    hide Compute, Full, ValueOf, WellFormed, UsersOk, Ordered, ConstCell, Dependent;
    var d := s.cell;
    assert Live(k, before, Compute(k, u, Full(k, r, u), c).src);
    assert FlagKept(k, before, c);
    if ConstCell(k, c) {
      ConstReadsNothing(k, u, Full(k, r, u), c);
    } else if d !in after && !ConstCell(k, d) {
      assert FlagKept(k, before, d);
      assert Vis(d.item) in before && Vis(d.item) !in after;
      ReadsCovered(k, u, Full(k, r, u), c, s);
      if d == Tri(k.modules) {
        UndefinedReads(k, r, u, c, s);
      }
    }
  }

  /** A pruned invalidation leaves a trustworthy cache, although it never looks behind an uncached item. */
  lemma PrunedOk(k: Config, r: Rank, u: Users, root: Id, before: Env, after: Env)
    requires WellFormed(k) && Ordered(k, r) && UsersOk(k, u)
    requires CacheOk(k, r, u, before) && Pruned(k, root, before, after)
    ensures CacheOk(k, r, u, after)
  {
    hide Compute, Full, ValueOf, WellFormed, UsersOk, Ordered, ConstCell, Dependent, FlagKept;
    forall c | c in after
      ensures FlagKept(k, after, c) && Live(k, after, Compute(k, u, Full(k, r, u), c).src)
    {
      FlagSurvives(k, r, u, root, before, after, c);
      forall s | s in Compute(k, u, Full(k, r, u), c).src && s.FromCell?
        ensures s.cell in after || ConstCell(k, s.cell)
      {
        PrunedKeepsReads(k, r, u, root, before, after, c, s);
      }
    }
  }

  lemma FlagSurvives(k: Config, r: Rank, u: Users, root: Id, before: Env, after: Env, c: Cell)
    requires CacheOk(k, r, u, before) && Pruned(k, root, before, after) && c in after
    ensures FlagKept(k, after, c)
  {
    hide Compute, Full, ValueOf, ConstCell, Dependent;
    assert FlagKept(k, before, c);
  }

  /** The assignments a cached value was read from. */
  ghost predicate ReadersUnaffected(k: Config, r: Rank, u: Users, u': Users, cache: Env) {
    forall c, j | c in cache && FromUser(j) in Compute(k, u, Full(k, r, u), c).src :: UserAt(u, j) == UserAt(u', j)
  }

  lemma {:induction false} ValueUnaffected(k: Config, r: Rank, u: Users, u': Users, cache: Env, c: Cell)
    requires Ordered(k, r) && UsersOk(k, u) && UsersOk(k, u')
    requires CacheOk(k, r, u, cache) && ReadersUnaffected(k, r, u, u', cache)
    requires c in r && (c in cache || ConstCell(k, c))
    ensures ValueOf(k, r, u, c) == ValueOf(k, r, u', c)
    ensures Compute(k, u, Full(k, r, u), c) == Compute(k, u', Full(k, r, u'), c)
    decreases r[c]
  {
    hide Compute, ValueOf, UsersOk, ConstCell, CellSources;
    var e1, e2 := Full(k, r, u), Full(k, r, u');
    var src := Compute(k, u, e1, c).src;
    ComputeBound(k, u, e1, c);
    if ConstCell(k, c) {
      ConstReadsNothing(k, u, e1, c);
    } else {
      assert Live(k, cache, src);
    }
    assert Below(r, CellSources(k, c), r[c]);
    forall s | s in src
      ensures SameSource(u, e1, u', e2, s)
    {
      match s {
        case FromUser(j) =>
        case FromCell(d) => ValueUnaffected(k, r, u, u', cache, d);
      }
    }
    ComputeSame(k, u, e1, u', e2, c);
    FullSolves(k, r, u, c);
    FullSolves(k, r, u', c);
  }

  /** Changing assignments nobody cached has read keeps the cache trustworthy. */
  lemma UsersChange(k: Config, r: Rank, u: Users, u': Users, cache: Env)
    requires Ordered(k, r) && UsersOk(k, u) && UsersOk(k, u')
    requires CacheOk(k, r, u, cache) && ReadersUnaffected(k, r, u, u', cache)
    ensures CacheOk(k, r, u', cache)
  {
    hide Compute, Full, ValueOf, UsersOk, Ordered, FlagKept, Live;
    forall c | c in cache
      ensures ValueOf(k, r, u, c) == ValueOf(k, r, u', c)
      ensures Compute(k, u, Full(k, r, u), c) == Compute(k, u', Full(k, r, u'), c)
    {
      ValueUnaffected(k, r, u, u', cache, c);
    }
  }

  // ---- which assignments can matter to a cached value ----

  lemma ExprReadsNoSymbolUser(k: Config, u: Users, env: Env, e: Expr, i: Id)
    requires ItemAt(k, i).Symbol?
    ensures FromUser(i) !in ExprVal(k, u, env, e).src
  {
    hide ExprVal, ExprSources;
    ExprBound(k, u, env, e);
    if FromUser(i) in ExprSources(k, e) {
      ExprCovered(k, e, FromUser(i));
    }
  }

  lemma DefaultsReadNoSymbolUser(k: Config, u: Users, env: Env, ds: seq<Default>, i: Id)
    requires ItemAt(k, i).Symbol?
    ensures FromUser(i) !in FirstDefault(k, u, env, ds).src && FromUser(i) !in FirstText(k, u, env, ds).src
    decreases |ds|
  {
    hide ExprVal;
    if ds != [] {
      ExprReadsNoSymbolUser(k, u, env, ds[0].cond, i);
      ExprReadsNoSymbolUser(k, u, env, ds[0].value, i);
      DefaultsReadNoSymbolUser(k, u, env, ds[1..], i);
    }
  }

  lemma RangesReadNoSymbolUser(k: Config, u: Users, env: Env, rs: seq<Range>, b: int, i: Id)
    requires ItemAt(k, i).Symbol?
    ensures FromUser(i) !in FirstRange(k, u, env, rs, b).src
    decreases |rs|
  {
    hide ExprVal, NumberOr0;
    if rs != [] {
      ExprReadsNoSymbolUser(k, u, env, rs[0].cond, i);
      RangesReadNoSymbolUser(k, u, env, rs[1..], b, i);
    }
  }

  lemma TypeReadsNoSymbolUser(k: Config, u: Users, env: Env, i: Id, j: Id)
    requires WellFormed(k) && ItemAt(k, i).Symbol?
    ensures FromUser(i) !in TypeOf(k, u, env, j).src
  {
    hide ChoiceTri;
    assert ItemOk(k, j);
    TypeBound(k, u, env, j);
  }

  lemma InvisibleTriReadsNoUser(k: Config, u: Users, env: Env, i: Id)
    requires WellFormed(k) && ItemAt(k, i).Symbol? && LevelAt(env, Vis(i)) == 0
    ensures FromUser(i) !in TriVal(k, u, env, i).src
  {
    hide ExprVal, FirstDefault, FirstText, TypeOf, WellFormed, ItemAt;
    var it := ItemAt(k, i);
    DefaultsReadNoSymbolUser(k, u, env, it.defaults, i);
    ExprReadsNoSymbolUser(k, u, env, it.weakRevDep, i);
    ExprReadsNoSymbolUser(k, u, env, it.directDep, i);
    ExprReadsNoSymbolUser(k, u, env, it.revDep, i);
    TypeReadsNoSymbolUser(k, u, env, i, i);
  }

  lemma InvisibleStrReadsNoUser(k: Config, u: Users, env: Env, i: Id)
    requires ItemAt(k, i).Symbol? && LevelAt(env, Vis(i)) == 0
    ensures FromUser(i) !in StrVal(k, u, env, i).src
  {
    hide ExprVal, FirstDefault, FirstText, FirstRange, NumberOr0, Clamped, ItemAt;
    var it := ItemAt(k, i);
    DefaultsReadNoSymbolUser(k, u, env, it.defaults, i);
    RangesReadNoSymbolUser(k, u, env, it.ranges, Base(it.ty), i);
  }

  lemma OtherCellsReadNoUser(k: Config, i: Id, c: Cell)
    requires WellFormed(k) && ItemAt(k, i).Symbol? && c.item == i && (c.Vis? || c.Assignable? || c.Selection?)
    ensures FromUser(i) !in CellSources(k, c)
  {
    hide ExprSources;
    var it := ItemAt(k, i);
    assert ItemOk(k, i);
    if c.Vis? {
      forall e | e in it.prompts
        ensures FromUser(i) !in ExprSources(k, e)
      {
        if FromUser(i) in ExprSources(k, e) {
          ExprCovered(k, e, FromUser(i));
        }
      }
    } else if c.Assignable? {
      if FromUser(i) in ExprSources(k, it.revDep) {
        ExprCovered(k, it.revDep, FromUser(i));
      }
      if FromUser(i) in ExprSources(k, it.weakRevDep) {
        ExprCovered(k, it.weakRevDep, FromUser(i));
      }
    }
  }

  /** No rule looks at the assignment to an invisible symbol. */
  lemma InvisibleUserUnread(k: Config, u: Users, env: Env, i: Id, c: Cell)
    requires WellFormed(k) && UsersOk(k, u) && ItemAt(k, i).Symbol? && LevelAt(env, Vis(i)) == 0
    ensures FromUser(i) !in Compute(k, u, env, c).src
  {
    hide TriVal, StrVal, VisVal, SelectionVal, AssignableVal, WellFormed, UsersOk, CellSources, Mentioned;
    if FromUser(i) in Compute(k, u, env, c).src {
      ReadsCovered(k, u, env, c, FromUser(i));
      match c {
        case Tri(j) => InvisibleTriReadsNoUser(k, u, env, i);
        case Str(j) => InvisibleStrReadsNoUser(k, u, env, i);
        case Vis(j) => ComputeBound(k, u, env, c); OtherCellsReadNoUser(k, i, c);
        case Assignable(j) => ComputeBound(k, u, env, c); OtherCellsReadNoUser(k, i, c);
        case Selection(j) => ComputeBound(k, u, env, c); OtherCellsReadNoUser(k, i, c);
      }
    }
  }

  lemma PromptlessVis(k: Config, u: Users, env: Env, i: Id)
    requires ItemAt(k, i).prompts == []
    ensures VisVal(k, u, env, i).val == 0
  {
  }

  /** Assignments to a symbol without a prompt touch no cached value: the engine skips the invalidation. */
  lemma PromptlessUnaffected(k: Config, r: Rank, u: Users, u': Users, i: Id, cache: Env)
    requires WellFormed(k) && Ordered(k, r) && UsersOk(k, u) && CacheOk(k, r, u, cache)
    requires ItemAt(k, i).Symbol? && ItemAt(k, i).prompts == []
    requires forall j | j != i :: UserAt(u, j) == UserAt(u', j)
    ensures ReadersUnaffected(k, r, u, u', cache)
  {
    hide Compute, WellFormed, Ordered, UsersOk;
    var env := Full(k, r, u);
    if Vis(i) in r {
      FullSolves(k, r, u, Vis(i));
      VisLevel(k, u, env, i);
      PromptlessVis(k, u, env, i);
    }
    forall c, j | c in cache && FromUser(j) in Compute(k, u, env, c).src
      ensures UserAt(u, j) == UserAt(u', j)
    {
      if j == i {
        InvisibleUserUnread(k, u, env, i, c);
      }
    }
  }

  lemma VisLevel(k: Config, u: Users, env: Env, i: Id)
    ensures Compute(k, u, env, Vis(i)).val == Level(VisVal(k, u, env, i).val)
  {
  }

  /** After invalidating root, no cached value has read the assignment to root, nor to a choice symbol of it. */
  lemma PrunedUnaffected(k: Config, r: Rank, u: Users, u': Users, root: Id, before: Env, after: Env)
    requires WellFormed(k) && Ordered(k, r) && UsersOk(k, u)
    requires CacheOk(k, r, u, before) && Pruned(k, root, before, after)
    requires forall j :: UserAt(u, j) == UserAt(u', j) || j == root || (ItemAt(k, j).Symbol? && Dependent(k, j, root))
    ensures ReadersUnaffected(k, r, u, u', after)
  {
    hide Compute, Full, ValueOf, WellFormed, UsersOk, Ordered, ConstCell, Dependent;
    var env := Full(k, r, u);
    forall c, j | c in after && FromUser(j) in Compute(k, u, env, c).src
      ensures UserAt(u, j) == UserAt(u', j)
    {
      ReadsCovered(k, u, env, c, FromUser(j));
      if ConstCell(k, c) {
        ConstReadsNothing(k, u, env, c);
      } else {
        FlagSurvives(k, r, u, root, before, after, c);
      }
    }
  }
}
