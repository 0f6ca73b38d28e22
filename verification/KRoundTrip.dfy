/** Saving a configuration without choices and loading it back: the assignments that a written .config restores give
    every symbol the value it was saved with, except where a default is above the visibility of its symbol. */
module KRoundTrip {
  import opened Basics
  import opened KValues
  import opened KReads
  import opened KFixpoint
  import opened KCache
  import opened KLevels

  /** Only symbols, and none inside a choice. */
  ghost predicate ChoiceFree(k: Config) {
    Constants(k) && forall x :: ItemAt(k, x).Symbol? && ItemAt(k, x).choice.None?
  }

  function LevelOfText(s: string): int { if s == "y" then 2 else if s == "m" then 1 else 0 }

  /** The assignment a symbol's .config line stands for, given its value. */
  function Saved(k: Config, i: Id, s: string): UserValue {
    if BoolLike(ItemAt(k, i).ty) then UserTri(LevelOfText(s)) else UserText(s)
  }

  /** What the user's value of i is after saving and loading with replacement: symbols that were not written,
      and symbols whose written value is no valid assignment, end up without one. */
  function Reloaded(k: Config, env: Env, i: Id): Option<UserValue> {
    var c := Str(i);
    if c in env && env[c].StrValue? && env[c].write && ValidFor(k, i, Saved(k, i, env[c].s))
    then Some(Saved(k, i, env[c].s)) else None
  }

  ghost predicate IsReload(k: Config, env: Env, u': Users) {
    forall i | IsDefined(k, i) :: UserAt(u', i).value == Reloaded(k, env, i)
  }

  /** Nothing but a tristate is visible at m. */
  lemma MIsForTristates(k: Config, u: Users, env: Env, i: Id)
    requires ChoiceFree(k) && VisVal(k, u, env, i).val == 1
    ensures TypeOf(k, u, env, i).val == Tristate && ItemAt(k, i).ty == Tristate && LevelAt(env, Tri(k.modules)) != 0
  {
    hide MaxOf;
  }

  // ---- defaults above the visibility ----

  /** The symbol is visible at m and y by a default alone: its saved value will be cut down to m. */
  predicate Lost(k: Config, u: Users, env: Env, i: Id) {
    var it := ItemAt(k, i);
    && it.Symbol? && BoolLike(it.ty) && it.fixed.None?
    && LevelAt(env, Vis(i)) == 1 && LevelAt(env, Tri(i)) == 2
    && ExprVal(k, u, env, it.revDep).val != 2 && ExprVal(k, u, env, it.weakRevDep).val != 2
  }

  ghost predicate NoneLost(k: Config, r: Rank, u: Users) {
    forall i | Tri(i) in r :: !Lost(k, u, Full(k, r, u), i)
  }

  lemma VisibleAtM(k: Config, r: Rank, u: Users, i: Id)
    requires ChoiceFree(k) && Ordered(k, r) && UsersOk(k, u) && LevelAt(Full(k, r, u), Vis(i)) == 1
    ensures TypeOf(k, u, Full(k, r, u), i).val == Tristate && ItemAt(k, i).ty == Tristate
    ensures LevelAt(Full(k, r, u), Tri(k.modules)) != 0
  {
    hide VisVal, Ordered, UsersOk, TypeOf, ChoiceFree;
    FullSolves(k, r, u, Vis(i));
    MIsForTristates(k, u, Full(k, r, u), i);
  }

  /** Without modules there is nothing to lose. */
  lemma NothingLostWithoutModules(k: Config, r: Rank, u: Users)
    requires ChoiceFree(k) && Ordered(k, r) && UsersOk(k, u) && LevelAt(Full(k, r, u), Tri(k.modules)) == 0
    ensures NoneLost(k, r, u)
  {
    hide Ordered, UsersOk, ChoiceFree, ExprVal, Full;
    forall i | Tri(i) in r
      ensures !Lost(k, u, Full(k, r, u), i)
    {
      if LevelAt(Full(k, r, u), Vis(i)) == 1 {
        VisibleAtM(k, r, u, i);
      }
    }
  }

  // ---- the induction along the dependency order ----

  /** A configuration without choices, its values, and the assignments a reload leaves. */
  ghost predicate Reload(k: Config, r: Rank, u: Users, u': Users) {
    && WellFormed(k) && ChoiceFree(k) && Ordered(k, r)
    && UsersOk(k, u) && UsersValid(k, u) && UsersOk(k, u') && UsersValid(k, u')
    && (forall i | IsDefined(k, i) :: Str(i) in r)
    && IsReload(k, Full(k, r, u), u')
  }

  ghost predicate LowerSame(k: Config, e1: Env, e2: Env, c: Cell) {
    forall s | s in CellSources(k, c) && s.FromCell? :: SameAt(e1, e2, s.cell)
  }

  /** Rules over cells that agree, and that read no assignment, agree. */
  lemma CellsAgree(k: Config, u: Users, e1: Env, u': Users, e2: Env, src: set<Source>, c: Cell)
    requires LowerSame(k, e1, e2, c) && src <= CellSources(k, c)
    requires forall s | s in src :: s.FromCell?
    ensures Agree(src, u, e1, u', e2)
  {
  }

  lemma ExprAgree(k: Config, u: Users, e1: Env, u': Users, e2: Env, c: Cell, e: Expr)
    requires ChoiceFree(k) && LowerSame(k, e1, e2, c) && ExprSources(k, e) <= CellSources(k, c)
    ensures ExprVal(k, u, e1, e) == ExprVal(k, u', e2, e)
  {
    hide ExprVal, ExprSources, CellSources;
    ExprBound(k, u, e1, e);
    forall s | s in ExprVal(k, u, e1, e).src
      ensures s.FromCell?
    {
      ExprCovered(k, e, s);
    }
    CellsAgree(k, u, e1, u', e2, ExprVal(k, u, e1, e).src, c);
    ExprSame(k, u, e1, u', e2, e);
  }

  lemma LiftAgrees(k: Config, u: Users, e1: Env, u': Users, e2: Env, i: Id, n: int)
    requires ChoiceFree(k) && LowerSame(k, e1, e2, Tri(i)) && BoolLike(ItemAt(k, i).ty) && ItemAt(k, i).fixed.None?
    ensures Lifted(k, u, e1, i, ItemAt(k, i), n) == Lifted(k, u', e2, i, ItemAt(k, i), n)
    ensures ExprVal(k, u, e1, ItemAt(k, i).revDep) == ExprVal(k, u', e2, ItemAt(k, i).revDep)
    ensures SameAt(e1, e2, Vis(i))
  {
    hide ExprVal, ExprSources, DefaultSources;
    var it := ItemAt(k, i);
    ExprAgree(k, u, e1, u', e2, Tri(i), it.weakRevDep);
    ExprAgree(k, u, e1, u', e2, Tri(i), it.revDep);
    assert FromCell(Vis(i)) in CellSources(k, Tri(i));
    assert it.ty == Tristate ==> FromCell(Tri(k.modules)) in CellSources(k, Tri(i));
  }

  /** Putting a value back in as the user's gives the value again, but for a y above a visibility of m. */
  lemma ValueBack(k: Config, u: Users, env: Env, i: Id, it: Item, a: int, vis: int)
    requires it.Symbol? && 0 <= ExprVal(k, u, env, it.revDep).val <= 2 && 0 <= a <= 2 && 1 <= vis <= 2
    ensures var r := ExprVal(k, u, env, it.revDep).val;
            var n := Lifted(k, u, env, i, it, Max(r, a));
            && 0 <= n <= 2
            && (Lifted(k, u, env, i, it, Max(r, Min(n, vis))) == n
                <==> !(vis == 1 && n == 2 && r != 2 && TypeOf(k, u, env, i).val != Bool
                       && ExprVal(k, u, env, it.weakRevDep).val != 2))
  {
    hide ExprVal, TypeOf;
  }

  /** What the saved value of a visible symbol comes back as. */
  lemma TriComesBack(k: Config, r: Rank, u: Users, u': Users, i: Id)
    requires Reload(k, r, u, u') && Tri(i) in r && IsDefined(k, i)
    requires LowerSame(k, Full(k, r, u), Full(k, r, u'), Tri(i))
    requires BoolLike(ItemAt(k, i).ty) && ItemAt(k, i).fixed.None? && LevelAt(Full(k, r, u), Vis(i)) != 0
    ensures Compute(k, u, Full(k, r, u), Tri(i)).val == Compute(k, u', Full(k, r, u'), Tri(i)).val
            <==> !Lost(k, u, Full(k, r, u), i)
  {
    hide ExprVal, PlainTri, Full, Suggested, WellFormed, Ordered, UsersOk, UsersValid, LowerSame, TypeOf, Lifted;
    var e1, e2 := Full(k, r, u), Full(k, r, u');
    var it := ItemAt(k, i);
    FullBounded(k, r, u);
    FullBounded(k, r, u');
    PlainTriShape(k, u, e1, i, it);
    PlainTriShape(k, u', e2, i, it);
    var a := Proposed(k, u, e1, i, it, LevelAt(e1, Vis(i))).val.0;
    var vis := LevelAt(e1, Vis(i));
    ValueBack(k, u, e1, i, it, a, vis);
    FullSolves(k, r, u, Tri(i));
    var n := e1[Tri(i)].n;
    LiftAgrees(k, u, e1, u', e2, i, Max(ExprVal(k, u, e1, it.revDep).val, Min(n, vis)));
    NoMForBools(k, u, e1, i, it, Max(ExprVal(k, u, e1, it.revDep).val, a));
    SavedTri(k, r, u, i);
    assert UserAt(u', i).value == Some(UserTri(n));
    if vis == 1 {
      VisibleAtM(k, r, u, i);
    }
  }

  lemma NoMForBools(k: Config, u: Users, env: Env, i: Id, it: Item, n: int)
    requires it == ItemAt(k, i) && it.Symbol? && 0 <= n <= 2
    ensures it.ty == Bool ==> Lifted(k, u, env, i, it, n) != 1
  {
  }

  /** A visible bool-like symbol is saved as exactly its value. */
  lemma SavedTri(k: Config, r: Rank, u: Users, i: Id)
    requires Ordered(k, r) && UsersOk(k, u) && Tri(i) in r && Str(i) in r
    requires ItemAt(k, i).Symbol? && BoolLike(ItemAt(k, i).ty) && ItemAt(k, i).fixed.None?
    requires Full(k, r, u)[Tri(i)].TriValue? && Full(k, r, u)[Tri(i)].write
    requires 0 <= Full(k, r, u)[Tri(i)].n <= 2 && (ItemAt(k, i).ty == Bool ==> Full(k, r, u)[Tri(i)].n != 1)
    ensures Reloaded(k, Full(k, r, u), i) == Some(UserTri(Full(k, r, u)[Tri(i)].n))
  {
    hide Full, Ordered, UsersOk;
    FullSolves(k, r, u, Tri(i));
    FullSolves(k, r, u, Str(i));
  }

  lemma TextsAgree(k: Config, u: Users, e1: Env, u': Users, e2: Env, i: Id)
    requires ChoiceFree(k) && LowerSame(k, e1, e2, Str(i))
    requires !BoolLike(ItemAt(k, i).ty) && !ConstCell(k, Str(i))
    ensures FirstText(k, u, e1, ItemAt(k, i).defaults) == FirstText(k, u', e2, ItemAt(k, i).defaults)
    ensures FirstRange(k, u, e1, ItemAt(k, i).ranges, Base(ItemAt(k, i).ty))
         == FirstRange(k, u', e2, ItemAt(k, i).ranges, Base(ItemAt(k, i).ty))
  {
    hide ExprVal, ExprSources, FirstText, FirstRange;
    var it := ItemAt(k, i);
    FirstTextBound(k, u, e1, it.defaults);
    FirstRangeBound(k, u, e1, it.ranges, Base(it.ty));
    assert TextSources(k, it.defaults) <= CellSources(k, Str(i));
    assert RangeSources(k, it.ranges) <= CellSources(k, Str(i));
    forall s | s in TextSources(k, it.defaults) || s in RangeSources(k, it.ranges)
      ensures s.FromCell?
    {
      TextSourcesAreCells(k, it, s);
    }
    CellsAgree(k, u, e1, u', e2, FirstText(k, u, e1, it.defaults).src, Str(i));
    CellsAgree(k, u, e1, u', e2, FirstRange(k, u, e1, it.ranges, Base(it.ty)).src, Str(i));
    FirstTextSame(k, u, e1, u', e2, it.defaults);
    FirstRangeSame(k, u, e1, u', e2, it.ranges, Base(it.ty));
  }

  lemma TextSourcesAreCells(k: Config, it: Item, s: Source)
    requires ChoiceFree(k) && it.Symbol?
    requires s in TextSources(k, it.defaults) || s in RangeSources(k, it.ranges)
    ensures s.FromCell?
  {
    hide ExprSources;
    if s in TextSources(k, it.defaults) {
      var d :| d in it.defaults && s in ExprSources(k, d.cond) + {FromCell(Str(RefId(d.value)))};
      if s in ExprSources(k, d.cond) {
        ExprCovered(k, d.cond, s);
      }
    } else {
      var rg :| rg in it.ranges && s in ExprSources(k, rg.cond) + {FromCell(Str(rg.low)), FromCell(Str(rg.high))};
      if s in ExprSources(k, rg.cond) {
        ExprCovered(k, rg.cond, s);
      }
    }
  }

  lemma StrReloaded(k: Config, r: Rank, u: Users, u': Users, i: Id)
    requires Reload(k, r, u, u') && Str(i) in r && IsDefined(k, i)
    requires LowerSame(k, Full(k, r, u), Full(k, r, u'), Str(i))
    requires !BoolLike(ItemAt(k, i).ty) && !ConstCell(k, Str(i)) && LevelAt(Full(k, r, u), Vis(i)) != 0
    ensures Compute(k, u, Full(k, r, u), Str(i)).val == Compute(k, u', Full(k, r, u'), Str(i)).val
  {
    hide ExprVal, FirstText, FirstRange, Full, WellFormed, Ordered, UsersOk, NumberOr0, Clamped, ChoiceFree;
    var e1, e2 := Full(k, r, u), Full(k, r, u');
    var it := ItemAt(k, i);
    assert FromCell(Vis(i)) in CellSources(k, Str(i));
    assert SameAt(e1, e2, Vis(i));
    TextsAgree(k, u, e1, u', e2, i);
    FullSolves(k, r, u, Str(i));
    assert UserAt(u', i).value == Reloaded(k, e1, i);
    if UserAt(u, i).value.Some? {
      assert ValidFor(k, i, u[i].value.value);
    }
  }

  lemma VisibleDefined(k: Config, r: Rank, u: Users, i: Id)
    requires WellFormed(k) && Ordered(k, r) && UsersOk(k, u) && LevelAt(Full(k, r, u), Vis(i)) != 0
    ensures IsDefined(k, i)
  {
    hide VisVal, WellFormed, Ordered, UsersOk;
    FullSolves(k, r, u, Vis(i));
    if !IsDefined(k, i) {
      UndefinedVis(k, u, Full(k, r, u), i);
    }
  }

  /** One attribute keeps its value, given that the attributes it may read keep theirs. */
  lemma AttributeKept(k: Config, r: Rank, u: Users, u': Users, c: Cell)
    requires Reload(k, r, u, u') && c in r && LowerSame(k, Full(k, r, u), Full(k, r, u'), c)
    requires c.Tri? ==> !Lost(k, u, Full(k, r, u), c.item)
    ensures ValueOf(k, r, u, c) == ValueOf(k, r, u', c)
  {
    hide Compute, Full, ValueOf, CellSources, WellFormed, Ordered, UsersOk, UsersValid, IsReload, LowerSame, Lost;
    var e1, e2 := Full(k, r, u), Full(k, r, u');
    var i := c.item;
    FullSolves(k, r, u, c);
    FullSolves(k, r, u', c);
    ComputeBound(k, u, e1, c);
    forall s | s in Compute(k, u, e1, c).src
      ensures s.FromCell? || s == FromUser(i)
    {
      ReadsCovered(k, u, e1, c, s);
    }
    if FromUser(i) !in Compute(k, u, e1, c).src {
      CellsAgree(k, u, e1, u', e2, Compute(k, u, e1, c).src, c);
      ComputeSame(k, u, e1, u', e2, c);
    } else {
      if LevelAt(e1, Vis(i)) == 0 {
        InvisibleUserUnread(k, u, e1, i, c);
      }
      VisibleDefined(k, r, u, i);
      OnlyValuesReadUsers(k, u, e1, c);
      if c.Tri? {
        TriComesBack(k, r, u, u', i);
      } else {
        StrReloaded(k, r, u, u', i);
      }
    }
  }

  lemma OnlyValuesReadUsers(k: Config, u: Users, env: Env, c: Cell)
    requires WellFormed(k) && ChoiceFree(k) && UsersOk(k, u) && FromUser(c.item) in Compute(k, u, env, c).src
    ensures (c.Tri? && BoolLike(ItemAt(k, c.item).ty) && ItemAt(k, c.item).fixed.None?)
         || (c.Str? && !BoolLike(ItemAt(k, c.item).ty) && !ConstCell(k, c))
  {
    hide Compute, WellFormed, ExprSources, DefaultSources, TypeSources, RangeSources, TextSources, AllSources;
    ComputeBound(k, u, env, c);
    if c.Vis? || c.Assignable? || c.Selection? {
      OtherCellsReadNoUser(k, c.item, c);
    }
  }

  lemma {:induction false} RoundTrip(k: Config, r: Rank, u: Users, u': Users, c: Cell)
    requires Reload(k, r, u, u') && c in r && NoneLost(k, r, u)
    ensures ValueOf(k, r, u, c) == ValueOf(k, r, u', c)
    decreases r[c]
  {
    hide ValueOf, CellSources, WellFormed, UsersOk, UsersValid, IsReload, ChoiceFree, Lost;
    SourcesBelow(k, r, c);
    forall s | s in CellSources(k, c) && s.FromCell?
      ensures SameAt(Full(k, r, u), Full(k, r, u'), s.cell)
    {
      RoundTrip(k, r, u, u', s.cell);
    }
    AttributeKept(k, r, u, u', c);
  }

  /** Config round trip: without choices, saving and loading back with replacement gives every attribute of every
      symbol the value it had if and only if no symbol visible at m is y by a default alone. */
  lemma RoundTripExactly(k: Config, r: Rank, u: Users, u': Users)
    requires Reload(k, r, u, u')
    ensures (forall c | c in r :: ValueOf(k, r, u, c) == ValueOf(k, r, u', c)) <==> NoneLost(k, r, u)
  {
    hide ValueOf, Reload, Lost;
    if NoneLost(k, r, u) {
      forall c | c in r
        ensures ValueOf(k, r, u, c) == ValueOf(k, r, u', c)
      {
        RoundTrip(k, r, u, u', c);
      }
    } else {
      var i :| Tri(i) in r && Lost(k, u, Full(k, r, u), i);
      if forall c | c in r :: ValueOf(k, r, u, c) == ValueOf(k, r, u', c) {
        LostIsLost(k, r, u, u', i);
        assert false;
      }
    }
  }

  lemma LostIsLost(k: Config, r: Rank, u: Users, u': Users, i: Id)
    requires Reload(k, r, u, u') && Tri(i) in r && Lost(k, u, Full(k, r, u), i)
    requires forall c | c in r && c != Tri(i) :: ValueOf(k, r, u, c) == ValueOf(k, r, u', c)
    ensures ValueOf(k, r, u, Tri(i)) != ValueOf(k, r, u', Tri(i))
  {
    hide ValueOf, CellSources, WellFormed, UsersOk, UsersValid, IsReload, ChoiceFree, Compute, ExprVal;
    SourcesBelow(k, r, Tri(i));
    VisibleDefined(k, r, u, i);
    assert LowerSame(k, Full(k, r, u), Full(k, r, u'), Tri(i));
    TriComesBack(k, r, u, u', i);
    FullSolves(k, r, u, Tri(i));
    FullSolves(k, r, u', Tri(i));
  }
}
