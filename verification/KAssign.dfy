/** What assigning does: which values of a symbol, and which modes of a choice, the attribute of assignable values names
    are those that take hold when they are set. */
module KAssign {
  import opened Basics
  import opened KValues
  import opened KReads
  import opened KFixpoint
  import opened KCache
  import opened KLevels
  import opened KMeaning

  ghost predicate Parsed(k: Config, r: Rank, u: Users) {
    WellFormed(k) && Constants(k) && Ordered(k, r) && UsersOk(k, u) && UsersValid(k, u)
  }

  lemma FullIsSane(k: Config, r: Rank, u: Users)
    requires Parsed(k, r, u)
    ensures Sane(k, u, Full(k, r, u)) && Solves(k, r, u, Full(k, r, u))
  {
    hide Solves, Full, Bounded;
    FullBounded(k, r, u);
    SolutionIsUnique(k, r, u, Full(k, r, u));
  }

  // ---- what an assignment leaves alone ----

  /** Attributes up to rank n that read no assignment to j keep their values when only that assignment changes. */
  lemma {:induction false} KeptBelow(k: Config, r: Rank, u: Users, u': Users, j: Id, n: int, c: Cell)
    requires Ordered(k, r) && UsersOk(k, u) && UsersOk(k, u') && c in r && r[c] <= n
    requires forall x | x != j :: UserAt(u, x) == UserAt(u', x)
    requires forall d | d in r && r[d] <= n :: FromUser(j) !in CellSources(k, d)
    ensures Full(k, r, u)[c] == Full(k, r, u')[c]
    decreases r[c]
  {
    hide Compute, CellSources, UsersOk, Full, ValueOf;
    var e1, e2 := Full(k, r, u), Full(k, r, u');
    FullSolves(k, r, u, c);
    FullSolves(k, r, u', c);
    ComputeBound(k, u, e1, c);
    forall s | s in Compute(k, u, e1, c).src
      ensures SameSource(u, e1, u', e2, s)
    {
      match s {
        case FromUser(x) =>
        case FromCell(d) =>
          assert Below(r, CellSources(k, c), r[c]);
          KeptBelow(k, r, u, u', j, n, d);
          FullSolves(k, r, u, d);
          FullSolves(k, r, u', d);
      }
    }
    ComputeSame(k, u, e1, u', e2, c);
  }

  lemma SourceCovered(k: Config, c: Cell, s: Source)
    requires WellFormed(k) && s in CellSources(k, c)
    ensures Covered(k, c.item, s)
  {
    hide CellSources, Covered, WellFormed;
    match c {
      case Vis(i) => VisCovered(k, i, s);
      case Tri(i) => TriCovered(k, i, s);
      case Str(i) => StrCovered(k, i, s);
      case Assignable(i) => AssignableCovered(k, i, s);
      case Selection(i) => SelectionCovered(k, i, s);
    }
  }

  /** Only its value reads the assignment to a bool or tristate symbol. */
  lemma OneReader(k: Config, i: Id, c: Cell)
    requires WellFormed(k) && ItemAt(k, i).Symbol? && BoolLike(ItemAt(k, i).ty) && FromUser(i) in CellSources(k, c)
    ensures c == Tri(i)
  {
    SourceCovered(k, c, FromUser(i));
    if c.Vis? || c.Assignable? || c.Selection? {
      OtherCellsReadNoUser(k, i, c);
    }
  }

  /** The assignments with the value of symbol i set to v. */
  function Setting(k: Config, u: Users, i: Id, v: int): Users { UsersAfter(k, u, Set(i, UserTri(v))) }

  lemma SettingOk(k: Config, r: Rank, u: Users, i: Id, v: int)
    requires Parsed(k, r, u) && PlainSymbol(k, i) && ValidFor(k, i, UserTri(v))
    ensures Parsed(k, r, Setting(k, u, i, v)) && UserAt(Setting(k, u, i, v), i).value == Some(UserTri(v))
    ensures forall x | x != i :: UserAt(Setting(k, u, i, v), x) == UserAt(u, x)
  {
    hide WellFormed, Ordered, Constants;
  }

  /** Setting a symbol changes nothing its value is read from. */
  lemma SettingKeeps(k: Config, r: Rank, u: Users, i: Id, v: int, c: Cell)
    requires Parsed(k, r, u) && PlainSymbol(k, i) && ValidFor(k, i, UserTri(v)) && Tri(i) in r
    requires FromCell(c) in CellSources(k, Tri(i))
    ensures c in r && Full(k, r, u)[c] == Full(k, r, Setting(k, u, i, v))[c]
  {
    hide CellSources, Full, WellFormed, UsersOk, Setting;
    SettingOk(k, r, u, i, v);
    assert Below(r, CellSources(k, Tri(i)), r[Tri(i)]);
    forall d | d in r && r[d] <= r[Tri(i)] - 1
      ensures FromUser(i) !in CellSources(k, d)
    {
      if FromUser(i) in CellSources(k, d) {
        OneReader(k, i, d);
      }
    }
    KeptBelow(k, r, u, Setting(k, u, i, v), i, r[Tri(i)] - 1, c);
  }

  lemma SettingKeepsExpr(k: Config, r: Rank, u: Users, i: Id, v: int, e: Expr)
    requires Parsed(k, r, u) && PlainSymbol(k, i) && ValidFor(k, i, UserTri(v)) && Tri(i) in r
    requires ExprSources(k, e) <= CellSources(k, Tri(i))
    ensures var u' := Setting(k, u, i, v); At(k, u, Full(k, r, u), e) == At(k, u', Full(k, r, u'), e)
  {
    hide CellSources, ExprVal, ExprSources, WellFormed, UsersOk, Setting;
    var u' := Setting(k, u, i, v);
    var e1, e2 := Full(k, r, u), Full(k, r, u');
    ExprBound(k, u, e1, e);
    SettingOk(k, r, u, i, v);
    forall s | s in ExprVal(k, u, e1, e).src
      ensures SameSource(u, e1, u', e2, s)
    {
      match s {
        case FromCell(c) => SettingKeeps(k, r, u, i, v, c);
        case FromUser(x) => ExprCovered(k, e, s);
      }
    }
    ExprSame(k, u, e1, u', e2, e);
  }

  // ---- assignable values of symbols ----

  /** The symbol is visible, and selected, at m, and implied at y: whatever is set, it is y, but m is named. */
  predicate Quirk(k: Config, u: Users, env: Env, i: Id) {
    var it := ItemAt(k, i);
    && it.Symbol? && LevelAt(env, Vis(i)) == 1
    && At(k, u, env, it.revDep) == 1 && At(k, u, env, it.weakRevDep) == 2
  }

  /** The values named for a symbol outside choices. */
  function Named(vis: int, selected: int, lifted: bool): seq<int> {
    if vis == 0 then []
    else if selected == 2 then [2]
    else if vis == 2 then
      if selected == 0 then (if lifted then [0, 2] else [0, 1, 2]) else if lifted then [2] else [1, 2]
    else if selected == 0 then (if lifted then [0, 2] else [0, 1]) else [1]
  }

  lemma NamedMeans(k: Config, r: Rank, u: Users, env: Env, i: Id)
    requires WellFormed(k) && Sane(k, u, env) && Solves(k, r, u, env) && Assignable(i) in r && Vis(i) in r
    requires PlainSymbol(k, i)
    ensures var it := ItemAt(k, i);
            env[Assignable(i)] == Levels(Named(LevelAt(env, Vis(i)), At(k, u, env, it.revDep),
                                               !HasM(k, u, env, i) || At(k, u, env, it.weakRevDep) == 2))
  {
    Present(k, r, u, env, Assignable(i));
    TypeMeans(k, u, env, i);
    var p := VisMeans(k, r, u, env, i);
    RangeOf(k, u, env, ItemAt(k, i).revDep);
    VisInRange(env, Vis(i));
    hide ExprVal, TypeOf, Solves, Highest, WellFormed, Sane;
  }

  /** What a value set by the user comes to. */
  function Taken(vis: int, selected: int, lifted: bool, v: int): int {
    var n := Max(Min(v, vis), selected);
    if n == 1 && lifted then 2 else n
  }

  /** Nothing that decides about the value of a symbol, but for the assignment, changes. */
  lemma SettingSame(k: Config, r: Rank, u: Users, i: Id, v: int)
    requires Parsed(k, r, u) && PlainSymbol(k, i) && ValidFor(k, i, UserTri(v)) && Tri(i) in r
    ensures var u', it := Setting(k, u, i, v), ItemAt(k, i);
            var e1, e2 := Full(k, r, u), Full(k, r, u');
            && LevelAt(e1, Vis(i)) == LevelAt(e2, Vis(i)) && HasM(k, u, e1, i) == HasM(k, u', e2, i)
            && At(k, u, e1, it.revDep) == At(k, u', e2, it.revDep)
            && At(k, u, e1, it.weakRevDep) == At(k, u', e2, it.weakRevDep)
  {
    hide ExprVal, WellFormed, Setting, ValueOf, Ordered, UsersOk, UsersValid, Constants;
    var it := ItemAt(k, i);
    ReadByValue(k, i);
    hide CellSources;
    SettingKeeps(k, r, u, i, v, Vis(i));
    if it.ty == Tristate {
      SettingKeeps(k, r, u, i, v, Tri(k.modules));
    }
    SettingKeepsExpr(k, r, u, i, v, it.revDep);
    SettingKeepsExpr(k, r, u, i, v, it.weakRevDep);
  }

  lemma ReadByValue(k: Config, i: Id)
    requires PlainSymbol(k, i)
    ensures var src, it := CellSources(k, Tri(i)), ItemAt(k, i);
            && FromCell(Vis(i)) in src && (it.ty == Tristate ==> FromCell(Tri(k.modules)) in src)
            && ExprSources(k, it.revDep) <= src && ExprSources(k, it.weakRevDep) <= src
  {
    hide ExprSources;
  }

  lemma SettingTakes(k: Config, r: Rank, u: Users, i: Id, v: int)
    requires Parsed(k, r, u) && PlainSymbol(k, i) && ValidFor(k, i, UserTri(v)) && Tri(i) in r
    requires LevelAt(Full(k, r, u), Vis(i)) != 0
    ensures var env, it := Full(k, r, u), ItemAt(k, i);
            LevelAt(Full(k, r, Setting(k, u, i, v)), Tri(i)) ==
            Taken(LevelAt(env, Vis(i)), At(k, u, env, it.revDep),
                  !HasM(k, u, env, i) || At(k, u, env, it.weakRevDep) == 2, v)
  {
    hide At, Full, WellFormed, Solves, Setting, HasM, Ordered, UsersOk, UsersValid, Constants;
    var u' := Setting(k, u, i, v);
    SettingOk(k, r, u, i, v);
    FullIsSane(k, r, u');
    SettingSame(k, r, u, i, v);
    var start := ValueMeans(k, r, u', Full(k, r, u'), i);
  }

  lemma NamedIsTaken(vis: int, selected: int, lifted: bool, v: int)
    requires 1 <= vis <= 2 && 0 <= selected <= 2 && 0 <= v <= 2
    ensures !(vis == 1 && selected == 1 && lifted) ==>
              (v in Named(vis, selected, lifted) <==> Taken(vis, selected, lifted, v) == v)
    ensures vis == 1 && selected == 1 && lifted ==>
              Taken(vis, selected, lifted, 2) == 2 && 2 !in Named(vis, selected, lifted)
  {
  }

  /** For a visible symbol outside choices, a value is named as assignable exactly when setting it makes it the value,
      for all values if and only if the symbol is not selected at m and implied at y while visible at m. */
  lemma AssignableMeans(k: Config, r: Rank, u: Users, i: Id)
    requires Parsed(k, r, u) && PlainSymbol(k, i) && Tri(i) in r && Vis(i) in r && Assignable(i) in r
    requires LevelAt(Full(k, r, u), Vis(i)) != 0
    ensures Full(k, r, u)[Assignable(i)].Levels?
    ensures (forall v | ValidFor(k, i, UserTri(v)) ::
               v in Full(k, r, u)[Assignable(i)].ns <==> LevelAt(Full(k, r, Setting(k, u, i, v)), Tri(i)) == v)
            <==> !Quirk(k, u, Full(k, r, u), i)
  {
    hide At, Full, WellFormed, Solves, Setting, HasM, Ordered, UsersOk, Constants, Bounded, Named, Taken;
    var env, it := Full(k, r, u), ItemAt(k, i);
    FullIsSane(k, r, u);
    NamedMeans(k, r, u, env, i);
    if LevelAt(env, Vis(i)) == 1 {
      AtMHasM(k, r, u, env, i);
    }
    RangeOf(k, u, env, it.revDep);
    VisInRange(env, Vis(i));
    var vis, selected := LevelAt(env, Vis(i)), At(k, u, env, it.revDep);
    var lifted := !HasM(k, u, env, i) || At(k, u, env, it.weakRevDep) == 2;
    forall v | ValidFor(k, i, UserTri(v))
      ensures LevelAt(Full(k, r, Setting(k, u, i, v)), Tri(i)) == Taken(vis, selected, lifted, v)
      ensures !(vis == 1 && selected == 1 && lifted) ==>
                (v in Named(vis, selected, lifted) <==> Taken(vis, selected, lifted, v) == v)
    {
      SettingTakes(k, r, u, i, v);
      NamedIsTaken(vis, selected, lifted, v);
    }
    NamedIsTaken(vis, selected, lifted, 2);
    assert ValidFor(k, i, UserTri(2));
    Present(k, r, u, env, Assignable(i));
  }

  lemma AtMHasM(k: Config, r: Rank, u: Users, env: Env, i: Id)
    requires WellFormed(k) && Sane(k, u, env) && Solves(k, r, u, env) && Vis(i) in r && LevelAt(env, Vis(i)) == 1
    ensures HasM(k, u, env, i)
  {
    hide WellFormed, Sane, Solves, HasM;
    var p := VisMeans(k, r, u, env, i);
  }

  /** An invisible symbol has nothing to assign. */
  lemma InvisibleUnassignable(k: Config, r: Rank, u: Users, env: Env, i: Id)
    requires Solves(k, r, u, env) && Assignable(i) in r && LevelAt(env, Vis(i)) == 0
    ensures env[Assignable(i)] == Levels([])
  {
    hide Solves, ExprVal, TypeOf;
    Present(k, r, u, env, Assignable(i));
    NothingNamed(k, u, env, i);
    hide AssignableVal;
  }

  lemma NothingNamed(k: Config, u: Users, env: Env, i: Id)
    requires LevelAt(env, Vis(i)) == 0
    ensures AssignableVal(k, u, env, i).val == Levels([])
  {
    hide ExprVal, TypeOf;
  }

  // ---- modes of choices ----

  lemma {:induction false} ModeReadWithVis(k: Config, e: Expr, c: Id)
    requires FromUser(c) in ExprSources(k, e)
    ensures FromCell(Vis(c)) in ExprSources(k, e)
  {
    match e {
      case Ref(i) =>
      case And(a, b) =>
        if FromUser(c) in ExprSources(k, a) { ModeReadWithVis(k, a, c); } else { ModeReadWithVis(k, b, c); }
      case Or(a, b) =>
        if FromUser(c) in ExprSources(k, a) { ModeReadWithVis(k, a, c); } else { ModeReadWithVis(k, b, c); }
      case Not(a) => ModeReadWithVis(k, a, c);
      case Rel(op, i, j) =>
    }
  }

  lemma AllReadWithVis(k: Config, c: Id)
    ensures forall e | FromUser(c) in ExprSources(k, e) :: FromCell(Vis(c)) in ExprSources(k, e)
  {
    forall e | FromUser(c) in ExprSources(k, e)
      ensures FromCell(Vis(c)) in ExprSources(k, e)
    {
      ModeReadWithVis(k, e, c);
    }
  }

  /** Whoever reads the assignment to a choice reads its visibility too. */
  lemma ModeReaders(k: Config, c: Id, d: Cell)
    requires ItemAt(k, c).Choice? && FromUser(c) in CellSources(k, d)
    ensures FromCell(Vis(c)) in CellSources(k, d)
  {
    hide ExprSources;
    AllReadWithVis(k, c);
    var it := ItemAt(k, d.item);
    match d {
      case Vis(i) =>
        if FromUser(c) in AllSources(k, it.prompts) {
          var e :| e in it.prompts && FromUser(c) in ExprSources(k, e);
          assert FromCell(Vis(c)) in AllSources(k, it.prompts);
        }
      case Tri(i) =>
        if FromUser(c) in DefaultSources(k, it.defaults) {
          var x :| x in it.defaults && FromUser(c) in ExprSources(k, x.cond) + ExprSources(k, x.value);
          assert FromCell(Vis(c)) in DefaultSources(k, it.defaults);
        }
      case Str(i) => StrReaders(k, c, i);
      case Assignable(i) =>
      case Selection(i) =>
        if FromUser(c) in PickSources(k, it.choiceDefaults) {
          var x :| x in it.choiceDefaults && FromUser(c) in ExprSources(k, x.cond) + {FromCell(Vis(x.sym))};
          assert FromCell(Vis(c)) in PickSources(k, it.choiceDefaults);
        }
    }
  }

  lemma StrReaders(k: Config, c: Id, i: Id)
    requires ItemAt(k, c).Choice? && FromUser(c) in CellSources(k, Str(i))
    ensures FromCell(Vis(c)) in CellSources(k, Str(i))
  {
    hide ExprSources;
    AllReadWithVis(k, c);
    var it := ItemAt(k, i);
    if FromUser(c) in RangeSources(k, it.ranges) {
      var x :| x in it.ranges && FromUser(c) in ExprSources(k, x.cond) + {FromCell(Str(x.low)), FromCell(Str(x.high))};
      assert FromCell(Vis(c)) in RangeSources(k, it.ranges);
    } else if FromUser(c) in TextSources(k, it.defaults) {
      var x :| x in it.defaults && FromUser(c) in ExprSources(k, x.cond) + {FromCell(Str(RefId(x.value)))};
      assert FromCell(Vis(c)) in TextSources(k, it.defaults);
    }
  }

  lemma ModeReadersAbove(k: Config, r: Rank, c: Id, d: Cell)
    requires Ordered(k, r) && ItemAt(k, c).Choice? && d in r && FromUser(c) in CellSources(k, d)
    ensures Vis(c) in r && r[Vis(c)] < r[d]
  {
    hide CellSources;
    ModeReaders(k, c, d);
    assert Below(r, CellSources(k, d), r[d]);
  }

  function SettingMode(k: Config, u: Users, c: Id, n: int): Users { UsersAfter(k, u, SetChoiceMode(c, n)) }

  lemma SettingModeOk(k: Config, r: Rank, u: Users, c: Id, n: int)
    requires Parsed(k, r, u) && ItemAt(k, c).Choice? && ValidMode(k, c, n)
    ensures Parsed(k, r, SettingMode(k, u, c, n)) && UserAt(SettingMode(k, u, c, n), c).value == Some(UserTri(n))
    ensures forall x | x != c :: UserAt(SettingMode(k, u, c, n), x) == UserAt(u, x)
  {
    hide WellFormed, Ordered, Constants;
  }

  lemma SettingModeKeeps(k: Config, r: Rank, u: Users, c: Id, n: int, d: Cell)
    requires Parsed(k, r, u) && ItemAt(k, c).Choice? && ValidMode(k, c, n) && Vis(c) in r && d in r && r[d] <= r[Vis(c)]
    ensures Full(k, r, u)[d] == Full(k, r, SettingMode(k, u, c, n))[d]
  {
    hide CellSources, Full, WellFormed, UsersOk, SettingMode;
    SettingModeOk(k, r, u, c, n);
    forall x | x in r && r[x] <= r[Vis(c)]
      ensures FromUser(c) !in CellSources(k, x)
    {
      if FromUser(c) in CellSources(k, x) {
        ModeReadersAbove(k, r, c, x);
      }
    }
    KeptBelow(k, r, u, SettingMode(k, u, c, n), c, r[Vis(c)], d);
  }

  /** The mode that setting n comes to. */
  function ModeTaken(vis: int, optional: bool, hasM: bool, n: int): int {
    if vis == 0 || (optional && n == 0) then 0 else if vis == 2 && n == 2 then 2 else if hasM then 1 else 2
  }

  lemma SettingModeTakes(k: Config, r: Rank, u: Users, c: Id, n: int)
    requires Parsed(k, r, u) && ItemAt(k, c).Choice? && ValidMode(k, c, n) && Vis(c) in r
    ensures var env := Full(k, r, u);
            Mode(k, SettingMode(k, u, c, n), Full(k, r, SettingMode(k, u, c, n)), c)
            == ModeTaken(LevelAt(env, Vis(c)), ItemAt(k, c).optional, HasM(k, u, env, c), n)
  {
    hide WellFormed, Solves, SettingMode, UsersOk, Constants, Bounded, Mode, UsersValid, ValueOf;
    var u' := SettingMode(k, u, c, n);
    SettingModeOk(k, r, u, c, n);
    FullIsSane(k, r, u');
    SettingModeKeeps(k, r, u, c, n, Vis(c));
    if ItemAt(k, c).ty == Tristate {
      ModulesBelow(k, r, c);
      SettingModeKeeps(k, r, u, c, n, Tri(k.modules));
    }
    ModeMeans(k, u', Full(k, r, u'), c);
  }

  lemma ModulesBelow(k: Config, r: Rank, c: Id)
    requires Ordered(k, r) && Vis(c) in r && ItemAt(k, c).ty == Tristate
    ensures Tri(k.modules) in r && r[Tri(k.modules)] < r[Vis(c)]
  {
    assert FromCell(Tri(k.modules)) in CellSources(k, Vis(c));
    hide CellSources;
    assert Below(r, CellSources(k, Vis(c)), r[Vis(c)]);
  }

  /** For a visible choice, a mode is named as assignable exactly when setting it makes it the mode. */
  lemma ModeAssignableMeans(k: Config, r: Rank, u: Users, c: Id, n: int)
    requires Parsed(k, r, u) && ItemAt(k, c).Choice? && ValidMode(k, c, n) && Vis(c) in r && Assignable(c) in r
    requires LevelAt(Full(k, r, u), Vis(c)) != 0
    ensures Full(k, r, u)[Assignable(c)].Levels?
    ensures n in Full(k, r, u)[Assignable(c)].ns
            <==> Mode(k, SettingMode(k, u, c, n), Full(k, r, SettingMode(k, u, c, n)), c) == n
  {
    hide Full, WellFormed, Solves, SettingMode, Ordered, UsersOk, Constants, Bounded, Mode, UsersValid, HasM;
    var env := Full(k, r, u);
    FullIsSane(k, r, u);
    SettingModeTakes(k, r, u, c, n);
    ChoiceNamed(k, r, u, env, c);
    VisInRange(env, Vis(c));
    if LevelAt(env, Vis(c)) == 1 {
      AtMHasM(k, r, u, env, c);
    }
    Present(k, r, u, env, Assignable(c));
  }

  lemma ChoiceNamed(k: Config, r: Rank, u: Users, env: Env, c: Id)
    requires WellFormed(k) && Solves(k, r, u, env) && Assignable(c) in r && ItemAt(k, c).Choice?
    ensures var vis, m := LevelAt(env, Vis(c)), HasM(k, u, env, c);
            env[Assignable(c)] == Levels(
              if vis == 0 then [] else if vis == 2 then
                if ItemAt(k, c).optional then (if m then [0, 1, 2] else [0, 2]) else if m then [1, 2] else [2]
              else if ItemAt(k, c).optional then [0, 1] else [1])
              || !BoolLike(ItemAt(k, c).ty)
  {
    Present(k, r, u, env, Assignable(c));
    TypeMeans(k, u, env, c);
    hide Solves, TypeOf, WellFormed;
  }

  // ---- picking a symbol of a choice ----

  /** The assignments differ in the selection of c only. */
  ghost predicate OnlySelection(u: Users, u': Users, c: Id) {
    forall x :: UserAt(u, x).value == UserAt(u', x).value && (x != c ==> UserAt(u, x) == UserAt(u', x))
  }

  lemma {:induction false} ExprIgnores(k: Config, u: Users, u': Users, env: Env, c: Id, e: Expr)
    requires OnlySelection(u, u', c)
    ensures ExprVal(k, u, env, e) == ExprVal(k, u', env, e)
  {
    match e {
      case Ref(i) =>
      case And(a, b) => ExprIgnores(k, u, u', env, c, a); ExprIgnores(k, u, u', env, c, b);
      case Or(a, b) => ExprIgnores(k, u, u', env, c, a); ExprIgnores(k, u, u', env, c, b);
      case Not(a) => ExprIgnores(k, u, u', env, c, a);
      case Rel(op, i, j) =>
    }
  }

  lemma {:induction false} PromptsIgnore(k: Config, u: Users, u': Users, env: Env, c: Id, ps: seq<Expr>, acc: int)
    requires OnlySelection(u, u', c)
    ensures MaxOf(k, u, env, ps, acc) == MaxOf(k, u', env, ps, acc)
    decreases |ps|
  {
    hide ExprVal, OnlySelection;
    if ps != [] {
      ExprIgnores(k, u, u', env, c, ps[0]);
      PromptsIgnore(k, u, u', env, c, ps[1..], Max(acc, ExprVal(k, u, env, ps[0]).val));
    }
  }

  lemma {:induction false} DefaultsIgnore(k: Config, u: Users, u': Users, env: Env, c: Id, ds: seq<Default>)
    requires OnlySelection(u, u', c)
    ensures FirstDefault(k, u, env, ds) == FirstDefault(k, u', env, ds)
    ensures FirstText(k, u, env, ds) == FirstText(k, u', env, ds)
    decreases |ds|
  {
    hide ExprVal, OnlySelection;
    if ds != [] {
      ExprIgnores(k, u, u', env, c, ds[0].cond);
      ExprIgnores(k, u, u', env, c, ds[0].value);
      DefaultsIgnore(k, u, u', env, c, ds[1..]);
    }
  }

  lemma {:induction false} RangesIgnore(k: Config, u: Users, u': Users, env: Env, c: Id, rs: seq<Range>, b: int)
    requires OnlySelection(u, u', c)
    ensures FirstRange(k, u, env, rs, b) == FirstRange(k, u', env, rs, b)
    decreases |rs|
  {
    hide ExprVal, OnlySelection, NumberOr0;
    if rs != [] {
      ExprIgnores(k, u, u', env, c, rs[0].cond);
      RangesIgnore(k, u, u', env, c, rs[1..], b);
    }
  }

  lemma {:induction false} PicksIgnore(k: Config, u: Users, u': Users, env: Env, c: Id, ds: seq<ChoiceDefault>)
    requires OnlySelection(u, u', c)
    ensures DefaultPick(k, u, env, ds) == DefaultPick(k, u', env, ds)
    decreases |ds|
  {
    hide ExprVal, OnlySelection;
    if ds != [] {
      ExprIgnores(k, u, u', env, c, ds[0].cond);
      PicksIgnore(k, u, u', env, c, ds[1..]);
    }
  }

  lemma TypeIgnores(k: Config, u: Users, u': Users, env: Env, c: Id, i: Id)
    requires OnlySelection(u, u', c)
    ensures TypeOf(k, u, env, i) == TypeOf(k, u', env, i) && ChoiceTri(k, u, env, i) == ChoiceTri(k, u', env, i)
    ensures ChoiceOf(ItemAt(k, i)).Some? ==>
              var o := ChoiceOf(ItemAt(k, i)).value; ChoiceTri(k, u, env, o) == ChoiceTri(k, u', env, o)
  {
  }

  /** No rule but that of c's own selection looks at it. */
  lemma RulesIgnore(k: Config, u: Users, u': Users, env: Env, c: Id, d: Cell)
    requires OnlySelection(u, u', c) && d != Selection(c)
    ensures Compute(k, u, env, d) == Compute(k, u', env, d)
  {
    hide ExprVal, MaxOf, FirstDefault, FirstText, FirstRange, DefaultPick, VisiblePick, TypeOf, ChoiceTri, NumberOr0, Clamped;
    var it := ItemAt(k, d.item);
    TypeIgnores(k, u, u', env, c, d.item);
    match d {
      case Vis(i) => PromptsIgnore(k, u, u', env, c, it.prompts, 0);
      case Tri(i) => TriIgnores(k, u, u', env, c, i);
      case Str(i) =>
        if it.Symbol? {
          DefaultsIgnore(k, u, u', env, c, it.defaults);
          RangesIgnore(k, u, u', env, c, it.ranges, Base(it.ty));
        }
      case Assignable(i) =>
        if it.Symbol? {
          ExprIgnores(k, u, u', env, c, it.revDep);
          ExprIgnores(k, u, u', env, c, it.weakRevDep);
        }
      case Selection(i) =>
        if it.Choice? {
          PicksIgnore(k, u, u', env, c, it.choiceDefaults);
        }
    }
  }

  lemma TriIgnores(k: Config, u: Users, u': Users, env: Env, c: Id, i: Id)
    requires OnlySelection(u, u', c)
    ensures TriVal(k, u, env, i) == TriVal(k, u', env, i)
  {
    hide ExprVal, Suggested, TypeOf, ChoiceTri;
    var it := ItemAt(k, i);
    TypeIgnores(k, u, u', env, c, i);
    if it.Symbol? {
      SuggestedIgnores(k, u, u', env, c, it);
      ExprIgnores(k, u, u', env, c, it.revDep);
      ExprIgnores(k, u, u', env, c, it.weakRevDep);
    }
  }

  lemma SuggestedIgnores(k: Config, u: Users, u': Users, env: Env, c: Id, it: Item)
    requires OnlySelection(u, u', c) && it.Symbol?
    ensures Suggested(k, u, env, it) == Suggested(k, u', env, it)
  {
    hide ExprVal, FirstDefault, OnlySelection;
    DefaultsIgnore(k, u, u', env, c, it.defaults);
    ExprIgnores(k, u, u', env, c, it.weakRevDep);
    ExprIgnores(k, u, u', env, c, it.directDep);
  }

  /** Everything below a selection keeps its value when the selection is changed. */
  lemma {:induction false} KeptUnder(k: Config, r: Rank, u: Users, u': Users, c: Id, d: Cell)
    requires Ordered(k, r) && UsersOk(k, u) && UsersOk(k, u') && OnlySelection(u, u', c)
    requires Selection(c) in r && d in r && r[d] < r[Selection(c)]
    ensures Full(k, r, u)[d] == Full(k, r, u')[d]
    decreases r[d]
  {
    hide Compute, CellSources, UsersOk, Full, ValueOf, OnlySelection;
    var e1, e2 := Full(k, r, u), Full(k, r, u');
    FullSolves(k, r, u, d);
    FullSolves(k, r, u', d);
    RulesIgnore(k, u, u', e1, c, d);
    ComputeBound(k, u', e1, d);
    forall s | s in Compute(k, u', e1, d).src
      ensures SameSource(u', e1, u', e2, s)
    {
      match s {
        case FromUser(x) =>
        case FromCell(x) =>
          assert Below(r, CellSources(k, d), r[d]);
          KeptUnder(k, r, u, u', c, x);
          FullSolves(k, r, u, x);
          FullSolves(k, r, u', x);
      }
    }
    ComputeSame(k, u', e1, u', e2, d);
  }

  lemma {:induction false} KeptUnderPick(k: Config, r: Rank, u: Users, i: Id, c: Id, d: Cell)
    requires Parsed(k, r, u) && ChoiceSymbol(k, i, c) && ItemAt(k, c).Choice? && Tri(i) in r && Selection(c) in r
    requires d in r && r[d] < r[Selection(c)]
    ensures Full(k, r, u)[d] == Full(k, r, Setting(k, u, i, 2))[d]
  {
    hide WellFormed, Full, CellSources, UsersOk;
    var u1 := u[i := UserAt(u, i).(value := Some(UserTri(2)))];
    var u' := Setting(k, u, i, 2);
    PickOk(k, r, u, i, c);
    assert FromCell(Selection(c)) in CellSources(k, Tri(i)) by {
      PickedRead(k, i, c);
    }
    assert Below(r, CellSources(k, Tri(i)), r[Tri(i)]);
    forall x | x in r && r[x] <= r[Tri(i)] - 1
      ensures FromUser(i) !in CellSources(k, x)
    {
      if FromUser(i) in CellSources(k, x) {
        OneReader(k, i, x);
      }
    }
    KeptBelow(k, r, u, u1, i, r[Tri(i)] - 1, d);
    KeptUnder(k, r, u1, u', c, d);
  }

  lemma PickedRead(k: Config, i: Id, c: Id)
    requires ChoiceSymbol(k, i, c)
    ensures FromCell(Selection(c)) in CellSources(k, Tri(i)) && FromCell(Vis(i)) in CellSources(k, Tri(i))
  {
  }

  lemma PickOk(k: Config, r: Rank, u: Users, i: Id, c: Id)
    requires Parsed(k, r, u) && ChoiceSymbol(k, i, c) && ItemAt(k, c).Choice?
    ensures var u1, u' := u[i := UserAt(u, i).(value := Some(UserTri(2)))], Setting(k, u, i, 2);
            && UsersOk(k, u1) && Parsed(k, r, u') && OnlySelection(u1, u', c)
            && UserAt(u', c).selection == Some(i) && UserAt(u', c).value == UserAt(u, c).value
  {
    hide Ordered, Constants;
    assert ItemOk(k, i);
    hide WellFormed;
  }

  /** In a choice at y, setting a visible symbol to y makes it the one that is picked, and y. */
  lemma PickingTakes(k: Config, r: Rank, u: Users, i: Id, c: Id)
    requires Parsed(k, r, u) && ChoiceSymbol(k, i, c) && ItemAt(k, c).Choice? && Tri(i) in r && Selection(c) in r
    requires Mode(k, u, Full(k, r, u), c) == 2 && Shows(Full(k, r, u), i)
    ensures var env := Full(k, r, Setting(k, u, i, 2));
            Selection(c) in env && env[Selection(c)] == Picked(Some(i)) && LevelAt(env, Tri(i)) == 2
  {
    hide WellFormed, Full, UsersOk, Solves, Setting, Mode, Ordered, Constants, UsersValid, Bounded;
    var u', e1 := Setting(k, u, i, 2), Full(k, r, u);
    PickOk(k, r, u, i, c);
    FullIsSane(k, r, u');
    PickSame(k, r, u, i, c);
    var env := Full(k, r, u');
    SelectionIs(k, r, u', env, c);
    NoMInY(k, r, u', env, i, c);
    Present(k, r, u', env, Selection(c));
    ChoiceSymbolMeans(k, r, u', env, i, c);
  }

  lemma PickSame(k: Config, r: Rank, u: Users, i: Id, c: Id)
    requires Parsed(k, r, u) && ChoiceSymbol(k, i, c) && ItemAt(k, c).Choice? && Tri(i) in r && Selection(c) in r
    ensures var u' := Setting(k, u, i, 2);
            var e1, e2 := Full(k, r, u), Full(k, r, u');
            && Vis(i) in r && Mode(k, u, e1, c) == Mode(k, u', e2, c) && LevelAt(e1, Vis(i)) == LevelAt(e2, Vis(i))
  {
    var u' := Setting(k, u, i, 2);
    PickOk(k, r, u, i, c);
    FullIsSane(k, r, u);
    FullIsSane(k, r, u');
    SelectionReads(k, r, i, c);
    KeptUnderPick(k, r, u, i, c, Vis(i));
    KeptUnderPick(k, r, u, i, c, Vis(c));
    ModeMeans(k, u, Full(k, r, u), c);
    ModeMeans(k, u', Full(k, r, u'), c);
    hide WellFormed, UsersOk, Solves, Setting, Mode, Ordered, Constants, UsersValid, Bounded, ValueOf;
    if ItemAt(k, c).ty == Tristate {
      KeptUnderPick(k, r, u, i, c, Tri(k.modules));
    }
  }

  lemma SelectionReads(k: Config, r: Rank, i: Id, c: Id)
    requires WellFormed(k) && Ordered(k, r) && ChoiceSymbol(k, i, c) && ItemAt(k, c).Choice? && Selection(c) in r
    ensures Vis(i) in r && r[Vis(i)] < r[Selection(c)] && Vis(c) in r && r[Vis(c)] < r[Selection(c)]
    ensures ItemAt(k, c).ty == Tristate ==> Tri(k.modules) in r && r[Tri(k.modules)] < r[Selection(c)]
  {
    assert ItemOk(k, i);
    var src := CellSources(k, Selection(c));
    assert FromCell(Vis(i)) in src && FromCell(Vis(c)) in src;
    assert ItemAt(k, c).ty == Tristate ==> FromCell(Tri(k.modules)) in src;
    hide CellSources, WellFormed;
    assert Below(r, CellSources(k, Selection(c)), r[Selection(c)]);
  }

  // ---- assignable values of the symbols of a choice ----

  /** Setting a symbol of a choice to something else than y changes nothing but that assignment, and so nothing its value
      is read from. */
  lemma NoPickKeeps(k: Config, r: Rank, u: Users, i: Id, c: Id, v: int)
    requires Parsed(k, r, u) && ChoiceSymbol(k, i, c) && Tri(i) in r && Selection(c) in r && ValidFor(k, i, UserTri(v))
    requires v != 2
    ensures var u' := Setting(k, u, i, v);
            && Parsed(k, r, u') && UserAt(u', i).value == Some(UserTri(v)) && Vis(i) in r
            && Full(k, r, u)[Vis(i)] == Full(k, r, u')[Vis(i)]
            && Full(k, r, u)[Selection(c)] == Full(k, r, u')[Selection(c)]
  {
    var u' := Setting(k, u, i, v);
    assert Parsed(k, r, u') && UserAt(u', i).value == Some(UserTri(v)) by {
      hide WellFormed, Ordered, Constants;
    }
    PickedRead(k, i, c);
    hide WellFormed, Full, CellSources, UsersOk, UsersValid, Constants;
    assert Below(r, CellSources(k, Tri(i)), r[Tri(i)]);
    forall x | x in r && r[x] <= r[Tri(i)] - 1
      ensures FromUser(i) !in CellSources(k, x)
    {
      if FromUser(i) in CellSources(k, x) {
        OneReader(k, i, x);
      }
    }
    KeptBelow(k, r, u, u', i, r[Tri(i)] - 1, Vis(i));
    KeptBelow(k, r, u, u', i, r[Tri(i)] - 1, Selection(c));
  }

  predicate IsPicked(env: Env, c: Id, i: Id) { Selection(c) in env && env[Selection(c)] == Picked(Some(i)) }

  /** What a value set for a symbol of a choice comes to. */
  function ChoiceTaken(vis: int, mode: int, picked: bool, v: int): int {
    if vis == 1 then (if v == 0 then 0 else 1)
    else if (if v == 2 then mode == 2 else picked) then 2 else 0
  }

  lemma ChoiceSettingTakes(k: Config, r: Rank, u: Users, i: Id, c: Id, v: int)
    requires Parsed(k, r, u) && ChoiceSymbol(k, i, c) && ItemAt(k, c).Choice? && Tri(i) in r && Selection(c) in r
    requires ValidFor(k, i, UserTri(v)) && Shows(Full(k, r, u), i)
    ensures var env := Full(k, r, u);
            LevelAt(Full(k, r, Setting(k, u, i, v)), Tri(i))
            == ChoiceTaken(LevelAt(env, Vis(i)), Mode(k, u, env, c), IsPicked(env, c, i), v)
  {
    hide WellFormed, Full, UsersOk, Solves, Mode, Ordered, Constants, UsersValid, Bounded;
    var u', env := Setting(k, u, i, v), Full(k, r, u);
    var env' := Full(k, r, u');
    if v == 2 {
      PickOk(k, r, u, i, c);
      PickSame(k, r, u, i, c);
      hide Setting;
      if Mode(k, u, env, c) == 2 {
        PickingTakes(k, r, u, i, c);
      }
    } else {
      NoPickKeeps(k, r, u, i, c, v);
    }
    assert UserAt(u', i).value == Some(UserTri(v));
    hide Setting;
    FullIsSane(k, r, u);
    FullIsSane(k, r, u');
    VisInRange(env, Vis(i));
    SelectionIs(k, r, u', env', c);
    SelectionIs(k, r, u, env, c);
    Present(k, r, u', env', Selection(c));
    Present(k, r, u, env, Selection(c));
    Present(k, r, u', env', Vis(i));
    Present(k, r, u, env, Vis(i));
    ChoiceSymbolMeans(k, r, u', env', i, c);
  }

  lemma ChoiceSymbolNamed(k: Config, r: Rank, u: Users, env: Env, i: Id, c: Id)
    requires WellFormed(k) && Sane(k, u, env) && Solves(k, r, u, env) && Assignable(i) in r && ChoiceSymbol(k, i, c)
    ensures var vis, selected := LevelAt(env, Vis(i)), At(k, u, env, ItemAt(k, i).revDep);
            env[Assignable(i)] == Levels(
              if vis == 0 then [] else if vis == 2 || selected == 2 then [2] else if selected == 1 then [1]
              else if At(k, u, env, ItemAt(k, i).weakRevDep) == 2 then [0, 2] else [0, 1])
  {
    hide ExprVal, TypeOf, Solves, WellFormed;
    Present(k, r, u, env, Assignable(i));
    RangeOf(k, u, env, ItemAt(k, i).revDep);
    VisInRange(env, Vis(i));
  }

  /** For a visible symbol of a choice, the values named are exactly those that setting makes the value if and only if,
      where it is visible at y, it is the one picked, and where it is visible at m, nothing selects it or implies it at
      y: in a choice at y another symbol is n, but only y is named for it, and selects and implies change what is named
      but not the value. */
  lemma ChoiceAssignableMeans(k: Config, r: Rank, u: Users, i: Id, c: Id)
    requires Parsed(k, r, u) && ChoiceSymbol(k, i, c) && ItemAt(k, c).Choice? && Tri(i) in r && Selection(c) in r
    requires Assignable(i) in r && Shows(Full(k, r, u), i)
    ensures Full(k, r, u)[Assignable(i)].Levels?
    ensures (forall v | ValidFor(k, i, UserTri(v)) ::
               v in Full(k, r, u)[Assignable(i)].ns <==> LevelAt(Full(k, r, Setting(k, u, i, v)), Tri(i)) == v)
            <==> var env, it := Full(k, r, u), ItemAt(k, i);
                 if LevelAt(env, Vis(i)) == 2 then IsPicked(env, c, i)
                 else At(k, u, env, it.revDep) == 0 && At(k, u, env, it.weakRevDep) != 2
  {
    hide WellFormed, Full, UsersOk, Solves, Mode, Ordered, Constants, UsersValid, Bounded, Setting, At;
    var env, it := Full(k, r, u), ItemAt(k, i);
    FullIsSane(k, r, u);
    ChoiceSymbolNamed(k, r, u, env, i, c);
    Present(k, r, u, env, Assignable(i));
    VisInRange(env, Vis(i));
    RangeOf(k, u, env, it.revDep);
    if IsPicked(env, c, i) {
      SelectionIs(k, r, u, env, c);
    }
    if LevelAt(env, Vis(i)) == 1 {
      SelectionReads(k, r, i, c);
      AtMHasM(k, r, u, env, i);
    }
    var vis, mode, picked := LevelAt(env, Vis(i)), Mode(k, u, env, c), IsPicked(env, c, i);
    forall v | ValidFor(k, i, UserTri(v))
      ensures LevelAt(Full(k, r, Setting(k, u, i, v)), Tri(i)) == ChoiceTaken(vis, mode, picked, v)
    {
      ChoiceSettingTakes(k, r, u, i, c, v);
    }
    assert ValidFor(k, i, UserTri(0)) && ValidFor(k, i, UserTri(2));
    assert vis == 1 ==> ValidFor(k, i, UserTri(1));
  }

  // ---- what is accepted ----

  /** Setting takes n or y for a bool, and m too for a tristate, any text for a string, and for a number a text that reads
      as one, not below zero if hexadecimal; it changes that assignment, and picks a symbol of a choice set to y. Anything
      else is refused and changes nothing. */
  lemma SettingMeans(k: Config, u: Users, i: Id, v: UserValue)
    requires WellFormed(k) && ItemAt(k, i).Symbol?
    ensures var u', it := UsersAfter(k, u, Set(i, v)), ItemAt(k, i);
            var taken := match it.ty
                         case Bool => v.UserTri? && (v.n == 0 || v.n == 2)
                         case Tristate => v.UserTri? && 0 <= v.n <= 2
                         case Text => v.UserText?
                         case Int => v.UserText? && k.numbers.parse(v.s, 10).Some?
                         case Hex => v.UserText? && (var n := k.numbers.parse(v.s, 16); n.Some? && n.value >= 0)
                         case Unknown => false;
            if !taken then u' == u
            else
              && UserAt(u', i) == UserAt(u, i).(value := Some(v))
              && (it.choice.Some? && v == UserTri(2) ==>
                    UserAt(u', it.choice.value) == UserAt(u, it.choice.value).(selection := Some(i)))
              && forall x | x != i && !(it.choice == Some(x) && v == UserTri(2)) :: UserAt(u', x) == UserAt(u, x)
  {
    OwnChoice(k, i);
    hide WellFormed;
  }

  /** A mode of n or y is taken for a choice, and m too for a tristate one, and changes that mode alone. */
  lemma ModeSettingMeans(k: Config, u: Users, c: Id, n: int)
    requires ItemAt(k, c).Choice?
    ensures var u', ty := SettingMode(k, u, c, n), ItemAt(k, c).ty;
            if (n == 0 && BoolLike(ty)) || (n == 1 && ty == Tristate) || (n == 2 && BoolLike(ty)) then
              && UserAt(u', c) == UserAt(u, c).(value := Some(UserTri(n)))
              && forall x | x != c :: UserAt(u', x) == UserAt(u, x)
            else u' == u
  {
  }

  /** Unsetting takes the assignment back, and for a choice the pick with it. */
  lemma UnsettingMeans(k: Config, u: Users, i: Id, op: Op)
    requires if ItemAt(k, i).Symbol? then op == Unset(i) else op == UnsetTheChoice(i)
    ensures var u' := UsersAfter(k, u, op);
            && UserAt(u', i).value == None && (op.UnsetTheChoice? ==> UserAt(u', i).selection == None)
            && (op.Unset? ==> UserAt(u', i).selection == UserAt(u, i).selection)
            && forall x | x != i :: UserAt(u', x) == UserAt(u, x)
  {
  }
}
