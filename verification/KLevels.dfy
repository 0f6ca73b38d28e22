/** Levels stay within n, m and y. */
module KLevels {
  import opened Basics
  import opened KValues
  import opened KReads
  import opened KFixpoint
  import opened KCache

  /** The constant symbols are n, m or y. */
  ghost predicate Constants(k: Config) {
    forall x :: ItemAt(k, x).Symbol? && ItemAt(k, x).fixed.Some? ==> 0 <= ItemAt(k, x).fixed.value <= 2
  }

  /** What set_value lets in. */
  ghost predicate UsersValid(k: Config, u: Users) {
    forall i | i in u && u[i].value.Some? :: ValidFor(k, i, u[i].value.value)
  }

  ghost predicate Bounded(env: Env) { forall c | c in env :: 0 <= LevelAt(env, c) <= 2 }

  lemma {:induction false} ExprInRange(k: Config, u: Users, env: Env, e: Expr)
    requires UsersValid(k, u) && Bounded(env)
    ensures 0 <= ExprVal(k, u, env, e).val <= 2
  {
    hide ChoiceTri, UsersValid;
    match e {
      case Ref(i) => ChoiceInRange(k, u, env, i);
      case And(a, b) =>
        ExprInRange(k, u, env, a);
        ExprInRange(k, u, env, b);
      case Or(a, b) =>
        ExprInRange(k, u, env, a);
        ExprInRange(k, u, env, b);
      case Not(a) => ExprInRange(k, u, env, a);
      case Rel(op, i, j) =>
    }
  }

  lemma ChoiceInRange(k: Config, u: Users, env: Env, c: Id)
    requires UsersValid(k, u) && Bounded(env)
    ensures 0 <= ChoiceTri(k, u, env, c).val <= 2
  {
    hide UsersValid;
    VisInRange(env, Vis(c));
    if UserAt(u, c).value.Some? {
      UserInRange(k, u, c);
    }
  }

  lemma {:induction false} MaxOfInRange(k: Config, u: Users, env: Env, ps: seq<Expr>, acc: int)
    requires UsersValid(k, u) && Bounded(env) && 0 <= acc <= 2
    ensures 0 <= MaxOf(k, u, env, ps, acc).val <= 2
    decreases |ps|
  {
    hide ExprVal, UsersValid, Bounded;
    if ps != [] {
      ExprInRange(k, u, env, ps[0]);
      MaxOfInRange(k, u, env, ps[1..], Max(acc, ExprVal(k, u, env, ps[0]).val));
    }
  }

  lemma {:induction false} FirstDefaultInRange(k: Config, u: Users, env: Env, ds: seq<Default>)
    requires UsersValid(k, u) && Bounded(env)
    ensures 0 <= FirstDefault(k, u, env, ds).val <= 2
    decreases |ds|
  {
    hide ExprVal, UsersValid, Bounded;
    if ds != [] {
      ExprInRange(k, u, env, ds[0].cond);
      ExprInRange(k, u, env, ds[0].value);
      FirstDefaultInRange(k, u, env, ds[1..]);
    }
  }

  lemma SuggestedInRange(k: Config, u: Users, env: Env, it: Item)
    requires UsersValid(k, u) && Bounded(env) && it.Symbol?
    ensures 0 <= Suggested(k, u, env, it).val.0 <= 2
  {
    hide ExprVal, FirstDefault, UsersValid, Bounded;
    FirstDefaultInRange(k, u, env, it.defaults);
    ExprInRange(k, u, env, it.weakRevDep);
    ExprInRange(k, u, env, it.directDep);
  }

  lemma UserInRange(k: Config, u: Users, i: Id)
    requires UsersValid(k, u) && UserAt(u, i).value.Some?
    ensures 0 <= UserLevel(UserAt(u, i).value.value) <= 2
  {
    assert ValidFor(k, i, u[i].value.value);
  }

  /** An m becomes y for a type in effect that has no m, and where y is implied. */
  function Lifted(k: Config, u: Users, env: Env, i: Id, it: Item, n: int): int
    requires it.Symbol?
  {
    if n == 1 && (TypeOf(k, u, env, i).val == Bool || ExprVal(k, u, env, it.weakRevDep).val == 2) then 2 else n
  }

  /** The value before and after that. */
  lemma PlainTriShape(k: Config, u: Users, env: Env, i: Id, it: Item)
    requires Constants(k) && Bounded(env) && UsersValid(k, u)
    requires it == ItemAt(k, i) && it.Symbol? && BoolLike(it.ty)
    ensures var a := Proposed(k, u, env, i, it, LevelAt(env, Vis(i)));
            var r := ExprVal(k, u, env, it.revDep).val;
            && 0 <= r <= 2 && 0 <= a.val.0 <= 2 && 0 <= LevelAt(env, Vis(i)) <= 2
            && PlainTri(k, u, env, i, it).val == TriValue(Lifted(k, u, env, i, it, Max(r, a.val.0)), a.val.1 || r != 0)
  {
    hide ExprVal, Suggested, ItemAt, UsersValid, Bounded, TypeOf;
    ExprInRange(k, u, env, it.revDep);
    SuggestedInRange(k, u, env, it);
    VisInRange(env, Vis(i));
    if UserAt(u, i).value.Some? {
      UserInRange(k, u, i);
    }
  }

  lemma VisInRange(env: Env, c: Cell)
    requires Bounded(env)
    ensures 0 <= LevelAt(env, c) <= 2
  {
  }

  lemma PlainTriInRange(k: Config, u: Users, env: Env, i: Id, it: Item)
    requires Constants(k) && Bounded(env) && UsersValid(k, u) && it == ItemAt(k, i) && BoolLike(it.ty) && it.Symbol?
    ensures 0 <= PlainTri(k, u, env, i, it).val.n <= 2
  {
    hide ExprVal, Suggested, TypeOf, ItemAt, UsersValid, Bounded;
    ExprInRange(k, u, env, it.revDep);
    SuggestedInRange(k, u, env, it);
    VisInRange(env, Vis(i));
    if UserAt(u, i).value.Some? {
      UserInRange(k, u, i);
    }
  }

  lemma ComputeInRange(k: Config, u: Users, env: Env, c: Cell)
    requires Constants(k) && Bounded(env) && UsersValid(k, u)
    ensures var v := Compute(k, u, env, c).val; (v.Level? || v.TriValue?) ==> 0 <= v.n <= 2
  {
    hide ExprVal, MaxOf, PlainTri, TypeOf, StrVal, AssignableVal, SelectionVal, UsersValid, Bounded;
    var it := ItemAt(k, c.item);
    match c {
      case Vis(i) => MaxOfInRange(k, u, env, it.prompts, 0);
      case Tri(i) =>
        if it.Symbol? && BoolLike(it.ty) && it.fixed.None? && it.choice.None? {
          PlainTriInRange(k, u, env, i, it);
        }
      case Str(i) => StrShape(k, u, env, i);
      case Assignable(i) => LevelsAlways(k, u, env, i);
      case Selection(i) => PickShape(k, u, env, i);
    }
  }

  lemma PickShape(k: Config, u: Users, env: Env, c: Id)
    ensures SelectionVal(k, u, env, c).val.Picked?
  {
    hide ChoiceTri, DefaultPick, VisiblePick;
  }

  lemma StrShape(k: Config, u: Users, env: Env, i: Id)
    ensures StrVal(k, u, env, i).val.StrValue?
  {
    hide FirstText, FirstRange, NumberOr0, Clamped;
  }

  lemma {:induction false} EnvBounded(k: Config, r: Rank, u: Users, n: nat)
    requires Constants(k) && UsersValid(k, u)
    ensures Bounded(EnvBelow(k, r, u, n))
    decreases n
  {
    hide Compute, Constants, UsersValid;
    forall c | c in r && r[c] < n
      ensures 0 <= LevelAt(EnvBelow(k, r, u, n), c) <= 2
    {
      EnvBounded(k, r, u, r[c]);
      ComputeInRange(k, u, EnvBelow(k, r, u, r[c]), c);
    }
  }

  lemma FullBounded(k: Config, r: Rank, u: Users)
    requires Constants(k) && UsersValid(k, u)
    ensures Bounded(Full(k, r, u))
  {
    hide Compute, Constants, UsersValid;
    forall c | c in r
      ensures 0 <= LevelAt(Full(k, r, u), c) <= 2
    {
      EnvBounded(k, r, u, r[c]);
      ComputeInRange(k, u, EnvBelow(k, r, u, r[c]), c);
    }
  }
}
