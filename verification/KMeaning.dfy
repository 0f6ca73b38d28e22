/** What the values of a configuration mean, said without the rules that compute them: the laws of expressions, and what
    visibilities, values, selections and assignable values are in terms of the prompts, defaults, selects, implies,
    ranges and assignments. */
module KMeaning {
  import opened Basics
  import opened KValues
  import opened KReads
  import opened KFixpoint
  import opened KCache
  import opened KLevels

  // ---- expressions ----

  /** The level of an expression: 0 for n, 1 for m, 2 for y. */
  function At(k: Config, u: Users, env: Env, e: Expr): int { ExprVal(k, u, env, e).val }

  ghost predicate Sane(k: Config, u: Users, env: Env) { UsersValid(k, u) && Bounded(env) }

  /** Not turns n and y round and leaves m. */
  lemma NotMeans(k: Config, u: Users, env: Env, a: Expr)
    requires Sane(k, u, env)
    ensures At(k, u, env, a) == 0 ==> At(k, u, env, Not(a)) == 2
    ensures At(k, u, env, a) == 1 ==> At(k, u, env, Not(a)) == 1
    ensures At(k, u, env, a) == 2 ==> At(k, u, env, Not(a)) == 0
  {
  }

  /** And is the lower of the two, or the higher, although neither always looks at both. */
  lemma AndOrMean(k: Config, u: Users, env: Env, a: Expr, b: Expr)
    requires Sane(k, u, env)
    ensures var x, y, z := At(k, u, env, a), At(k, u, env, b), At(k, u, env, And(a, b));
            z <= x && z <= y && (z == x || z == y)
    ensures var x, y, z := At(k, u, env, a), At(k, u, env, b), At(k, u, env, Or(a, b));
            x <= z && y <= z && (z == x || z == y)
  {
    hide Sane;
    RangeOf(k, u, env, a);
    RangeOf(k, u, env, b);
  }

  lemma RangeOf(k: Config, u: Users, env: Env, e: Expr)
    requires Sane(k, u, env)
    ensures 0 <= At(k, u, env, e) <= 2
  {
    hide ExprVal, UsersValid, Bounded;
    ExprInRange(k, u, env, e);
  }

  lemma DeMorgan(k: Config, u: Users, env: Env, a: Expr, b: Expr)
    requires Sane(k, u, env)
    ensures At(k, u, env, Not(And(a, b))) == At(k, u, env, Or(Not(a), Not(b)))
    ensures At(k, u, env, Not(Or(a, b))) == At(k, u, env, And(Not(a), Not(b)))
    ensures At(k, u, env, Not(Not(a))) == At(k, u, env, a)
  {
    hide Sane;
    RangeOf(k, u, env, a);
    RangeOf(k, u, env, b);
    AndOrMean(k, u, env, a, b);
    AndOrMean(k, u, env, Not(a), Not(b));
  }

  /** A comparison is y or n; of less, equal and greater exactly one is y, and the other three are their opposites. */
  lemma ComparisonsMean(k: Config, u: Users, env: Env, i: Id, j: Id)
    ensures var lt, eq, gt := At(k, u, env, Rel(Less, i, j)), At(k, u, env, Rel(Equal, i, j)),
                              At(k, u, env, Rel(Greater, i, j));
            && {lt, eq, gt} <= {0, 2} && lt + eq + gt == 2
            && At(k, u, env, Rel(Unequal, i, j)) == 2 - eq
            && At(k, u, env, Rel(GreaterEqual, i, j)) == 2 - lt && At(k, u, env, Rel(LessEqual, i, j)) == 2 - gt
  {
    hide Order;
  }

  /** Comparing bool and tristate symbols compares their levels. */
  lemma LevelsCompare(k: Config, u: Users, env: Env, i: Id, j: Id)
    requires BoolLike(ItemAt(k, i).ty) && BoolLike(ItemAt(k, j).ty)
    ensures At(k, u, env, Rel(Equal, i, j)) == 2 <==> LevelAt(env, Tri(i)) == LevelAt(env, Tri(j))
    ensures At(k, u, env, Rel(Less, i, j)) == 2 <==> LevelAt(env, Tri(i)) < LevelAt(env, Tri(j))
  {
  }

  /** a comes before b in a dictionary: where they part, a ends or has the lesser character. */
  ghost predicate Before(a: string, b: string) {
    exists n: nat :: PartsAt(a, b, n)
  }

  predicate PartsAt(a: string, b: string, n: nat) {
    n <= |a| && n < |b| && a[..n] == b[..n] && (n == |a| || a[n] < b[n])
  }

  lemma {:induction false} CompareMeans(a: string, b: string)
    ensures Compare(a, b) == 0 <==> a == b
    ensures Compare(a, b) < 0 <==> Before(a, b)
    decreases |a|
  {
    if a != [] && b != [] && a[0] == b[0] {
      CompareMeans(a[1..], b[1..]);
      assert a == [a[0]] + a[1..] && b == [b[0]] + b[1..];
      BeforeTail(a, b);
    } else if a != b {
      if Compare(a, b) < 0 {
        assert PartsAt(a, b, 0);
      }
      forall n: nat | PartsAt(a, b, n)
        ensures n == 0
      {
        PartsLater(a, b, n);
      }
    }
  }

  lemma PartsLater(a: string, b: string, n: nat)
    requires PartsAt(a, b, n)
    ensures n == 0 || (a != [] && b != [] && a[0] == b[0])
  {
    if n > 0 {
      assert a[..n][0] == b[..n][0];
    }
  }

  lemma BeforeTail(a: string, b: string)
    requires a != [] && b != [] && a[0] == b[0]
    ensures Before(a, b) <==> Before(a[1..], b[1..])
  {
    if n: nat :| PartsAt(a, b, n) {
      assert n > 0;
      assert a[1..][..n - 1] == a[..n][1..] && b[1..][..n - 1] == b[..n][1..];
      assert PartsAt(a[1..], b[1..], n - 1);
    }
    if n: nat :| PartsAt(a[1..], b[1..], n) {
      assert a[..n + 1] == [a[0]] + a[1..][..n] && b[..n + 1] == [b[0]] + b[1..][..n];
      assert PartsAt(a, b, n + 1);
    }
  }

  /** Comparing string symbols compares their texts, character by character. */
  lemma TextsCompare(k: Config, u: Users, env: Env, i: Id, j: Id)
    requires ItemAt(k, i).ty == Text && ItemAt(k, j).ty == Text
    ensures At(k, u, env, Rel(Equal, i, j)) == 2 <==> TextAt(env, Str(i)) == TextAt(env, Str(j))
    ensures At(k, u, env, Rel(Less, i, j)) == 2 <==> Before(TextAt(env, Str(i)), TextAt(env, Str(j)))
  {
    hide Compare;
    CompareMeans(TextAt(env, Str(i)), TextAt(env, Str(j)));
  }

  /** What a symbol stands for among numbers: the level of a bool or tristate, else its text read as decimal for an int,
      as hexadecimal for a hex, and by its own prefix otherwise. */
  function NumberOf(k: Config, env: Env, i: Id): Option<int> {
    match ItemAt(k, i).ty
    case Bool => Some(LevelAt(env, Tri(i)))
    case Tristate => Some(LevelAt(env, Tri(i)))
    case Int => k.numbers.parse(TextAt(env, Str(i)), 10)
    case Hex => k.numbers.parse(TextAt(env, Str(i)), 16)
    case _ => k.numbers.parse(TextAt(env, Str(i)), 0)
  }

  /** Other symbols compare as numbers, and as texts if one of them is none. */
  lemma NumbersCompare(k: Config, u: Users, env: Env, i: Id, j: Id)
    requires ItemAt(k, i).ty != Text || ItemAt(k, j).ty != Text
    ensures var a, b := NumberOf(k, env, i), NumberOf(k, env, j);
            if a.Some? && b.Some? then
              && (At(k, u, env, Rel(Equal, i, j)) == 2 <==> a.value == b.value)
              && (At(k, u, env, Rel(Less, i, j)) == 2 <==> a.value < b.value)
            else
              && (At(k, u, env, Rel(Equal, i, j)) == 2 <==> TextAt(env, Str(i)) == TextAt(env, Str(j)))
              && (At(k, u, env, Rel(Less, i, j)) == 2 <==> Before(TextAt(env, Str(i)), TextAt(env, Str(j))))
  {
    hide Compare;
    CompareMeans(TextAt(env, Str(i)), TextAt(env, Str(j)));
  }

  // ---- modes, types and visibilities ----

  /** The mode of a choice: what it is worth in an expression. */
  function Mode(k: Config, u: Users, env: Env, c: Id): int { At(k, u, env, Ref(c)) }

  function Wanted(u: Users, i: Id): int { if UserAt(u, i).value.Some? then UserLevel(UserAt(u, i).value.value) else 0 }

  /** An invisible choice is off, and an optional one nobody wants. A visible one that is wanted at y is at y if it can be.
      Any other is at m, if there is such a thing for it, else at y. */
  lemma ModeMeans(k: Config, u: Users, env: Env, c: Id)
    requires ItemAt(k, c).Choice? && Sane(k, u, env)
    ensures var it, vis, want := ItemAt(k, c), LevelAt(env, Vis(c)), Wanted(u, c);
            Mode(k, u, env, c) ==
              if vis == 0 || (it.optional && want == 0) then 0
              else if vis == 2 && want == 2 then 2
              else if it.ty == Bool || (it.ty == Tristate && LevelAt(env, Tri(k.modules)) == 0) then 2 else 1
  {
    VisInRange(env, Vis(c));
    if UserAt(u, c).value.Some? {
      UserInRange(k, u, c);
    }
  }

  /** The item can be at m: it is a tristate, modules are on, and it is not in a choice at y. */
  predicate HasM(k: Config, u: Users, env: Env, i: Id) {
    var it := ItemAt(k, i);
    && it.ty == Tristate && LevelAt(env, Tri(k.modules)) != 0
    && (it.Symbol? && it.choice.Some? ==> Mode(k, u, env, it.choice.value) != 2)
  }

  lemma TypeMeans(k: Config, u: Users, env: Env, i: Id)
    requires WellFormed(k)
    ensures var t := TypeOf(k, u, env, i).val;
            && (t == Tristate <==> HasM(k, u, env, i)) && (BoolLike(ItemAt(k, i).ty) ==> BoolLike(t))
  {
    hide ChoiceTri;
    assert ItemOk(k, i);
  }

  /** p is the highest level among the expressions, n if there are none. */
  ghost predicate Highest(k: Config, u: Users, env: Env, ps: seq<Expr>, p: int) {
    && (forall e | e in ps :: At(k, u, env, e) <= p)
    && (p == 0 || exists e :: e in ps && At(k, u, env, e) == p)
  }

  lemma {:induction false} MaxOfMeans(k: Config, u: Users, env: Env, ps: seq<Expr>, acc: int)
    requires Sane(k, u, env) && 0 <= acc
    ensures var p := MaxOf(k, u, env, ps, acc).val;
            && acc <= p && (forall e | e in ps :: At(k, u, env, e) <= p)
            && (p == acc || exists e :: e in ps && At(k, u, env, e) == p)
    decreases |ps|
  {
    hide ExprVal, Sane;
    if ps != [] {
      var acc' := Max(acc, ExprVal(k, u, env, ps[0]).val);
      MaxOfMeans(k, u, env, ps[1..], acc');
      var p := MaxOf(k, u, env, ps, acc).val;
      assert ps[0] in ps && forall e | e in ps :: e == ps[0] || e in ps[1..];
      if p != acc && p != At(k, u, env, ps[0]) {
        var e :| e in ps[1..] && At(k, u, env, e) == p;
        assert e in ps;
      }
    }
  }

  /** A symbol of a choice that does not show: one that is not a tristate in a tristate choice below y, and one visible at
      m in a choice at y. */
  predicate HiddenByChoice(k: Config, u: Users, env: Env, i: Id, p: int) {
    var it := ItemAt(k, i);
    && it.Symbol? && it.choice.Some?
    && (|| (ItemAt(k, it.choice.value).ty == Tristate && it.ty != Tristate && Mode(k, u, env, it.choice.value) != 2)
        || (it.ty == Tristate && p == 1 && Mode(k, u, env, it.choice.value) == 2))
  }

  /** An item is visible at the highest level of its prompts, raised to y where there is no m, unless its choice hides
      it. */
  lemma VisMeans(k: Config, r: Rank, u: Users, env: Env, i: Id) returns (p: int)
    requires WellFormed(k) && Sane(k, u, env) && Solves(k, r, u, env) && Vis(i) in r
    ensures Highest(k, u, env, ItemAt(k, i).prompts, p)
    ensures LevelAt(env, Vis(i)) == if HiddenByChoice(k, u, env, i, p) then 0
                                    else if p == 1 && !HasM(k, u, env, i) then 2 else p
  {
    hide ExprVal, ChoiceTri, Sane, TypeOf;
    p := MaxOf(k, u, env, ItemAt(k, i).prompts, 0).val;
    MaxOfMeans(k, u, env, ItemAt(k, i).prompts, 0);
    TypeMeans(k, u, env, i);
    HiddenMeans(k, u, env, i, p);
    assert env[Vis(i)] == Compute(k, u, env, Vis(i)).val;
  }

  lemma HiddenMeans(k: Config, u: Users, env: Env, i: Id, p: int)
    requires WellFormed(k)
    ensures HiddenInChoice(k, u, env, i, p).val == HiddenByChoice(k, u, env, i, p)
  {
    hide ChoiceTri;
    assert ItemOk(k, i);
  }

  // ---- values of bool and tristate symbols ----

  /** Default j is the first whose condition holds; if none does, j is the number of defaults. */
  ghost predicate FirstInEffect(k: Config, u: Users, env: Env, conds: seq<Expr>, j: nat) {
    && j <= |conds| && (forall q | 0 <= q < j :: At(k, u, env, conds[q]) == 0)
    && (j < |conds| ==> At(k, u, env, conds[j]) != 0)
  }

  function Conds(ds: seq<Default>): seq<Expr> { seq(|ds|, q requires 0 <= q < |ds| => ds[q].cond) }

  lemma EffectTail(k: Config, u: Users, env: Env, conds: seq<Expr>, j: nat)
    requires conds != [] && At(k, u, env, conds[0]) == 0 && FirstInEffect(k, u, env, conds[1..], j)
    ensures FirstInEffect(k, u, env, conds, j + 1)
  {
    hide ExprVal;
    forall q | 0 <= q < j + 1
      ensures At(k, u, env, conds[q]) == 0
    {
      if q > 0 {
        assert conds[1..][q - 1] == conds[q];
      }
    }
    assert j < |conds[1..]| ==> conds[1..][j] == conds[j + 1];
  }

  lemma {:induction false} DefaultMeans(k: Config, u: Users, env: Env, ds: seq<Default>) returns (j: nat)
    ensures FirstInEffect(k, u, env, Conds(ds), j)
    ensures FirstDefault(k, u, env, ds).val ==
            if j == |ds| then 0 else Min(At(k, u, env, ds[j].value), At(k, u, env, ds[j].cond))
    ensures FirstText(k, u, env, ds).val == if j == |ds| then None else Some(TextAt(env, Str(RefId(ds[j].value))))
    decreases |ds|
  {
    hide ExprVal;
    j := 0;
    if ds != [] && At(k, u, env, ds[0].cond) == 0 {
      j := DefaultMeans(k, u, env, ds[1..]);
      assert Conds(ds)[1..] == Conds(ds[1..]);
      EffectTail(k, u, env, Conds(ds), j);
      j := j + 1;
    }
  }

  /** The user's value counts: the symbol is visible and has one. */
  predicate UserCounts(u: Users, env: Env, i: Id) { LevelAt(env, Vis(i)) != 0 && UserAt(u, i).value.Some? }

  /** A symbol that may have a user value, defaults, selects and implies. */
  predicate PlainSymbol(k: Config, i: Id) {
    var it := ItemAt(k, i);
    it.Symbol? && BoolLike(it.ty) && it.fixed.None? && it.choice.None?
  }

  /** Without a user's value: default j, or what is implied if that is more and the symbol's dependencies are met. */
  ghost predicate SuggestedBy(k: Config, u: Users, env: Env, it: Item, j: nat, start: int)
    requires it.Symbol?
  {
    && FirstInEffect(k, u, env, Conds(it.defaults), j)
    && var d := if j == |it.defaults| then 0
                else Min(At(k, u, env, it.defaults[j].value), At(k, u, env, it.defaults[j].cond));
       start == if At(k, u, env, it.directDep) != 0 then Max(d, At(k, u, env, it.weakRevDep)) else d
  }

  /** Where the value starts from: the user's, as far as it is visible, or else what is suggested. */
  ghost predicate StartsFrom(k: Config, u: Users, env: Env, i: Id, start: int)
    requires PlainSymbol(k, i)
  {
    if UserCounts(u, env, i) then start == Min(Wanted(u, i), LevelAt(env, Vis(i)))
    else exists j: nat :: SuggestedBy(k, u, env, ItemAt(k, i), j, start)
  }

  lemma SuggestedMeans(k: Config, u: Users, env: Env, it: Item) returns (j: nat)
    requires it.Symbol? && Sane(k, u, env)
    ensures SuggestedBy(k, u, env, it, j, Suggested(k, u, env, it).val.0)
  {
    hide ExprVal, FirstDefault, Sane, FirstInEffect;
    j := DefaultMeans(k, u, env, it.defaults);
    RangeOf(k, u, env, it.weakRevDep);
    DefaultInRange(k, u, env, it.defaults);
  }

  lemma DefaultInRange(k: Config, u: Users, env: Env, ds: seq<Default>)
    requires Sane(k, u, env)
    ensures 0 <= FirstDefault(k, u, env, ds).val <= 2
  {
    FirstDefaultInRange(k, u, env, ds);
  }

  lemma StartMeans(k: Config, u: Users, env: Env, i: Id)
    requires Sane(k, u, env) && PlainSymbol(k, i)
    ensures StartsFrom(k, u, env, i, Proposed(k, u, env, i, ItemAt(k, i), LevelAt(env, Vis(i))).val.0)
  {
    hide Suggested, Sane, SuggestedBy;
    if !UserCounts(u, env, i) {
      var j := SuggestedMeans(k, u, env, ItemAt(k, i));
    }
  }

  /** The value of a symbol outside choices: from its start it is raised to what selects it, and m becomes y where there
      is no m or y is implied. */
  lemma ValueMeans(k: Config, r: Rank, u: Users, env: Env, i: Id) returns (start: int)
    requires WellFormed(k) && Sane(k, u, env) && Solves(k, r, u, env) && Tri(i) in r && PlainSymbol(k, i)
    ensures StartsFrom(k, u, env, i, start) && 0 <= start <= 2
    ensures var it := ItemAt(k, i);
            var raised := Max(start, At(k, u, env, it.revDep));
            LevelAt(env, Tri(i)) == if raised == 1 && (!HasM(k, u, env, i) || At(k, u, env, it.weakRevDep) == 2) then 2
                                    else raised
  {
    hide ExprVal, TypeOf, Sane, Proposed, StartsFrom, HasM;
    var it := ItemAt(k, i);
    TypeMeans(k, u, env, i);
    RangeOf(k, u, env, it.revDep);
    assert env[Tri(i)] == Compute(k, u, env, Tri(i)).val;
    start := Proposed(k, u, env, i, it, LevelAt(env, Vis(i))).val.0;
    StartMeans(k, u, env, i);
    StartInRange(k, u, env, i);
  }

  lemma StartInRange(k: Config, u: Users, env: Env, i: Id)
    requires Sane(k, u, env) && PlainSymbol(k, i)
    ensures 0 <= Proposed(k, u, env, i, ItemAt(k, i), LevelAt(env, Vis(i))).val.0 <= 2
  {
    hide Suggested, UsersValid, Bounded;
    SuggestedInRange(k, u, env, ItemAt(k, i));
    VisInRange(env, Vis(i));
    if UserAt(u, i).value.Some? {
      UserInRange(k, u, i);
    }
  }

  /** In particular a symbol is at least what selects it, at least what implies it unless the user says otherwise or its
      dependencies are not met, at most what is visible if the user's value counts and nothing selects or implies more,
      and at m only where there is an m. */
  lemma ValueBounds(k: Config, r: Rank, u: Users, env: Env, i: Id)
    requires WellFormed(k) && Sane(k, u, env) && Solves(k, r, u, env) && Tri(i) in r && PlainSymbol(k, i)
    ensures var it, n := ItemAt(k, i), LevelAt(env, Tri(i));
            && 0 <= n <= 2 && n >= At(k, u, env, it.revDep)
            && (!UserCounts(u, env, i) && At(k, u, env, it.directDep) != 0 ==> n >= At(k, u, env, it.weakRevDep))
            && (n == 1 ==> HasM(k, u, env, i))
            && (UserCounts(u, env, i) && HasM(k, u, env, i) && At(k, u, env, it.weakRevDep) != 2
                ==> n == Max(Min(Wanted(u, i), LevelAt(env, Vis(i))), At(k, u, env, it.revDep)))
  {
    hide ExprVal, Solves, HasM, FirstInEffect;
    var start := ValueMeans(k, r, u, env, i);
    RangeOf(k, u, env, ItemAt(k, i).revDep);
  }

  /** A symbol is at least what implies it, unless nothing selects it and the user sets it to n, or, without a user's
      value, its dependencies are not met and default j, if there is one, is n. */
  lemma ImpliedUnless(k: Config, r: Rank, u: Users, env: Env, i: Id) returns (j: nat)
    requires WellFormed(k) && Sane(k, u, env) && Solves(k, r, u, env) && Tri(i) in r && PlainSymbol(k, i)
    ensures FirstInEffect(k, u, env, Conds(ItemAt(k, i).defaults), j) && j <= |ItemAt(k, i).defaults|
    ensures var it := ItemAt(k, i);
            LevelAt(env, Tri(i)) >= At(k, u, env, it.weakRevDep) <==>
              || At(k, u, env, it.weakRevDep) == 0 || At(k, u, env, it.revDep) != 0
              || (if UserCounts(u, env, i) then Wanted(u, i) != 0
                  else || At(k, u, env, it.directDep) != 0
                       || (j < |it.defaults| && At(k, u, env, it.defaults[j].value) != 0))
  {
    hide Solves, HasM, FirstInEffect, WellFormed, At;
    var it := ItemAt(k, i);
    var start := ValueMeans(k, r, u, env, i);
    j := DefaultMeans(k, u, env, it.defaults);
    EffectBound(k, u, env, Conds(it.defaults), j);
    RangeOf(k, u, env, it.revDep);
    RangeOf(k, u, env, it.weakRevDep);
    VisInRange(env, Vis(i));
    if UserCounts(u, env, i) {
      UserInRange(k, u, i);
    } else {
      var q: nat :| SuggestedBy(k, u, env, it, q, start);
      OneInEffect(k, u, env, Conds(it.defaults), j, q);
      if j < |it.defaults| {
        DefaultInEffect(k, u, env, it.defaults, j);
        RangeOf(k, u, env, it.defaults[j].value);
      }
    }
  }

  lemma OneInEffect(k: Config, u: Users, env: Env, conds: seq<Expr>, j: nat, q: nat)
    requires FirstInEffect(k, u, env, conds, j) && FirstInEffect(k, u, env, conds, q)
    ensures j == q
  {
  }

  lemma DefaultInEffect(k: Config, u: Users, env: Env, ds: seq<Default>, j: nat)
    requires Sane(k, u, env) && j < |ds| && FirstInEffect(k, u, env, Conds(ds), j)
    ensures At(k, u, env, ds[j].cond) > 0
  {
    hide At;
    RangeOf(k, u, env, ds[j].cond);
    assert Conds(ds)[j] == ds[j].cond;
  }

  // ---- choices ----

  /** s is the symbol a choice at y picks: the user's if it is visible, else the first default in effect that is visible,
      else the first visible symbol. */
  ghost predicate Picks(k: Config, u: Users, env: Env, c: Id, s: Id)
    requires ItemAt(k, c).Choice?
  {
    var it, mine := ItemAt(k, c), UserAt(u, c).selection;
    if mine.Some? && Shows(env, mine.value) then s == mine.value
    else if exists j: nat :: Offers(k, u, env, it.choiceDefaults, j) then
      exists j: nat :: FirstOffer(k, u, env, it.choiceDefaults, j) && s == it.choiceDefaults[j].sym
    else exists j: nat :: j < |it.syms| && it.syms[j] == s && Shows(env, s) && forall q | 0 <= q < j :: !Shows(env, it.syms[q])
  }

  predicate Shows(env: Env, i: Id) { LevelAt(env, Vis(i)) != 0 }

  predicate Offers(k: Config, u: Users, env: Env, ds: seq<ChoiceDefault>, j: nat) {
    j < |ds| && At(k, u, env, ds[j].cond) != 0 && Shows(env, ds[j].sym)
  }

  ghost predicate FirstOffer(k: Config, u: Users, env: Env, ds: seq<ChoiceDefault>, j: nat) {
    Offers(k, u, env, ds, j) && forall q: nat | q < j :: !Offers(k, u, env, ds, q)
  }

  lemma {:induction false} DefaultPickMeans(k: Config, u: Users, env: Env, ds: seq<ChoiceDefault>) returns (j: nat)
    ensures if DefaultPick(k, u, env, ds).val.None? then forall q: nat :: !Offers(k, u, env, ds, q)
            else FirstOffer(k, u, env, ds, j) && DefaultPick(k, u, env, ds).val == Some(ds[j].sym)
    decreases |ds|
  {
    hide ExprVal;
    j := 0;
    if ds != [] && !Offers(k, u, env, ds, 0) {
      j := DefaultPickMeans(k, u, env, ds[1..]);
      forall q: nat
        ensures Offers(k, u, env, ds, q + 1) <==> Offers(k, u, env, ds[1..], q)
      {
      }
      OffersLater(k, u, env, ds, j);
      j := j + 1;
    }
  }

  lemma OffersLater(k: Config, u: Users, env: Env, ds: seq<ChoiceDefault>, j: nat)
    requires ds != [] && !Offers(k, u, env, ds, 0)
    ensures FirstOffer(k, u, env, ds[1..], j) ==> FirstOffer(k, u, env, ds, j + 1)
    ensures (forall q: nat :: !Offers(k, u, env, ds[1..], q)) ==> forall q: nat :: !Offers(k, u, env, ds, q)
  {
    hide ExprVal;
    forall q: nat | q > 0
      ensures Offers(k, u, env, ds, q) <==> Offers(k, u, env, ds[1..], q - 1)
    {
    }
  }

  lemma {:induction false} VisiblePickMeans(env: Env, syms: seq<Id>) returns (j: nat)
    ensures if VisiblePick(env, syms).val.None? then forall s | s in syms :: !Shows(env, s)
            else j < |syms| && VisiblePick(env, syms).val == Some(syms[j]) && Shows(env, syms[j])
                 && forall q | 0 <= q < j :: !Shows(env, syms[q])
    decreases |syms|
  {
    j := 0;
    if syms != [] && !Shows(env, syms[0]) {
      j := VisiblePickMeans(env, syms[1..]);
      assert forall s | s in syms :: s == syms[0] || s in syms[1..];
      j := j + 1;
    }
  }

  /** A choice at y with a visible symbol picks one of its visible symbols; otherwise nothing is picked. */
  lemma SelectionMeans(k: Config, r: Rank, u: Users, env: Env, c: Id)
    requires WellFormed(k) && UsersOk(k, u) && Sane(k, u, env) && Solves(k, r, u, env)
    requires Selection(c) in r && ItemAt(k, c).Choice?
    ensures var p, it := env[Selection(c)], ItemAt(k, c);
            if Mode(k, u, env, c) == 2 && exists s :: s in it.syms && Shows(env, s) then
              p.Picked? && p.sym.Some? && p.sym.value in it.syms && Shows(env, p.sym.value)
              && Picks(k, u, env, c, p.sym.value)
            else p == Picked(None)
  {
    hide Compute, Solves, Sane, WellFormed, Picks, Mode, PickFromDefaults;
    SelectionIs(k, r, u, env, c);
    if MinePicked(u, env, c) {
      PicksMine(k, u, env, c);
    } else {
      DefaultsPick(k, u, env, c);
    }
  }

  predicate MinePicked(u: Users, env: Env, c: Id) {
    UserAt(u, c).selection.Some? && Shows(env, UserAt(u, c).selection.value)
  }

  lemma SelectionIs(k: Config, r: Rank, u: Users, env: Env, c: Id)
    requires Solves(k, r, u, env) && Selection(c) in r && ItemAt(k, c).Choice?
    ensures env[Selection(c)] == if Mode(k, u, env, c) != 2 then Picked(None)
                                 else if MinePicked(u, env, c) then Picked(UserAt(u, c).selection)
                                 else PickFromDefaults(k, u, env, ItemAt(k, c)).val
  {
    hide ChoiceTri, PickFromDefaults, Mode, Solves;
    ModeIs(k, u, env, c);
    Present(k, r, u, env, Selection(c));
  }

  lemma PicksMine(k: Config, u: Users, env: Env, c: Id)
    requires UsersOk(k, u) && MinePicked(u, env, c) && ItemAt(k, c).Choice?
    ensures var s := UserAt(u, c).selection.value; s in ItemAt(k, c).syms && Picks(k, u, env, c, s)
  {
    assert c in u && u[c].selection.value in ItemAt(k, c).syms;
  }

  lemma DefaultsPick(k: Config, u: Users, env: Env, c: Id)
    requires WellFormed(k) && ItemAt(k, c).Choice?
    requires !MinePicked(u, env, c)
    ensures var p, it := PickFromDefaults(k, u, env, ItemAt(k, c)).val, ItemAt(k, c);
            && p.Picked?
            && (if p.sym.None? then forall s | s in it.syms :: !Shows(env, s)
                else p.sym.value in it.syms && Shows(env, p.sym.value) && Picks(k, u, env, c, p.sym.value))
  {
    hide ExprVal, DefaultPick, VisiblePick, Shows;
    var it := ItemAt(k, c);
    assert ItemOk(k, c);
    var j := DefaultPickMeans(k, u, env, it.choiceDefaults);
    var q := VisiblePickMeans(env, it.syms);
    if DefaultPick(k, u, env, it.choiceDefaults).val.Some? {
      assert Offers(k, u, env, it.choiceDefaults, j) && it.choiceDefaults[j] in it.choiceDefaults;
    }
  }

  lemma ModeIs(k: Config, u: Users, env: Env, c: Id)
    requires ItemAt(k, c).Choice?
    ensures Mode(k, u, env, c) == ChoiceTri(k, u, env, c).val
  {
    hide ChoiceTri;
  }

  predicate ChoiceSymbol(k: Config, i: Id, c: Id) {
    var it := ItemAt(k, i);
    it.Symbol? && BoolLike(it.ty) && it.fixed.None? && it.choice == Some(c)
  }

  /** A symbol of a choice is y if it is visible at y and picked, and m if it is visible at m and the user wants it. */
  lemma ChoiceSymbolMeans(k: Config, r: Rank, u: Users, env: Env, i: Id, c: Id)
    requires Solves(k, r, u, env) && Tri(i) in r && ChoiceSymbol(k, i, c)
    requires Selection(c) in r && env[Selection(c)].Picked?
    ensures var vis := LevelAt(env, Vis(i));
            LevelAt(env, Tri(i)) == if vis == 2 then (if env[Selection(c)].sym == Some(i) then 2 else 0)
                                    else if vis != 0 && Wanted(u, i) != 0 then 1 else 0
  {
    assert env[Tri(i)] == Compute(k, u, env, Tri(i)).val;
  }

  lemma Present(k: Config, r: Rank, u: Users, env: Env, c: Cell)
    requires Solves(k, r, u, env) && c in r
    ensures c in env && env[c] == Compute(k, u, env, c).val
  {
  }

  /** In a choice at y there is no m. */
  lemma NoMInY(k: Config, r: Rank, u: Users, env: Env, i: Id, c: Id)
    requires WellFormed(k) && Sane(k, u, env) && Solves(k, r, u, env) && Vis(i) in r
    requires ChoiceSymbol(k, i, c) && Mode(k, u, env, c) == 2
    ensures LevelAt(env, Vis(i)) == 0 || LevelAt(env, Vis(i)) == 2
  {
    hide Mode, Solves, WellFormed;
    var p := VisMeans(k, r, u, env, i);
    VisInRange(env, Vis(i));
  }

  /** In a choice at y with a visible symbol exactly one symbol is y, the picked one, and all others are n. */
  lemma OneIsY(k: Config, r: Rank, u: Users, env: Env, c: Id) returns (s: Id)
    requires WellFormed(k) && UsersOk(k, u) && Sane(k, u, env) && Solves(k, r, u, env)
    requires ItemAt(k, c).Choice? && Mode(k, u, env, c) == 2 && Selection(c) in r
    requires forall i | i in ItemAt(k, c).syms :: ChoiceSymbol(k, i, c) && Vis(i) in r && Tri(i) in r
    requires exists i :: i in ItemAt(k, c).syms && Shows(env, i)
    ensures s in ItemAt(k, c).syms && Shows(env, s) && Picks(k, u, env, c, s) && env[Selection(c)] == Picked(Some(s))
    ensures forall i | i in ItemAt(k, c).syms :: LevelAt(env, Tri(i)) == if i == s then 2 else 0
  {
    hide Mode, Solves, WellFormed, Picks, ItemAt;
    SelectionMeans(k, r, u, env, c);
    Present(k, r, u, env, Selection(c));
    s := env[Selection(c)].sym.value;
    forall i | i in ItemAt(k, c).syms
      ensures LevelAt(env, Tri(i)) == if i == s then 2 else 0
    {
      NoMInY(k, r, u, env, i, c);
      ChoiceSymbolMeans(k, r, u, env, i, c);
    }
  }

  // ---- values of string, int and hex symbols ----

  function RangeConds(rs: seq<Range>): seq<Expr> { seq(|rs|, q requires 0 <= q < |rs| => rs[q].cond) }

  /** A text as a number; what is none counts as 0. */
  function Num(k: Config, ty: Type, s: string): int {
    var n := k.numbers.parse(s, if ty == Hex then 16 else 10);
    if n.Some? then n.value else 0
  }

  lemma {:induction false} RangeMeans(k: Config, u: Users, env: Env, rs: seq<Range>, ty: Type) returns (j: nat)
    requires ty == Int || ty == Hex
    ensures FirstInEffect(k, u, env, RangeConds(rs), j)
    ensures FirstRange(k, u, env, rs, Base(ty)).val ==
            if j == |rs| then None
            else Some(Bounds(Num(k, ty, TextAt(env, Str(rs[j].low))), Num(k, ty, TextAt(env, Str(rs[j].high)))))
    decreases |rs|
  {
    hide ExprVal;
    j := 0;
    if rs != [] && At(k, u, env, rs[0].cond) == 0 {
      j := RangeMeans(k, u, env, rs[1..], ty);
      assert RangeConds(rs)[1..] == RangeConds(rs[1..]);
      EffectTail(k, u, env, RangeConds(rs), j);
      j := j + 1;
    }
  }

  /** The text a symbol has without a user's: that of default j. */
  function DefaultText(env: Env, ds: seq<Default>, j: nat): string {
    if j < |ds| then TextAt(env, Str(RefId(ds[j].value))) else ""
  }

  lemma NumberIs(k: Config, r: Rank, u: Users, env: Env, i: Id)
    requires Solves(k, r, u, env) && Str(i) in r
    requires var it := ItemAt(k, i); it.Symbol? && (it.ty == Int || it.ty == Hex) && it.fixed.None?
    ensures var it := ItemAt(k, i);
            var mine := if UserCounts(u, env, i) then UserString(UserAt(u, i).value.value) else "";
            var d, b := FirstText(k, u, env, it.defaults).val, FirstRange(k, u, env, it.ranges, Base(it.ty)).val;
            TextAt(env, Str(i)) == if mine != "" && (b.None? || b.value.low <= Num(k, it.ty, mine) <= b.value.high) then mine
                                   else Clamped(k, it.ty, d, b)
  {
    hide ExprVal, FirstText, FirstRange, Clamped, Solves;
    Present(k, r, u, env, Str(i));
  }

  /** A number: the user's, if it is visible and inside the active range; else the default, moved into that range. */
  lemma NumberMeans(k: Config, r: Rank, u: Users, env: Env, i: Id) returns (j: nat, q: nat)
    requires Solves(k, r, u, env) && Str(i) in r
    requires var it := ItemAt(k, i); it.Symbol? && (it.ty == Int || it.ty == Hex) && it.fixed.None?
    ensures var it := ItemAt(k, i);
            FirstInEffect(k, u, env, Conds(it.defaults), j) && FirstInEffect(k, u, env, RangeConds(it.ranges), q)
    ensures var it := ItemAt(k, i);
            var mine := if UserCounts(u, env, i) then UserString(UserAt(u, i).value.value) else "";
            var d := DefaultText(env, it.defaults, j);
            var lo := if q < |it.ranges| then Num(k, it.ty, TextAt(env, Str(it.ranges[q].low))) else 0;
            var hi := if q < |it.ranges| then Num(k, it.ty, TextAt(env, Str(it.ranges[q].high))) else 0;
            TextAt(env, Str(i)) ==
              if mine != "" && (q == |it.ranges| || lo <= Num(k, it.ty, mine) <= hi) then mine
              else if q == |it.ranges| then d
              else if Num(k, it.ty, d) < lo then k.numbers.show(it.ty, lo)
              else if Num(k, it.ty, d) > hi then k.numbers.show(it.ty, hi)
              else d
  {
    var it := ItemAt(k, i);
    NumberIs(k, r, u, env, i);
    hide ExprVal, FirstText, FirstRange, FirstInEffect, Solves, Compute;
    j := DefaultMeans(k, u, env, it.defaults);
    q := RangeMeans(k, u, env, it.ranges, it.ty);
    EffectBound(k, u, env, Conds(it.defaults), j);
    EffectBound(k, u, env, RangeConds(it.ranges), q);
  }

  lemma EffectBound(k: Config, u: Users, env: Env, conds: seq<Expr>, j: nat)
    requires FirstInEffect(k, u, env, conds, j)
    ensures j <= |conds|
  {
  }

  /** So a number with an active range lies inside it, as long as printed numbers can be read. */
  lemma NumberInRange(k: Config, r: Rank, u: Users, env: Env, i: Id) returns (q: nat)
    requires Solves(k, r, u, env) && Str(i) in r
    requires var it := ItemAt(k, i); it.Symbol? && (it.ty == Int || it.ty == Hex) && it.fixed.None?
    requires forall n :: Num(k, ItemAt(k, i).ty, k.numbers.show(ItemAt(k, i).ty, n)) == n
    ensures var it := ItemAt(k, i);
            && FirstInEffect(k, u, env, RangeConds(it.ranges), q) && q <= |it.ranges|
            && (q < |it.ranges| ==>
                  var lo := Num(k, it.ty, TextAt(env, Str(it.ranges[q].low)));
                  var hi := Num(k, it.ty, TextAt(env, Str(it.ranges[q].high)));
                  lo <= hi ==> lo <= Num(k, it.ty, TextAt(env, Str(i))) <= hi)
  {
    hide Solves, Num, FirstInEffect;
    var j;
    j, q := NumberMeans(k, r, u, env, i);
    EffectBound(k, u, env, RangeConds(ItemAt(k, i).ranges), q);
  }

  /** A string is the user's if it is visible, else the first default in effect; the text of a bool or tristate is its
      level, and that of an unknown symbol its name. */
  lemma TextMeans(k: Config, r: Rank, u: Users, env: Env, i: Id) returns (j: nat)
    requires Solves(k, r, u, env) && Str(i) in r
    requires var it := ItemAt(k, i); it.Symbol? && it.ty != Int && it.ty != Hex && it.fixed.None?
    ensures FirstInEffect(k, u, env, Conds(ItemAt(k, i).defaults), j)
    ensures var it := ItemAt(k, i);
            TextAt(env, Str(i)) == match it.ty
              case Text => if UserCounts(u, env, i) then UserString(UserAt(u, i).value.value)
                           else DefaultText(env, it.defaults, j)
              case Unknown => it.name
              case _ => var n := LevelAt(env, Tri(i)); if n == 2 then "y" else if n == 1 then "m" else "n"
  {
    hide ExprVal, FirstText, FirstInEffect, Solves, NumberVal;
    var it := ItemAt(k, i);
    j := DefaultMeans(k, u, env, it.defaults);
    Present(k, r, u, env, Str(i));
    EffectBound(k, u, env, Conds(it.defaults), j);
  }

  // ---- what is written to the configuration file ----

  function WriteFlag(env: Env, c: Cell): bool {
    c in env && match env[c] case TriValue(_, w) => w case StrValue(_, w) => w case _ => false
  }

  /** A bool or tristate outside choices is written exactly when it is visible or not n: what is left out of a file and
      not asked for is n. In a choice visibility alone decides. */
  lemma LevelWritten(k: Config, r: Rank, u: Users, env: Env, i: Id)
    requires WellFormed(k) && Sane(k, u, env) && Solves(k, r, u, env) && Tri(i) in r
    ensures PlainSymbol(k, i) ==> (WriteFlag(env, Tri(i)) <==> LevelAt(env, Vis(i)) != 0 || LevelAt(env, Tri(i)) != 0)
    ensures forall c :: ChoiceSymbol(k, i, c) ==> (WriteFlag(env, Tri(i)) <==> LevelAt(env, Vis(i)) != 0)
    ensures ItemAt(k, i).Symbol? && ItemAt(k, i).fixed.Some? ==> !WriteFlag(env, Tri(i))
  {
    hide ExprVal, Solves, Sane, TypeOf, Suggested, WellFormed;
    var it := ItemAt(k, i);
    Present(k, r, u, env, Tri(i));
    if PlainSymbol(k, i) {
      RangeOf(k, u, env, it.revDep);
      SuggestedFlag(k, u, env, it);
    }
  }

  lemma SuggestedFlag(k: Config, u: Users, env: Env, it: Item)
    requires it.Symbol? && Sane(k, u, env)
    ensures var s := Suggested(k, u, env, it).val; 0 <= s.0 && (s.1 <==> s.0 != 0)
  {
    hide ExprVal, FirstDefault, Sane;
    RangeOf(k, u, env, it.weakRevDep);
    DefaultInRange(k, u, env, it.defaults);
  }

  /** A string or number is written exactly when it is visible or has a default in effect, and a bool or tristate as
      text just when its level is. */
  lemma TextWritten(k: Config, r: Rank, u: Users, env: Env, i: Id) returns (j: nat)
    requires Solves(k, r, u, env) && Str(i) in r && ItemAt(k, i).Symbol? && ItemAt(k, i).fixed.None?
    ensures FirstInEffect(k, u, env, Conds(ItemAt(k, i).defaults), j)
    ensures var it := ItemAt(k, i);
            WriteFlag(env, Str(i)) <==> match it.ty
              case Text => LevelAt(env, Vis(i)) != 0 || j < |it.defaults|
              case Int => LevelAt(env, Vis(i)) != 0 || j < |it.defaults|
              case Hex => LevelAt(env, Vis(i)) != 0 || j < |it.defaults|
              case Unknown => false
              case _ => Tri(i) in env && env[Tri(i)].TriValue? && WriteFlag(env, Tri(i))
  {
    hide ExprVal, FirstText, FirstRange, FirstInEffect, Solves, Clamped;
    var it := ItemAt(k, i);
    Present(k, r, u, env, Str(i));
    j := DefaultMeans(k, u, env, it.defaults);
    EffectBound(k, u, env, Conds(it.defaults), j);
  }
}
