/** The caching engine of scripts/kconfiglib.py: attributes are computed on demand and kept, and assignments
    invalidate recursively but stop at items without a cached visibility. */
module KCache {
  import opened Basics
  import opened KValues
  import opened KReads
  import opened KFixpoint

  lemma CachedIsTrue(k: Config, r: Rank, u: Users, cache: Env, c: Cell)
    requires CacheOk(k, r, u, cache) && c in cache
    ensures c in r && SameAt(cache, Full(k, r, u), c)
    ensures ConstCell(k, c) || Vis(c.item) in cache
  {
    hide Compute, ValueOf, Live, ConstCell;
    assert FlagKept(k, cache, c);
  }

  class Engine {
    const k: Config
    ghost const r: Rank
    const dependents: map<Id, set<Id>>
    var users: Users
    var cache: Env

    ghost predicate Ok()
      reads this
    {
      WellFormed(k) && Ordered(k, r) && UsersOk(k, users) && CacheOk(k, r, users, cache)
    }

    /** Every attribute as an evaluation without any cache gives it. */
    ghost function Values(): Env
      reads this`users
    {
      Full(k, r, users)
    }

    /** v is the value of o, and everything o was read from is now cached on top of before. */
    ghost predicate Gives<T>(v: T, o: Out<T>, before: Env)
      reads this`cache
    {
      v == o.val && Live(k, cache, o.src) && before.Keys <= cache.Keys
    }

    constructor (k: Config, ghost r: Rank)
      requires WellFormed(k) && Ordered(k, r)
      ensures this.k == k && this.r == r && users == map[] && cache == map[]
      ensures Ok() && Table()
    {
      var deps := BuildDep(k);
      this.k, this.r, dependents := k, r, deps;
      users, cache := map[], map[];
      new;
      EmptyCacheOk(k, r, map[]);
    }

    // ---- evaluation on demand ----

    method Visibility(i: Id) returns (v: int)
      requires Ok() && Vis(i) in r
      modifies `cache
      ensures Ok() && Vis(i) in cache && Gives(v, Read(Values(), Vis(i)), old(cache))
      decreases r[Vis(i)], 9
    {
      hide VisVal, Full, CacheOk, Ordered, UsersOk, WellFormed, CellSources;
      if Vis(i) !in cache {
        SourcesBelow(k, r, Vis(i));
        v := VisibilityRule(i, r[Vis(i)]);
        CacheOkAdds(k, r, users, cache, Vis(i), Level(v));
        cache := cache[Vis(i) := Level(v)];
      }
      CachedIsTrue(k, r, users, cache, Vis(i));
      v := LevelAt(cache, Vis(i));
    }

    method VisibilityRule(i: Id, ghost n: nat) returns (v: int)
      requires Ok() && Below(r, CellSources(k, Vis(i)), n)
      modifies `cache
      ensures Ok() && Gives(v, VisVal(k, users, Values(), i), old(cache))
      decreases n, 8
    {
      hide MaxOf, ChoiceTri, TypeOf, Full, CacheOk, Ordered, UsersOk, WellFormed, AllSources, ChoiceSources;
      var it := ItemAt(k, i);
      OwnChoice(k, i);
      v := MaxOverPrompts(it.prompts, n);
      if it.Symbol? && it.choice.Some? {
        var c := it.choice.value;
        if ItemAt(k, c).ty == Tristate && it.ty != Tristate {
          var mode := ChoiceMode(c, n);
          if mode != 2 {
            return 0;
          }
        }
        if it.ty == Tristate && v == 1 {
          var mode := ChoiceMode(c, n);
          if mode == 2 {
            return 0;
          }
        }
      }
      if v == 1 {
        var t := TypeInEffect(i, n);
        if t != Tristate {
          return 2;
        }
      }
    }

    method MaxOverPrompts(ps: seq<Expr>, ghost n: nat) returns (v: int)
      requires Ok() && Below(r, AllSources(k, ps), n)
      modifies `cache
      ensures Ok() && Gives(v, MaxOf(k, users, Values(), ps, 0), old(cache))
      decreases n, 7
    {
      hide ExprVal, Full, Ok, ExprSources;
      v := 0;
      var i := 0;
      ghost var done: set<Source> := {};
      while i < |ps|
        invariant 0 <= i <= |ps| && Ok()
        invariant MaxOf(k, users, Values(), ps, 0).val == MaxOf(k, users, Values(), ps[i..], v).val
        invariant MaxOf(k, users, Values(), ps, 0).src == done + MaxOf(k, users, Values(), ps[i..], v).src
        invariant Live(k, cache, done) && old(cache).Keys <= cache.Keys
      {
        InAll(k, r, ps, i, n);
        var x := ExprValue(ps[i], n);
        assert ps[i..][1..] == ps[i + 1..];
        done := done + ExprVal(k, users, Values(), ps[i]).src;
        v := Max(v, x);
        i := i + 1;
      }
    }

    method ChoiceMode(c: Id, ghost n: nat) returns (v: int)
      requires Ok() && ItemAt(k, c).Choice? && Below(r, ChoiceSources(k, c), n)
      modifies `cache
      ensures Ok() && Gives(v, ChoiceTri(k, users, Values(), c), old(cache))
      decreases n, 2
    {
      hide Full, Ok;
      var it := ItemAt(k, c);
      v := if it.optional then 0 else 1;
      var user := UserAt(users, c).value;
      if user.Some? {
        v := Max(v, UserLevel(user.value));
      }
      assert FromCell(Vis(c)) in ChoiceSources(k, c);
      var vis := Visibility(c);
      v := Min(v, vis);
      if v == 1 {
        if it.ty == Tristate {
          assert FromCell(Tri(k.modules)) in ChoiceSources(k, c);
          var m := TriValueOf(k.modules);
          if m == 0 {
            v := 2;
          }
        } else if it.ty == Bool {
          v := 2;
        }
      }
    }

    method TypeInEffect(i: Id, ghost n: nat) returns (t: Type)
      requires Ok() && Below(r, TypeSources(k, ItemAt(k, i)), n)
      modifies `cache
      ensures Ok() && Gives(t, TypeOf(k, users, Values(), i), old(cache))
      decreases n, 3
    {
      hide Full, ChoiceTri, ChoiceSources, CacheOk, Ordered, UsersOk;
      var it := ItemAt(k, i);
      t := it.ty;
      if t == Tristate {
        if it.Symbol? && it.choice.Some? {
          assert ItemOk(k, i);
          var mode := ChoiceMode(it.choice.value, n);
          if mode == 2 {
            return Bool;
          }
        }
        assert FromCell(Tri(k.modules)) in TypeSources(k, it);
        var m := TriValueOf(k.modules);
        if m == 0 {
          t := Bool;
        }
      }
    }

    method ItemLevel(i: Id, ghost n: nat) returns (v: int)
      requires Ok() && Below(r, ExprSources(k, Ref(i)), n)
      modifies `cache
      ensures Ok() && Gives(v, ItemTri(k, users, Values(), i), old(cache))
      decreases n, 4
    {
      hide Full, ChoiceTri, ChoiceSources, Ok;
      if ItemAt(k, i).Choice? {
        v := ChoiceMode(i, n);
      } else {
        assert FromCell(Tri(i)) in ExprSources(k, Ref(i));
        v := TriValueOf(i);
      }
    }

    method TextOrderOf(i: Id, j: Id, ghost n: nat) returns (v: int)
      requires Ok() && Str(i) in r && r[Str(i)] < n && Str(j) in r && r[Str(j)] < n
      modifies `cache
      ensures Ok() && Gives(v, TextOrder(Values(), i, j), old(cache))
      decreases n, 1
    {
      hide Full, Ok;
      var a := StrValueOf(i);
      var b := StrValueOf(j);
      v := Compare(a, b);
    }

    method NumberOf(i: Id, ghost n: nat) returns (v: Option<int>)
      requires Ok() && Str(i) in r && r[Str(i)] < n && Tri(i) in r && r[Tri(i)] < n
      modifies `cache
      ensures Ok() && Gives(v, Number(k, Values(), i), old(cache))
      decreases n, 1
    {
      hide Full, Ok;
      var t := ItemAt(k, i).ty;
      if BoolLike(t) {
        var x := TriValueOf(i);
        v := Some(x);
      } else {
        var x := StrValueOf(i);
        v := k.numbers.parse(x, Base(t));
      }
    }

    method Relation(op: RelOp, i: Id, j: Id, ghost n: nat) returns (v: int)
      requires Ok() && Below(r, ExprSources(k, Rel(op, i, j)), n)
      modifies `cache
      ensures Ok() && Gives(v, ExprVal(k, users, Values(), Rel(op, i, j)), old(cache))
      decreases n, 4
    {
      hide Full, Ok, Number, TextOrder, ItemAt;
      assert forall c | c in {Tri(i), Str(i), Tri(j), Str(j)} :: FromCell(c) in ExprSources(k, Rel(op, i, j));
      var order;
      if ItemAt(k, i).ty == Text && ItemAt(k, j).ty == Text {
        order := TextOrderOf(i, j, n);
      } else {
        var a := NumberOf(i, n);
        if a.None? {
          order := TextOrderOf(i, j, n);
        } else {
          var b := NumberOf(j, n);
          if b.None? {
            order := TextOrderOf(i, j, n);
          } else {
            order := a.value - b.value;
          }
        }
      }
      v := if Holds(op, order) then 2 else 0;
    }

    method ExprValue(e: Expr, ghost n: nat) returns (v: int)
      requires Ok() && Below(r, ExprSources(k, e), n)
      modifies `cache
      ensures Ok() && Gives(v, ExprVal(k, users, Values(), e), old(cache))
      decreases n, 5, e
    {
      hide Full, Ok, ItemTri, Order;
      match e {
        case Ref(i) =>
          v := ItemLevel(i, n);
        case And(a, b) =>
          v := ExprValue(a, n);
          if v != 0 {
            var y := ExprValue(b, n);
            v := Min(v, y);
          }
        case Or(a, b) =>
          v := ExprValue(a, n);
          if v != 2 {
            var y := ExprValue(b, n);
            v := Max(v, y);
          }
        case Not(a) =>
          v := ExprValue(a, n);
          v := 2 - v;
        case Rel(op, i, j) =>
          v := Relation(op, i, j, n);
      }
    }

    method TriValueOf(i: Id) returns (v: int)
      requires Ok() && Tri(i) in r
      modifies `cache
      ensures Ok() && Tri(i) in cache && Gives(v, Read(Values(), Tri(i)), old(cache))
      decreases r[Tri(i)], 9
    {
      hide PlainTri, ChoiceSymTri, Full, CacheOk, Ordered, UsersOk, WellFormed, CellSources;
      if Tri(i) !in cache {
        var it := ItemAt(k, i);
        SourcesBelow(k, r, Tri(i));
        var val := TriValue(0, false);
        if it.Symbol? && BoolLike(it.ty) {
          if it.fixed.Some? {
            val := TriValue(it.fixed.value, false);
          } else if it.choice.Some? {
            val := ChoiceSymbolRule(i, it.choice.value, r[Tri(i)]);
          } else {
            val := PlainRule(i, r[Tri(i)]);
          }
        }
        CacheOkAdds(k, r, users, cache, Tri(i), val);
        cache := cache[Tri(i) := val];
      }
      CachedIsTrue(k, r, users, cache, Tri(i));
      v := LevelAt(cache, Tri(i));
    }

    method ChoiceSymbolRule(i: Id, c: Id, ghost n: nat) returns (val: Value)
      requires Ok() && Below(r, CellSources(k, Tri(i)), n)
      requires var it := ItemAt(k, i); it.Symbol? && BoolLike(it.ty) && it.fixed.None? && it.choice == Some(c)
      modifies `cache
      ensures Ok() && Vis(i) in cache && Gives(val, ChoiceSymTri(k, users, Values(), i, c), old(cache))
      decreases n, 8
    {
      hide Full, Ok;
      assert FromCell(Vis(i)) in CellSources(k, Tri(i)) && FromCell(Selection(c)) in CellSources(k, Tri(i));
      var vis := Visibility(i);
      val := TriValue(0, vis != 0);
      if vis == 2 {
        var picked := SelectionOf(c);
        if picked == Some(i) {
          val := TriValue(2, true);
        }
      } else if vis != 0 && UserAt(users, i).value.Some? && UserLevel(UserAt(users, i).value.value) != 0 {
        val := TriValue(1, true);
      }
    }

    method FirstDefaultOf(ds: seq<Default>, ghost n: nat) returns (v: int)
      requires Ok() && Below(r, DefaultSources(k, ds), n)
      modifies `cache
      ensures Ok() && Gives(v, FirstDefault(k, users, Values(), ds), old(cache))
      decreases n, 7, 0
    {
      hide ExprVal, Full, Ok, ExprSources;
      var i := 0;
      ghost var done: set<Source> := {};
      while i < |ds|
        invariant 0 <= i <= |ds| && Ok()
        invariant FirstDefault(k, users, Values(), ds).val == FirstDefault(k, users, Values(), ds[i..]).val
        invariant FirstDefault(k, users, Values(), ds).src == done + FirstDefault(k, users, Values(), ds[i..]).src
        invariant Live(k, cache, done) && old(cache).Keys <= cache.Keys
      {
        InDefaults(k, r, ds, i, n);
        var cond := ExprValue(ds[i].cond, n);
        assert ds[i..][1..] == ds[i + 1..];
        if cond != 0 {
          v := ExprValue(ds[i].value, n);
          v := Min(v, cond);
          return;
        }
        done := done + ExprVal(k, users, Values(), ds[i].cond).src;
        i := i + 1;
      }
      v := 0;
    }

    method ProposedRule(i: Id, vis: int, ghost n: nat) returns (v: int, write: bool)
      requires Ok() && Below(r, CellSources(k, Tri(i)), n)
      requires var it := ItemAt(k, i); it.Symbol? && BoolLike(it.ty) && it.fixed.None? && it.choice.None?
      modifies `cache
      ensures Ok() && Gives((v, write), Proposed(k, users, Values(), i, ItemAt(k, i), vis), old(cache))
      decreases n, 7, 1
    {
      hide ExprVal, ExprSources, FirstDefault, DefaultSources, TypeSources, Full, Ok, ItemAt;
      var it := ItemAt(k, i);
      write := vis != 0;
      if vis != 0 && UserAt(users, i).value.Some? {
        v := Min(UserLevel(UserAt(users, i).value.value), vis);
      } else {
        v := FirstDefaultOf(it.defaults, n);
        if v != 0 {
          write := true;
        }
        var weak := ExprValue(it.weakRevDep, n);
        if weak != 0 {
          var direct := ExprValue(it.directDep, n);
          if direct != 0 {
            v := Max(weak, v);
            write := true;
          }
        }
      }
    }

    method PlainRule(i: Id, ghost n: nat) returns (val: Value)
      requires Ok() && Below(r, CellSources(k, Tri(i)), n)
      requires var it := ItemAt(k, i); it.Symbol? && BoolLike(it.ty) && it.fixed.None? && it.choice.None?
      modifies `cache
      ensures Ok() && Vis(i) in cache && Gives(val, PlainTri(k, users, Values(), i, ItemAt(k, i)), old(cache))
      decreases n, 8
    {
      hide ExprVal, ExprSources, Proposed, DefaultSources, TypeOf, TypeSources, Full, Ok, ItemAt;
      var it := ItemAt(k, i);
      assert FromCell(Vis(i)) in CellSources(k, Tri(i));
      var vis := Visibility(i);
      var v, write := ProposedRule(i, vis, n);
      var rev := ExprValue(it.revDep, n);
      if rev != 0 {
        // Read only to warn about a select that exceeds the direct dependencies.
        var direct := ExprValue(it.directDep, n);
        v := Max(rev, v);
        write := true;
      }
      if v == 1 {
        var t := TypeInEffect(i, n);
        if t == Bool {
          v := 2;
        } else {
          var weak := ExprValue(it.weakRevDep, n);
          if weak == 2 {
            v := 2;
          }
        }
      }
      val := TriValue(v, write);
    }

    method StrValueOf(i: Id) returns (v: string)
      requires Ok() && Str(i) in r
      modifies `cache
      ensures Ok() && Str(i) in cache && Gives(v, ReadText(Values(), Str(i)), old(cache))
      decreases r[Str(i)], 9
    {
      hide TextVal, NumberVal, Full, CacheOk, Ordered, UsersOk, WellFormed;
      if Str(i) !in cache {
        var it := ItemAt(k, i);
        SourcesBelow(k, r, Str(i));
        var val := StrValue("", false);
        if it.Symbol? {
          if it.fixed.Some? {
            val := StrValue(TriText(it.fixed.value), false);
          } else if BoolLike(it.ty) {
            assert FromCell(Tri(i)) in CellSources(k, Str(i));
            var t := TriValueOf(i);
            CachedIsTrue(k, r, users, cache, Tri(i));
            val := StrValue(TriText(t), cache[Tri(i)].TriValue? && cache[Tri(i)].write);
          } else if it.ty == Unknown {
            val := StrValue(it.name, false);
          } else if it.ty == Text {
            val := TextRule(i, r[Str(i)]);
          } else {
            val := NumberRule(i, r[Str(i)]);
          }
        }
        CacheOkAdds(k, r, users, cache, Str(i), val);
        cache := cache[Str(i) := val];
      }
      CachedIsTrue(k, r, users, cache, Str(i));
      v := TextAt(cache, Str(i));
    }

    method FirstTextOf(ds: seq<Default>, ghost n: nat) returns (v: Option<string>)
      requires Ok() && Below(r, TextSources(k, ds), n)
      modifies `cache
      ensures Ok() && Gives(v, FirstText(k, users, Values(), ds), old(cache))
      decreases n, 7
    {
      hide ExprVal, Full, Ok, ExprSources;
      var i := 0;
      ghost var done: set<Source> := {};
      while i < |ds|
        invariant 0 <= i <= |ds| && Ok()
        invariant FirstText(k, users, Values(), ds).val == FirstText(k, users, Values(), ds[i..]).val
        invariant FirstText(k, users, Values(), ds).src == done + FirstText(k, users, Values(), ds[i..]).src
        invariant Live(k, cache, done) && old(cache).Keys <= cache.Keys
      {
        InTexts(k, r, ds, i, n);
        var cond := ExprValue(ds[i].cond, n);
        assert ds[i..][1..] == ds[i + 1..];
        if cond != 0 {
          var s := StrValueOf(RefId(ds[i].value));
          return Some(s);
        }
        done := done + ExprVal(k, users, Values(), ds[i].cond).src;
        i := i + 1;
      }
      v := None;
    }

    method FirstRangeOf(rs: seq<Range>, b: int, ghost n: nat) returns (v: Option<Bounds>)
      requires Ok() && Below(r, RangeSources(k, rs), n)
      modifies `cache
      ensures Ok() && Gives(v, FirstRange(k, users, Values(), rs, b), old(cache))
      decreases n, 7
    {
      hide ExprVal, Full, Ok, ExprSources, NumberOr0;
      var i := 0;
      ghost var done: set<Source> := {};
      while i < |rs|
        invariant 0 <= i <= |rs| && Ok()
        invariant FirstRange(k, users, Values(), rs, b).val == FirstRange(k, users, Values(), rs[i..], b).val
        invariant FirstRange(k, users, Values(), rs, b).src == done + FirstRange(k, users, Values(), rs[i..], b).src
        invariant Live(k, cache, done) && old(cache).Keys <= cache.Keys
      {
        InRanges(k, r, rs, i, n);
        var cond := ExprValue(rs[i].cond, n);
        assert rs[i..][1..] == rs[i + 1..];
        if cond != 0 {
          var lo := StrValueOf(rs[i].low);
          var hi := StrValueOf(rs[i].high);
          return Some(Bounds(NumberOr0(k, lo, b), NumberOr0(k, hi, b)));
        }
        done := done + ExprVal(k, users, Values(), rs[i].cond).src;
        i := i + 1;
      }
      v := None;
    }

    method TextRule(i: Id, ghost n: nat) returns (val: Value)
      requires Ok() && Below(r, CellSources(k, Str(i)), n)
      requires ItemAt(k, i).Symbol? && ItemAt(k, i).ty == Text && ItemAt(k, i).fixed.None?
      modifies `cache
      ensures Ok() && Vis(i) in cache && Gives(val, TextVal(k, users, Values(), i, ItemAt(k, i)), old(cache))
      decreases n, 8
    {
      hide Full, Ok, FirstText, TextSources, RangeSources;
      var it := ItemAt(k, i);
      assert FromCell(Vis(i)) in CellSources(k, Str(i));
      var vis := Visibility(i);
      if vis != 0 && UserAt(users, i).value.Some? {
        val := StrValue(UserString(UserAt(users, i).value.value), true);
      } else {
        var d := FirstTextOf(it.defaults, n);
        val := if d.Some? then StrValue(d.value, true) else StrValue("", vis != 0);
      }
    }

    method NumberRule(i: Id, ghost n: nat) returns (val: Value)
      requires Ok() && Below(r, CellSources(k, Str(i)), n)
      requires var it := ItemAt(k, i); it.Symbol? && (it.ty == Int || it.ty == Hex) && it.fixed.None?
      modifies `cache
      ensures Ok() && Vis(i) in cache && Gives(val, NumberVal(k, users, Values(), i, ItemAt(k, i)), old(cache))
      decreases n, 8
    {
      hide Full, Ok, FirstText, FirstRange, TextSources, RangeSources, NumberOr0;
      var it := ItemAt(k, i);
      assert FromCell(Vis(i)) in CellSources(k, Str(i));
      var vis := Visibility(i);
      var b := Base(it.ty);
      var range := FirstRangeOf(it.ranges, b, n);
      if vis != 0 && UserAt(users, i).value.Some? && UserString(UserAt(users, i).value.value) != "" {
        var text := UserString(UserAt(users, i).value.value);
        if InBounds(range, NumberOr0(k, text, b)) {
          return StrValue(text, true);
        }
      }
      var d := FirstTextOf(it.defaults, n);
      var text := if d.Some? then d.value else "";
      var num := NumberOr0(k, text, b);
      if range.Some? {
        if num < range.value.low {
          text := k.numbers.show(it.ty, range.value.low);
        } else if num > range.value.high {
          text := k.numbers.show(it.ty, range.value.high);
        }
      }
      val := StrValue(text, vis != 0 || d.Some?);
    }

    method AssignableOf(i: Id) returns (v: seq<int>)
      requires Ok() && Assignable(i) in r
      modifies `cache
      ensures Ok() && Assignable(i) in cache && Values()[Assignable(i)] == Levels(v) && old(cache).Keys <= cache.Keys
      decreases r[Assignable(i)], 9
    {
      hide SymAssignable, ChoiceAssignable, Full, CacheOk, Ordered, UsersOk, WellFormed, CellSources;
      if Assignable(i) !in cache {
        SourcesBelow(k, r, Assignable(i));
        if ItemAt(k, i).Symbol? {
          v := SymbolAssignableRule(i, r[Assignable(i)]);
        } else {
          v := ChoiceAssignableRule(i, r[Assignable(i)]);
        }
        CacheOkAdds(k, r, users, cache, Assignable(i), Levels(v));
        cache := cache[Assignable(i) := Levels(v)];
      }
      CachedIsTrue(k, r, users, cache, Assignable(i));
      AssignableShape(k, r, users, i);
      v := cache[Assignable(i)].ns;
    }

    method SymbolAssignableRule(i: Id, ghost n: nat) returns (v: seq<int>)
      requires Ok() && ItemAt(k, i).Symbol? && Below(r, CellSources(k, Assignable(i)), n)
      modifies `cache
      ensures Ok() && (BoolLike(ItemAt(k, i).ty) ==> Vis(i) in cache)
      ensures Gives(Levels(v), SymAssignable(k, users, Values(), i, ItemAt(k, i)), old(cache))
      decreases n, 8
    {
      hide ExprVal, ExprSources, TypeOf, TypeSources, Full, Ok, ItemAt;
      var it := ItemAt(k, i);
      if !BoolLike(it.ty) {
        return [];
      }
      assert FromCell(Vis(i)) in CellSources(k, Assignable(i));
      var vis := Visibility(i);
      if vis == 0 {
        return [];
      }
      var rev := ExprValue(it.revDep, n);
      if vis == 2 {
        if it.choice.Some? || rev == 2 {
          return [2];
        }
        var t := TypeInEffect(i, n);
        var forced := t == Bool;
        if !forced {
          var weak := ExprValue(it.weakRevDep, n);
          forced := weak == 2;
        }
        if rev == 0 {
          v := if forced then [0, 2] else [0, 1, 2];
        } else {
          v := if forced then [2] else [1, 2];
        }
      } else if rev == 0 {
        var weak := ExprValue(it.weakRevDep, n);
        v := if weak != 2 then [0, 1] else [0, 2];
      } else {
        v := if rev == 2 then [2] else [1];
      }
    }

    method ChoiceAssignableRule(i: Id, ghost n: nat) returns (v: seq<int>)
      requires Ok() && ItemAt(k, i).Choice? && Below(r, CellSources(k, Assignable(i)), n)
      modifies `cache
      ensures Ok() && Vis(i) in cache
      ensures Gives(Levels(v), ChoiceAssignable(k, users, Values(), i, ItemAt(k, i)), old(cache))
      decreases n, 8
    {
      hide TypeOf, TypeSources, Full, Ok;
      var it := ItemAt(k, i);
      assert FromCell(Vis(i)) in CellSources(k, Assignable(i));
      var vis := Visibility(i);
      if vis == 0 {
        return [];
      }
      if vis == 2 {
        var t := TypeInEffect(i, n);
        if !it.optional {
          v := if t == Bool then [2] else [1, 2];
        } else {
          v := if t == Bool then [0, 2] else [0, 1, 2];
        }
      } else {
        v := if it.optional then [0, 1] else [1];
      }
    }

    method SelectionOf(c: Id) returns (p: Option<Id>)
      requires Ok() && Selection(c) in r
      modifies `cache
      ensures Ok() && Selection(c) in cache && old(cache).Keys <= cache.Keys
      ensures Selection(c) in Values() && Values()[Selection(c)] == Picked(p)
      decreases r[Selection(c)], 9
    {
      hide SelectionVal, Full, CacheOk, Ordered, UsersOk, WellFormed, CellSources;
      if Selection(c) !in cache {
        SourcesBelow(k, r, Selection(c));
        p := None;
        if ItemAt(k, c).Choice? {
          p := SelectionRule(c, r[Selection(c)]);
        } else {
          NoSelection(k, users, Values(), c);
        }
        CacheOkAdds(k, r, users, cache, Selection(c), Picked(p));
        cache := cache[Selection(c) := Picked(p)];
      }
      CachedIsTrue(k, r, users, cache, Selection(c));
      SelectionShape(k, r, users, c);
      p := cache[Selection(c)].sym;
    }

    method SelectionRule(c: Id, ghost n: nat) returns (p: Option<Id>)
      requires Ok() && ItemAt(k, c).Choice? && Below(r, CellSources(k, Selection(c)), n)
      modifies `cache
      ensures Ok() && Vis(c) in cache && Gives(Picked(p), SelectionVal(k, users, Values(), c), old(cache))
      decreases n, 8
    {
      hide ChoiceTri, DefaultPick, VisiblePick, Full, CacheOk, Ordered, WellFormed, PickSources;
      var it := ItemAt(k, c);
      assert FromCell(Vis(c)) in CellSources(k, Selection(c));
      var mode := ChoiceMode(c, n);
      ModeReadsVis(k, users, Values(), c);
      assert Vis(c) in cache;
      if mode != 2 {
        return None;
      }
      var mine := UserAt(users, c).selection;
      if mine.Some? {
        assert FromCell(Vis(mine.value)) in VisSources(it.syms);
        var v := Visibility(mine.value);
        if v != 0 {
          return mine;
        }
      }
      p := PickDefault(it.choiceDefaults, n);
      if p.None? {
        p := PickVisible(it.syms, n);
      }
    }

    method PickDefault(ds: seq<ChoiceDefault>, ghost n: nat) returns (p: Option<Id>)
      requires Ok() && Below(r, PickSources(k, ds), n)
      modifies `cache
      ensures Ok() && Gives(p, DefaultPick(k, users, Values(), ds), old(cache))
      decreases n, 7
    {
      hide ExprVal, Full, Ok, ExprSources;
      var i := 0;
      ghost var done: set<Source> := {};
      while i < |ds|
        invariant 0 <= i <= |ds| && Ok()
        invariant DefaultPick(k, users, Values(), ds).val == DefaultPick(k, users, Values(), ds[i..]).val
        invariant DefaultPick(k, users, Values(), ds).src == done + DefaultPick(k, users, Values(), ds[i..]).src
        invariant Live(k, cache, done) && old(cache).Keys <= cache.Keys
      {
        InPicks(k, r, ds, i, n);
        var cond := ExprValue(ds[i].cond, n);
        assert ds[i..][1..] == ds[i + 1..];
        done := done + ExprVal(k, users, Values(), ds[i].cond).src;
        if cond != 0 {
          var v := Visibility(ds[i].sym);
          if v != 0 {
            return Some(ds[i].sym);
          }
          done := done + {FromCell(Vis(ds[i].sym))};
        }
        i := i + 1;
      }
      p := None;
    }

    method PickVisible(syms: seq<Id>, ghost n: nat) returns (p: Option<Id>)
      requires Ok() && Below(r, VisSources(syms), n)
      modifies `cache
      ensures Ok() && Gives(p, VisiblePick(Values(), syms), old(cache))
      decreases n, 7
    {
      hide Full, Ok;
      var i := 0;
      ghost var done: set<Source> := {};
      while i < |syms|
        invariant 0 <= i <= |syms| && Ok()
        invariant VisiblePick(Values(), syms).val == VisiblePick(Values(), syms[i..]).val
        invariant VisiblePick(Values(), syms).src == done + VisiblePick(Values(), syms[i..]).src
        invariant Live(k, cache, done) && old(cache).Keys <= cache.Keys
      {
        assert FromCell(Vis(syms[i])) in VisSources(syms);
        var v := Visibility(syms[i]);
        assert syms[i..][1..] == syms[i + 1..];
        if v != 0 {
          return Some(syms[i]);
        }
        done := done + {FromCell(Vis(syms[i]))};
        i := i + 1;
      }
      p := None;
    }

    method AskFor(c: Cell) returns (v: Value)
      requires Ok() && c in r
      modifies `cache
      ensures Ok() && v == ValueOf(k, r, users, c)
    {
      hide CacheOk, Ordered, WellFormed, UsersOk, ValueOf;
      match c {
        case Vis(i) => var _ := Visibility(i);
        case Tri(i) => var _ := TriValueOf(i);
        case Str(i) => var _ := StrValueOf(i);
        case Assignable(i) => var _ := AssignableOf(i);
        case Selection(i) => var _ := SelectionOf(i);
      }
      CachedIsTrue(k, r, users, cache, c);
      v := cache[c];
    }

    method Perform(op: Op) returns (got: seq<Value>)
      requires Ok() && Table() && OpOk(k, op) && (op.Ask? ==> op.c in r)
      modifies `users, `cache
      ensures Ok()
      ensures users == UsersAfter(k, old(users), op)
      ensures got == if op.Ask? then [ValueOf(k, r, users, op.c)] else []
    {
      hide CacheOk, Ordered, WellFormed, UsersOk, ValueOf, ValidFor;
      got := [];
      match op {
        case Set(i, v) => var _ := SetValue(i, v);
        case Unset(i) => UnsetValue(i);
        case SetChoiceMode(i, n) => var _ := SetMode(i, n);
        case UnsetTheChoice(i) => UnsetChoice(i);
        case Ask(c) =>
          var v := AskFor(c);
          got := [v];
      }
    }

    // ---- invalidation ----

    function DependentsOf(j: Id): set<Id> { if j in dependents then dependents[j] else {} }

    /** The dependents sets hold what the properties mention. */
    ghost predicate Table() { forall j, x :: x in DependentsOf(j) <==> Dependent(k, x, j) }

    method Invalidate(i: Id)
      modifies `cache
      ensures cache == Without(old(cache), i)
    {
      cache := Without(cache, i);
    }

    method InvalidateAll()
      modifies `cache
      ensures forall c :: c in cache <==> c in old(cache) && !IsDefined(k, c.item)
      ensures forall c | c in cache :: cache[c] == old(cache)[c]
    {
      var x := 0;
      while x < |k.items|
        invariant 0 <= x <= |k.items|
        invariant forall c :: c in cache <==> c in old(cache) && !(c.item < x && IsDefined(k, c.item))
        invariant forall c | c in cache :: cache[c] == old(cache)[c]
      {
        if IsDefined(k, x) {
          Invalidate(x);
        }
        x := x + 1;
      }
    }

    /** Invalidates i and, behind every dependent that still has a cached visibility, everything further on.
        It ends because each call further in drops a cached visibility. */
    method RecInvalidate(i: Id)
      requires Table()
      requires IsDefined(k, i)
      modifies `cache
      ensures Pruned(k, i, old(cache), cache)
      decreases |cache|, if Vis(i) in cache then 0 else 1
    {
      hide IsDefined, Dependent;
      if i == k.modules {
        InvalidateAll();
        AllPruned(k, i, old(cache), cache);
        return;
      }
      Invalidate(i);
      WithoutPruning(k, i, old(cache));
      var todo := DependentsOf(i);
      while todo != {}
        invariant Pruning(k, i, old(cache), cache)
        invariant todo <= DependentsOf(i)
        invariant forall x | x in DependentsOf(i) && x !in todo :: Vis(x) !in cache
        decreases todo
      {
        var x :| x in todo;
        todo := todo - {x};
        if Vis(x) in cache {
          ghost var mid := cache;
          Shrinks(k, i, old(cache), cache);
          DependentDefined(k, x, i);
          RecInvalidate(x);
          PruneStep(k, i, x, old(cache), mid, cache);
        }
      }
    }

    // ---- assignments ----

    method RecInvalidateIfHasPrompt(i: Id, ghost u: Users)
      requires Table() && WellFormed(k) && Ordered(k, r) && UsersOk(k, u) && UsersOk(k, users)
      requires CacheOk(k, r, u, cache)
      requires ItemAt(k, i).Symbol? && forall j | j != i :: UserAt(u, j) == UserAt(users, j)
      modifies `cache
      ensures CacheOk(k, r, users, cache)
    {
      hide CacheOk, WellFormed, Ordered, UsersOk;
      if ItemAt(k, i).prompts != [] {
        PromptDefined(k, i);
        RecInvalidate(i);
        PrunedOk(k, r, u, i, old(cache), cache);
        PrunedUnaffected(k, r, u, users, i, old(cache), cache);
      } else {
        PromptlessUnaffected(k, r, u, users, i, cache);
      }
      UsersChange(k, r, u, users, cache);
    }

    method SetValue(i: Id, v: UserValue) returns (ok: bool)
      requires Ok() && Table() && ItemAt(k, i).Symbol?
      modifies `users, `cache
      ensures Ok()
      ensures ok == (ValidFor(k, i, v) || (ItemAt(k, i).choice.None? && UserAt(old(users), i).value == Some(v)))
      ensures users == if ok then Assigned(k, old(users), i, v) else old(users)
    {
      hide CacheOk, Ordered, ValidFor, WellFormed, UsersOk;
      var it := ItemAt(k, i);
      if UserAt(users, i).value == Some(v) && it.choice.None? {
        return true;
      }
      if !ValidFor(k, i, v) {
        return false;
      }
      AssignedOk(k, users, i, v);
      users := users[i := UserAt(users, i).(value := Some(v))];
      if it.choice.Some? && v == UserTri(2) {
        var c := it.choice.value;
        users := users[c := UserAt(users, c).(selection := Some(i))];
        ChoiceSymbolDependent(k, i);
        RecInvalidate(c);
        PrunedOk(k, r, old(users), c, old(cache), cache);
        PrunedUnaffected(k, r, old(users), users, c, old(cache), cache);
        UsersChange(k, r, old(users), users, cache);
      } else {
        RecInvalidateIfHasPrompt(i, old(users));
      }
      ok := true;
    }

    method UnsetValue(i: Id)
      requires Ok() && Table() && ItemAt(k, i).Symbol?
      modifies `users, `cache
      ensures Ok()
      ensures users == Unassigned(k, old(users), i)
    {
      hide CacheOk, Ordered, WellFormed;
      if UserAt(users, i).value.Some? {
        users := users[i := UserAt(users, i).(value := None)];
        RecInvalidateIfHasPrompt(i, old(users));
      }
    }

    method SetMode(c: Id, v: int) returns (ok: bool)
      requires Ok() && Table() && ItemAt(k, c).Choice?
      modifies `users, `cache
      ensures Ok()
      ensures ok == (ValidMode(k, c, v) || UserAt(old(users), c).value == Some(UserTri(v)))
      ensures users == if ok then old(users)[c := UserAt(old(users), c).(value := Some(UserTri(v)))] else old(users)
    {
      hide CacheOk, Ordered, WellFormed;
      if UserAt(users, c).value == Some(UserTri(v)) {
        return true;
      }
      if !ValidMode(k, c, v) {
        return false;
      }
      users := users[c := UserAt(users, c).(value := Some(UserTri(v)))];
      RecInvalidate(c);
      PrunedOk(k, r, old(users), c, old(cache), cache);
      PrunedUnaffected(k, r, old(users), users, c, old(cache), cache);
      UsersChange(k, r, old(users), users, cache);
      ok := true;
    }

    method UnsetChoice(c: Id)
      requires Ok() && Table() && ItemAt(k, c).Choice?
      modifies `users, `cache
      ensures Ok()
      ensures users == Unassigned(k, old(users), c)
    {
      hide CacheOk, Ordered, WellFormed;
      var user := UserAt(users, c);
      if user.value.Some? || user.selection.Some? {
        users := users[c := User(None, None)];
        RecInvalidate(c);
        PrunedOk(k, r, old(users), c, old(cache), cache);
        PrunedUnaffected(k, r, old(users), users, c, old(cache), cache);
        UsersChange(k, r, old(users), users, cache);
      }
    }
  }

  function Entry(deps: map<Id, set<Id>>, j: Id): set<Id> { if j in deps then deps[j] else {} }

  /** The dependents sets: x is added to every item its properties mention. */
  method BuildDep(k: Config) returns (deps: map<Id, set<Id>>)
    ensures forall j, x :: x in Entry(deps, j) <==> Dependent(k, x, j)
  {
    hide Mentioned;
    deps := map[];
    var y := 0;
    while y < |k.items|
      invariant 0 <= y <= |k.items|
      invariant forall j: Id, x: Id :: x in Entry(deps, j) <==> x < y && Dependent(k, x, j)
    {
      if IsDefined(k, y) {
        var all := Mentioned(k, y);
        var todo := all;
        while todo != {}
          invariant todo <= all
          invariant forall j: Id, x: Id :: x in Entry(deps, j) <==>
                    (x < y && Dependent(k, x, j)) || (x == y && j in all && j !in todo)
          decreases todo
        {
          var j :| j in todo;
          todo := todo - {j};
          ghost var before := deps;
          deps := deps[j := Entry(deps, j) + {y}];
          assert forall i: Id :: Entry(deps, i) == if i == j then Entry(before, i) + {y} else Entry(before, i);
        }
      }
      y := y + 1;
    }
  }

  // ---- whole sessions ----

  datatype Op =
    | Set(i: Id, v: UserValue)
    | Unset(i: Id)
    | SetChoiceMode(i: Id, n: int)
    | UnsetTheChoice(i: Id)
    | Ask(c: Cell)

  predicate OpOk(k: Config, op: Op) {
    match op
    case Set(i, v) => ItemAt(k, i).Symbol?
    case Unset(i) => ItemAt(k, i).Symbol?
    case SetChoiceMode(i, n) => ItemAt(k, i).Choice?
    case UnsetTheChoice(i) => ItemAt(k, i).Choice?
    case Ask(c) => true
  }

  function UsersAfter(k: Config, u: Users, op: Op): Users {
    match op
    case Set(i, v) => if ValidFor(k, i, v) then Assigned(k, u, i, v) else u
    case Unset(i) => Unassigned(k, u, i)
    case SetChoiceMode(i, n) => if ValidMode(k, i, n) then u[i := UserAt(u, i).(value := Some(UserTri(n)))] else u
    case UnsetTheChoice(i) => Unassigned(k, u, i)
    case Ask(c) => u
  }

  /** The answers an engine without any cache gives: each question is computed from the assignments so far. */
  ghost function Answers(k: Config, r: Rank, u: Users, ops: seq<Op>): seq<Value>
    requires forall op | op in ops && op.Ask? :: op.c in r
    decreases |ops|
  {
    if ops == [] then []
    else
      (if ops[0].Ask? then [ValueOf(k, r, u, ops[0].c)] else [])
      + Answers(k, r, UsersAfter(k, u, ops[0]), ops[1..])
  }

  lemma AnswersStep(k: Config, r: Rank, u: Users, ops: seq<Op>, i: nat)
    requires i < |ops| && forall op | op in ops && op.Ask? :: op.c in r
    ensures ops[i] in ops
    ensures Answers(k, r, u, ops[i..]) ==
            (if ops[i].Ask? then [ValueOf(k, r, u, ops[i].c)] else [])
            + Answers(k, r, UsersAfter(k, u, ops[i]), ops[i + 1..])
  {
    hide ValueOf, UsersAfter;
    assert ops[i..][1..] == ops[i + 1..];
  }

  lemma NoMoreAnswers(k: Config, r: Rank)
    ensures forall u :: Answers(k, r, u, []) == []
  {
  }

  /** Cache coherence: over every session of assignments and questions, the caching engine answers exactly what
      an engine without a cache answers. */
  method Session(k: Config, ghost r: Rank, ops: seq<Op>) returns (answers: seq<Value>)
    requires WellFormed(k) && Ordered(k, r)
    requires forall op | op in ops :: OpOk(k, op) && (op.Ask? ==> op.c in r)
    ensures answers == Answers(k, r, map[], ops)
  {
    hide WellFormed, Ordered, ValueOf, CacheOk, UsersOk, OpOk, Answers, ValidFor, Assigned, Unassigned;
    NoMoreAnswers(k, r);
    var e := new Engine(k, r);
    answers := [];
    var i := 0;
    while i < |ops|
      invariant 0 <= i <= |ops|
      invariant e.k == k && e.r == r && e.Ok() && e.Table() && fresh(e)
      invariant Answers(k, r, map[], ops) == answers + Answers(k, r, e.users, ops[i..])
    {
      var op := ops[i];
      AnswersStep(k, r, e.users, ops, i);
      var got := e.Perform(op);
      ghost var rest := Answers(k, r, e.users, ops[i + 1..]);
      assert answers + (got + rest) == answers + got + rest;
      answers := answers + got;
      i := i + 1;
    }
    assert ops[i..] == [];
  }

  // ---- specifications and lemmas for the assignments ----

  function Without(cache: Env, i: Id): Env { map c | c in cache && c.item != i :: cache[c] }

  predicate ValidFor(k: Config, i: Id, v: UserValue) {
    match ItemAt(k, i).ty
    case Bool => v == UserTri(0) || v == UserTri(2)
    case Tristate => v == UserTri(0) || v == UserTri(1) || v == UserTri(2)
    case Text => v.UserText?
    case Int => v.UserText? && k.numbers.parse(v.s, 10).Some?
    case Hex => v.UserText? && k.numbers.parse(v.s, 16).Some? && k.numbers.parse(v.s, 16).value >= 0
    case Unknown => false
  }

  predicate ValidMode(k: Config, c: Id, v: int) {
    match ItemAt(k, c).ty
    case Bool => v == 0 || v == 2
    case Tristate => 0 <= v <= 2
    case _ => false
  }

  /** Setting a choice symbol to y also makes it the selection of its choice. */
  function Assigned(k: Config, u: Users, i: Id, v: UserValue): Users {
    var it := ItemAt(k, i);
    var u1 := u[i := UserAt(u, i).(value := Some(v))];
    if it.Symbol? && it.choice.Some? && v == UserTri(2) then
      u1[it.choice.value := UserAt(u1, it.choice.value).(selection := Some(i))]
    else u1
  }

  function Unassigned(k: Config, u: Users, i: Id): Users {
    var user := UserAt(u, i);
    if ItemAt(k, i).Symbol? then
      if user.value.Some? then u[i := user.(value := None)] else u
    else if user.value.Some? || user.selection.Some? then u[i := User(None, None)]
    else u
  }

  lemma AssignedOk(k: Config, u: Users, i: Id, v: UserValue)
    requires WellFormed(k) && UsersOk(k, u) && ItemAt(k, i).Symbol?
    ensures UsersOk(k, Assigned(k, u, i, v))
  {
    assert ItemOk(k, i);
  }

  lemma ChoiceSymbolDependent(k: Config, i: Id)
    requires WellFormed(k) && ItemAt(k, i).Symbol? && ItemAt(k, i).choice.Some?
    ensures var c := ItemAt(k, i).choice.value; Dependent(k, i, c) && IsDefined(k, c) && ItemAt(k, c).Choice? && c != i
  {
    hide Mentioned;
    assert ItemOk(k, i);
  }

  lemma PromptDefined(k: Config, i: Id)
    requires WellFormed(k) && ItemAt(k, i).prompts != []
    ensures IsDefined(k, i)
  {
    assert ItemOk(k, i);
  }

  lemma DependentDefined(k: Config, x: Id, j: Id)
    requires Dependent(k, x, j)
    ensures IsDefined(k, x)
  {
  }

  /** A pruned invalidation of i on its way: everything holds but that i's own dependents are dropped. */
  ghost predicate Pruning(k: Config, i: Id, before: Env, after: Env) {
    && i != k.modules
    && (forall c | c in after :: c in before && after[c] == before[c])
    && (forall c, d | c in before && c !in after && d in after :: c.item != d.item)
    && (forall d | d in after :: d.item != i)
    && (forall j, x | j != i && Dependent(k, x, j) && Vis(j) in before && Vis(j) !in after :: Vis(x) !in after)
    && (Vis(k.modules) in before && Vis(k.modules) !in after ==> forall d | d in after :: !IsDefined(k, d.item))
  }

  lemma AllPruned(k: Config, i: Id, before: Env, after: Env)
    requires IsDefined(k, i)
    requires forall c :: c in after <==> c in before && !IsDefined(k, c.item)
    requires forall c | c in after :: after[c] == before[c]
    ensures Pruned(k, i, before, after)
  {
    hide Mentioned;
  }

  lemma WithoutPruning(k: Config, i: Id, before: Env)
    requires i != k.modules
    ensures Pruning(k, i, before, Without(before, i))
  {
  }

  lemma PruneStep(k: Config, i: Id, x: Id, before: Env, mid: Env, after: Env)
    requires Pruning(k, i, before, mid) && Pruned(k, x, mid, after)
    ensures Pruning(k, i, before, after)
    ensures Vis(x) !in after
    ensures forall c | c in after :: c in mid
  {
    hide Dependent, IsDefined;
  }

  lemma Shrinks(k: Config, i: Id, before: Env, after: Env)
    requires Pruning(k, i, before, after)
    ensures |after| <= |before| && (Vis(i) in before ==> |after| < |before|)
  {
    hide Dependent, IsDefined;
    SubsetSize(after.Keys, before.Keys);
    if Vis(i) in before {
      SubsetSize(after.Keys, before.Keys - {Vis(i)});
    }
  }

  lemma SubsetSize<T>(a: set<T>, b: set<T>)
    requires a <= b
    ensures |a| <= |b|
  {
    assert b == a + (b - a);
  }

  lemma OwnChoice(k: Config, i: Id)
    requires WellFormed(k)
    ensures ChoiceOf(ItemAt(k, i)).Some? ==> ItemAt(k, ChoiceOf(ItemAt(k, i)).value).Choice?
  {
    assert ItemOk(k, i);
  }

  lemma ModeReadsVis(k: Config, u: Users, env: Env, c: Id)
    requires ItemAt(k, c).Choice?
    ensures FromCell(Vis(c)) in ChoiceTri(k, u, env, c).src
  {
  }

  lemma NoSelection(k: Config, u: Users, env: Env, c: Id)
    requires ItemAt(k, c).Symbol?
    ensures SelectionVal(k, u, env, c) == Out(Picked(None), {})
  {
  }

  lemma AssignableShape(k: Config, r: Rank, u: Users, i: Id)
    requires Assignable(i) in r
    ensures Full(k, r, u)[Assignable(i)].Levels?
  {
    hide SymAssignable, ChoiceAssignable, EnvBelow;
    LevelsAlways(k, u, EnvBelow(k, r, u, r[Assignable(i)]), i);
  }

  lemma LevelsAlways(k: Config, u: Users, env: Env, i: Id)
    ensures AssignableVal(k, u, env, i).val.Levels?
  {
    hide ExprVal, TypeOf;
  }

  lemma SelectionShape(k: Config, r: Rank, u: Users, i: Id)
    requires Selection(i) in r
    ensures Full(k, r, u)[Selection(i)].Picked?
  {
    hide ChoiceTri, DefaultPick, VisiblePick, EnvBelow;
  }

  lemma SourcesBelow(k: Config, r: Rank, c: Cell)
    requires Ordered(k, r) && c in r
    ensures Below(r, CellSources(k, c), r[c])
  {
  }

  lemma InAll(k: Config, r: Rank, ps: seq<Expr>, i: nat, n: nat)
    requires i < |ps| && Below(r, AllSources(k, ps), n)
    ensures Below(r, ExprSources(k, ps[i]), n)
  {
    assert ExprSources(k, ps[i]) <= AllSources(k, ps);
  }

  lemma InDefaults(k: Config, r: Rank, ds: seq<Default>, i: nat, n: nat)
    requires i < |ds| && Below(r, DefaultSources(k, ds), n)
    ensures Below(r, ExprSources(k, ds[i].cond), n) && Below(r, ExprSources(k, ds[i].value), n)
  {
    assert ExprSources(k, ds[i].cond) + ExprSources(k, ds[i].value) <= DefaultSources(k, ds);
  }

  lemma InTexts(k: Config, r: Rank, ds: seq<Default>, i: nat, n: nat)
    requires i < |ds| && Below(r, TextSources(k, ds), n)
    ensures Below(r, ExprSources(k, ds[i].cond), n)
    ensures var c := Str(RefId(ds[i].value)); c in r && r[c] < n
  {
    assert ExprSources(k, ds[i].cond) + {FromCell(Str(RefId(ds[i].value)))} <= TextSources(k, ds);
    assert FromCell(Str(RefId(ds[i].value))) in TextSources(k, ds);
  }

  lemma InRanges(k: Config, r: Rank, rs: seq<Range>, i: nat, n: nat)
    requires i < |rs| && Below(r, RangeSources(k, rs), n)
    ensures Below(r, ExprSources(k, rs[i].cond), n)
    ensures Str(rs[i].low) in r && r[Str(rs[i].low)] < n && Str(rs[i].high) in r && r[Str(rs[i].high)] < n
  {
    assert ExprSources(k, rs[i].cond) + {FromCell(Str(rs[i].low)), FromCell(Str(rs[i].high))} <= RangeSources(k, rs);
    assert FromCell(Str(rs[i].low)) in RangeSources(k, rs) && FromCell(Str(rs[i].high)) in RangeSources(k, rs);
  }

  lemma InPicks(k: Config, r: Rank, ds: seq<ChoiceDefault>, i: nat, n: nat)
    requires i < |ds| && Below(r, PickSources(k, ds), n)
    ensures Below(r, ExprSources(k, ds[i].cond), n)
    ensures Vis(ds[i].sym) in r && r[Vis(ds[i].sym)] < n
  {
    assert ExprSources(k, ds[i].cond) + {FromCell(Vis(ds[i].sym))} <= PickSources(k, ds);
    assert FromCell(Vis(ds[i].sym)) in PickSources(k, ds);
  }
}
