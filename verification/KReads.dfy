/** Facts about the value rules: a rule's result is fixed by what it read, and what it may read is bounded by
    the properties of the item. */
module KReads {
  import opened Basics
  import opened KValues

  predicate SameAt(e1: Env, e2: Env, c: Cell) {
    (c in e1 <==> c in e2) && (c in e1 ==> e1[c] == e2[c])
  }

  predicate SameSource(u1: Users, e1: Env, u2: Users, e2: Env, s: Source) {
    match s
    case FromCell(c) => SameAt(e1, e2, c)
    case FromUser(i) => UserAt(u1, i) == UserAt(u2, i)
  }

  ghost predicate Agree(src: set<Source>, u1: Users, e1: Env, u2: Users, e2: Env) {
    forall s | s in src :: SameSource(u1, e1, u2, e2, s)
  }

  lemma ReadSame(e1: Env, e2: Env, u1: Users, u2: Users, c: Cell)
    requires Agree({FromCell(c)}, u1, e1, u2, e2)
    ensures SameAt(e1, e2, c) && Read(e1, c) == Read(e2, c) && ReadText(e1, c) == ReadText(e2, c)
  {
    assert SameSource(u1, e1, u2, e2, FromCell(c));
  }

  lemma ChoiceTriSame(k: Config, u1: Users, e1: Env, u2: Users, e2: Env, c: Id)
    requires Agree(ChoiceTri(k, u1, e1, c).src, u1, e1, u2, e2)
    ensures ChoiceTri(k, u1, e1, c) == ChoiceTri(k, u2, e2, c)
  {
    if ItemAt(k, c).Choice? {
      assert SameSource(u1, e1, u2, e2, FromUser(c));
      ReadSame(e1, e2, u1, u2, Vis(c));
      if FromCell(Tri(k.modules)) in ChoiceTri(k, u1, e1, c).src {
        ReadSame(e1, e2, u1, u2, Tri(k.modules));
      }
    }
  }

  lemma ItemTriSame(k: Config, u1: Users, e1: Env, u2: Users, e2: Env, i: Id)
    requires Agree(ItemTri(k, u1, e1, i).src, u1, e1, u2, e2)
    ensures ItemTri(k, u1, e1, i) == ItemTri(k, u2, e2, i)
  {
    hide ChoiceTri;
    if ItemAt(k, i).Choice? {
      ChoiceTriSame(k, u1, e1, u2, e2, i);
    } else {
      ReadSame(e1, e2, u1, u2, Tri(i));
    }
  }

  lemma NumberSame(k: Config, u1: Users, e1: Env, u2: Users, e2: Env, i: Id)
    requires Agree(Number(k, e1, i).src, u1, e1, u2, e2)
    ensures Number(k, e1, i) == Number(k, e2, i)
  {
    ReadSame(e1, e2, u1, u2, if BoolLike(ItemAt(k, i).ty) then Tri(i) else Str(i));
  }

  lemma TextOrderSame(u1: Users, e1: Env, u2: Users, e2: Env, i: Id, j: Id)
    requires Agree(TextOrder(e1, i, j).src, u1, e1, u2, e2)
    ensures TextOrder(e1, i, j) == TextOrder(e2, i, j)
  {
    ReadSame(e1, e2, u1, u2, Str(i));
    ReadSame(e1, e2, u1, u2, Str(j));
  }

  lemma OrderSame(k: Config, u1: Users, e1: Env, u2: Users, e2: Env, i: Id, j: Id)
    requires Agree(Order(k, e1, i, j).src, u1, e1, u2, e2)
    ensures Order(k, e1, i, j) == Order(k, e2, i, j)
  {
    hide Number, TextOrder, ItemAt;
    if ItemAt(k, i).ty == Text && ItemAt(k, j).ty == Text {
      TextOrderSame(u1, e1, u2, e2, i, j);
    } else {
      NumberSame(k, u1, e1, u2, e2, i);
      if Number(k, e1, i).val.None? {
        TextOrderSame(u1, e1, u2, e2, i, j);
      } else {
        NumberSame(k, u1, e1, u2, e2, j);
        if Number(k, e1, j).val.None? {
          TextOrderSame(u1, e1, u2, e2, i, j);
        }
      }
    }
  }

  /** Short-circuit evaluation is fixed by the operands it reached. */
  lemma {:induction false} ExprSame(k: Config, u1: Users, e1: Env, u2: Users, e2: Env, e: Expr)
    requires Agree(ExprVal(k, u1, e1, e).src, u1, e1, u2, e2)
    ensures ExprVal(k, u1, e1, e) == ExprVal(k, u2, e2, e)
  {
    hide Order, ItemTri, SameSource;
    match e {
      case Ref(i) => ItemTriSame(k, u1, e1, u2, e2, i);
      case And(a, b) =>
        ExprSame(k, u1, e1, u2, e2, a);
        if ExprVal(k, u1, e1, a).val != 0 {
          ExprSame(k, u1, e1, u2, e2, b);
        }
      case Or(a, b) =>
        ExprSame(k, u1, e1, u2, e2, a);
        if ExprVal(k, u1, e1, a).val != 2 {
          ExprSame(k, u1, e1, u2, e2, b);
        }
      case Not(a) => ExprSame(k, u1, e1, u2, e2, a);
      case Rel(op, i, j) => OrderSame(k, u1, e1, u2, e2, i, j);
    }
  }

  lemma TypeSame(k: Config, u1: Users, e1: Env, u2: Users, e2: Env, i: Id)
    requires Agree(TypeOf(k, u1, e1, i).src, u1, e1, u2, e2)
    ensures TypeOf(k, u1, e1, i) == TypeOf(k, u2, e2, i)
  {
    hide ChoiceTri, ItemAt;
    var it := ItemAt(k, i);
    if it.ty == Tristate {
      if ChoiceOf(it).Some? {
        ChoiceTriSame(k, u1, e1, u2, e2, ChoiceOf(it).value);
      }
      if FromCell(Tri(k.modules)) in TypeOf(k, u1, e1, i).src {
        ReadSame(e1, e2, u1, u2, Tri(k.modules));
      }
    }
  }

  lemma {:induction false} MaxOfSame(k: Config, u1: Users, e1: Env, u2: Users, e2: Env, ps: seq<Expr>, acc: int)
    requires Agree(MaxOf(k, u1, e1, ps, acc).src, u1, e1, u2, e2)
    ensures MaxOf(k, u1, e1, ps, acc) == MaxOf(k, u2, e2, ps, acc)
    decreases |ps|
  {
    hide ExprVal, SameSource;
    if ps != [] {
      ExprSame(k, u1, e1, u2, e2, ps[0]);
      MaxOfSame(k, u1, e1, u2, e2, ps[1..], Max(acc, ExprVal(k, u1, e1, ps[0]).val));
    }
  }

  lemma VisSame(k: Config, u1: Users, e1: Env, u2: Users, e2: Env, i: Id)
    requires Agree(VisVal(k, u1, e1, i).src, u1, e1, u2, e2)
    ensures VisVal(k, u1, e1, i) == VisVal(k, u2, e2, i)
  {
    hide MaxOf, ChoiceTri, TypeOf, ItemAt, SameSource;
    var it := ItemAt(k, i);
    MaxOfSame(k, u1, e1, u2, e2, it.prompts, 0);
    var vis := MaxOf(k, u1, e1, it.prompts, 0).val;
    if ChoiceOf(it).Some? {
      var c := ChoiceOf(it).value;
      if (ItemAt(k, c).ty == Tristate && it.ty != Tristate) || (it.ty == Tristate && vis == 1) {
        ChoiceTriSame(k, u1, e1, u2, e2, c);
      }
    }
    if !HiddenInChoice(k, u1, e1, i, vis).val && vis == 1 {
      TypeSame(k, u1, e1, u2, e2, i);
    }
  }

  lemma {:induction false} FirstDefaultSame(k: Config, u1: Users, e1: Env, u2: Users, e2: Env, ds: seq<Default>)
    requires Agree(FirstDefault(k, u1, e1, ds).src, u1, e1, u2, e2)
    ensures FirstDefault(k, u1, e1, ds) == FirstDefault(k, u2, e2, ds)
    decreases |ds|
  {
    hide ExprVal, SameSource;
    if ds != [] {
      ExprSame(k, u1, e1, u2, e2, ds[0].cond);
      if ExprVal(k, u1, e1, ds[0].cond).val != 0 {
        ExprSame(k, u1, e1, u2, e2, ds[0].value);
      } else {
        FirstDefaultSame(k, u1, e1, u2, e2, ds[1..]);
      }
    }
  }

  lemma SuggestedSame(k: Config, u1: Users, e1: Env, u2: Users, e2: Env, it: Item)
    requires it.Symbol? && Agree(Suggested(k, u1, e1, it).src, u1, e1, u2, e2)
    ensures Suggested(k, u1, e1, it) == Suggested(k, u2, e2, it)
  {
    hide ExprVal, FirstDefault, SameSource;
    FirstDefaultSame(k, u1, e1, u2, e2, it.defaults);
    ExprSame(k, u1, e1, u2, e2, it.weakRevDep);
    if ExprVal(k, u1, e1, it.weakRevDep).val != 0 {
      ExprSame(k, u1, e1, u2, e2, it.directDep);
    }
  }

  lemma ProposedSame(k: Config, u1: Users, e1: Env, u2: Users, e2: Env, i: Id, it: Item, vis: int)
    requires it.Symbol? && Agree(Proposed(k, u1, e1, i, it, vis).src, u1, e1, u2, e2)
    ensures Proposed(k, u1, e1, i, it, vis) == Proposed(k, u2, e2, i, it, vis)
  {
    hide Suggested;
    if vis != 0 {
      assert SameSource(u1, e1, u2, e2, FromUser(i));
    }
    if vis == 0 || UserAt(u1, i).value.None? {
      SuggestedSame(k, u1, e1, u2, e2, it);
    }
  }

  lemma PlainTriSame(k: Config, u1: Users, e1: Env, u2: Users, e2: Env, i: Id, it: Item)
    requires it.Symbol? && Agree(PlainTri(k, u1, e1, i, it).src, u1, e1, u2, e2)
    ensures PlainTri(k, u1, e1, i, it) == PlainTri(k, u2, e2, i, it)
  {
    hide ExprVal, Proposed, TypeOf, SameSource;
    ReadSame(e1, e2, u1, u2, Vis(i));
    var vis := Read(e1, Vis(i)).val;
    ProposedSame(k, u1, e1, u2, e2, i, it, vis);
    ExprSame(k, u1, e1, u2, e2, it.revDep);
    var a, r := Proposed(k, u1, e1, i, it, vis), ExprVal(k, u1, e1, it.revDep);
    if (if r.val == 0 then a.val.0 else Max(r.val, a.val.0)) == 1 {
      TypeSame(k, u1, e1, u2, e2, i);
      if TypeOf(k, u1, e1, i).val != Bool {
        ExprSame(k, u1, e1, u2, e2, it.weakRevDep);
      }
    }
  }

  lemma TriSame(k: Config, u1: Users, e1: Env, u2: Users, e2: Env, i: Id)
    requires Agree(TriVal(k, u1, e1, i).src, u1, e1, u2, e2)
    ensures TriVal(k, u1, e1, i) == TriVal(k, u2, e2, i)
  {
    hide PlainTri, ItemAt;
    var it := ItemAt(k, i);
    if it.Symbol? && BoolLike(it.ty) && it.fixed.None? {
      if it.choice.Some? {
        ReadSame(e1, e2, u1, u2, Vis(i));
        if LevelAt(e1, Vis(i)) == 2 {
          assert SameSource(u1, e1, u2, e2, FromCell(Selection(it.choice.value)));
        } else if LevelAt(e1, Vis(i)) != 0 {
          assert SameSource(u1, e1, u2, e2, FromUser(i));
        }
      } else {
        PlainTriSame(k, u1, e1, u2, e2, i, it);
      }
    }
  }

  lemma {:induction false} FirstTextSame(k: Config, u1: Users, e1: Env, u2: Users, e2: Env, ds: seq<Default>)
    requires Agree(FirstText(k, u1, e1, ds).src, u1, e1, u2, e2)
    ensures FirstText(k, u1, e1, ds) == FirstText(k, u2, e2, ds)
    decreases |ds|
  {
    hide ExprVal, SameSource;
    if ds != [] {
      ExprSame(k, u1, e1, u2, e2, ds[0].cond);
      if ExprVal(k, u1, e1, ds[0].cond).val != 0 {
        ReadSame(e1, e2, u1, u2, Str(RefId(ds[0].value)));
      } else {
        FirstTextSame(k, u1, e1, u2, e2, ds[1..]);
      }
    }
  }

  lemma {:induction false} FirstRangeSame(k: Config, u1: Users, e1: Env, u2: Users, e2: Env, rs: seq<Range>, b: int)
    requires Agree(FirstRange(k, u1, e1, rs, b).src, u1, e1, u2, e2)
    ensures FirstRange(k, u1, e1, rs, b) == FirstRange(k, u2, e2, rs, b)
    decreases |rs|
  {
    hide ExprVal, SameSource, NumberOr0;
    if rs != [] {
      ExprSame(k, u1, e1, u2, e2, rs[0].cond);
      if ExprVal(k, u1, e1, rs[0].cond).val != 0 {
        ReadSame(e1, e2, u1, u2, Str(rs[0].low));
        ReadSame(e1, e2, u1, u2, Str(rs[0].high));
      } else {
        FirstRangeSame(k, u1, e1, u2, e2, rs[1..], b);
      }
    }
  }

  lemma NumberValSame(k: Config, u1: Users, e1: Env, u2: Users, e2: Env, i: Id, it: Item)
    requires it.Symbol? && Agree(NumberVal(k, u1, e1, i, it).src, u1, e1, u2, e2)
    ensures NumberVal(k, u1, e1, i, it) == NumberVal(k, u2, e2, i, it)
  {
    hide ExprVal, FirstText, FirstRange, NumberOr0, Clamped;
    ReadSame(e1, e2, u1, u2, Vis(i));
    FirstRangeSame(k, u1, e1, u2, e2, it.ranges, Base(it.ty));
    var vis, range := LevelAt(e1, Vis(i)), FirstRange(k, u1, e1, it.ranges, Base(it.ty)).val;
    if vis != 0 {
      assert SameSource(u1, e1, u2, e2, FromUser(i));
    }
    if UserNumber(k, u1, i, vis, Base(it.ty), range).val.None? {
      FirstTextSame(k, u1, e1, u2, e2, it.defaults);
    }
  }

  lemma TextValSame(k: Config, u1: Users, e1: Env, u2: Users, e2: Env, i: Id, it: Item)
    requires it.Symbol? && Agree(TextVal(k, u1, e1, i, it).src, u1, e1, u2, e2)
    ensures TextVal(k, u1, e1, i, it) == TextVal(k, u2, e2, i, it)
  {
    hide FirstText;
    ReadSame(e1, e2, u1, u2, Vis(i));
    if LevelAt(e1, Vis(i)) != 0 {
      assert SameSource(u1, e1, u2, e2, FromUser(i));
    }
    if LevelAt(e1, Vis(i)) == 0 || UserAt(u1, i).value.None? {
      FirstTextSame(k, u1, e1, u2, e2, it.defaults);
    }
  }

  lemma StrSame(k: Config, u1: Users, e1: Env, u2: Users, e2: Env, i: Id)
    requires Agree(StrVal(k, u1, e1, i).src, u1, e1, u2, e2)
    ensures StrVal(k, u1, e1, i) == StrVal(k, u2, e2, i)
  {
    hide TextVal, NumberVal, ItemAt;
    var it := ItemAt(k, i);
    if it.Symbol? && it.fixed.None? {
      if BoolLike(it.ty) {
        ReadSame(e1, e2, u1, u2, Tri(i));
      } else if it.ty == Text {
        TextValSame(k, u1, e1, u2, e2, i, it);
      } else if it.ty != Unknown {
        NumberValSame(k, u1, e1, u2, e2, i, it);
      }
    }
  }

  lemma SymAssignableSame(k: Config, u1: Users, e1: Env, u2: Users, e2: Env, i: Id, it: Item)
    requires it.Symbol? && Agree(SymAssignable(k, u1, e1, i, it).src, u1, e1, u2, e2)
    ensures SymAssignable(k, u1, e1, i, it) == SymAssignable(k, u2, e2, i, it)
  {
    hide ExprVal, TypeOf, SameSource;
    if BoolLike(it.ty) {
      ReadSame(e1, e2, u1, u2, Vis(i));
      var vis := LevelAt(e1, Vis(i));
      if vis != 0 {
        ExprSame(k, u1, e1, u2, e2, it.revDep);
        var r := ExprVal(k, u1, e1, it.revDep).val;
        if vis == 2 && it.choice.None? && r != 2 {
          TypeSame(k, u1, e1, u2, e2, i);
          if TypeOf(k, u1, e1, i).val != Bool {
            ExprSame(k, u1, e1, u2, e2, it.weakRevDep);
          }
        } else if vis != 2 && r == 0 {
          ExprSame(k, u1, e1, u2, e2, it.weakRevDep);
        }
      }
    }
  }

  lemma AssignableSame(k: Config, u1: Users, e1: Env, u2: Users, e2: Env, i: Id)
    requires Agree(AssignableVal(k, u1, e1, i).src, u1, e1, u2, e2)
    ensures AssignableVal(k, u1, e1, i) == AssignableVal(k, u2, e2, i)
  {
    hide SymAssignable, TypeOf, ItemAt;
    var it := ItemAt(k, i);
    if it.Symbol? {
      SymAssignableSame(k, u1, e1, u2, e2, i, it);
    } else {
      ReadSame(e1, e2, u1, u2, Vis(i));
      if LevelAt(e1, Vis(i)) == 2 {
        TypeSame(k, u1, e1, u2, e2, i);
      }
    }
  }

  lemma {:induction false} DefaultPickSame(k: Config, u1: Users, e1: Env, u2: Users, e2: Env, ds: seq<ChoiceDefault>)
    requires Agree(DefaultPick(k, u1, e1, ds).src, u1, e1, u2, e2)
    ensures DefaultPick(k, u1, e1, ds) == DefaultPick(k, u2, e2, ds)
    decreases |ds|
  {
    hide ExprVal, SameSource;
    if ds != [] {
      ExprSame(k, u1, e1, u2, e2, ds[0].cond);
      if ExprVal(k, u1, e1, ds[0].cond).val == 0 {
        DefaultPickSame(k, u1, e1, u2, e2, ds[1..]);
      } else {
        ReadSame(e1, e2, u1, u2, Vis(ds[0].sym));
        if LevelAt(e1, Vis(ds[0].sym)) == 0 {
          DefaultPickSame(k, u1, e1, u2, e2, ds[1..]);
        }
      }
    }
  }

  lemma {:induction false} VisiblePickSame(u1: Users, e1: Env, u2: Users, e2: Env, syms: seq<Id>)
    requires Agree(VisiblePick(e1, syms).src, u1, e1, u2, e2)
    ensures VisiblePick(e1, syms) == VisiblePick(e2, syms)
    decreases |syms|
  {
    hide SameSource;
    if syms != [] {
      ReadSame(e1, e2, u1, u2, Vis(syms[0]));
      if LevelAt(e1, Vis(syms[0])) == 0 {
        VisiblePickSame(u1, e1, u2, e2, syms[1..]);
      }
    }
  }

  lemma SelectionSame(k: Config, u1: Users, e1: Env, u2: Users, e2: Env, c: Id)
    requires Agree(SelectionVal(k, u1, e1, c).src, u1, e1, u2, e2)
    ensures SelectionVal(k, u1, e1, c) == SelectionVal(k, u2, e2, c)
  {
    hide ExprVal, DefaultPick, VisiblePick;
    var it := ItemAt(k, c);
    if it.Choice? {
      ChoiceTriSame(k, u1, e1, u2, e2, c);
      if ChoiceTri(k, u1, e1, c).val == 2 {
        assert SameSource(u1, e1, u2, e2, FromUser(c));
        var mine := UserAt(u1, c).selection;
        if mine.Some? {
          ReadSame(e1, e2, u1, u2, Vis(mine.value));
        }
        if mine.None? || LevelAt(e1, Vis(mine.value)) == 0 {
          DefaultPickSame(k, u1, e1, u2, e2, it.choiceDefaults);
          if DefaultPick(k, u1, e1, it.choiceDefaults).val.None? {
            VisiblePickSame(u1, e1, u2, e2, it.syms);
          }
        }
      }
    }
  }

  /** Every rule is fixed, result and reads alike, by the sources it read. */
  lemma ComputeSame(k: Config, u1: Users, e1: Env, u2: Users, e2: Env, c: Cell)
    requires Agree(Compute(k, u1, e1, c).src, u1, e1, u2, e2)
    ensures Compute(k, u1, e1, c) == Compute(k, u2, e2, c)
  {
    hide VisVal, TriVal, StrVal, AssignableVal, SelectionVal, Agree;
    match c {
      case Vis(i) => VisSame(k, u1, e1, u2, e2, i);
      case Tri(i) => TriSame(k, u1, e1, u2, e2, i);
      case Str(i) => StrSame(k, u1, e1, u2, e2, i);
      case Assignable(i) => AssignableSame(k, u1, e1, u2, e2, i);
      case Selection(i) => SelectionSame(k, u1, e1, u2, e2, i);
    }
  }

  // ---- what a rule may read at most ----

  function ChoiceSources(k: Config, c: Id): set<Source> {
    {FromUser(c), FromCell(Vis(c))} + if ItemAt(k, c).ty == Tristate then {FromCell(Tri(k.modules))} else {}
  }

  function ExprSources(k: Config, e: Expr): set<Source> {
    match e
    case Ref(i) => if ItemAt(k, i).Choice? then ChoiceSources(k, i) else {FromCell(Tri(i))}
    case And(a, b) => ExprSources(k, a) + ExprSources(k, b)
    case Or(a, b) => ExprSources(k, a) + ExprSources(k, b)
    case Not(a) => ExprSources(k, a)
    case Rel(op, i, j) => {FromCell(Tri(i)), FromCell(Str(i)), FromCell(Tri(j)), FromCell(Str(j))}
  }

  function AllSources(k: Config, es: seq<Expr>): set<Source> {
    set e, s | e in es && s in ExprSources(k, e) :: s
  }

  function OwnChoiceSources(k: Config, it: Item): set<Source> {
    if ChoiceOf(it).Some? then ChoiceSources(k, ChoiceOf(it).value) else {}
  }

  function TypeSources(k: Config, it: Item): set<Source> {
    if it.ty == Tristate then OwnChoiceSources(k, it) + {FromCell(Tri(k.modules))} else {}
  }

  function DefaultSources(k: Config, ds: seq<Default>): set<Source> {
    set d, s | d in ds && s in ExprSources(k, d.cond) + ExprSources(k, d.value) :: s
  }

  function TextSources(k: Config, ds: seq<Default>): set<Source> {
    set d, s | d in ds && s in ExprSources(k, d.cond) + {FromCell(Str(RefId(d.value)))} :: s
  }

  function RangeSources(k: Config, rs: seq<Range>): set<Source> {
    set r, s | r in rs && s in ExprSources(k, r.cond) + {FromCell(Str(r.low)), FromCell(Str(r.high))} :: s
  }

  function PickSources(k: Config, ds: seq<ChoiceDefault>): set<Source> {
    set d, s | d in ds && s in ExprSources(k, d.cond) + {FromCell(Vis(d.sym))} :: s
  }

  function VisSources(syms: seq<Id>): set<Source> {
    set s | s in syms :: FromCell(Vis(s))
  }

  /** Attributes whose value no assignment can change. */
  predicate ConstCell(k: Config, c: Cell) {
    var it := ItemAt(k, c.item);
    match c
    case Tri(i) => it.Choice? || !BoolLike(it.ty) || it.fixed.Some?
    case Str(i) => it.Choice? || it.fixed.Some? || it.ty == Unknown
    case Assignable(i) => it.Symbol? && !BoolLike(it.ty)
    case Selection(i) => it.Symbol?
    case Vis(i) => false
  }

  function CellSources(k: Config, c: Cell): set<Source> {
    var it := ItemAt(k, c.item);
    if ConstCell(k, c) then {} else
    match c
    case Vis(i) => AllSources(k, it.prompts) + OwnChoiceSources(k, it) + TypeSources(k, it)
    case Tri(i) =>
      if it.choice.Some? then {FromCell(Vis(i)), FromCell(Selection(it.choice.value)), FromUser(i)}
      else {FromCell(Vis(i)), FromUser(i)} + DefaultSources(k, it.defaults) + ExprSources(k, it.weakRevDep)
           + ExprSources(k, it.directDep) + ExprSources(k, it.revDep) + TypeSources(k, it)
    case Str(i) =>
      if BoolLike(it.ty) then {FromCell(Tri(i))}
      else {FromCell(Vis(i)), FromUser(i)} + RangeSources(k, it.ranges) + TextSources(k, it.defaults)
    case Assignable(i) =>
      {FromCell(Vis(i))} + TypeSources(k, it)
      + if it.Symbol? then ExprSources(k, it.revDep) + ExprSources(k, it.weakRevDep) else {}
    case Selection(i) =>
      ChoiceSources(k, i) + VisSources(it.syms) + PickSources(k, it.choiceDefaults)
  }

  lemma ChoiceTriBound(k: Config, u: Users, env: Env, c: Id)
    ensures ChoiceTri(k, u, env, c).src <= ChoiceSources(k, c)
  {
  }

  lemma {:induction false} ExprBound(k: Config, u: Users, env: Env, e: Expr)
    ensures ExprVal(k, u, env, e).src <= ExprSources(k, e)
  {
    hide ChoiceTri;
    match e {
      case Ref(i) => ChoiceTriBound(k, u, env, i);
      case And(a, b) =>
        ExprBound(k, u, env, a);
        ExprBound(k, u, env, b);
      case Or(a, b) =>
        ExprBound(k, u, env, a);
        ExprBound(k, u, env, b);
      case Not(a) => ExprBound(k, u, env, a);
      case Rel(op, i, j) =>
    }
  }

  lemma TypeBound(k: Config, u: Users, env: Env, i: Id)
    ensures TypeOf(k, u, env, i).src <= TypeSources(k, ItemAt(k, i))
  {
    hide ChoiceTri, ChoiceSources;
    var it := ItemAt(k, i);
    if ChoiceOf(it).Some? {
      ChoiceTriBound(k, u, env, ChoiceOf(it).value);
    }
  }

  lemma {:induction false} MaxOfBound(k: Config, u: Users, env: Env, ps: seq<Expr>, acc: int)
    ensures MaxOf(k, u, env, ps, acc).src <= AllSources(k, ps)
    decreases |ps|
  {
    hide ExprVal, ExprSources;
    if ps != [] {
      ExprBound(k, u, env, ps[0]);
      MaxOfBound(k, u, env, ps[1..], Max(acc, ExprVal(k, u, env, ps[0]).val));
      assert AllSources(k, ps[1..]) <= AllSources(k, ps);
      assert ExprSources(k, ps[0]) <= AllSources(k, ps);
    }
  }

  lemma VisBound(k: Config, u: Users, env: Env, i: Id)
    ensures VisVal(k, u, env, i).src <= CellSources(k, Vis(i))
  {
    hide MaxOf, ChoiceTri, TypeOf, AllSources, ItemAt, ChoiceSources, TypeSources;
    var it := ItemAt(k, i);
    MaxOfBound(k, u, env, it.prompts, 0);
    TypeBound(k, u, env, i);
    if ChoiceOf(it).Some? {
      ChoiceTriBound(k, u, env, ChoiceOf(it).value);
    }
  }

  lemma {:induction false} FirstDefaultBound(k: Config, u: Users, env: Env, ds: seq<Default>)
    ensures FirstDefault(k, u, env, ds).src <= DefaultSources(k, ds)
    decreases |ds|
  {
    hide ExprVal, ExprSources;
    if ds != [] {
      ExprBound(k, u, env, ds[0].cond);
      ExprBound(k, u, env, ds[0].value);
      FirstDefaultBound(k, u, env, ds[1..]);
      assert DefaultSources(k, ds[1..]) <= DefaultSources(k, ds);
      assert ExprSources(k, ds[0].cond) + ExprSources(k, ds[0].value) <= DefaultSources(k, ds);
    }
  }

  lemma PlainTriBound(k: Config, u: Users, env: Env, i: Id, it: Item)
    requires it.Symbol? && it == ItemAt(k, i)
    ensures PlainTri(k, u, env, i, it).src <=
            {FromCell(Vis(i)), FromUser(i)} + DefaultSources(k, it.defaults) + ExprSources(k, it.weakRevDep)
            + ExprSources(k, it.directDep) + ExprSources(k, it.revDep) + TypeSources(k, it)
  {
    hide ExprVal, ExprSources, FirstDefault, DefaultSources, TypeOf, TypeSources;
    FirstDefaultBound(k, u, env, it.defaults);
    ExprBound(k, u, env, it.weakRevDep);
    ExprBound(k, u, env, it.directDep);
    ExprBound(k, u, env, it.revDep);
    TypeBound(k, u, env, i);
  }

  lemma {:induction false} FirstTextBound(k: Config, u: Users, env: Env, ds: seq<Default>)
    ensures FirstText(k, u, env, ds).src <= TextSources(k, ds)
    decreases |ds|
  {
    hide ExprVal, ExprSources;
    if ds != [] {
      ExprBound(k, u, env, ds[0].cond);
      FirstTextBound(k, u, env, ds[1..]);
      assert TextSources(k, ds[1..]) <= TextSources(k, ds);
      assert ExprSources(k, ds[0].cond) + {FromCell(Str(RefId(ds[0].value)))} <= TextSources(k, ds);
    }
  }

  lemma {:induction false} FirstRangeBound(k: Config, u: Users, env: Env, rs: seq<Range>, b: int)
    ensures FirstRange(k, u, env, rs, b).src <= RangeSources(k, rs)
    decreases |rs|
  {
    hide ExprVal, ExprSources, NumberOr0;
    if rs != [] {
      ExprBound(k, u, env, rs[0].cond);
      FirstRangeBound(k, u, env, rs[1..], b);
      assert RangeSources(k, rs[1..]) <= RangeSources(k, rs);
      assert ExprSources(k, rs[0].cond) + {FromCell(Str(rs[0].low)), FromCell(Str(rs[0].high))} <= RangeSources(k, rs);
    }
  }

  lemma StrBound(k: Config, u: Users, env: Env, i: Id)
    ensures StrVal(k, u, env, i).src <= CellSources(k, Str(i))
  {
    hide FirstText, FirstRange, RangeSources, TextSources, ItemAt, NumberOr0, Clamped;
    var it := ItemAt(k, i);
    if it.Symbol? {
      FirstTextBound(k, u, env, it.defaults);
      FirstRangeBound(k, u, env, it.ranges, Base(it.ty));
    }
  }

  lemma AssignableBound(k: Config, u: Users, env: Env, i: Id)
    ensures AssignableVal(k, u, env, i).src <= CellSources(k, Assignable(i))
  {
    hide ExprVal, ExprSources, TypeOf, TypeSources, ItemAt;
    var it := ItemAt(k, i);
    if it.Symbol? {
      ExprBound(k, u, env, it.weakRevDep);
      ExprBound(k, u, env, it.revDep);
    }
    TypeBound(k, u, env, i);
  }

  lemma {:induction false} DefaultPickBound(k: Config, u: Users, env: Env, ds: seq<ChoiceDefault>)
    ensures DefaultPick(k, u, env, ds).src <= PickSources(k, ds)
    decreases |ds|
  {
    hide ExprVal, ExprSources;
    if ds != [] {
      ExprBound(k, u, env, ds[0].cond);
      DefaultPickBound(k, u, env, ds[1..]);
      assert PickSources(k, ds[1..]) <= PickSources(k, ds);
      assert ExprSources(k, ds[0].cond) + {FromCell(Vis(ds[0].sym))} <= PickSources(k, ds);
    }
  }

  lemma {:induction false} VisiblePickBound(env: Env, syms: seq<Id>)
    ensures VisiblePick(env, syms).src <= VisSources(syms)
    decreases |syms|
  {
    if syms != [] {
      VisiblePickBound(env, syms[1..]);
      assert VisSources(syms[1..]) <= VisSources(syms);
      assert FromCell(Vis(syms[0])) in VisSources(syms);
    }
  }

  /** The user's selection in a choice is always one of its symbols. */
  ghost predicate UsersOk(k: Config, u: Users) {
    forall c | c in u && u[c].selection.Some? && ItemAt(k, c).Choice? :: u[c].selection.value in ItemAt(k, c).syms
  }

  lemma SelectionBound(k: Config, u: Users, env: Env, c: Id)
    requires UsersOk(k, u)
    ensures SelectionVal(k, u, env, c).src <= CellSources(k, Selection(c))
  {
    hide ChoiceTri, DefaultPick, VisiblePick, ChoiceSources, PickSources, ItemAt;
    var it := ItemAt(k, c);
    if it.Choice? {
      ChoiceTriBound(k, u, env, c);
      DefaultPickBound(k, u, env, it.choiceDefaults);
      VisiblePickBound(env, it.syms);
      var mine := UserAt(u, c).selection;
      if mine.Some? {
        assert FromCell(Vis(mine.value)) in VisSources(it.syms);
      }
    }
  }

  /** A rule reads no more than its item's properties mention. */
  lemma ComputeBound(k: Config, u: Users, env: Env, c: Cell)
    requires UsersOk(k, u)
    ensures Compute(k, u, env, c).src <= CellSources(k, c)
  {
    hide VisVal, PlainTri, StrVal, AssignableVal, SelectionVal, UsersOk,
         DefaultSources, TypeSources, ExprSources, AllSources, RangeSources, TextSources;
    match c {
      case Vis(i) => VisBound(k, u, env, i);
      case Tri(i) =>
        var it := ItemAt(k, i);
        if it.Symbol? {
          PlainTriBound(k, u, env, i, it);
        }
      case Str(i) => StrBound(k, u, env, i);
      case Assignable(i) => AssignableBound(k, u, env, i);
      case Selection(i) => SelectionBound(k, u, env, i);
    }
  }
}
