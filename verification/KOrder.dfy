/** What a passed loop check is good for: an order of all attributes, those of choices included, in which every value
    rule only reads earlier ones. And the two kinds of endless recursion the check does not see. */
module KOrder {
  import opened Basics
  import opened KValues
  import opened KReads
  import F = KFixpoint
  import L = KLoop
  import C = KCache

  function KindOf(it: Item): L.Kind { if it.Choice? then L.Choice(it.syms) else L.Symbol(it.choice) }

  /** x names j in a property; that a choice symbol names its own choice does not count. */
  predicate Named(k: Config, x: Id, j: Id) {
    F.IsDefined(k, x) && F.IsDefined(k, j) && j in F.Uses(k, x) && ChoiceOf(ItemAt(k, x)) != Some(j)
  }

  /** g records the dependents of the defined items of k, as they are when loops are looked for. */
  ghost predicate GraphOf(k: Config, g: L.Graph) {
    && L.WellFormed(g) && |g.kind| == |k.items|
    && (forall x: Id | x < |k.items| :: g.kind[x] == KindOf(k.items[x]))
    && (forall j, x :: L.Edge(g, j, x) <==> Named(k, x, j))
  }

  /** No property mentions an item outside the configuration. */
  ghost predicate InRange(k: Config) {
    && (forall x, j | F.IsDefined(k, x) && j in F.Uses(k, x) :: j < |k.items|)
    && k.modules < |k.items| && 0 < |k.items|
  }

  /** The symbols listed by a choice are in that choice. */
  ghost predicate Grouped(k: Config) {
    forall c: Id, s | ItemAt(k, c).Choice? && s in ItemAt(k, c).syms :: ChoiceOf(ItemAt(k, s)) == Some(c)
  }

  lemma GraphIsGrouped(k: Config, g: L.Graph)
    requires GraphOf(k, g)
    ensures Grouped(k)
  {
    forall c: Id, s | ItemAt(k, c).Choice? && s in ItemAt(k, c).syms
      ensures ChoiceOf(ItemAt(k, s)) == Some(c)
    {
      assert L.IsChoice(g, c) && s in g.kind[c].syms && L.IsSym(g, s) && g.kind[s] == KindOf(k.items[s]);
    }
  }

  function GroupOf(k: Config, x: Id): Id {
    if ChoiceOf(ItemAt(k, x)).Some? then ChoiceOf(ItemAt(k, x)).value else x
  }

  /** Within a choice: first its own visibility, then the visibilities of its symbols, then the selection, then the
      values of the symbols. */
  function Stage(k: Config, c: Cell): nat {
    match c
    case Vis(i) => if ItemAt(k, i).Choice? then 1 else 2
    case Selection(i) => 3
    case Tri(i) => 4
    case _ => 5
  }

  // ---- what a rule may read ----

  /** An attribute that can change, of an item whose type asks whether modules are on. */
  predicate IsTristate(k: Config, c: Cell) { ItemAt(k, c.item).ty == Tristate && !ConstCell(k, c) }

  ghost predicate AsksForModules(k: Config, c: Cell) {
    exists d :: IsTristate(k, d) && (d == c || FromCell(d) in CellSources(k, c))
  }

  ghost predicate Kind(k: Config, c: Cell, e: Cell) {
    || (e.item < |k.items| && GroupOf(k, e.item) == GroupOf(k, c.item) && Stage(k, e) < Stage(k, c))
    || Named(k, c.item, e.item)
    || (e == Tri(k.modules) && AsksForModules(k, c))
    || (e.item < |k.items| && ConstCell(k, e))
  }

  ghost predicate Ok(k: Config) { F.WellFormed(k) && InRange(k) && Grouped(k) }

  lemma {:induction false} ExprNames(k: Config, e: Expr, s: Source)
    requires s in ExprSources(k, e) && s.FromCell?
    ensures var d := s.cell;
            || ((d.Tri? || d.Str?) && d.item in F.ExprIds(e))
            || (d.Vis? && d.item in F.ExprIds(e) && ItemAt(k, d.item).Choice?)
            || (d == Tri(k.modules) && exists i :: IsTristate(k, Vis(i)) && FromCell(Vis(i)) in ExprSources(k, e))
  {
    match e {
      case Ref(i) =>
        if ItemAt(k, i).Choice? && ItemAt(k, i).ty == Tristate {
          assert IsTristate(k, Vis(i)) && FromCell(Vis(i)) in ExprSources(k, e);
        }
      case And(a, b) =>
        if s in ExprSources(k, a) { ExprNames(k, a, s); } else { ExprNames(k, b, s); }
      case Or(a, b) =>
        if s in ExprSources(k, a) { ExprNames(k, a, s); } else { ExprNames(k, b, s); }
      case Not(a) => ExprNames(k, a, s);
      case Rel(op, i, j) =>
    }
  }

  /** A named item is another one the check knows of, or the item's own choice, or nothing that changes. */
  lemma NamedKind(k: Config, c: Cell, e: Cell)
    requires Ok(k) && F.IsDefined(k, c.item) && e.item in F.Uses(k, c.item)
    requires e.Tri? || e.Str? || (e.Vis? && ItemAt(k, e.item).Choice?)
    ensures Kind(k, c, e)
  {
    hide F.Uses;
    assert F.ItemOk(k, e.item) && F.ItemOk(k, c.item);
  }

  lemma PropertyKind(k: Config, c: Cell, e: Expr, s: Source)
    requires Ok(k) && F.IsDefined(k, c.item) && F.ExprIds(e) <= F.Uses(k, c.item)
    requires ExprSources(k, e) <= CellSources(k, c) && s in ExprSources(k, e) && s.FromCell?
    ensures Kind(k, c, s.cell)
  {
    hide F.Uses, ExprSources, CellSources, ConstCell, Kind, Ok, IsTristate, F.IsDefined;
    ExprNames(k, e, s);
    if s.cell.item in F.ExprIds(e) && (s.cell.Tri? || s.cell.Str? || (s.cell.Vis? && ItemAt(k, s.cell.item).Choice?)) {
      NamedKind(k, c, s.cell);
    } else {
      var i :| IsTristate(k, Vis(i)) && FromCell(Vis(i)) in ExprSources(k, e);
      ModulesKind(k, c, Vis(i));
    }
  }

  lemma ModulesKind(k: Config, c: Cell, d: Cell)
    requires IsTristate(k, d) && (d == c || FromCell(d) in CellSources(k, c))
    ensures Kind(k, c, Tri(k.modules))
  {
  }

  lemma OwnChoiceKind(k: Config, c: Cell, s: Source)
    requires Ok(k) && (c.Vis? || c.Assignable?) && ItemAt(k, c.item).Symbol?
    requires OwnChoiceSources(k, ItemAt(k, c.item)) <= CellSources(k, c)
    requires s in OwnChoiceSources(k, ItemAt(k, c.item)) && s.FromCell?
    ensures Kind(k, c, s.cell)
  {
    hide CellSources;
    assert F.ItemOk(k, c.item);
    var own := ItemAt(k, c.item).choice.value;
    if s.cell == Tri(k.modules) && ItemAt(k, own).ty == Tristate {
      assert FromCell(Vis(own)) in OwnChoiceSources(k, ItemAt(k, c.item));
      ModulesKind(k, c, Vis(own));
    }
  }

  lemma TypeKind(k: Config, c: Cell, s: Source)
    requires Ok(k) && (c.Vis? || c.Tri? || c.Assignable?) && !ConstCell(k, c)
    requires TypeSources(k, ItemAt(k, c.item)) <= CellSources(k, c)
    requires c.Tri? ==> ChoiceOf(ItemAt(k, c.item)).None?
    requires s in TypeSources(k, ItemAt(k, c.item)) && s.FromCell?
    ensures Kind(k, c, s.cell)
  {
    hide CellSources, Kind, Ok;
    if s.cell == Tri(k.modules) {
      ModulesKind(k, c, c);
    } else {
      OwnChoiceKind(k, c, s);
    }
  }

  lemma VisKind(k: Config, c: Cell, s: Source)
    requires Ok(k) && c.Vis? && s in CellSources(k, c) && s.FromCell?
    ensures Kind(k, c, s.cell)
  {
    hide ExprSources, F.Uses, Kind, OwnChoiceSources, TypeSources;
    assert F.ItemOk(k, c.item);
    var it := ItemAt(k, c.item);
    if s in AllSources(k, it.prompts) {
      var e :| e in it.prompts && s in ExprSources(k, e);
      F.PromptMentioned(k, c.item, e);
      PropertyKind(k, c, e, s);
    } else if s in TypeSources(k, it) {
      TypeKind(k, c, s);
    } else {
      ChoicesHaveNone(k, it, s);
      OwnChoiceKind(k, c, s);
    }
  }

  lemma ChoicesHaveNone(k: Config, it: Item, s: Source)
    requires s in OwnChoiceSources(k, it)
    ensures it.Symbol?
  {
  }

  lemma DefaultKind(k: Config, c: Cell, s: Source)
    requires Ok(k) && F.IsDefined(k, c.item) && ItemAt(k, c.item).Symbol?
    requires DefaultSources(k, ItemAt(k, c.item).defaults) <= CellSources(k, c)
    requires s in DefaultSources(k, ItemAt(k, c.item).defaults) && s.FromCell?
    ensures Kind(k, c, s.cell)
  {
    hide ExprSources, CellSources, F.Uses, Kind, Ok;
    var it := ItemAt(k, c.item);
    var d :| d in it.defaults && s in ExprSources(k, d.cond) + ExprSources(k, d.value);
    F.DefaultMentioned(k, c.item, d);
    if s in ExprSources(k, d.cond) {
      PropertyKind(k, c, d.cond, s);
    } else {
      PropertyKind(k, c, d.value, s);
    }
  }

  lemma DependsKind(k: Config, c: Cell, e: Expr, s: Source)
    requires Ok(k) && F.IsDefined(k, c.item) && ItemAt(k, c.item).Symbol?
    requires var it := ItemAt(k, c.item); e == it.revDep || e == it.weakRevDep || e == it.directDep
    requires ExprSources(k, e) <= CellSources(k, c) && s in ExprSources(k, e) && s.FromCell?
    ensures Kind(k, c, s.cell)
  {
    hide ExprSources, CellSources, Kind, Ok, F.IsDefined;
    assert F.ExprIds(e) <= F.Uses(k, c.item);
    PropertyKind(k, c, e, s);
  }

  lemma TriKind(k: Config, c: Cell, s: Source)
    requires Ok(k) && c.Tri? && s in CellSources(k, c) && s.FromCell?
    ensures Kind(k, c, s.cell)
  {
    hide ExprSources, DefaultSources, TypeSources;
    assert F.ItemOk(k, c.item);
    var it := ItemAt(k, c.item);
    if it.choice.Some? || s == FromCell(Vis(c.item)) {
    } else if s in TypeSources(k, it) {
      TypeKind(k, c, s);
    } else if s in DefaultSources(k, it.defaults) {
      DefaultKind(k, c, s);
    } else if s in ExprSources(k, it.revDep) {
      DependsKind(k, c, it.revDep, s);
    } else if s in ExprSources(k, it.weakRevDep) {
      DependsKind(k, c, it.weakRevDep, s);
    } else {
      DependsKind(k, c, it.directDep, s);
    }
  }

  lemma RangeKind(k: Config, c: Cell, s: Source)
    requires Ok(k) && F.IsDefined(k, c.item) && ItemAt(k, c.item).Symbol?
    requires RangeSources(k, ItemAt(k, c.item).ranges) <= CellSources(k, c)
    requires s in RangeSources(k, ItemAt(k, c.item).ranges) && s.FromCell?
    ensures Kind(k, c, s.cell)
  {
    hide ExprSources, CellSources, F.Uses, Kind, Ok;
    var it := ItemAt(k, c.item);
    var rg :| rg in it.ranges && s in ExprSources(k, rg.cond) + {FromCell(Str(rg.low)), FromCell(Str(rg.high))};
    F.RangeMentioned(k, c.item, rg);
    if s in ExprSources(k, rg.cond) {
      PropertyKind(k, c, rg.cond, s);
    } else {
      NamedKind(k, c, s.cell);
    }
  }

  lemma TextKind(k: Config, c: Cell, s: Source)
    requires Ok(k) && F.IsDefined(k, c.item) && ItemAt(k, c.item).Symbol? && !BoolLike(ItemAt(k, c.item).ty)
    requires TextSources(k, ItemAt(k, c.item).defaults) <= CellSources(k, c)
    requires s in TextSources(k, ItemAt(k, c.item).defaults) && s.FromCell?
    ensures Kind(k, c, s.cell)
  {
    hide ExprSources, CellSources, F.Uses, Kind;
    var it := ItemAt(k, c.item);
    assert F.ItemOk(k, c.item);
    var d :| d in it.defaults && s in ExprSources(k, d.cond) + {FromCell(Str(RefId(d.value)))};
    F.DefaultMentioned(k, c.item, d);
    if s in ExprSources(k, d.cond) {
      PropertyKind(k, c, d.cond, s);
    } else {
      NamedKind(k, c, s.cell);
    }
  }

  lemma StrKind(k: Config, c: Cell, s: Source)
    requires Ok(k) && c.Str? && s in CellSources(k, c) && s.FromCell?
    ensures Kind(k, c, s.cell)
  {
    hide ExprSources, RangeSources, TextSources;
    assert F.ItemOk(k, c.item);
    var it := ItemAt(k, c.item);
    if BoolLike(it.ty) || s == FromCell(Vis(c.item)) {
    } else if s in RangeSources(k, it.ranges) {
      RangeKind(k, c, s);
    } else {
      TextKind(k, c, s);
    }
  }

  lemma AssignableKind(k: Config, c: Cell, s: Source)
    requires Ok(k) && c.Assignable? && s in CellSources(k, c) && s.FromCell?
    ensures Kind(k, c, s.cell)
  {
    hide ExprSources, TypeSources;
    assert F.ItemOk(k, c.item) && F.ItemOk(k, 0);
    var it := ItemAt(k, c.item);
    if s == FromCell(Vis(c.item)) {
    } else if s in TypeSources(k, it) {
      TypeKind(k, c, s);
    } else if !it.defined {
      NIsConstant(k, s);
    } else if s in ExprSources(k, it.revDep) {
      DependsKind(k, c, it.revDep, s);
    } else {
      DependsKind(k, c, it.weakRevDep, s);
    }
  }

  lemma NIsConstant(k: Config, s: Source)
    requires Ok(k) && s in ExprSources(k, Ref(0))
    ensures s.FromCell? && s.cell == Tri(0) && ConstCell(k, Tri(0)) && 0 < |k.items|
  {
  }

  lemma MemberKind(k: Config, c: Cell, s: Id)
    requires Ok(k) && c.Selection? && ItemAt(k, c.item).Choice? && s in ItemAt(k, c.item).syms
    ensures Kind(k, c, Vis(s))
  {
    assert ChoiceOf(ItemAt(k, s)) == Some(c.item);
  }

  lemma PickKind(k: Config, c: Cell, s: Source)
    requires Ok(k) && c.Selection? && ItemAt(k, c.item).Choice?
    requires PickSources(k, ItemAt(k, c.item).choiceDefaults) <= CellSources(k, c)
    requires s in PickSources(k, ItemAt(k, c.item).choiceDefaults) && s.FromCell?
    ensures Kind(k, c, s.cell)
  {
    hide ExprSources, CellSources, F.Uses;
    var it := ItemAt(k, c.item);
    assert F.ItemOk(k, c.item);
    var d :| d in it.choiceDefaults && s in ExprSources(k, d.cond) + {FromCell(Vis(d.sym))};
    F.PickMentioned(k, c.item, d);
    if s in ExprSources(k, d.cond) {
      PropertyKind(k, c, d.cond, s);
    } else {
      MemberKind(k, c, d.sym);
    }
  }

  lemma SelectionKind(k: Config, c: Cell, s: Source)
    requires Ok(k) && c.Selection? && s in CellSources(k, c) && s.FromCell?
    ensures Kind(k, c, s.cell)
  {
    hide PickSources;
    var it := ItemAt(k, c.item);
    if s in PickSources(k, it.choiceDefaults) {
      PickKind(k, c, s);
    } else if s.cell == Tri(k.modules) && it.ty == Tristate {
      ModulesKind(k, c, c);
    } else if s in VisSources(it.syms) {
      MemberKind(k, c, s.cell.item);
    }
  }

  /** A rule reads, of its own choice or item, an earlier stage; a named item; the modules symbol on account of a
      tristate; or a constant. */
  lemma SourceKind(k: Config, c: Cell, s: Source)
    requires Ok(k) && s in CellSources(k, c) && s.FromCell?
    ensures Kind(k, c, s.cell) && !ConstCell(k, c)
  {
    hide Kind, Ok;
    match c {
      case Vis(i) => VisKind(k, c, s);
      case Tri(i) => TriKind(k, c, s);
      case Str(i) => StrKind(k, c, s);
      case Assignable(i) => AssignableKind(k, c, s);
      case Selection(i) => SelectionKind(k, c, s);
    }
  }

  // ---- what the modules symbol depends on ----

  ghost predicate IsReading(k: Config, p: seq<Cell>) {
    p != [] && forall i | 0 < i < |p| :: FromCell(p[i]) in CellSources(k, p[i - 1])
  }

  /** The value of the modules symbol may be found by way of c. */
  ghost predicate Behind(k: Config, c: Cell) {
    exists p :: IsReading(k, p) && p[0] == Tri(k.modules) && p[|p| - 1] == c
  }

  /** The modules symbol does not depend on a tristate, whose type asks for modules. */
  ghost predicate ModulesSafe(k: Config) { forall c | Behind(k, c) :: !IsTristate(k, c) }

  lemma BehindItself(k: Config)
    ensures Behind(k, Tri(k.modules))
  {
    assert IsReading(k, [Tri(k.modules)]);
  }

  lemma BehindStep(k: Config, c: Cell, e: Cell)
    requires Behind(k, c) && FromCell(e) in CellSources(k, c)
    ensures Behind(k, e)
  {
    hide CellSources;
    var p :| IsReading(k, p) && p[0] == Tri(k.modules) && p[|p| - 1] == c;
    assert IsReading(k, p + [e]);
  }

  /** What is closed under reading, and holds the modules symbol, holds all that it depends on. */
  lemma BehindStays(k: Config, cs: set<Cell>, c: Cell)
    requires Tri(k.modules) in cs && (forall d, e | d in cs && FromCell(e) in CellSources(k, d) :: e in cs)
    requires Behind(k, c)
    ensures c in cs
  {
    hide CellSources;
    var p :| IsReading(k, p) && p[0] == Tri(k.modules) && p[|p| - 1] == c;
    var i := 0;
    while i < |p| - 1
      invariant 0 <= i < |p| && p[i] in cs
    {
      i := i + 1;
      assert FromCell(p[i]) in CellSources(k, p[i - 1]);
    }
  }

  // ---- the order ----

  /** The attributes the modules symbol depends on, then all others; in each part by the height of the choice or
      item, then by stage. */
  ghost function CellRank(k: Config, h: map<Id, nat>, c: Cell): nat
    requires GroupOf(k, c.item) in h
  {
    if ConstCell(k, c) then 0
    else (if Behind(k, c) then 0 else 8 * |h.Keys|) + 8 * h[GroupOf(k, c.item)] + Stage(k, c)
  }

  ghost predicate HeightsOf(k: Config, h: map<Id, nat>) {
    && (forall x: Id | x < |k.items| :: GroupOf(k, x) in h)
    && (forall x | x in h :: h[x] < |h.Keys|)
    && (forall x: Id, j: Id | Named(k, x, j) && x < |k.items| && j < |k.items| :: h[GroupOf(k, j)] < h[GroupOf(k, x)])
  }

  lemma HeightsFit(k: Config, g: L.Graph, h: map<Id, nat>)
    requires F.WellFormed(k) && GraphOf(k, g) && L.Heights(g, h)
    ensures HeightsOf(k, h)
  {
    hide Named, F.WellFormed, L.WellFormed;
    forall x: Id | x < |k.items|
      ensures GroupOf(k, x) in h && GroupOf(k, x) == L.Group(g, x)
    {
      GroupInRange(k, x);
      assert g.kind[x] == KindOf(k.items[x]);
    }
    forall x: Id, j: Id | Named(k, x, j) && x < |k.items| && j < |k.items|
      ensures h[GroupOf(k, j)] < h[GroupOf(k, x)]
    {
      assert L.Edge(g, j, x) && L.GroupEdge(g, L.Group(g, j), L.Group(g, x));
    }
  }

  lemma GroupInRange(k: Config, x: Id)
    requires F.WellFormed(k) && x < |k.items|
    ensures GroupOf(k, x) < |k.items|
  {
    assert F.ItemOk(k, x);
  }

  /** Every attribute a rule may read comes earlier. */
  lemma ReadsEarlier(k: Config, h: map<Id, nat>, c: Cell, s: Source)
    requires Ok(k) && HeightsOf(k, h) && ModulesSafe(k)
    requires c.item < |k.items| && s in CellSources(k, c) && s.FromCell?
    ensures s.cell.item < |k.items| && CellRank(k, h, s.cell) < CellRank(k, h, c)
  {
    var e := s.cell;
    SourceKind(k, c, s);
    SourceInRange(k, c, e);
    if Behind(k, c) {
      BehindStep(k, c, e);
    }
    if e == Tri(k.modules) && AsksForModules(k, c) {
      BehindItself(k);
      NotBehind(k, c);
    }
    hide CellSources, ConstCell, Behind, AsksForModules, ModulesSafe, Ok, Named, GroupOf;
  }

  lemma SourceInRange(k: Config, c: Cell, e: Cell)
    requires Ok(k) && Kind(k, c, e)
    ensures e.item < |k.items|
  {
    hide Stage, ConstCell, AsksForModules, GroupOf, F.WellFormed, Grouped;
  }

  lemma NotBehind(k: Config, c: Cell)
    requires ModulesSafe(k) && AsksForModules(k, c)
    ensures !Behind(k, c)
  {
    hide CellSources, Behind, IsTristate;
    var d :| IsTristate(k, d) && (d == c || FromCell(d) in CellSources(k, c));
    if Behind(k, c) && d != c {
      BehindStep(k, c, d);
    }
  }

  ghost predicate Total(k: Config, r: F.Rank) { forall c: Cell | c.item < |k.items| :: c in r }

  function CellsBelow(n: nat): set<Cell> {
    (set i: Id | i < n :: Vis(i)) + (set i: Id | i < n :: Tri(i)) + (set i: Id | i < n :: Str(i))
    + (set i: Id | i < n :: Assignable(i)) + (set i: Id | i < n :: Selection(i))
  }

  lemma CellsBelowAll(n: nat, c: Cell)
    ensures c in CellsBelow(n) <==> c.item < n
  {
    match c {
      case Vis(i) =>
      case Tri(i) =>
      case Str(i) =>
      case Assignable(i) =>
      case Selection(i) =>
    }
  }

  lemma RankFrom(k: Config, h: map<Id, nat>) returns (r: F.Rank)
    requires Ok(k) && HeightsOf(k, h) && ModulesSafe(k)
    ensures F.Ordered(k, r) && Total(k, r)
  {
    hide Ok, CellRank, CellSources, ModulesSafe, CellsBelow;
    forall c
      ensures c in CellsBelow(|k.items|) <==> c.item < |k.items|
    {
      CellsBelowAll(|k.items|, c);
    }
    r := map c | c in CellsBelow(|k.items|) :: CellRank(k, h, c);
    forall c, s | c in r && s in CellSources(k, c) && s.FromCell?
      ensures s.cell in r && r[s.cell] < r[c]
    {
      ReadsEarlier(k, h, c, s);
    }
  }

  lemma {:induction false} FallsAlong(k: Config, r: F.Rank, p: seq<Cell>, i: nat)
    requires F.Ordered(k, r) && IsReading(k, p) && p[0] in r && i < |p|
    ensures p[i] in r && r[p[i]] <= r[p[0]]
  {
    hide CellSources;
    if i > 0 {
      FallsAlong(k, r, p, i - 1);
      assert F.Below(r, CellSources(k, p[i - 1]), r[p[i - 1]]) && FromCell(p[i]) in CellSources(k, p[i - 1]);
    }
  }

  /** Everything about a tristate comes after the modules symbol. */
  lemma {:induction false} ModulesFirst(k: Config, r: F.Rank, c: Cell)
    requires F.Ordered(k, r) && c in r && IsTristate(k, c)
    ensures Tri(k.modules) in r && r[Tri(k.modules)] < r[c]
    decreases Stage(k, c)
  {
    assert F.Below(r, CellSources(k, c), r[c]);
    if c.Str? {
      assert FromCell(Tri(c.item)) in CellSources(k, c);
      ModulesFirst(k, r, Tri(c.item));
    } else if c.Tri? && ItemAt(k, c.item).choice.Some? {
      assert FromCell(Vis(c.item)) in CellSources(k, c);
      ModulesFirst(k, r, Vis(c.item));
    } else {
      assert FromCell(Tri(k.modules)) in CellSources(k, c);
    }
  }

  /** The attributes of a configuration without loops can be put in order exactly when the modules symbol does not
      depend on a tristate. */
  lemma OrderExists(k: Config, g: L.Graph)
    requires F.WellFormed(k) && InRange(k) && GraphOf(k, g) && L.Acyclic(g)
    ensures (exists r :: F.Ordered(k, r) && Total(k, r)) <==> ModulesSafe(k)
  {
    hide F.Ordered, F.WellFormed, InRange, L.Acyclic, CellSources, IsTristate;
    if r :| F.Ordered(k, r) && Total(k, r) {
      forall c | Behind(k, c)
        ensures !IsTristate(k, c)
      {
        RankedIsSafe(k, r, c);
      }
    }
    if ModulesSafe(k) {
      var r := OrderFound(k, g);
    }
  }

  lemma RankedIsSafe(k: Config, r: F.Rank, c: Cell)
    requires F.Ordered(k, r) && Total(k, r) && InRange(k) && Behind(k, c)
    ensures !IsTristate(k, c)
  {
    hide F.Ordered, IsTristate, CellSources;
    var p :| IsReading(k, p) && p[0] == Tri(k.modules) && p[|p| - 1] == c;
    FallsAlong(k, r, p, |p| - 1);
    if IsTristate(k, c) {
      ModulesFirst(k, r, c);
      assert false;
    }
  }

  lemma OrderFound(k: Config, g: L.Graph) returns (r: F.Rank)
    requires F.WellFormed(k) && InRange(k) && GraphOf(k, g) && L.Acyclic(g) && ModulesSafe(k)
    ensures F.Ordered(k, r) && Total(k, r)
  {
    hide F.WellFormed, InRange, ModulesSafe, L.Acyclic, L.Heights, L.WellFormed;
    L.AcyclicIsLayered(g);
    var h :| L.Heights(g, h);
    HeightsFit(k, g, h);
    GraphIsGrouped(k, g);
    r := RankFrom(k, h);
  }

  // ---- from a parsed configuration to answers ----

  method DefinedSymbols(k: Config) returns (ids: seq<Id>)
    ensures forall x: Id :: x in ids <==> F.IsDefined(k, x) && ItemAt(k, x).Symbol?
  {
    ids := [];
    var x := 0;
    while x < |k.items|
      invariant 0 <= x <= |k.items|
      invariant forall i: Id :: i in ids <==> i < x && F.IsDefined(k, i) && ItemAt(k, i).Symbol?
    {
      if F.IsDefined(k, x) && k.items[x].Symbol? {
        ids := ids + [x];
      }
      x := x + 1;
    }
  }

  /** Where no loop hops within a choice and the modules symbol does not depend on a tristate, a configuration is
      refused exactly when its dependencies have a loop, and otherwise every session over all its attributes answers
      what cache-free evaluation answers. */
  method CheckedSession(k: Config, g: L.Graph, ops: seq<C.Op>)
    returns (res: L.Result, answers: seq<Value>, ghost r: F.Rank)
    requires F.WellFormed(k) && InRange(k) && GraphOf(k, g) && L.HopFree(g) && ModulesSafe(k)
    requires forall op | op in ops :: C.OpOk(k, op) && (op.Ask? ==> op.c.item < |k.items|)
    ensures res.NoLoop? <==> L.Acyclic(g)
    ensures !res.NoLoop? ==> res.Raised? && L.IsChain(g, res.loop) && L.Link(g, res.loop[0], res.loop[|res.loop| - 1])
    ensures res.NoLoop? ==> F.Ordered(k, r) && Total(k, r) && answers == C.Answers(k, r, map[], ops)
  {
    hide F.WellFormed, InRange, ModulesSafe, C.OpOk, C.Answers, F.Ordered;
    hide L.IsChain, L.HopFree, L.Acyclic, L.WellFormed, L.SearchAll;
    var starts := DefinedSymbols(k);
    StartsFit(k, g, starts);
    answers := [];
    r := map[];
    res := L.CheckAll(g, starts);
    if res.NoLoop? {
      r := OrderFound(k, g);
      answers := C.Session(k, r, ops);
    }
  }

  lemma StartsFit(k: Config, g: L.Graph, starts: seq<Id>)
    requires GraphOf(k, g) && forall x: Id :: x in starts <==> F.IsDefined(k, x) && ItemAt(k, x).Symbol?
    ensures forall s | s in starts :: L.IsSym(g, s)
    ensures forall v: Id, w: Id | L.IsSym(g, v) && L.Edge(g, v, w) :: v in starts
  {
    hide L.WellFormed, F.Uses;
    forall s | s in starts
      ensures L.IsSym(g, s)
    {
      assert g.kind[s] == KindOf(k.items[s]);
    }
    forall v: Id, w: Id | L.IsSym(g, v) && L.Edge(g, v, w)
      ensures v in starts
    {
      assert Named(k, w, v) && g.kind[v] == KindOf(k.items[v]);
    }
  }
}
