/** The value rules of scripts/kconfiglib.py as pure functions: what a visibility, a value or a choice selection
    is, given the values of the other items and the user's assignments. Every rule also returns what it read,
    because the rules short-circuit and the cache relies on exactly that. */
module KValues {
  import opened Basics

  type Id = nat

  datatype Type = Unknown | Bool | Tristate | Text | Int | Hex

  datatype RelOp = Equal | Unequal | Less | LessEqual | Greater | GreaterEqual

  datatype Expr =
    | Ref(id: Id)
    | And(left: Expr, right: Expr)
    | Or(left: Expr, right: Expr)
    | Not(arg: Expr)
    | Rel(op: RelOp, lhs: Id, rhs: Id)

  datatype Default = Default(value: Expr, cond: Expr)
  datatype Range = Range(low: Id, high: Id, cond: Expr)
  datatype ChoiceDefault = ChoiceDefault(sym: Id, cond: Expr)

  /** prompts holds the condition of every menu node that has a prompt. fixed is the value of the constant
      symbols n, m and y. Symbols without a definition (and quoted constants) carry no properties. */
  datatype Item =
    | Symbol(name: string, ty: Type, fixed: Option<int>, defined: bool, prompts: seq<Expr>,
             defaults: seq<Default>, ranges: seq<Range>, revDep: Expr, weakRevDep: Expr, directDep: Expr,
             choice: Option<Id>)
    | Choice(ty: Type, optional: bool, prompts: seq<Expr>, choiceDefaults: seq<ChoiceDefault>, syms: seq<Id>)

  /** The cached attributes of an item. */
  datatype Cell = Vis(item: Id) | Tri(item: Id) | Str(item: Id) | Assignable(item: Id) | Selection(item: Id)

  /** A cached value. Values of symbols carry the flag that decides whether the symbol goes to .config. */
  datatype Value =
    | Level(n: int)
    | TriValue(n: int, write: bool)
    | StrValue(s: string, write: bool)
    | Levels(ns: seq<int>)
    | Picked(sym: Option<Id>)

  datatype UserValue = UserTri(n: int) | UserText(s: string)

  /** What the user assigned: a value (the mode, for a choice), and for a choice the selected symbol. */
  datatype User = User(value: Option<UserValue>, selection: Option<Id>)

  type Users = map<Id, User>
  type Env = map<Cell, Value>

  /** Number parsing and printing of the host language: any parser, any printer. */
  datatype Numbers = Numbers(parse: (string, int) -> Option<int>, show: (Type, int) -> string)

  datatype Config = Config(items: seq<Item>, modules: Id, numbers: Numbers)

  const NO_SYMBOL: Item := Symbol("", Unknown, None, false, [], [], [], Ref(0), Ref(0), Ref(0), None)

  function ItemAt(k: Config, i: Id): Item {
    if i < |k.items| then k.items[i] else NO_SYMBOL
  }

  function UserAt(u: Users, i: Id): User {
    if i in u then u[i] else User(None, None)
  }

  /** Something a rule looked at: a cached attribute, or the user's assignment to an item. */
  datatype Source = FromCell(cell: Cell) | FromUser(id: Id)

  datatype Out<+T> = Out(val: T, src: set<Source>)

  // ---- looking up attributes ----

  function LevelAt(env: Env, c: Cell): int {
    if c in env && env[c].Level? then env[c].n else if c in env && env[c].TriValue? then env[c].n else 0
  }

  function TextAt(env: Env, c: Cell): string {
    if c in env && env[c].StrValue? then env[c].s else ""
  }

  function Max(a: int, b: int): int { if a < b then b else a }

  function Read(env: Env, c: Cell): Out<int> { Out(LevelAt(env, c), {FromCell(c)}) }

  function ReadText(env: Env, c: Cell): Out<string> { Out(TextAt(env, c), {FromCell(c)}) }

  predicate BoolLike(t: Type) { t == Bool || t == Tristate }

  function UserLevel(v: UserValue): int { if v.UserTri? then v.n else 0 }

  function UserString(v: UserValue): string { if v.UserText? then v.s else "" }

  // ---- choices as expression operands ----

  function ChoiceTri(k: Config, u: Users, env: Env, c: Id): Out<int> {
    var it := ItemAt(k, c);
    if !it.Choice? then Out(0, {}) else
    var start := if it.optional then 0 else 1;
    var user := UserAt(u, c).value;
    var wanted := if user.Some? then Max(start, UserLevel(user.value)) else start;
    var vis := Read(env, Vis(c));
    var val := Min(wanted, vis.val);
    var src := {FromUser(c)} + vis.src;
    if val != 1 then Out(val, src)
    else if it.ty == Bool then Out(2, src)
    else if it.ty != Tristate then Out(1, src)
    else
      var m := Read(env, Tri(k.modules));
      Out(if m.val == 0 then 2 else 1, src + m.src)
  }

  function ItemTri(k: Config, u: Users, env: Env, i: Id): Out<int> {
    if ItemAt(k, i).Choice? then ChoiceTri(k, u, env, i) else Read(env, Tri(i))
  }

  // ---- expressions ----

  function Base(t: Type): int {
    match t case Hex => 16 case Int => 10 case _ => 0
  }

  function Compare(a: string, b: string): int {
    if a == b then 0
    else if a == [] then -1
    else if b == [] then 1
    else if a[0] < b[0] then -1
    else if b[0] < a[0] then 1
    else Compare(a[1..], b[1..])
  }

  function Number(k: Config, env: Env, i: Id): Out<Option<int>> {
    var t := ItemAt(k, i).ty;
    if BoolLike(t) then var x := Read(env, Tri(i)); Out(Some(x.val), x.src)
    else var x := ReadText(env, Str(i)); Out(k.numbers.parse(x.val, Base(t)), x.src)
  }

  function TextOrder(env: Env, i: Id, j: Id): Out<int> {
    var a, b := ReadText(env, Str(i)), ReadText(env, Str(j));
    Out(Compare(a.val, b.val), a.src + b.src)
  }

  /** Two strings compare as text; anything else as numbers, falling back to text if either is no number. */
  function Order(k: Config, env: Env, i: Id, j: Id): Out<int> {
    if ItemAt(k, i).ty == Text && ItemAt(k, j).ty == Text then TextOrder(env, i, j) else
    var a := Number(k, env, i);
    if a.val.None? then var t := TextOrder(env, i, j); Out(t.val, a.src + t.src) else
    var b := Number(k, env, j);
    if b.val.None? then var t := TextOrder(env, i, j); Out(t.val, a.src + b.src + t.src)
    else Out(a.val.value - b.val.value, a.src + b.src)
  }

  predicate Holds(op: RelOp, order: int) {
    match op
    case Equal => order == 0
    case Unequal => order != 0
    case Less => order < 0
    case LessEqual => order <= 0
    case Greater => order > 0
    case GreaterEqual => order >= 0
  }

  function ExprVal(k: Config, u: Users, env: Env, e: Expr): Out<int> {
    match e
    case Ref(i) => ItemTri(k, u, env, i)
    case And(a, b) =>
      var x := ExprVal(k, u, env, a);
      if x.val == 0 then x else
      var y := ExprVal(k, u, env, b);
      Out(Min(x.val, y.val), x.src + y.src)
    case Or(a, b) =>
      var x := ExprVal(k, u, env, a);
      if x.val == 2 then x else
      var y := ExprVal(k, u, env, b);
      Out(Max(x.val, y.val), x.src + y.src)
    case Not(a) =>
      var x := ExprVal(k, u, env, a);
      Out(2 - x.val, x.src)
    case Rel(op, i, j) =>
      var x := Order(k, env, i, j);
      Out(if Holds(op, x.val) then 2 else 0, x.src)
  }

  // ---- types and visibilities ----

  function ChoiceOf(it: Item): Option<Id> { if it.Symbol? then it.choice else None }

  /** The type in effect: tristate falls back to bool in a y-mode choice, or without modules. */
  function TypeOf(k: Config, u: Users, env: Env, i: Id): Out<Type> {
    var it := ItemAt(k, i);
    if it.ty != Tristate then Out(it.ty, {}) else
    var c := if ChoiceOf(it).Some? then ChoiceTri(k, u, env, ChoiceOf(it).value) else Out(0, {});
    if c.val == 2 then Out(Bool, c.src) else
    var m := Read(env, Tri(k.modules));
    Out(if m.val == 0 then Bool else Tristate, c.src + m.src)
  }

  function MaxOf(k: Config, u: Users, env: Env, ps: seq<Expr>, acc: int): Out<int> {
    if ps == [] then Out(acc, {}) else
    var x := ExprVal(k, u, env, ps[0]);
    var r := MaxOf(k, u, env, ps[1..], Max(acc, x.val));
    Out(r.val, x.src + r.src)
  }

  /** The m level counts as y for everything that is not a tristate. */
  function Promoted(k: Config, u: Users, env: Env, i: Id, vis: int): Out<int> {
    if vis != 1 then Out(vis, {}) else
    var t := TypeOf(k, u, env, i);
    Out(if t.val == Tristate then 1 else 2, t.src)
  }

  /** True when the choice a symbol sits in hides it, at visibility vis. */
  function HiddenInChoice(k: Config, u: Users, env: Env, i: Id, vis: int): Out<bool> {
    var it := ItemAt(k, i);
    if ChoiceOf(it).None? then Out(false, {}) else
    var c := ChoiceOf(it).value;
    if ItemAt(k, c).ty == Tristate && it.ty != Tristate then
      var x := ChoiceTri(k, u, env, c);
      Out(x.val != 2, x.src)
    else if it.ty == Tristate && vis == 1 then
      var x := ChoiceTri(k, u, env, c);
      Out(x.val == 2, x.src)
    else Out(false, {})
  }

  function VisVal(k: Config, u: Users, env: Env, i: Id): Out<int> {
    var p := MaxOf(k, u, env, ItemAt(k, i).prompts, 0);
    var h := HiddenInChoice(k, u, env, i, p.val);
    if h.val then Out(0, p.src + h.src) else
    var q := Promoted(k, u, env, i, p.val);
    Out(q.val, p.src + h.src + q.src)
  }

  // ---- values of bool and tristate symbols ----

  function FirstDefault(k: Config, u: Users, env: Env, ds: seq<Default>): Out<int> {
    if ds == [] then Out(0, {}) else
    var c := ExprVal(k, u, env, ds[0].cond);
    if c.val != 0 then
      var v := ExprVal(k, u, env, ds[0].value);
      Out(Min(v.val, c.val), c.src + v.src)
    else
      var r := FirstDefault(k, u, env, ds[1..]);
      Out(r.val, c.src + r.src)
  }

  /** Defaults, and implies whose target has its direct dependencies met. */
  function Suggested(k: Config, u: Users, env: Env, it: Item): Out<(int, bool)>
    requires it.Symbol?
  {
    var d := FirstDefault(k, u, env, it.defaults);
    var w := ExprVal(k, u, env, it.weakRevDep);
    if w.val == 0 then Out((d.val, d.val != 0), d.src + w.src) else
    var p := ExprVal(k, u, env, it.directDep);
    if p.val == 0 then Out((d.val, d.val != 0), d.src + w.src + p.src)
    else Out((Max(w.val, d.val), true), d.src + w.src + p.src)
  }

  /** The user's value within the visibility, or else what is suggested; with the write flag. */
  function Proposed(k: Config, u: Users, env: Env, i: Id, it: Item, vis: int): Out<(int, bool)>
    requires it.Symbol?
  {
    if vis == 0 then Suggested(k, u, env, it) else
    var user := UserAt(u, i).value;
    if user.Some? then Out((Min(UserLevel(user.value), vis), true), {FromUser(i)}) else
    var s := Suggested(k, u, env, it);
    Out((s.val.0, true), {FromUser(i)} + s.src)
  }

  function PlainTri(k: Config, u: Users, env: Env, i: Id, it: Item): Out<Value>
    requires it.Symbol?
  {
    var vis := Read(env, Vis(i));
    var a := Proposed(k, u, env, i, it, vis.val);
    var r := ExprVal(k, u, env, it.revDep);
    var src := vis.src + a.src + r.src;
    var val := if r.val == 0 then a.val.0 else Max(r.val, a.val.0);
    var write := a.val.1 || r.val != 0;
    if val != 1 then Out(TriValue(val, write), src) else
    var t := TypeOf(k, u, env, i);
    if t.val == Bool then Out(TriValue(2, write), src + t.src) else
    var w := ExprVal(k, u, env, it.weakRevDep);
    Out(TriValue(if w.val == 2 then 2 else 1, write), src + t.src + w.src)
  }

  function ChoiceSymTri(k: Config, u: Users, env: Env, i: Id, c: Id): Out<Value> {
    var vis := Read(env, Vis(i));
    if vis.val == 2 then
      var cell := Selection(c);
      var picked := if cell in env && env[cell].Picked? then env[cell].sym else None;
      Out(TriValue(if picked == Some(i) then 2 else 0, true), vis.src + {FromCell(cell)})
    else if vis.val != 0 then
      var user := UserAt(u, i).value;
      Out(TriValue(if user.Some? && UserLevel(user.value) != 0 then 1 else 0, true), vis.src + {FromUser(i)})
    else Out(TriValue(0, false), vis.src)
  }

  function TriVal(k: Config, u: Users, env: Env, i: Id): Out<Value> {
    var it := ItemAt(k, i);
    if !it.Symbol? || !BoolLike(it.ty) then Out(TriValue(0, false), {})
    else if it.fixed.Some? then Out(TriValue(it.fixed.value, false), {})
    else if it.choice.Some? then ChoiceSymTri(k, u, env, i, it.choice.value)
    else PlainTri(k, u, env, i, it)
  }

  // ---- values of string, int and hex symbols ----

  function TriText(n: int): string { if n == 2 then "y" else if n == 1 then "m" else "n" }

  function RefId(e: Expr): Id { if e.Ref? then e.id else 0 }

  /** The first default in effect. The defaults of these symbols are plain symbols. */
  function FirstText(k: Config, u: Users, env: Env, ds: seq<Default>): Out<Option<string>> {
    if ds == [] then Out(None, {}) else
    var c := ExprVal(k, u, env, ds[0].cond);
    if c.val != 0 then
      var v := ReadText(env, Str(RefId(ds[0].value)));
      Out(Some(v.val), c.src + v.src)
    else
      var r := FirstText(k, u, env, ds[1..]);
      Out(r.val, c.src + r.src)
  }

  function NumberOr0(k: Config, s: string, b: int): int {
    var n := k.numbers.parse(s, b);
    if n.Some? then n.value else 0
  }

  datatype Bounds = Bounds(low: int, high: int)

  function FirstRange(k: Config, u: Users, env: Env, rs: seq<Range>, b: int): Out<Option<Bounds>> {
    if rs == [] then Out(None, {}) else
    var c := ExprVal(k, u, env, rs[0].cond);
    if c.val != 0 then
      var lo, hi := ReadText(env, Str(rs[0].low)), ReadText(env, Str(rs[0].high));
      Out(Some(Bounds(NumberOr0(k, lo.val, b), NumberOr0(k, hi.val, b))), c.src + lo.src + hi.src)
    else
      var r := FirstRange(k, u, env, rs[1..], b);
      Out(r.val, c.src + r.src)
  }

  predicate InBounds(b: Option<Bounds>, n: int) { b.None? || b.value.low <= n <= b.value.high }

  /** The user's text, if the symbol is visible and it is a number the active range admits. */
  function UserNumber(k: Config, u: Users, i: Id, vis: int, b: int, range: Option<Bounds>): Out<Option<string>> {
    if vis == 0 then Out(None, {}) else
    var user := UserAt(u, i).value;
    Out(if user.None? || UserString(user.value) == "" then None
        else if InBounds(range, NumberOr0(k, UserString(user.value), b)) then Some(UserString(user.value))
        else None,
        {FromUser(i)})
  }

  /** A default (or nothing), moved into the active range. */
  function Clamped(k: Config, t: Type, text: Option<string>, range: Option<Bounds>): string {
    var val := if text.Some? then text.value else "";
    var n := NumberOr0(k, val, Base(t));
    if range.None? then val
    else if n < range.value.low then k.numbers.show(t, range.value.low)
    else if n > range.value.high then k.numbers.show(t, range.value.high)
    else val
  }

  function NumberVal(k: Config, u: Users, env: Env, i: Id, it: Item): Out<Value>
    requires it.Symbol?
  {
    var vis := Read(env, Vis(i));
    var range := FirstRange(k, u, env, it.ranges, Base(it.ty));
    var mine := UserNumber(k, u, i, vis.val, Base(it.ty), range.val);
    var src := vis.src + range.src + mine.src;
    if mine.val.Some? then Out(StrValue(mine.val.value, true), src) else
    var d := FirstText(k, u, env, it.defaults);
    Out(StrValue(Clamped(k, it.ty, d.val, range.val), vis.val != 0 || d.val.Some?), src + d.src)
  }

  function TextVal(k: Config, u: Users, env: Env, i: Id, it: Item): Out<Value>
    requires it.Symbol?
  {
    var vis := Read(env, Vis(i));
    var user := UserAt(u, i).value;
    if vis.val != 0 && user.Some? then Out(StrValue(UserString(user.value), true), vis.src + {FromUser(i)}) else
    var d := FirstText(k, u, env, it.defaults);
    Out(StrValue(if d.val.Some? then d.val.value else "", vis.val != 0 || d.val.Some?),
        vis.src + (if vis.val != 0 then {FromUser(i)} else {}) + d.src)
  }

  function StrVal(k: Config, u: Users, env: Env, i: Id): Out<Value> {
    var it := ItemAt(k, i);
    if !it.Symbol? then Out(StrValue("", false), {})
    else if it.fixed.Some? then Out(StrValue(TriText(it.fixed.value), false), {})
    else if BoolLike(it.ty) then
      var cell := Tri(i);
      Out(StrValue(TriText(LevelAt(env, cell)), cell in env && env[cell].TriValue? && env[cell].write), {FromCell(cell)})
    else if it.ty == Unknown then Out(StrValue(it.name, false), {})
    else if it.ty == Text then TextVal(k, u, env, i, it)
    else NumberVal(k, u, env, i, it)
  }

  // ---- assignable values and choice selections ----

  function SymAssignable(k: Config, u: Users, env: Env, i: Id, it: Item): Out<Value>
    requires it.Symbol?
  {
    if !BoolLike(it.ty) then Out(Levels([]), {}) else
    var vis := Read(env, Vis(i));
    if vis.val == 0 then Out(Levels([]), vis.src) else
    var r := ExprVal(k, u, env, it.revDep);
    var src := vis.src + r.src;
    if vis.val == 2 then
      if it.choice.Some? then Out(Levels([2]), src)
      else if r.val == 2 then Out(Levels([2]), src) else
      var t := TypeOf(k, u, env, i);
      var w := if t.val == Bool then Out(2, {}) else ExprVal(k, u, env, it.weakRevDep);
      Out(Levels(if r.val == 0 then (if w.val == 2 then [0, 2] else [0, 1, 2])
                 else if w.val == 2 then [2] else [1, 2]),
          src + t.src + w.src)
    else if r.val == 0 then
      var w := ExprVal(k, u, env, it.weakRevDep);
      Out(Levels(if w.val != 2 then [0, 1] else [0, 2]), src + w.src)
    else Out(Levels(if r.val == 2 then [2] else [1]), src)
  }

  function ChoiceAssignable(k: Config, u: Users, env: Env, i: Id, it: Item): Out<Value>
    requires it.Choice?
  {
    var vis := Read(env, Vis(i));
    if vis.val == 0 then Out(Levels([]), vis.src)
    else if vis.val == 2 then
      var t := TypeOf(k, u, env, i);
      Out(Levels(if it.optional then (if t.val == Bool then [0, 2] else [0, 1, 2])
                 else if t.val == Bool then [2] else [1, 2]),
          vis.src + t.src)
    else Out(Levels(if it.optional then [0, 1] else [1]), vis.src)
  }

  function AssignableVal(k: Config, u: Users, env: Env, i: Id): Out<Value> {
    var it := ItemAt(k, i);
    if it.Symbol? then SymAssignable(k, u, env, i, it) else ChoiceAssignable(k, u, env, i, it)
  }

  function DefaultPick(k: Config, u: Users, env: Env, ds: seq<ChoiceDefault>): Out<Option<Id>> {
    if ds == [] then Out(None, {}) else
    var c := ExprVal(k, u, env, ds[0].cond);
    if c.val == 0 then var r := DefaultPick(k, u, env, ds[1..]); Out(r.val, c.src + r.src) else
    var v := Read(env, Vis(ds[0].sym));
    if v.val != 0 then Out(Some(ds[0].sym), c.src + v.src) else
    var r := DefaultPick(k, u, env, ds[1..]);
    Out(r.val, c.src + v.src + r.src)
  }

  function VisiblePick(env: Env, syms: seq<Id>): Out<Option<Id>> {
    if syms == [] then Out(None, {}) else
    var v := Read(env, Vis(syms[0]));
    if v.val != 0 then Out(Some(syms[0]), v.src) else
    var r := VisiblePick(env, syms[1..]);
    Out(r.val, v.src + r.src)
  }

  function PickFromDefaults(k: Config, u: Users, env: Env, it: Item): Out<Value>
    requires it.Choice?
  {
    var d := DefaultPick(k, u, env, it.choiceDefaults);
    if d.val.Some? then Out(Picked(d.val), d.src) else
    var v := VisiblePick(env, it.syms);
    Out(Picked(v.val), d.src + v.src)
  }

  function SelectionVal(k: Config, u: Users, env: Env, c: Id): Out<Value> {
    var it := ItemAt(k, c);
    if !it.Choice? then Out(Picked(None), {}) else
    var mode := ChoiceTri(k, u, env, c);
    if mode.val != 2 then Out(Picked(None), mode.src) else
    var mine := UserAt(u, c).selection;
    var v := if mine.Some? then Read(env, Vis(mine.value)) else Out(0, {});
    if v.val != 0 then Out(Picked(mine), mode.src + v.src) else
    var d := PickFromDefaults(k, u, env, it);
    Out(d.val, mode.src + v.src + d.src)
  }

  /** The rule for each attribute. */
  function Compute(k: Config, u: Users, env: Env, c: Cell): Out<Value> {
    match c
    case Vis(i) => var x := VisVal(k, u, env, i); Out(Level(x.val), x.src)
    case Tri(i) => TriVal(k, u, env, i)
    case Str(i) => StrVal(k, u, env, i)
    case Assignable(i) => AssignableVal(k, u, env, i)
    case Selection(i) => SelectionVal(k, u, env, i)
  }
}
