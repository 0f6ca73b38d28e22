/** Printing Kconfig expressions and parsing them back (scripts/kconfiglib.py), on tokens. */
module KParse {
  import opened Basics
  import opened KValues

  datatype Token = TSym(id: Id) | TAnd | TOr | TNot | TOpen | TClose | TRel(op: RelOp) | TOther

  // ---- the printer ----

  function Print(e: Expr): seq<Token>
    decreases e, 0
  {
    match e
    case Ref(i) => [TSym(i)]
    case And(a, b) => PrintInAnd(a) + [TAnd] + PrintInAnd(b)
    case Or(a, b) => PrintInOr(a) + [TOr] + PrintInOr(b)
    case Not(a) => if a.Ref? then [TNot, TSym(a.id)] else [TNot] + ([TOpen] + Print(a) + [TClose])
    case Rel(op, i, j) => [TSym(i), TRel(op), TSym(j)]
  }

  /** Operands of && keep their parentheses only around ||, operands of || only around &&. */
  function PrintInAnd(e: Expr): seq<Token>
    decreases e, 1
  {
    if e.Or? then [TOpen] + Print(e) + [TClose] else Print(e)
  }

  function PrintInOr(e: Expr): seq<Token>
    decreases e, 1
  {
    if e.And? then [TOpen] + Print(e) + [TClose] else Print(e)
  }

  // ---- the parser, as a function of the tokens left ----

  datatype Parsed = Fail | Done(expr: Expr, rest: seq<Token>)

  predicate Next(ts: seq<Token>, t: Token) { ts != [] && ts[0] == t }

  predicate NextIsRel(ts: seq<Token>) { ts != [] && ts[0].TRel? }

  function ParseE(ts: seq<Token>): (p: Parsed)
    ensures p.Done? ==> |p.rest| < |ts|
    decreases |ts|, 2
  {
    var a := ParseA(ts);
    if a.Done? && Next(a.rest, TOr) then
      var b := ParseE(a.rest[1..]);
      if b.Fail? then Fail else Done(Or(a.expr, b.expr), b.rest)
    else a
  }

  function ParseA(ts: seq<Token>): (p: Parsed)
    ensures p.Done? ==> |p.rest| < |ts|
    decreases |ts|, 1
  {
    var f := ParseF(ts);
    if f.Done? && Next(f.rest, TAnd) then
      var b := ParseA(f.rest[1..]);
      if b.Fail? then Fail else Done(And(f.expr, b.expr), b.rest)
    else f
  }

  function ParseF(ts: seq<Token>): (p: Parsed)
    ensures p.Done? ==> |p.rest| < |ts|
    decreases |ts|, 0
  {
    if ts == [] then Fail
    else match ts[0]
      case TSym(i) =>
        if !NextIsRel(ts[1..]) then Done(Ref(i), ts[1..])
        else if |ts| >= 3 && ts[2].TSym? then Done(Rel(ts[1].op, i, ts[2].id), ts[3..])
        else Fail
      case TNot =>
        var f := ParseF(ts[1..]);
        if f.Fail? then Fail else Done(Not(f.expr), f.rest)
      case TOpen =>
        var e := ParseE(ts[1..]);
        if e.Done? && Next(e.rest, TClose) then Done(e.expr, e.rest[1..]) else Fail
      case _ => Fail
  }

  /** In conditions, m stands for m && MODULES. */
  datatype Transform = Keep | Rewrite(m: Id, modules: Id)

  function Leaf(tm: Transform, i: Id): Expr {
    if tm.Rewrite? && i == tm.m then And(Ref(tm.m), Ref(tm.modules)) else Ref(i)
  }

  /** The expression with every m rewritten, other than those in comparisons. */
  function Rewritten(tm: Transform, e: Expr): Expr {
    match e
    case Ref(i) => Leaf(tm, i)
    case And(a, b) => And(Rewritten(tm, a), Rewritten(tm, b))
    case Or(a, b) => Or(Rewritten(tm, a), Rewritten(tm, b))
    case Not(a) => Not(Rewritten(tm, a))
    case Rel(op, i, j) => e
  }

  /** The recursive-descent parser of the source, with its token cursor. */
  class Parser {
    const tokens: seq<Token>
    const tm: Transform
    var i: nat

    constructor (tokens: seq<Token>, tm: Transform)
      ensures this.tokens == tokens && this.tm == tm && i == 0
    {
      this.tokens, this.tm := tokens, tm;
      i := 0;
    }

    predicate Ok()
      reads this
    {
      i <= |tokens|
    }

    function Left(): seq<Token>
      requires Ok()
      reads this
    {
      tokens[i..]
    }

    method CheckToken(t: Token) returns (found: bool)
      requires Ok()
      modifies `i
      ensures Ok() && found == Next(old(Left()), t)
      ensures Left() == if found then old(Left())[1..] else old(Left())
    {
      found := i < |tokens| && tokens[i] == t;
      if found {
        i := i + 1;
      }
    }

    method ParseExpr() returns (r: Option<Expr>)
      requires Ok()
      modifies `i
      ensures Ok() && i >= old(i)
      ensures var p := ParseE(old(Left()));
              if p.Fail? then r == None else r == Some(Rewritten(tm, p.expr)) && Left() == p.rest
      decreases |tokens| - i, 2
    {
      r := ParseAndExpr();
      if r.Some? {
        var more := CheckToken(TOr);
        if more {
          var rest := ParseExpr();
          r := if rest.None? then None else Some(Or(r.value, rest.value));
        }
      }
    }

    method ParseAndExpr() returns (r: Option<Expr>)
      requires Ok()
      modifies `i
      ensures Ok() && i >= old(i)
      ensures var p := ParseA(old(Left()));
              if p.Fail? then r == None else r == Some(Rewritten(tm, p.expr)) && Left() == p.rest
      decreases |tokens| - i, 1
    {
      r := ParseFactor();
      if r.Some? {
        var more := CheckToken(TAnd);
        if more {
          var rest := ParseAndExpr();
          r := if rest.None? then None else Some(And(r.value, rest.value));
        }
      }
    }

    method ParseFactor() returns (r: Option<Expr>)
      requires Ok()
      modifies `i
      ensures Ok() && i >= old(i)
      ensures var p := ParseF(old(Left()));
              if p.Fail? then r == None else r == Some(Rewritten(tm, p.expr)) && Left() == p.rest
      decreases |tokens| - i, 0
    {
      if i == |tokens| {
        return None;
      }
      var token := tokens[i];
      i := i + 1;
      assert Left() == old(Left())[1..];
      match token {
        case TSym(s) =>
          if i == |tokens| || !tokens[i].TRel? {
            return Some(Leaf(tm, s));
          }
          var op := tokens[i].op;
          i := i + 1;
          if i == |tokens| || !tokens[i].TSym? {
            return None;
          }
          i := i + 1;
          r := Some(Rel(op, s, tokens[i - 1].id));
        case TNot =>
          r := ParseFactor();
          r := if r.None? then None else Some(Not(r.value));
        case TOpen =>
          r := ParseExpr();
          if r.Some? {
            var closed := CheckToken(TClose);
            if !closed {
              r := None;
            }
          }
        case _ =>
          r := None;
      }
    }
  }

  // ---- the right-associated form ----

  function AndJoin(x: Expr, y: Expr): Expr { if x.And? then And(x.left, AndJoin(x.right, y)) else And(x, y) }

  function OrJoin(x: Expr, y: Expr): Expr { if x.Or? then Or(x.left, OrJoin(x.right, y)) else Or(x, y) }

  /** The same operands in the same order, with chains of one operator nested to the right. */
  function RightForm(e: Expr): (r: Expr)
    ensures r.And? == e.And? && r.Or? == e.Or? && r.Not? == e.Not?
    ensures (e.Ref? || e.Rel?) ==> r == e
  {
    match e
    case And(a, b) => AndJoin(RightForm(a), RightForm(b))
    case Or(a, b) => OrJoin(RightForm(a), RightForm(b))
    case Not(a) => Not(RightForm(a))
    case _ => e
  }

  lemma {:induction false} AndJoinAssoc(x: Expr, y: Expr, z: Expr)
    ensures AndJoin(AndJoin(x, y), z) == AndJoin(x, AndJoin(y, z))
  {
    if x.And? {
      AndJoinAssoc(x.right, y, z);
    }
  }

  lemma {:induction false} OrJoinAssoc(x: Expr, y: Expr, z: Expr)
    ensures OrJoin(OrJoin(x, y), z) == OrJoin(x, OrJoin(y, z))
  {
    if x.Or? {
      OrJoinAssoc(x.right, y, z);
    }
  }

  // ---- parsing what was printed ----

  predicate Stops(rest: seq<Token>) { !Next(rest, TAnd) && !Next(rest, TOr) && !NextIsRel(rest) }

  function Continue(join: (Expr, Expr) -> Expr, x: Expr, q: Parsed): Parsed {
    if q.Fail? then Fail else Done(join(x, q.expr), q.rest)
  }

  /** A parenthesised expression is a factor, if what is inside parses. */
  lemma ParenFactor(e: Expr, r: Expr, rest: seq<Token>)
    requires ParseE(Print(e) + ([TClose] + rest)) == Done(r, [TClose] + rest)
    ensures ParseF([TOpen] + Print(e) + [TClose] + rest) == Done(r, rest)
  {
    hide Print, ParseE;
    var ts := [TOpen] + Print(e) + [TClose] + rest;
    assert ts[0] == TOpen && ts[1..] == Print(e) + ([TClose] + rest);
    assert ([TClose] + rest)[1..] == rest;
  }

  lemma NotFactor(inner: seq<Token>, r: Expr, rest: seq<Token>)
    requires ParseF(inner) == Done(r, rest)
    ensures ParseF([TNot] + inner) == Done(Not(r), rest)
  {
    var ts := [TNot] + inner;
    assert ts[0] == TNot && ts[1..] == inner;
    hide ParseE;
  }

  lemma RelFactor(op: RelOp, i: Id, j: Id, rest: seq<Token>)
    ensures ParseF([TSym(i), TRel(op), TSym(j)] + rest) == Done(Rel(op, i, j), rest)
  {
    hide ParseE;
    var ts := [TSym(i), TRel(op), TSym(j)] + rest;
    assert ts[0] == TSym(i) && ts[1] == TRel(op) && ts[2] == TSym(j) && ts[3..] == rest && ts[1..][0] == TRel(op);
  }

  lemma {:induction false} FactorBack(e: Expr, rest: seq<Token>)
    requires !e.And? && !NextIsRel(rest)
    ensures ParseF(PrintInAnd(e) + rest) == Done(RightForm(e), rest)
    decreases e, if e.Or? then 3 else 0
  {
    match e {
      case Ref(i) =>
        assert PrintInAnd(e) == [TSym(i)] && ([TSym(i)] + rest)[1..] == rest;
      case Rel(op, i, j) => RelFactor(op, i, j, rest);
      case Or(a, b) =>
        ExprBack(e, [TClose] + rest);
        ParenFactor(e, RightForm(e), rest);
      case Not(a) => NotBack(a, rest);
    }
  }

  lemma {:induction false} NotBack(a: Expr, rest: seq<Token>)
    requires !NextIsRel(rest)
    ensures ParseF(Print(Not(a)) + rest) == Done(Not(RightForm(a)), rest)
    decreases a, 5
  {
    hide ParseF, ParseE;
    if a.Ref? {
      FactorBack(a, rest);
      NotFactor(PrintInAnd(a) + rest, RightForm(a), rest);
      assert Print(Not(a)) + rest == [TNot] + (PrintInAnd(a) + rest);
    } else {
      ExprBack(a, [TClose] + rest);
      ParenFactor(a, RightForm(a), rest);
      NotFactor([TOpen] + Print(a) + [TClose] + rest, RightForm(a), rest);
      assert Print(Not(a)) + rest == [TNot] + ([TOpen] + Print(a) + [TClose] + rest);
    }
  }

  /** An operand of &&: it parses alone, or joins the chain that follows it. */
  lemma {:induction false} AndBack(e: Expr, rest: seq<Token>)
    requires !NextIsRel(rest)
    ensures Next(rest, TAnd) ==>
              ParseA(PrintInAnd(e) + rest) == Continue(AndJoin, RightForm(e), ParseA(rest[1..]))
    ensures !Next(rest, TAnd) ==> ParseA(PrintInAnd(e) + rest) == Done(RightForm(e), rest)
    decreases e, if e.Or? then 4 else 1
  {
    if e.And? {
      var a, b := e.left, e.right;
      var mid := [TAnd] + (PrintInAnd(b) + rest);
      assert PrintInAnd(e) + rest == PrintInAnd(a) + mid;
      assert mid[1..] == PrintInAnd(b) + rest;
      AndBack(a, mid);
      AndBack(b, rest);
      if Next(rest, TAnd) && ParseA(rest[1..]).Done? {
        AndJoinAssoc(RightForm(a), RightForm(b), ParseA(rest[1..]).expr);
      }
    } else {
      FactorBack(e, rest);
    }
  }

  lemma {:induction false} OrBack(e: Expr, rest: seq<Token>)
    requires !NextIsRel(rest) && !Next(rest, TAnd)
    ensures Next(rest, TOr) ==>
              ParseE(PrintInOr(e) + rest) == Continue(OrJoin, RightForm(e), ParseE(rest[1..]))
    ensures !Next(rest, TOr) ==> ParseE(PrintInOr(e) + rest) == Done(RightForm(e), rest)
    decreases e, if e.Or? then 1 else 3
  {
    if e.Or? {
      var a, b := e.left, e.right;
      var mid := [TOr] + (PrintInOr(b) + rest);
      assert PrintInOr(e) + rest == PrintInOr(a) + mid;
      assert mid[1..] == PrintInOr(b) + rest;
      OrBack(a, mid);
      OrBack(b, rest);
      if Next(rest, TOr) && ParseE(rest[1..]).Done? {
        OrJoinAssoc(RightForm(a), RightForm(b), ParseE(rest[1..]).expr);
      }
    } else if e.And? {
      ExprBack(e, [TClose] + rest);
      ParenFactor(e, RightForm(e), rest);
    } else {
      AndBack(e, rest);
    }
  }

  lemma {:induction false} ExprBack(e: Expr, rest: seq<Token>)
    requires Stops(rest)
    ensures ParseE(Print(e) + rest) == Done(RightForm(e), rest)
    decreases e, 2
  {
    if e.Or? {
      OrBack(e, rest);
    } else {
      AndBack(e, rest);
    }
  }

  /** Parsing the printed form gives the right-associated form and uses all tokens. */
  lemma ParsePrinted(e: Expr)
    ensures ParseE(Print(e)) == Done(RightForm(e), [])
  {
    ExprBack(e, []);
    assert Print(e) + [] == Print(e);
  }

  // ---- how the operators bind ----

  /** The tokens are an operand for e, whatever follows. */
  ghost predicate Operand(x: seq<Token>, e: Expr) {
    forall rest | !NextIsRel(rest) :: ParseF(x + rest) == Done(e, rest)
  }

  lemma OperandAnd(x: seq<Token>, e: Expr, ts: seq<Token>)
    requires Operand(x, e)
    ensures ParseA(x + ([TAnd] + ts)) == Continue((a, b) => And(a, b), e, ParseA(ts))
  {
    hide ParseF, ParseE;
    assert ([TAnd] + ts)[1..] == ts;
    assert ParseF(x + ([TAnd] + ts)) == Done(e, [TAnd] + ts);
  }

  lemma OperandOr(x: seq<Token>, e: Expr, ts: seq<Token>)
    requires Operand(x, e)
    ensures ParseE(x + ([TOr] + ts)) == Continue((a, b) => Or(a, b), e, ParseE(ts))
  {
    hide ParseF;
    assert ([TOr] + ts)[1..] == ts;
    assert ParseF(x + ([TOr] + ts)) == Done(e, [TOr] + ts);
    assert ParseA(x + ([TOr] + ts)) == Done(e, [TOr] + ts);
    hide ParseA;
  }

  lemma OperandLast(x: seq<Token>, e: Expr, rest: seq<Token>)
    requires Operand(x, e) && !NextIsRel(rest) && !Next(rest, TAnd)
    ensures ParseA(x + rest) == Done(e, rest) && (!Next(rest, TOr) ==> ParseE(x + rest) == Done(e, rest))
  {
    assert ParseF(x + rest) == Done(e, rest);
  }

  /** What operands are: a symbol, a comparison, the negation of an operand, and anything in parentheses. */
  lemma SymbolOperand(i: Id)
    ensures Operand([TSym(i)], Ref(i))
  {
    forall rest | !NextIsRel(rest)
      ensures ParseF([TSym(i)] + rest) == Done(Ref(i), rest)
    {
      assert ([TSym(i)] + rest)[1..] == rest;
    }
  }

  lemma RelOperand(op: RelOp, i: Id, j: Id)
    ensures Operand([TSym(i), TRel(op), TSym(j)], Rel(op, i, j))
  {
    forall rest | !NextIsRel(rest)
      ensures ParseF([TSym(i), TRel(op), TSym(j)] + rest) == Done(Rel(op, i, j), rest)
    {
      RelFactor(op, i, j, rest);
    }
  }

  lemma NotOperand(x: seq<Token>, e: Expr)
    requires Operand(x, e)
    ensures Operand([TNot] + x, Not(e))
  {
    hide ParseF;
    forall rest | !NextIsRel(rest)
      ensures ParseF([TNot] + x + rest) == Done(Not(e), rest)
    {
      NotFactor(x + rest, e, rest);
      assert [TNot] + (x + rest) == [TNot] + x + rest;
    }
  }

  lemma ParenOperand(x: seq<Token>, e: Expr)
    requires forall rest :: ParseE(x + ([TClose] + rest)) == Done(e, [TClose] + rest)
    ensures Operand([TOpen] + x + [TClose], e)
  {
    hide ParseE;
    forall rest | !NextIsRel(rest)
      ensures ParseF([TOpen] + x + [TClose] + rest) == Done(e, rest)
    {
      var ts := [TOpen] + x + [TClose] + rest;
      assert ts[1..] == x + ([TClose] + rest);
      assert ([TClose] + rest)[1..] == rest;
    }
  }

  /** Between operands && binds closer than ||, and both bind to the right. */
  lemma OperatorsBind(x: seq<Token>, e: Expr, y: seq<Token>, f: Expr, z: seq<Token>, g: Expr)
    requires Operand(x, e) && Operand(y, f) && Operand(z, g)
    ensures ParseE(x + ([TOr] + (y + ([TAnd] + z)))) == Done(Or(e, And(f, g)), [])
    ensures ParseE(x + ([TAnd] + (y + ([TOr] + z)))) == Done(Or(And(e, f), g), [])
    ensures ParseE(x + ([TAnd] + (y + ([TAnd] + z)))) == Done(And(e, And(f, g)), [])
    ensures ParseE(x + ([TOr] + (y + ([TOr] + z)))) == Done(Or(e, Or(f, g)), [])
  {
    hide Operand, ParseF;
    assert z + [] == z;
    OperandLast(z, g, []);
    OperandAnd(y, f, z);
    OperandOr(y, f, z);
    OperandLast(y, f, [TOr] + z);
    assert ([TOr] + z)[1..] == z;
    OperandAnd(x, e, y + ([TAnd] + z));
    OperandOr(x, e, y + ([TAnd] + z));
    OperandAnd(x, e, y + ([TOr] + z));
    OperandOr(x, e, y + ([TOr] + z));
  }

  // ---- the right-associated form prints and means the same ----

  lemma {:induction false} PrintAndJoin(x: Expr, y: Expr)
    ensures Print(AndJoin(x, y)) == PrintInAnd(x) + [TAnd] + PrintInAnd(y)
  {
    if x.And? {
      PrintAndJoin(x.right, y);
      assert Print(AndJoin(x, y)) == PrintInAnd(x.left) + [TAnd] + (PrintInAnd(x.right) + [TAnd] + PrintInAnd(y));
    }
  }

  lemma {:induction false} PrintOrJoin(x: Expr, y: Expr)
    ensures Print(OrJoin(x, y)) == PrintInOr(x) + [TOr] + PrintInOr(y)
  {
    if x.Or? {
      PrintOrJoin(x.right, y);
      assert Print(OrJoin(x, y)) == PrintInOr(x.left) + [TOr] + (PrintInOr(x.right) + [TOr] + PrintInOr(y));
    }
  }

  /** Printing the parsed expression again gives the same tokens. */
  lemma {:induction false} PrintRightForm(e: Expr)
    ensures Print(RightForm(e)) == Print(e)
  {
    match e {
      case And(a, b) =>
        PrintRightForm(a);
        PrintRightForm(b);
        PrintAndJoin(RightForm(a), RightForm(b));
      case Or(a, b) =>
        PrintRightForm(a);
        PrintRightForm(b);
        PrintOrJoin(RightForm(a), RightForm(b));
      case Not(a) => PrintRightForm(a);
      case _ =>
    }
  }

  /** Every symbol and choice is at n, m or y. */
  ghost predicate AllLevels(k: Config, u: Users, env: Env) {
    forall i :: 0 <= ItemTri(k, u, env, i).val <= 2
  }

  lemma {:induction false} LevelInRange(k: Config, u: Users, env: Env, e: Expr)
    requires AllLevels(k, u, env)
    ensures 0 <= ExprVal(k, u, env, e).val <= 2
  {
    hide ItemTri, Order;
    match e {
      case Ref(i) =>
      case And(a, b) => LevelInRange(k, u, env, a); LevelInRange(k, u, env, b);
      case Or(a, b) => LevelInRange(k, u, env, a); LevelInRange(k, u, env, b);
      case Not(a) => LevelInRange(k, u, env, a);
      case Rel(op, i, j) =>
    }
  }

  lemma {:induction false} AndJoinMeans(k: Config, u: Users, env: Env, x: Expr, y: Expr)
    requires AllLevels(k, u, env)
    ensures ExprVal(k, u, env, AndJoin(x, y)) == ExprVal(k, u, env, And(x, y))
  {
    if x.And? {
      AndJoinMeans(k, u, env, x.right, y);
      AndNests(k, u, env, x.left, x.right, y);
    }
  }

  lemma AndNests(k: Config, u: Users, env: Env, a: Expr, b: Expr, c: Expr)
    requires AllLevels(k, u, env)
    ensures ExprVal(k, u, env, And(And(a, b), c)) == ExprVal(k, u, env, And(a, And(b, c)))
  {
    LevelInRange(k, u, env, a);
    LevelInRange(k, u, env, b);
    LevelInRange(k, u, env, c);
    var x, y, z := ExprVal(k, u, env, a), ExprVal(k, u, env, b), ExprVal(k, u, env, c);
    assert (x.src + y.src) + z.src == x.src + (y.src + z.src);
  }

  lemma {:induction false} OrJoinMeans(k: Config, u: Users, env: Env, x: Expr, y: Expr)
    requires AllLevels(k, u, env)
    ensures ExprVal(k, u, env, OrJoin(x, y)) == ExprVal(k, u, env, Or(x, y))
  {
    if x.Or? {
      OrJoinMeans(k, u, env, x.right, y);
      OrNests(k, u, env, x.left, x.right, y);
    }
  }

  lemma OrNests(k: Config, u: Users, env: Env, a: Expr, b: Expr, c: Expr)
    requires AllLevels(k, u, env)
    ensures ExprVal(k, u, env, Or(Or(a, b), c)) == ExprVal(k, u, env, Or(a, Or(b, c)))
  {
    LevelInRange(k, u, env, a);
    LevelInRange(k, u, env, b);
    LevelInRange(k, u, env, c);
    var x, y, z := ExprVal(k, u, env, a), ExprVal(k, u, env, b), ExprVal(k, u, env, c);
    assert (x.src + y.src) + z.src == x.src + (y.src + z.src);
  }

  /** The right-associated form has the same value under every assignment, and reads the same symbols. */
  lemma {:induction false} RightFormMeans(k: Config, u: Users, env: Env, e: Expr)
    requires AllLevels(k, u, env)
    ensures ExprVal(k, u, env, RightForm(e)) == ExprVal(k, u, env, e)
  {
    match e {
      case And(a, b) =>
        RightFormMeans(k, u, env, a);
        RightFormMeans(k, u, env, b);
        AndJoinMeans(k, u, env, RightForm(a), RightForm(b));
      case Or(a, b) =>
        RightFormMeans(k, u, env, a);
        RightFormMeans(k, u, env, b);
        OrJoinMeans(k, u, env, RightForm(a), RightForm(b));
      case Not(a) => RightFormMeans(k, u, env, a);
      case _ =>
    }
  }

  /** With modules on, rewriting m changes no value. */
  lemma {:induction false} RewrittenMeans(k: Config, u: Users, env: Env, tm: Transform, e: Expr)
    requires AllLevels(k, u, env) && (tm.Rewrite? ==> ItemTri(k, u, env, tm.modules).val == 2)
    ensures ExprVal(k, u, env, Rewritten(tm, e)).val == ExprVal(k, u, env, e).val
  {
    hide ItemTri, Order;
    match e {
      case Ref(i) =>
      case And(a, b) => RewrittenMeans(k, u, env, tm, a); RewrittenMeans(k, u, env, tm, b);
      case Or(a, b) => RewrittenMeans(k, u, env, tm, a); RewrittenMeans(k, u, env, tm, b);
      case Not(a) => RewrittenMeans(k, u, env, tm, a);
      case Rel(op, i, j) =>
    }
  }

  /** Printer and parser together: the source's parser, run on a printed expression, accepts it whole; the result is
      the right-associated form with m rewritten where that is asked for, and otherwise prints to the same tokens. */
  method ReadBack(e: Expr, tm: Transform) returns (r: Expr)
    ensures r == Rewritten(tm, RightForm(e)) && (tm.Keep? ==> r == RightForm(e) && Print(r) == Print(e))
  {
    ParsePrinted(e);
    PrintRightForm(e);
    KeepKeeps(RightForm(e));
    var p := new Parser(Print(e), tm);
    var parsed := p.ParseExpr();
    r := parsed.value;
  }

  lemma {:induction false} KeepKeeps(e: Expr)
    ensures Rewritten(Keep, e) == e
  {
    match e {
      case And(a, b) => KeepKeeps(a); KeepKeeps(b);
      case Or(a, b) => KeepKeeps(a); KeepKeeps(b);
      case Not(a) => KeepKeeps(a);
      case _ =>
    }
  }
}
