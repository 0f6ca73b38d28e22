/** Writing and loading .config files with the caching engine (scripts/kconfiglib.py), and the proof that a file
    written by one engine restores all values in any other. */
module KConfigFile {
  import opened Basics
  import opened KValues
  import opened KReads
  import opened KFixpoint
  import opened KCache
  import opened KLevels
  import opened KRoundTrip
  import opened KText
  import M = KMenu

  /** The .config line of symbol i, if it gets one. */
  function ConfigLine(k: Config, env: Env, prefix: string, i: Id): Option<string> {
    var c, it := Str(i), ItemAt(k, i);
    if !(c in env && env[c].StrValue? && env[c].write && it.Symbol?) then None
    else Some(LineFor(it, prefix, env[c].s))
  }

  function LineFor(it: Item, prefix: string, val: string): string
    requires it.Symbol?
  {
    if BoolLike(it.ty) then
      if val != "n" then AssignLine(prefix, it.name, val) else UnsetLine(prefix, it.name)
    else if it.ty == Text then AssignLine(prefix, it.name, "\"" + Escape(val) + "\"")
    else AssignLine(prefix, it.name, val)
  }

  // ---- what a file is made of ----

  /** What writing meets on its way: a node of a symbol, a menu or comment to be announced, and the end of a menu. The
      last two depend on conditions. */
  datatype Entry = SymbolNode(i: Id) | Note(text: string, conds: seq<Expr>) | MenuEnd(text: string, conds: seq<Expr>)

  /** Part of a file: the line of a symbol, or other text, which ends in a newline. */
  datatype Piece = Own(i: Id, line: string) | Other(text: string)

  /** The file so far, the symbols met, and whether the end of a menu was the last thing written. */
  datatype Draft = Draft(pieces: seq<Piece>, seen: set<Id>, ended: bool)

  function NoteText(text: string): string { "\n#\n# " + text + "\n#\n" }

  function EndText(text: string): string { "# end of " + text + "\n" }

  predicate AllHold(k: Config, u: Users, env: Env, conds: seq<Expr>) {
    forall e | e in conds :: ExprVal(k, u, env, e).val != 0
  }

  function WithEntry(k: Config, u: Users, env: Env, prefix: string, d: Draft, entry: Entry): Draft {
    match entry
    case SymbolNode(i) =>
      if i in d.seen then d else
      var line := ConfigLine(k, env, prefix, i);
      if line.None? then d.(seen := d.seen + {i})
      else Draft(d.pieces + (if d.ended then [Other("\n")] else []) + [Own(i, line.value)], d.seen + {i}, false)
    case Note(text, conds) =>
      if AllHold(k, u, env, conds) then Draft(d.pieces + [Other(NoteText(text))], d.seen, false) else d
    case MenuEnd(text, conds) =>
      if AllHold(k, u, env, conds) then Draft(d.pieces + [Other(EndText(text))], d.seen, true) else d
  }

  function Drafted(k: Config, u: Users, env: Env, prefix: string, entries: seq<Entry>): Draft {
    if entries == [] then Draft([], {}, false)
    else WithEntry(k, u, env, prefix, Drafted(k, u, env, prefix, entries[..|entries| - 1]), entries[|entries| - 1])
  }

  function PieceText(p: Piece): string { if p.Own? then p.line + "\n" else p.text }

  function TextOf(ps: seq<Piece>): string {
    if ps == [] then "" else TextOf(ps[..|ps| - 1]) + PieceText(ps[|ps| - 1])
  }

  /** A line of a file: the one written for a symbol, or any other. */
  datatype Line = OwnLine(i: Id, text: string) | OtherLine(text: string)

  function Others(ls: seq<string>): seq<Line> { seq(|ls|, n requires 0 <= n < |ls| => OtherLine(ls[n])) }

  function PieceLines(p: Piece): seq<Line> {
    if p.Own? then [OwnLine(p.i, p.line)] else Others(Split(p.text))
  }

  function LinesOf(ps: seq<Piece>): seq<Line> {
    if ps == [] then [] else LinesOf(ps[..|ps| - 1]) + PieceLines(ps[|ps| - 1])
  }

  function Texts(ls: seq<Line>): seq<string> { seq(|ls|, n requires 0 <= n < |ls| => ls[n].text) }

  /** The lines of a whole file, below a header that ends in a newline. */
  function FileLines(k: Config, u: Users, env: Env, prefix: string, header: string, entries: seq<Entry>): seq<Line> {
    Others(Split(header)) + LinesOf(Drafted(k, u, env, prefix, entries).pieces)
  }

  /** The defined symbol called name. */
  function Named(k: Config, name: string, n: nat): Option<Id>
    requires n <= |k.items|
  {
    if n == 0 then None
    else if IsDefined(k, n - 1) && k.items[n - 1].Symbol? && k.items[n - 1].name == name then Some(n - 1)
    else Named(k, name, n - 1)
  }

  predicate StartsWith(s: string, c: char) { s != "" && s[0] == c }

  function ValueFromText(it: Item, text: string): Option<UserValue> {
    if BoolLike(it.ty) then
      if StartsWith(text, 'y') then Some(UserTri(2))
      else if StartsWith(text, 'n') then Some(UserTri(0))
      else if StartsWith(text, 'm') && it.ty == Tristate then Some(UserTri(1))
      else None
    else if it.ty == Text then
      var s := StringLiteral(text);
      if s.Some? then Some(UserText(Unescape(s.value))) else None
    else Some(UserText(text))
  }

  /** The assignment a line asks for. */
  function AssignmentOf(k: Config, prefix: string, raw: string): Option<(Id, UserValue)> {
    match ParseLine(prefix, raw)
    case Ignored => None
    case Assign(name, text) =>
      var i := Named(k, name, |k.items|);
      if i.None? then None else
      var v := ValueFromText(ItemAt(k, i.value), text);
      if v.Some? then Some((i.value, v.value)) else None
    case Unset(name) =>
      var i := Named(k, name, |k.items|);
      if i.Some? && BoolLike(ItemAt(k, i.value).ty) then Some((i.value, UserTri(0))) else None
  }

  predicate Assigns(k: Config, prefix: string, raw: string, i: Id) {
    var a := AssignmentOf(k, prefix, raw);
    a.Some? && a.value.0 == i && ValidFor(k, i, a.value.1)
  }

  /** The value the last valid line for i assigns. */
  function LastAssigned(k: Config, prefix: string, lines: seq<string>, i: Id): Option<UserValue> {
    if lines == [] then None
    else if Assigns(k, prefix, lines[|lines| - 1], i) then Some(AssignmentOf(k, prefix, lines[|lines| - 1]).value.1)
    else LastAssigned(k, prefix, lines[..|lines| - 1], i)
  }

  // ---- the two operations ----

  method Holds(e: Engine, conds: seq<Expr>, ghost n: nat) returns (b: bool)
    requires e.Ok() && forall c | c in conds :: Below(e.r, ExprSources(e.k, c), n)
    modifies e`cache
    ensures e.Ok() && b == AllHold(e.k, e.users, e.Values(), conds)
  {
    hide CacheOk, Ordered, WellFormed, UsersOk, Full, ExprVal, ExprSources, Below;
    b := true;
    var j := 0;
    while j < |conds|
      invariant 0 <= j <= |conds| && e.Ok() && b
      invariant forall i | 0 <= i < j :: ExprVal(e.k, e.users, e.Values(), conds[i]).val != 0
    {
      assert conds[j] in conds;
      var v := e.ExprValue(conds[j], n);
      if v == 0 {
        return false;
      }
      j := j + 1;
    }
  }

  /** The line of a symbol, computed. */
  method ConfigString(e: Engine, prefix: string, i: Id) returns (line: Option<string>)
    requires e.Ok() && Str(i) in e.r && ItemAt(e.k, i).Symbol?
    modifies e`cache
    ensures e.Ok() && line == ConfigLine(e.k, e.Values(), prefix, i)
  {
    hide CacheOk, Ordered, WellFormed, UsersOk, LineFor, Full;
    var val := e.StrValueOf(i);
    CachedIsTrue(e.k, e.r, e.users, e.cache, Str(i));
    line := None;
    if e.cache[Str(i)].StrValue? && e.cache[Str(i)].write {
      line := Some(LineFor(ItemAt(e.k, i), prefix, val));
    }
  }

  lemma NoText()
    ensures TextOf([]) == ""
  {
  }

  /** Writing evaluates what it meets in order; every symbol is written at most once, at the first of its nodes. */
  method ConfigContents(e: Engine, prefix: string, header: string, entries: seq<Entry>, ghost n: nat)
    returns (text: string)
    requires e.Ok() && EntriesOk(e.k, e.r, entries, n)
    modifies e`cache
    ensures e.Ok()
    ensures text == header + TextOf(Drafted(e.k, e.users, e.Values(), prefix, entries).pieces)
  {
    hide CacheOk, Ordered, WellFormed, UsersOk, ConfigLine, Full, AllHold, Below, TextOf;
    text := header;
    assert header == header + TextOf([]) by { NoText(); }
    var seen: set<Id> := {};
    var ended, j := false, 0;
    ghost var ps: seq<Piece> := [];
    while j < |entries|
      invariant 0 <= j <= |entries| && e.Ok()
      invariant Drafted(e.k, e.users, e.Values(), prefix, entries[..j]) == Draft(ps, seen, ended)
      invariant text == header + TextOf(ps)
    {
      assert entries[j] in entries;
      assert entries[..j + 1][..j] == entries[..j] && entries[..j + 1][j] == entries[j];
      match entries[j] {
        case SymbolNode(i) =>
          if i !in seen {
            seen := seen + {i};
            var line := ConfigString(e, prefix, i);
            if line.Some? {
              if ended {
                ended := false;
                TextGrows(header, ps, Other("\n"));
                text := text + "\n";
                ps := ps + [Other("\n")];
              }
              TextGrows(header, ps, Own(i, line.value));
              text := text + (line.value + "\n");
              ps := ps + [Own(i, line.value)];
            }
          }
        case Note(t, conds) =>
          var on := Holds(e, conds, n);
          if on {
            TextGrows(header, ps, Other(NoteText(t)));
            text := text + NoteText(t);
            ps := ps + [Other(NoteText(t))];
            ended := false;
          }
        case MenuEnd(t, conds) =>
          var on := Holds(e, conds, n);
          if on {
            TextGrows(header, ps, Other(EndText(t)));
            text := text + EndText(t);
            ps := ps + [Other(EndText(t))];
            ended := true;
          }
      }
      j := j + 1;
    }
    assert entries[..j] == entries;
  }

  /** What is asked for along the way is ranked. */
  ghost predicate EntriesOk(k: Config, r: Rank, entries: seq<Entry>, n: nat) {
    forall entry | entry in entries ::
      match entry
      case SymbolNode(i) => Str(i) in r && ItemAt(k, i).Symbol?
      case Note(t, conds) => forall c | c in conds :: Below(r, ExprSources(k, c), n)
      case MenuEnd(t, conds) => forall c | c in conds :: Below(r, ExprSources(k, c), n)
  }

  lemma TextGrows(header: string, ps: seq<Piece>, p: Piece)
    ensures header + TextOf(ps + [p]) == header + TextOf(ps) + PieceText(p)
  {
    assert (ps + [p])[..|ps|] == ps;
  }

  ghost predicate SetFrom(k: Config, u: Users, prefix: string, lines: seq<string>, was: set<Id>) {
    forall i :: if i in was then UserAt(u, i).value == LastAssigned(k, prefix, lines, i) && UserAt(u, i).value.Some?
                else LastAssigned(k, prefix, lines, i) == None
  }

  /** Loading with replacement: every line is applied in order, and symbols no line set lose their value. */
  method LoadConfig(e: Engine, prefix: string, text: string)
    requires e.Ok() && e.Table() && ChoiceFree(e.k) && UsersValid(e.k, e.users)
    modifies e`users, e`cache
    ensures e.Ok() && UsersValid(e.k, e.users)
    ensures forall i | IsDefined(e.k, i) :: UserAt(e.users, i).value == LastAssigned(e.k, prefix, Split(text), i)
  {
    hide CacheOk, Ordered, WellFormed, UsersOk, AssignmentOf, ChoiceFree, Dependent;
    var lines := Split(text);
    var was: set<Id> := {};
    var n := 0;
    while n < |lines|
      invariant 0 <= n <= |lines|
      invariant e.Ok() && e.Table() && UsersValid(e.k, e.users)
      invariant SetFrom(e.k, e.users, prefix, lines[..n], was)
    {
      ghost var before := e.users;
      var a := AssignmentOf(e.k, prefix, lines[n]);
      assert lines[..n + 1][..n] == lines[..n] && lines[..n + 1][n] == lines[n];
      if a.Some? {
        AllSymbols(e.k, a.value.0);
        var ok := e.SetValue(a.value.0, a.value.1);
        SetKeepsValid(e.k, before, a.value.0, a.value.1);
        if ok {
          was := was + {a.value.0};
        }
      }
      n := n + 1;
    }
    assert lines[..n] == lines;
    UnsetRest(e, was, prefix, lines);
  }

  lemma AllSymbols(k: Config, i: Id)
    requires ChoiceFree(k)
    ensures ItemAt(k, i).Symbol? && ItemAt(k, i).choice.None?
  {
  }

  lemma SetKeepsValid(k: Config, u: Users, i: Id, v: UserValue)
    requires UsersValid(k, u) && ItemAt(k, i).Symbol? && ItemAt(k, i).choice.None?
    ensures ValidFor(k, i, v) ==> UsersValid(k, Assigned(k, u, i, v))
    ensures UserAt(u, i).value == Some(v) ==> ValidFor(k, i, v)
    ensures forall j | j != i :: UserAt(Assigned(k, u, i, v), j) == UserAt(u, j)
    ensures UserAt(Assigned(k, u, i, v), i).value == Some(v)
  {
    hide ValidFor;
    if UserAt(u, i).value == Some(v) {
      assert i in u && u[i].value.Some?;
    }
  }

  method UnsetRest(e: Engine, was: set<Id>, prefix: string, ghost lines: seq<string>)
    requires e.Ok() && e.Table() && ChoiceFree(e.k) && UsersValid(e.k, e.users)
    requires SetFrom(e.k, e.users, prefix, lines, was)
    modifies e`users, e`cache
    ensures e.Ok() && UsersValid(e.k, e.users)
    ensures forall i | IsDefined(e.k, i) :: UserAt(e.users, i).value == LastAssigned(e.k, prefix, lines, i)
  {
    hide CacheOk, Ordered, WellFormed, UsersOk, LastAssigned, ChoiceFree, ValidFor;
    var x := 0;
    while x < |e.k.items|
      invariant 0 <= x <= |e.k.items|
      invariant e.Ok() && UsersValid(e.k, e.users)
      invariant forall i | i in was :: UserAt(e.users, i).value == LastAssigned(e.k, prefix, lines, i)
      invariant forall i: Id | i < x && IsDefined(e.k, i) && i !in was :: UserAt(e.users, i).value == None
    {
      if IsDefined(e.k, x) && x !in was {
        AllSymbols(e.k, x);
        e.UnsetValue(x);
      }
      x := x + 1;
    }
  }

  // ---- what a written file loads as ----

  /** Symbol names are what the parser accepts, and are unique. */
  ghost predicate NamesOk(k: Config) {
    && (forall i: Id | IsDefined(k, i) && k.items[i].Symbol? :: GoodName(k.items[i].name))
    && (forall i: Id, j: Id | IsDefined(k, i) && k.items[i].Symbol? && IsDefined(k, j) && k.items[j].Symbol?
                      && k.items[i].name == k.items[j].name :: i == j)
  }

  /** No line breaks, and no trailing blanks in numbers. */
  predicate Tidy(it: Item, s: string) {
    && NoBreaks(s)
    && (BoolLike(it.ty) ==> s == "y" || s == "m" || s == "n")
    && (it.ty == Int || it.ty == Hex ==> s == "" || !IsSpace(s[|s| - 1]))
  }

  /** Every value that gets written is tidy. */
  ghost predicate ValuesTidy(k: Config, env: Env) {
    forall i | IsDefined(k, i) && Str(i) in env && env[Str(i)].StrValue? && env[Str(i)].write ::
      Tidy(ItemAt(k, i), env[Str(i)].s) && ItemAt(k, i).ty != Unknown
  }

  lemma {:induction false} NamedFinds(k: Config, i: Id, n: nat)
    requires NamesOk(k) && IsDefined(k, i) && k.items[i].Symbol? && n <= |k.items|
    ensures Named(k, k.items[i].name, n) == if i < n then Some(i) else None
    decreases n
  {
    if n > 0 {
      NamedFinds(k, i, n - 1);
    }
  }

  lemma QuotedValue(it: Item, val: string)
    requires it.ty == Text
    ensures ValueFromText(it, "\"" + Escape(val) + "\"") == Some(UserText(val))
  {
    hide Escape, Unescape, QuotedBody;
    var text := "\"" + Escape(val) + "\"";
    QuotedEscaped(val, "");
    assert text[1..] == Escape(val) + "\"" + "";
    UnescapeEscape(val);
  }

  /** The line written for a value assigns exactly what Saved says, or nothing if that is not valid. */
  lemma LineMeansSaved(k: Config, prefix: string, i: Id, val: string, j: Id)
    requires NamesOk(k) && '=' !in prefix && IsDefined(k, i) && k.items[i].Symbol?
    requires Tidy(k.items[i], val) && k.items[i].ty != Unknown
    ensures var line := LineFor(k.items[i], prefix, val);
            && (Assigns(k, prefix, line, j) <==> j == i && ValidFor(k, i, Saved(k, i, val)))
            && (Assigns(k, prefix, line, j) ==> AssignmentOf(k, prefix, line).value.1 == Saved(k, i, val))
  {
    hide ParseLine, Named, Escape;
    var it := k.items[i];
    NamedFinds(k, i, |k.items|);
    assert GoodName(it.name);
    if BoolLike(it.ty) {
      if val == "n" {
        ParseUnset(prefix, it.name);
      } else {
        ParseAssign(prefix, it.name, val);
      }
    } else if it.ty == Text {
      QuotedValue(it, val);
      var text := "\"" + Escape(val) + "\"";
      assert text[|text| - 1] == '"';
      ParseAssign(prefix, it.name, text);
    } else {
      ParseAssign(prefix, it.name, val);
    }
  }

  lemma EscapeNoBreaks(s: string)
    requires NoBreaks(s)
    ensures NoBreaks(Escape(s))
    decreases |s|
  {
    hide Escape;
    if s != [] {
      EscapeCons(s);
      assert s[0] in s && forall c | c in s[1..] :: c in s;
      EscapeNoBreaks(s[1..]);
      assert NoBreaks(EscapedChar(s[0]));
    } else {
      EscapeEmpty();
    }
  }

  lemma LineNoBreaks(it: Item, prefix: string, val: string)
    requires it.Symbol? && GoodName(it.name) && NoBreaks(prefix) && NoBreaks(val)
    ensures NoBreaks(LineFor(it, prefix, val))
  {
    hide Escape;
    EscapeNoBreaks(val);
    assert NoBreaks(NOT_SET) && NoBreaks("# ") && NoBreaks("=") && NoBreaks("\"");
  }

  // ---- the pieces of a draft ----

  /** Symbol lines are the lines of their symbols, and other text ends in a newline. */
  ghost predicate PieceOk(k: Config, env: Env, prefix: string, p: Piece) {
    if p.Own? then ConfigLine(k, env, prefix, p.i) == Some(p.line) else p.text != "" && Ended(p.text)
  }

  /** Every symbol met and written has its line in the draft, and all pieces are in order. */
  ghost predicate DraftOk(k: Config, env: Env, prefix: string, d: Draft) {
    && (forall p | p in d.pieces :: PieceOk(k, env, prefix, p))
    && (forall i | i in d.seen && ConfigLine(k, env, prefix, i).Some? ::
          Own(i, ConfigLine(k, env, prefix, i).value) in d.pieces)
    && (forall p | p in d.pieces && p.Own? :: p.i in d.seen)
  }

  lemma EntryKeepsOk(k: Config, u: Users, env: Env, prefix: string, d: Draft, entry: Entry)
    requires DraftOk(k, env, prefix, d)
    ensures DraftOk(k, env, prefix, WithEntry(k, u, env, prefix, d, entry))
    ensures WithEntry(k, u, env, prefix, d, entry).seen == if entry.SymbolNode? then d.seen + {entry.i} else d.seen
  {
    hide ConfigLine, AllHold, NoteText, EndText;
    match entry {
      case SymbolNode(i) =>
      case Note(text, conds) => NoteEnds(text);
      case MenuEnd(text, conds) => NoteEnds(text);
    }
  }

  lemma NoteEnds(text: string)
    ensures NoteText(text) != "" && Ended(NoteText(text)) && EndText(text) != "" && Ended(EndText(text))
  {
  }

  lemma {:induction false} DraftedOk(k: Config, u: Users, env: Env, prefix: string, entries: seq<Entry>)
    ensures DraftOk(k, env, prefix, Drafted(k, u, env, prefix, entries))
    ensures forall i | SymbolNode(i) in entries :: i in Drafted(k, u, env, prefix, entries).seen
    ensures forall i | i in Drafted(k, u, env, prefix, entries).seen :: SymbolNode(i) in entries
    decreases |entries|
  {
    hide WithEntry, DraftOk;
    if entries == [] {
      EmptyDraftOk(k, env, prefix);
    } else {
      var front, last := entries[..|entries| - 1], entries[|entries| - 1];
      DraftedOk(k, u, env, prefix, front);
      EntryKeepsOk(k, u, env, prefix, Drafted(k, u, env, prefix, front), last);
      assert forall x | x in entries :: x in front || x == last;
    }
  }

  lemma EmptyDraftOk(k: Config, env: Env, prefix: string)
    ensures DraftOk(k, env, prefix, Draft([], {}, false))
  {
  }

  lemma OthersTexts(ls: seq<string>)
    ensures Texts(Others(ls)) == ls
  {
  }

  lemma TextsConcat(a: seq<Line>, b: seq<Line>)
    ensures Texts(a + b) == Texts(a) + Texts(b)
  {
  }

  lemma PieceSplits(k: Config, env: Env, prefix: string, p: Piece)
    requires PieceOk(k, env, prefix, p) && (p.Own? ==> NoBreaks(p.line))
    ensures PieceText(p) != "" && Ended(PieceText(p)) && Split(PieceText(p)) == Texts(PieceLines(p))
  {
    hide Split, NoBreaks, ConfigLine, Others;
    if p.Own? {
      SplitLine(p.line);
    } else {
      OthersTexts(Split(p.text));
    }
  }

  lemma {:induction false} PiecesSplit(k: Config, env: Env, prefix: string, ps: seq<Piece>)
    requires forall p | p in ps :: PieceOk(k, env, prefix, p) && (p.Own? ==> NoBreaks(p.line))
    ensures Ended(TextOf(ps)) && Split(TextOf(ps)) == Texts(LinesOf(ps))
    decreases |ps|
  {
    hide Split, NoBreaks, PieceOk, PieceText, PieceLines, Texts;
    if ps == [] {
      SplitNothing();
    } else {
      var front, p := ps[..|ps| - 1], ps[|ps| - 1];
      assert forall x | x in front :: x in ps;
      PiecesSplit(k, env, prefix, front);
      PieceSplits(k, env, prefix, p);
      SplitConcat(TextOf(front), PieceText(p));
      EndedGrows(TextOf(front), PieceText(p));
      TextsConcat(LinesOf(front), PieceLines(p));
    }
  }

  lemma EndedGrows(a: string, b: string)
    requires b != "" && Ended(b)
    ensures Ended(a + b)
  {
  }

  lemma SplitNothing()
    ensures Split("") == [] && Texts([]) == []
  {
  }

  lemma {:induction false} OwnLinesOf(ps: seq<Piece>, l: Line)
    requires l.OwnLine?
    ensures l in LinesOf(ps) <==> Own(l.i, l.text) in ps
    decreases |ps|
  {
    hide Split;
    if ps != [] {
      var front, p := ps[..|ps| - 1], ps[|ps| - 1];
      OwnLinesOf(front, l);
      assert Own(l.i, l.text) in ps <==> Own(l.i, l.text) in front || Own(l.i, l.text) == p;
    }
  }

  // ---- when a file restores what was saved ----

  /** What a line assigns to j, if anything. */
  function Says(k: Config, prefix: string, text: string, j: Id): Option<UserValue> {
    if Assigns(k, prefix, text, j) then Some(AssignmentOf(k, prefix, text).value.1) else None
  }

  /** The last line that assigns j, or -1. */
  function LastFor(k: Config, prefix: string, lines: seq<Line>, j: Id): (n: int)
    ensures -1 <= n < |lines|
  {
    if lines == [] then -1
    else if Says(k, prefix, lines[|lines| - 1].text, j).Some? then |lines| - 1
    else LastFor(k, prefix, lines[..|lines| - 1], j)
  }

  lemma {:induction false} LastAssignedAt(k: Config, prefix: string, lines: seq<Line>, j: Id)
    ensures var n := LastFor(k, prefix, lines, j);
            && (n >= 0 ==> Says(k, prefix, lines[n].text, j).Some?)
            && (forall q | n < q < |lines| :: Says(k, prefix, lines[q].text, j) == None)
            && LastAssigned(k, prefix, Texts(lines), j) == if n < 0 then None else Says(k, prefix, lines[n].text, j)
    decreases |lines|
  {
    hide AssignmentOf, Assigns;
    if lines != [] {
      LastAssignedAt(k, prefix, lines[..|lines| - 1], j);
      assert Texts(lines)[..|lines| - 1] == Texts(lines[..|lines| - 1]);
    }
  }

  /** No line other than a symbol's own has the last word on a symbol with a value that was not saved for it. */
  ghost predicate Quiet(k: Config, env: Env, prefix: string, lines: seq<Line>) {
    forall n, j | 0 <= n < |lines| && lines[n].OtherLine? && IsDefined(k, j) && Says(k, prefix, lines[n].text, j).Some?
                  && (forall q | n < q < |lines| :: Says(k, prefix, lines[q].text, j) == None) ::
      Says(k, prefix, lines[n].text, j) == Reloaded(k, env, j)
  }

  /** Every written symbol has its line, and symbol lines are right. */
  ghost predicate Complete(k: Config, env: Env, prefix: string, lines: seq<Line>) {
    && (forall l | l in lines && l.OwnLine? :: IsDefined(k, l.i) && ConfigLine(k, env, prefix, l.i) == Some(l.text))
    && (forall j | IsDefined(k, j) && ConfigLine(k, env, prefix, j).Some? ::
          OwnLine(j, ConfigLine(k, env, prefix, j).value) in lines)
  }

  lemma OwnLineMeans(k: Config, env: Env, prefix: string, i: Id, text: string, j: Id)
    requires NamesOk(k) && ValuesTidy(k, env) && '=' !in prefix && IsDefined(k, i) && k.items[i].Symbol?
    requires ConfigLine(k, env, prefix, i) == Some(text)
    ensures Says(k, prefix, text, j) == if j == i then Reloaded(k, env, j) else None
  {
    hide LineFor, Assigns, AssignmentOf, ValidFor, Saved;
    LineMeansSaved(k, prefix, i, env[Str(i)].s, j);
  }

  lemma RestoresOne(k: Config, env: Env, prefix: string, lines: seq<Line>, j: Id)
    requires NamesOk(k) && ValuesTidy(k, env) && '=' !in prefix && ChoiceFree(k) && Complete(k, env, prefix, lines)
    requires IsDefined(k, j)
    ensures var n := LastFor(k, prefix, lines, j);
            LastAssigned(k, prefix, Texts(lines), j) == Reloaded(k, env, j) <==>
            (n >= 0 && lines[n].OtherLine? ==> Says(k, prefix, lines[n].text, j) == Reloaded(k, env, j))
  {
    hide NamesOk, ValuesTidy, ChoiceFree, Says, ConfigLine, LastFor, Reloaded, LastAssigned;
    LastAssignedAt(k, prefix, lines, j);
    var n := LastFor(k, prefix, lines, j);
    if n < 0 {
      NotWritten(k, env, prefix, lines, j);
    } else if lines[n].OwnLine? {
      var l := lines[n];
      assert l in lines;
      AllSymbols(k, l.i);
      OwnLineMeans(k, env, prefix, l.i, l.text, j);
    }
  }

  lemma NotWritten(k: Config, env: Env, prefix: string, lines: seq<Line>, j: Id)
    requires NamesOk(k) && ValuesTidy(k, env) && '=' !in prefix && ChoiceFree(k) && Complete(k, env, prefix, lines)
    requires IsDefined(k, j) && forall q | 0 <= q < |lines| :: Says(k, prefix, lines[q].text, j) == None
    ensures Reloaded(k, env, j) == None
  {
    hide NamesOk, ValuesTidy, ChoiceFree, Says, LineFor, ValidFor, Saved;
    AllSymbols(k, j);
    if ConfigLine(k, env, prefix, j).Some? {
      var text := ConfigLine(k, env, prefix, j).value;
      var q :| 0 <= q < |lines| && lines[q] == OwnLine(j, text);
      OwnLineMeans(k, env, prefix, j, text, j);
    }
  }

  /** A file gives every symbol back exactly what was saved for it if and only if its other lines keep quiet. */
  lemma RestoresIfQuiet(k: Config, env: Env, prefix: string, lines: seq<Line>)
    requires NamesOk(k) && ValuesTidy(k, env) && '=' !in prefix && ChoiceFree(k) && Complete(k, env, prefix, lines)
    ensures (forall j | IsDefined(k, j) :: LastAssigned(k, prefix, Texts(lines), j) == Reloaded(k, env, j))
            <==> Quiet(k, env, prefix, lines)
  {
    hide NamesOk, ValuesTidy, ChoiceFree, Says, Complete, LastFor, Reloaded, LastAssigned, IsDefined;
    forall j | IsDefined(k, j)
      ensures LastAssigned(k, prefix, Texts(lines), j) == Reloaded(k, env, j) <==> QuietAbout(k, env, prefix, lines, j)
    {
      RestoresOne(k, env, prefix, lines, j);
      LastAssignedAt(k, prefix, lines, j);
    }
  }

  /** The same of one symbol. */
  ghost predicate QuietAbout(k: Config, env: Env, prefix: string, lines: seq<Line>, j: Id) {
    forall n | 0 <= n < |lines| && lines[n].OtherLine? && Says(k, prefix, lines[n].text, j).Some?
               && (forall q | n < q < |lines| :: Says(k, prefix, lines[q].text, j) == None) ::
      Says(k, prefix, lines[n].text, j) == Reloaded(k, env, j)
  }

  // ---- the round trip ----

  /** Every defined symbol has a node. */
  ghost predicate AllMet(k: Config, entries: seq<Entry>) {
    && (forall i | IsDefined(k, i) :: SymbolNode(i) in entries)
    && (forall i | SymbolNode(i) in entries :: IsDefined(k, i))
  }

  lemma FileComplete(k: Config, u: Users, env: Env, prefix: string, header: string, entries: seq<Entry>)
    requires AllMet(k, entries)
    ensures Complete(k, env, prefix, FileLines(k, u, env, prefix, header, entries))
  {
    hide ConfigLine, Drafted, LinesOf, Split;
    DraftedOk(k, u, env, prefix, entries);
    var ps := Drafted(k, u, env, prefix, entries).pieces;
    forall l | l in FileLines(k, u, env, prefix, header, entries) && l.OwnLine?
      ensures IsDefined(k, l.i) && ConfigLine(k, env, prefix, l.i) == Some(l.text)
    {
      OwnLinesOf(ps, l);
    }
    forall j | IsDefined(k, j) && ConfigLine(k, env, prefix, j).Some?
      ensures OwnLine(j, ConfigLine(k, env, prefix, j).value) in FileLines(k, u, env, prefix, header, entries)
    {
      OwnLinesOf(ps, OwnLine(j, ConfigLine(k, env, prefix, j).value));
    }
  }

  /** Reading the file gives its lines. */
  lemma FileSplits(k: Config, u: Users, env: Env, prefix: string, header: string, entries: seq<Entry>)
    requires NamesOk(k) && ValuesTidy(k, env) && NoBreaks(prefix) && Ended(header)
    requires AllMet(k, entries) && ChoiceFree(k)
    ensures Split(header + TextOf(Drafted(k, u, env, prefix, entries).pieces))
            == Texts(FileLines(k, u, env, prefix, header, entries))
  {
    hide ConfigLine, Drafted, LinesOf, Split, TextOf, NoBreaks, Others, Texts;
    DraftedOk(k, u, env, prefix, entries);
    var ps := Drafted(k, u, env, prefix, entries).pieces;
    forall p | p in ps && p.Own?
      ensures NoBreaks(p.line)
    {
      AllSymbols(k, p.i);
      OwnNoBreaks(k, env, prefix, p.i);
    }
    PiecesSplit(k, env, prefix, ps);
    SplitConcat(header, TextOf(ps));
    OthersTexts(Split(header));
    TextsConcat(Others(Split(header)), LinesOf(ps));
  }

  lemma OwnNoBreaks(k: Config, env: Env, prefix: string, i: Id)
    requires NamesOk(k) && ValuesTidy(k, env) && NoBreaks(prefix) && IsDefined(k, i) && k.items[i].Symbol?
    requires ConfigLine(k, env, prefix, i).Some?
    ensures NoBreaks(ConfigLine(k, env, prefix, i).value)
  {
    hide LineFor;
    LineNoBreaks(k.items[i], prefix, env[Str(i)].s);
  }

  /** Config round trip: a file that one engine writes, header and notes included, loaded with replacement into any
      engine over the same configuration, gives every attribute there the value it has in the first engine, if and
      only if no symbol visible at m is y by a default alone. What else has to hold can be told before writing: the
      header ends in a newline, and no other line has the last word on a symbol with a value that was not saved for
      it. */
  method SaveAndLoad(e: Engine, other: Engine, prefix: string, header: string, entries: seq<Entry>, ghost n: nat)
    requires e != other && e.k == other.k && e.r == other.r
    requires e.Ok() && other.Ok() && other.Table()
    requires ChoiceFree(e.k) && NamesOk(e.k) && UsersValid(e.k, e.users) && UsersValid(e.k, other.users)
    requires ValuesTidy(e.k, e.Values()) && NoBreaks(prefix) && '=' !in prefix
    requires EntriesOk(e.k, e.r, entries, n) && AllMet(e.k, entries) && Ended(header)
    requires Quiet(e.k, e.Values(), prefix, FileLines(e.k, e.users, e.Values(), prefix, header, entries))
    modifies e`cache, other`users, other`cache
    ensures e.Ok() && other.Ok()
    ensures (forall c | c in e.r :: ValueOf(e.k, e.r, e.users, c) == ValueOf(e.k, e.r, other.users, c))
            <==> NoneLost(e.k, e.r, e.users)
  {
    hide CacheOk, Ordered, WellFormed, UsersOk, Full, ValueOf, ChoiceFree, NamesOk, ValuesTidy, FileLines, Reloaded,
         LastAssigned, UsersValid, Dependent, NoBreaks, AllMet, EntriesOk, Quiet, Drafted, TextOf, Complete;
    var text := ConfigContents(e, prefix, header, entries, n);
    ghost var env := e.Values();
    FileSplits(e.k, e.users, env, prefix, header, entries);
    FileComplete(e.k, e.users, env, prefix, header, entries);
    RestoresIfQuiet(e.k, env, prefix, FileLines(e.k, e.users, env, prefix, header, entries));
    LoadConfig(other, prefix, text);
    AllRanked(e.k, e.r, entries, n);
    RoundTripExactly(e.k, e.r, e.users, other.users);
  }

  lemma AllRanked(k: Config, r: Rank, entries: seq<Entry>, n: nat)
    requires EntriesOk(k, r, entries, n) && AllMet(k, entries)
    ensures forall i | IsDefined(k, i) :: Str(i) in r
  {
  }

  // ---- what a line says ----

  /** A line for a bool or tristate is taken by its first letter, and for that symbol alone: y, n, and m for a tristate. */
  lemma LevelLineSays(k: Config, prefix: string, i: Id, text: string, j: Id)
    requires NamesOk(k) && '=' !in prefix && IsDefined(k, i) && k.items[i].Symbol? && BoolLike(k.items[i].ty)
    requires text == "" || !IsSpace(text[|text| - 1])
    ensures var said := Says(k, prefix, prefix + k.items[i].name + "=" + text, j);
            && (said.Some? <==> j == i && text != ""
                                && (text[0] == 'y' || text[0] == 'n' || (text[0] == 'm' && k.items[i].ty == Tristate)))
            && (said.Some? ==> said.value.UserTri? && TriText(said.value.n) == text[..1])
            && (said.Some? ==> said.value.n == if text[0] == 'y' then 2 else if text[0] == 'm' then 1 else 0)
  {
    hide ParseLine, Named;
    assert GoodName(k.items[i].name);
    NamedFinds(k, i, |k.items|);
    ParseAssign(prefix, k.items[i].name, text);
    if text != "" {
      assert text[..1] == [text[0]];
    }
  }

  /** A line for a number is taken as it stands, if it reads as one. */
  lemma NumberLineSays(k: Config, prefix: string, i: Id, text: string)
    requires NamesOk(k) && '=' !in prefix && IsDefined(k, i) && k.items[i].Symbol?
    requires text == "" || !IsSpace(text[|text| - 1])
    ensures var said := Says(k, prefix, prefix + k.items[i].name + "=" + text, i);
            && (k.items[i].ty == Int ==> said == if k.numbers.parse(text, 10).Some? then Some(UserText(text)) else None)
            && (k.items[i].ty == Hex ==>
                  said == if k.numbers.parse(text, 16).Some? && k.numbers.parse(text, 16).value >= 0
                          then Some(UserText(text)) else None)
  {
    hide ParseLine, Named;
    assert GoodName(k.items[i].name);
    NamedFinds(k, i, |k.items|);
    ParseAssign(prefix, k.items[i].name, text);
  }

  /** A line for a string is taken up to the closing quote, unescaped, and ignored without an opening one. */
  lemma TextLineSays(k: Config, prefix: string, i: Id, val: string, rest: string)
    requires NamesOk(k) && '=' !in prefix && IsDefined(k, i) && k.items[i].Symbol? && k.items[i].ty == Text
    requires rest == "" || !IsSpace(rest[|rest| - 1])
    ensures Says(k, prefix, prefix + k.items[i].name + "=" + ("\"" + Escape(val) + "\"" + rest), i) == Some(UserText(val))
    ensures (rest == "" || rest[0] != '"') ==> Says(k, prefix, prefix + k.items[i].name + "=" + rest, i) == None
  {
    hide ParseLine, Named, Escape, Unescape, QuotedBody;
    assert GoodName(k.items[i].name);
    NamedFinds(k, i, |k.items|);
    var text := "\"" + Escape(val) + "\"" + rest;
    assert text[|text| - 1] == if rest == "" then '"' else rest[|rest| - 1];
    ParseAssign(prefix, k.items[i].name, text);
    ParseAssign(prefix, k.items[i].name, rest);
    QuotedEscaped(val, rest);
    assert text[1..] == Escape(val) + "\"" + rest;
    UnescapeEscape(val);
  }

  /** What is written for a symbol: bool and tristate values after an equals sign, n as a comment, strings in quotes. */
  lemma LinesLook(it: Item, prefix: string, val: string)
    requires it.Symbol?
    ensures BoolLike(it.ty) && val == "n" ==> LineFor(it, prefix, val) == "# " + prefix + it.name + " is not set"
    ensures BoolLike(it.ty) && val != "n" ==> LineFor(it, prefix, val) == prefix + it.name + "=" + val
    ensures it.ty == Int || it.ty == Hex ==> LineFor(it, prefix, val) == prefix + it.name + "=" + val
    ensures it.ty == Text ==> LineFor(it, prefix, val) == prefix + it.name + "=" + ("\"" + Escape(val) + "\"")
  {
    hide Escape;
  }

  /** A small file: a menu with one symbol, met twice, a second symbol after it, and a comment that is off. */
  lemma SmallFile(k: Config, u: Users, env: Env, prefix: string, i: Id, j: Id, on: Expr, off: Expr)
    requires i != j && ConfigLine(k, env, prefix, i) == Some("CONFIG_A=y")
    requires ConfigLine(k, env, prefix, j) == Some("# CONFIG_B is not set")
    requires ExprVal(k, u, env, on).val != 0 && ExprVal(k, u, env, off).val == 0
    ensures var entries := [Note("Menu", [on]), SymbolNode(i), MenuEnd("Menu", [on]), SymbolNode(i), SymbolNode(j),
                            Note("Off", [on, off])];
            TextOf(Drafted(k, u, env, prefix, entries).pieces)
            == "\n#\n# Menu\n#\n" + "CONFIG_A=y\n" + "# end of Menu\n" + "\n" + "# CONFIG_B is not set\n"
  {
    hide ConfigLine, ExprVal, Drafted, TextOf;
    SmallDraft(k, u, env, prefix, i, j, on, off, "Menu", "CONFIG_A=y", "# CONFIG_B is not set");
    FivePieces(Other(NoteText("Menu")), Own(i, "CONFIG_A=y"), Other(EndText("Menu")), Other("\n"),
               Own(j, "# CONFIG_B is not set"));
    assert NoteText("Menu") == "\n#\n# Menu\n#\n" && EndText("Menu") == "# end of Menu\n";
    assert "CONFIG_A=y" + "\n" == "CONFIG_A=y\n" && "# CONFIG_B is not set" + "\n" == "# CONFIG_B is not set\n";
  }

  lemma SmallDraft(k: Config, u: Users, env: Env, prefix: string, i: Id, j: Id, on: Expr, off: Expr,
                   menu: string, l1: string, l2: string)
    requires i != j && ConfigLine(k, env, prefix, i) == Some(l1) && ConfigLine(k, env, prefix, j) == Some(l2)
    requires ExprVal(k, u, env, on).val != 0 && ExprVal(k, u, env, off).val == 0
    ensures Drafted(k, u, env, prefix, [Note(menu, [on]), SymbolNode(i), MenuEnd(menu, [on]), SymbolNode(i),
                                        SymbolNode(j), Note("Off", [on, off])]).pieces
            == [Other(NoteText(menu)), Own(i, l1), Other(EndText(menu)), Other("\n"), Own(j, l2)]
  {
    hide ConfigLine, ExprVal, Drafted, WithEntry;
    var a, b, c, d, e, f := Note(menu, [on]), SymbolNode(i), MenuEnd(menu, [on]), SymbolNode(i), SymbolNode(j),
                            Note("Off", [on, off]);
    var p1, p2, p3, p4, p5 := Other(NoteText(menu)), Own(i, l1), Other(EndText(menu)), Other("\n"), Own(j, l2);
    var d1, d2, d3 := Draft([p1], {}, false), Draft([p1, p2], {i}, false), Draft([p1, p2, p3], {i}, true);
    var d5 := Draft([p1, p2, p3, p4, p5], {i, j}, false);
    NoteOn(k, u, env, prefix, Draft([], {}, false), menu, on);
    SymbolNew(k, u, env, prefix, d1, i, l1);
    EndOn(k, u, env, prefix, d2, menu, on);
    SymbolAgain(k, u, env, prefix, d3, i);
    SymbolNew(k, u, env, prefix, d3, j, l2);
    OffNote(k, u, env, prefix, d5, on, off);
    hide NoteText, EndText;
    DraftedMore(k, u, env, prefix, [], a);
    assert [] + [a] == [a] && [] + [p1] == [p1] && Drafted(k, u, env, prefix, [a]) == d1;
    DraftedMore(k, u, env, prefix, [a], b);
    assert [a] + [b] == [a, b] && [p1] + [] + [p2] == [p1, p2] && Drafted(k, u, env, prefix, [a, b]) == d2;
    DraftedMore(k, u, env, prefix, [a, b], c);
    assert [a, b] + [c] == [a, b, c] && [p1, p2] + [p3] == [p1, p2, p3] && Drafted(k, u, env, prefix, [a, b, c]) == d3;
    DraftedMore(k, u, env, prefix, [a, b, c], d);
    assert [a, b, c] + [d] == [a, b, c, d] && Drafted(k, u, env, prefix, [a, b, c, d]) == d3;
    DraftedMore(k, u, env, prefix, [a, b, c, d], e);
    assert [a, b, c, d] + [e] == [a, b, c, d, e] && [p1, p2, p3] + [p4] + [p5] == [p1, p2, p3, p4, p5];
    assert Drafted(k, u, env, prefix, [a, b, c, d, e]) == d5;
    DraftedMore(k, u, env, prefix, [a, b, c, d, e], f);
    assert [a, b, c, d, e] + [f] == [a, b, c, d, e, f];
  }

  lemma DraftedMore(k: Config, u: Users, env: Env, prefix: string, es: seq<Entry>, e: Entry)
    ensures Drafted(k, u, env, prefix, es + [e]) == WithEntry(k, u, env, prefix, Drafted(k, u, env, prefix, es), e)
    ensures Drafted(k, u, env, prefix, []) == Draft([], {}, false)
  {
    hide WithEntry;
    assert (es + [e])[..|es|] == es;
  }

  lemma NoteOn(k: Config, u: Users, env: Env, prefix: string, d: Draft, text: string, on: Expr)
    requires ExprVal(k, u, env, on).val != 0
    ensures WithEntry(k, u, env, prefix, d, Note(text, [on]))
            == Draft(d.pieces + [Other(NoteText(text))], d.seen, false)
  {
    hide ExprVal;
  }

  lemma EndOn(k: Config, u: Users, env: Env, prefix: string, d: Draft, text: string, on: Expr)
    requires ExprVal(k, u, env, on).val != 0
    ensures WithEntry(k, u, env, prefix, d, MenuEnd(text, [on]))
            == Draft(d.pieces + [Other(EndText(text))], d.seen, true)
  {
    hide ExprVal;
  }

  lemma SymbolNew(k: Config, u: Users, env: Env, prefix: string, d: Draft, i: Id, line: string)
    requires i !in d.seen && ConfigLine(k, env, prefix, i) == Some(line)
    ensures WithEntry(k, u, env, prefix, d, SymbolNode(i))
            == Draft(d.pieces + (if d.ended then [Other("\n")] else []) + [Own(i, line)], d.seen + {i}, false)
  {
    hide ConfigLine;
  }

  lemma SymbolAgain(k: Config, u: Users, env: Env, prefix: string, d: Draft, i: Id)
    requires i in d.seen
    ensures WithEntry(k, u, env, prefix, d, SymbolNode(i)) == d
  {
  }

  lemma OffNote(k: Config, u: Users, env: Env, prefix: string, d: Draft, on: Expr, off: Expr)
    requires ExprVal(k, u, env, off).val == 0
    ensures WithEntry(k, u, env, prefix, d, Note("Off", [on, off])) == d
  {
    hide ExprVal;
    assert off in [on, off];
  }

  lemma FivePieces(p1: Piece, p2: Piece, p3: Piece, p4: Piece, p5: Piece)
    ensures TextOf([p1, p2, p3, p4, p5])
            == PieceText(p1) + PieceText(p2) + PieceText(p3) + PieceText(p4) + PieceText(p5)
  {
    hide PieceText;
    assert [p1, p2, p3, p4, p5][..4] == [p1, p2, p3, p4] && [p1, p2, p3, p4][..3] == [p1, p2, p3];
    assert [p1, p2, p3][..2] == [p1, p2] && [p1, p2][..1] == [p1] && [p1][..0] == [];
    assert TextOf([p1]) == PieceText(p1);
    assert TextOf([p1, p2]) == PieceText(p1) + PieceText(p2);
    assert TextOf([p1, p2, p3]) == PieceText(p1) + PieceText(p2) + PieceText(p3);
    assert TextOf([p1, p2, p3, p4]) == PieceText(p1) + PieceText(p2) + PieceText(p3) + PieceText(p4);
  }

  // ---- files that do not restore ----

  lemma FourLines(text: string)
    requires NoBreaks(text)
    ensures Split(NoteText(text)) == ["", "#", "# " + text, "#"]
  {
    hide Split;
    var l := "# " + text;
    assert NoBreaks("") && NoBreaks("#") && NoBreaks("# ");
    assert NoBreaks(l);
    SplitLine("");
    SplitLine("#");
    SplitLine(l);
    assert NoteText(text) == ("" + "\n") + (("#" + "\n") + ((l + "\n") + ("#" + "\n")));
    SplitConcat("" + "\n", ("#" + "\n") + ((l + "\n") + ("#" + "\n")));
    SplitConcat("#" + "\n", (l + "\n") + ("#" + "\n"));
    SplitConcat(l + "\n", "#" + "\n");
    assert [""] + (["#"] + ([l] + ["#"])) == ["", "#", l, "#"];
  }

  /** A comment that reads like the line of a symbol that is not set is taken for it ... */
  lemma CommentUnsets(k: Config, prefix: string, i: Id)
    requires NamesOk(k) && '=' !in prefix && IsDefined(k, i) && k.items[i].Symbol? && BoolLike(k.items[i].ty)
    ensures Says(k, prefix, "# " + (prefix + k.items[i].name + NOT_SET), i) == Some(UserTri(0))
    ensures Says(k, prefix, "#", i) == None
  {
    hide ParseLine, Named;
    var name := k.items[i].name;
    assert GoodName(name);
    assert "# " + (prefix + name + NOT_SET) == UnsetLine(prefix, name);
    ParseUnset(prefix, name);
    NamedFinds(k, i, |k.items|);
    HashIgnored(prefix);
  }

  lemma HashIgnored(prefix: string)
    requires '=' !in prefix
    ensures ParseLine(prefix, "#") == Ignored
  {
    hide RStrip, Find;
    RStripNothing("#");
    var after := if prefix <= "#" then "#"[|prefix|..] else "";
    assert forall c | c in after :: c == '#';
    assert |"# " + prefix| > 1;
  }

  /** ... so that a file with it below the symbol's own line does not give the symbol its value back. */
  lemma CommentUndoesValue(k: Config, u: Users, env: Env, prefix: string, i: Id)
    requires NamesOk(k) && NoBreaks(prefix) && '=' !in prefix
    requires IsDefined(k, i) && k.items[i].Symbol? && BoolLike(k.items[i].ty)
    requires ConfigLine(k, env, prefix, i).Some? && Reloaded(k, env, i) != Some(UserTri(0))
    ensures var entries := [SymbolNode(i), Note(prefix + k.items[i].name + NOT_SET, [])];
            !Quiet(k, env, prefix, FileLines(k, u, env, prefix, "", entries))
  {
    hide ConfigLine, Says, Reloaded, FileLines, NamesOk, BoolLike;
    var text := prefix + k.items[i].name + NOT_SET;
    var entries := [SymbolNode(i), Note(text, [])];
    CommentUnsets(k, prefix, i);
    CommentedFile(k, u, env, prefix, i, text);
    var lines := FileLines(k, u, env, prefix, "", entries);
    assert lines[3].OtherLine? && Says(k, prefix, lines[3].text, i) == Some(UserTri(0));
    assert forall q | 3 < q < |lines| :: lines[q] == OtherLine("#");
  }

  lemma CommentedFile(k: Config, u: Users, env: Env, prefix: string, i: Id, text: string)
    requires NamesOk(k) && NoBreaks(prefix) && IsDefined(k, i) && k.items[i].Symbol?
    requires ConfigLine(k, env, prefix, i).Some? && text == prefix + k.items[i].name + NOT_SET
    ensures var lines := FileLines(k, u, env, prefix, "", [SymbolNode(i), Note(text, [])]);
            |lines| == 5 && lines[3] == OtherLine("# " + text) && lines[4] == OtherLine("#")
  {
    hide ConfigLine, Split, NoteText, Drafted, LinesOf;
    assert NoBreaks(text) by {
      assert GoodName(k.items[i].name) && NoBreaks(NOT_SET);
    }
    hide NoBreaks, NamesOk;
    FourLines(text);
    TwoPieces(k, u, env, prefix, i, text);
    SplitNothing();
    assert Others([]) == [];
  }

  lemma TwoPieces(k: Config, u: Users, env: Env, prefix: string, i: Id, text: string)
    requires ConfigLine(k, env, prefix, i).Some?
    ensures var own, note := Own(i, ConfigLine(k, env, prefix, i).value), Other(NoteText(text));
            && Drafted(k, u, env, prefix, [SymbolNode(i), Note(text, [])]).pieces == [own, note]
            && LinesOf([own, note]) == [OwnLine(i, own.line)] + Others(Split(NoteText(text)))
  {
    hide ConfigLine, Split, NoteText;
    var a, b := SymbolNode(i), Note(text, []);
    var own, note := Own(i, ConfigLine(k, env, prefix, i).value), Other(NoteText(text));
    assert [a, b][..1] == [a] && [a][..0] == [];
    assert Drafted(k, u, env, prefix, [a]).pieces == [own];
    assert [own, note][..1] == [own] && [own][..0] == [];
    assert LinesOf([own]) == [OwnLine(i, own.line)];
  }

  /** A header without a final newline swallows the line after it. */
  lemma HeaderSwallows(k: Config, j: Id)
    ensures Split("# x" + ("CONFIG_A=y" + "\n")) == ["# xCONFIG_A=y"]
    ensures Says(k, "CONFIG_", "# xCONFIG_A=y", j) == None
  {
    assert "# x" + ("CONFIG_A=y" + "\n") == "# xCONFIG_A=y" + "\n";
    SplitLine("# xCONFIG_A=y");
    hide RStrip, Find, Split;
    var line, head := "# xCONFIG_A=y", "# " + "CONFIG_";
    RStripNothing(line);
    assert line[0] == '#' && !("CONFIG_" <= line);
    assert head[2] == 'C' && line[2] == 'x' && !(head <= line);
    assert Find("", '=') == 0;
    assert ParseLine("CONFIG_", line) == Ignored;
  }

  // ---- from the menu tree to the file ----

  datatype NodeItem =
    | SymbolItem(i: Id)
    | MenuItem(text: string, dep: Expr, visibility: Expr)
    | CommentItem(text: string, dep: Expr)
    | PlainItem

  /** What an event of the walk means for the file. */
  function EntryOf(items: seq<NodeItem>, ev: M.Event): seq<Entry> {
    if ev.id >= |items| then [] else
    match items[ev.id]
    case SymbolItem(i) => if ev.Enter? then [SymbolNode(i)] else []
    case MenuItem(text, dep, visibility) =>
      if ev.Enter? then [Note(text, [dep, visibility])] else [MenuEnd(text, [dep, visibility])]
    case CommentItem(text, dep) => if ev.Enter? then [Note(text, [dep])] else []
    case PlainItem => []
  }

  function EntriesOf(items: seq<NodeItem>, events: seq<M.Event>): seq<Entry> {
    if events == [] then []
    else EntriesOf(items, events[..|events| - 1]) + EntryOf(items, events[|events| - 1])
  }

  lemma EntriesMore(items: seq<NodeItem>, es: seq<M.Event>, ev: M.Event)
    ensures EntriesOf(items, es + [ev]) == EntriesOf(items, es) + EntryOf(items, ev)
  {
    assert (es + [ev])[..|es|] == es;
  }

  /** A menu around a symbol, a comment and a second symbol: the end of the menu comes after what is in it. */
  lemma MenuEntries(text: string, dep: Expr, visibility: Expr, i: Id, note: string, cond: Expr, j: Id)
    ensures var items := [MenuItem(text, dep, visibility), SymbolItem(i), CommentItem(note, cond), SymbolItem(j)];
            var inner := M.Node(1, M.Nil, M.Nil);
            var kids := M.Node(0, inner, M.Node(2, M.Nil, M.Node(3, M.Nil, M.Nil)));
            EntriesOf(items, M.Tour(kids)) == [Note(text, [dep, visibility]), SymbolNode(i),
                                               MenuEnd(text, [dep, visibility]), Note(note, [cond]), SymbolNode(j)]
  {
    var items := [MenuItem(text, dep, visibility), SymbolItem(i), CommentItem(note, cond), SymbolItem(j)];
    var inner, last := M.Node(1, M.Nil, M.Nil), M.Node(3, M.Nil, M.Nil);
    assert M.Tour(inner) == [M.Enter(1)] && M.Tour(last) == [M.Enter(3)];
    assert M.Tour(M.Node(2, M.Nil, last)) == [M.Enter(2), M.Enter(3)];
    var es := [M.Enter(0), M.Enter(1), M.Leave(0), M.Enter(2), M.Enter(3)];
    assert M.Tour(M.Node(0, inner, M.Node(2, M.Nil, last))) == es;
    assert es == [] + [es[0]] + [es[1]] + [es[2]] + [es[3]] + [es[4]];
    hide M.Tour;
    EntriesMore(items, [], es[0]);
    EntriesMore(items, [] + [es[0]], es[1]);
    EntriesMore(items, [] + [es[0]] + [es[1]], es[2]);
    EntriesMore(items, [] + [es[0]] + [es[1]] + [es[2]], es[3]);
    EntriesMore(items, [] + [es[0]] + [es[1]] + [es[2]] + [es[3]], es[4]);
  }

  /** Writing a file walks the menu tree by its links. */
  method WriteConfig(e: Engine, tree: M.Tree, top: M.Id, ghost kids: M.Forest, items: seq<NodeItem>,
                     prefix: string, header: string, ghost n: nat) returns (text: string)
    requires e.Ok() && EntriesOk(e.k, e.r, EntriesOf(items, M.Tour(kids)), n)
    requires M.Sized(tree.L()) && M.Distinct(M.Node(top, kids, M.Nil))
    requires M.Rep(tree.L(), M.Some(top), M.Node(top, kids, M.Nil), M.None, M.None)
    modifies e`cache
    ensures e.Ok()
    ensures text == header + TextOf(Drafted(e.k, e.users, e.Values(), prefix, EntriesOf(items, M.Tour(kids))).pieces)
  {
    hide M.Tour, Drafted, TextOf, Full, CacheOk, WellFormed, UsersOk, Ordered, EntriesOk;
    var events := tree.EventWalk(top, kids);
    var entries: seq<Entry> := [];
    var j := 0;
    while j < |events|
      invariant 0 <= j <= |events| && entries == EntriesOf(items, events[..j])
    {
      assert events[..j + 1][..j] == events[..j];
      entries := entries + EntryOf(items, events[j]);
      j := j + 1;
    }
    assert events[..j] == events;
    text := ConfigContents(e, prefix, header, entries, n);
  }
}
