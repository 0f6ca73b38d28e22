/** The text of a .config file in scripts/kconfiglib.py: string escaping, and lines that assign or unset. */
module KText {
  import opened Basics
  import opened KValues

  // ---- escaping ----

  /** str.replace with a one-character pattern. */
  function ReplaceChar(s: string, c: char, t: string): string {
    if s == [] then [] else (if s[0] == c then t else [s[0]]) + ReplaceChar(s[1..], c, t)
  }

  function Escape(s: string): string {
    ReplaceChar(ReplaceChar(s, '\\', "\\\\"), '"', "\\\"")
  }

  /** A backslash stands for the character behind it, unless that is a line break. */
  function Unescape(s: string): string {
    if s == [] then []
    else if s[0] == '\\' && |s| >= 2 && s[1] != '\n' then [s[1]] + Unescape(s[2..])
    else [s[0]] + Unescape(s[1..])
  }

  /** The text up to the first quote that is not escaped. */
  function QuotedBody(s: string): Option<string> {
    if s == [] then None
    else if s[0] == '"' then Some("")
    else if s[0] == '\\' then
      if |s| < 2 || s[1] == '\n' then None else
      var r := QuotedBody(s[2..]);
      if r.None? then None else Some(s[..2] + r.value)
    else
      var r := QuotedBody(s[1..]);
      if r.None? then None else Some([s[0]] + r.value)
  }

  function StringLiteral(s: string): Option<string> {
    if s == [] || s[0] != '"' then None else QuotedBody(s[1..])
  }

  function EscapedChar(c: char): string {
    if c == '\\' then "\\\\" else if c == '"' then "\\\"" else [c]
  }

  lemma {:induction false} ReplaceConcat(s: string, t: string, c: char, w: string)
    ensures ReplaceChar(s + t, c, w) == ReplaceChar(s, c, w) + ReplaceChar(t, c, w)
    decreases |s|
  {
    if s == [] {
      assert s + t == t;
    } else {
      assert (s + t)[1..] == s[1..] + t;
      ReplaceConcat(s[1..], t, c, w);
    }
  }

  /** Escaping works character by character: a backslash in front of backslashes and quotes. */
  lemma EscapeCons(s: string)
    requires s != []
    ensures Escape(s) == EscapedChar(s[0]) + Escape(s[1..])
  {
    var head := if s[0] == '\\' then "\\\\" else [s[0]];
    var tail := ReplaceChar(s[1..], '\\', "\\\\");
    ReplaceConcat(head, tail, '"', "\\\"");
    OneOrTwo(s[0]);
  }

  lemma OneOrTwo(c: char)
    ensures ReplaceChar(if c == '\\' then "\\\\" else [c], '"', "\\\"") == EscapedChar(c)
  {
    var h := if c == '\\' then "\\\\" else [c];
    assert ReplaceChar([], '"', "\\\"") == [];
    if c == '\\' {
      assert h[1..] == "\\" && h[1..][1..] == [];
      assert ReplaceChar(h[1..], '"', "\\\"") == "\\" + ReplaceChar([], '"', "\\\"");
    } else {
      assert h[1..] == [];
    }
  }

  /** Unescaping undoes escaping, for every string. */
  lemma {:induction false} UnescapeEscape(s: string)
    ensures Unescape(Escape(s)) == s
    decreases |s|
  {
    if s != [] {
      EscapeCons(s);
      UnescapeEscape(s[1..]);
      var e := EscapedChar(s[0]);
      var t := Escape(s);
      assert t[|e|..] == Escape(s[1..]);
    }
  }

  lemma QuotedStep(c: char, u: string)
    ensures QuotedBody(EscapedChar(c) + u) ==
            var r := QuotedBody(u); if r.None? then None else Some(EscapedChar(c) + r.value)
  {
    var e := EscapedChar(c);
    var t := e + u;
    assert t[|e|..] == u && t[..|e|] == e;
    assert t[0] == e[0];
    if |e| == 2 {
      assert t[1] == e[1];
    }
  }

  /** An escaped string between quotes is read back whole, whatever follows. */
  lemma {:induction false} QuotedEscaped(s: string, rest: string)
    ensures QuotedBody(Escape(s) + "\"" + rest) == Some(Escape(s))
    decreases |s|
  {
    hide Escape, QuotedBody, EscapedChar;
    if s == [] {
      EscapeEmpty();
      QuoteEnds(rest);
      assert Escape(s) + "\"" + rest == "\"" + rest;
    } else {
      EscapeCons(s);
      QuotedEscaped(s[1..], rest);
      var u := Escape(s[1..]) + "\"" + rest;
      assert Escape(s) + "\"" + rest == EscapedChar(s[0]) + u;
      QuotedStep(s[0], u);
    }
  }

  /** Escaping puts a backslash before every backslash and every quote, and leaves everything else. */
  lemma EscapeMeans(s: string)
    ensures Escape("") == ""
    ensures s != "" ==> Escape(s) == (if s[0] == '\\' || s[0] == '"' then ['\\', s[0]] else [s[0]]) + Escape(s[1..])
  {
    hide Escape;
    EscapeEmpty();
    if s != "" {
      EscapeCons(s);
    }
  }

  lemma EscapeEmpty()
    ensures Escape("") == ""
  {
  }

  lemma QuoteEnds(rest: string)
    ensures QuotedBody("\"" + rest) == Some("")
  {
  }

  // ---- lines ----

  /** Everything that stripping a string removes. */
  predicate IsSpace(c: char) {
    var n := c as int;
    || 9 <= n <= 13 || 28 <= n <= 32 || n == 0x85 || n == 0xa0 || n == 0x1680 || 0x2000 <= n <= 0x200a
    || n == 0x2028 || n == 0x2029 || n == 0x202f || n == 0x205f || n == 0x3000
  }

  function RStrip(s: string): string {
    if s != [] && IsSpace(s[|s| - 1]) then RStrip(s[..|s| - 1]) else s
  }

  /** The index of the first occurrence of c, or the length. */
  function Find(s: string, c: char): (n: nat)
    ensures n <= |s|
    ensures forall j | 0 <= j < n :: s[j] != c
    ensures n < |s| ==> s[n] == c
  {
    if s == [] || s[0] == c then 0 else 1 + Find(s[1..], c)
  }

  lemma FindAt(s: string, c: char, t: string)
    requires c !in s
    ensures Find(s + [c] + t, c) == |s|
  {
    var w := s + [c] + t;
    hide Find;
    assert w[|s|] == c;
    assert forall j | 0 <= j < |s| :: w[j] == s[j];
  }

  datatype Parsed = Assign(name: string, text: string) | Unset(name: string) | Ignored

  const NOT_SET := " is not set"

  function AssignLine(prefix: string, name: string, text: string): string { prefix + name + "=" + text }

  function UnsetLine(prefix: string, name: string): string { "# " + prefix + name + NOT_SET }

  /** CONFIG_<name>=<text>, or "# CONFIG_<name> is not set". */
  function ParseLine(prefix: string, raw: string): Parsed {
    var line := RStrip(raw);
    var after := if prefix <= line then line[|prefix|..] else "";
    var n := Find(after, '=');
    if 0 < n < |after| then Assign(after[..n], after[n + 1..])
    else
      var head := "# " + prefix;
      if !(head <= line) then Ignored else
      var rest := line[|head|..];
      var m := Find(rest, ' ');
      if m > 0 && NOT_SET <= rest[m..] then Unset(rest[..m]) else Ignored
  }

  predicate GoodName(name: string) {
    name != "" && forall c | c in name :: c != '=' && c != '\n' && c != '\r' && c != ' '
  }

  predicate NoBreaks(s: string) { forall c | c in s :: c != '\n' && c != '\r' }

  lemma RStripNothing(s: string)
    requires s == "" || !IsSpace(s[|s| - 1])
    ensures RStrip(s) == s
  {
  }

  lemma ParseAssign(prefix: string, name: string, text: string)
    requires GoodName(name) && '=' !in prefix
    requires text == "" || !IsSpace(text[|text| - 1])
    ensures ParseLine(prefix, AssignLine(prefix, name, text)) == Assign(name, text)
  {
    hide Find, RStrip;
    var line := AssignLine(prefix, name, text);
    assert line[|line| - 1] == if text == "" then '=' else text[|text| - 1];
    RStripNothing(line);
    assert prefix <= line;
    assert line[|prefix|..] == name + ['='] + text;
    FindAt(name, '=', text);
  }

  lemma ParseUnset(prefix: string, name: string)
    requires GoodName(name) && '=' !in prefix
    ensures ParseLine(prefix, UnsetLine(prefix, name)) == Unset(name)
  {
    hide Find, RStrip;
    var line := UnsetLine(prefix, name);
    assert line[|line| - 1] == 't';
    RStripNothing(line);
    assert '=' !in line;
    var head := "# " + prefix;
    assert head <= line;
    var rest := line[|head|..];
    assert rest == name + [' '] + NOT_SET[1..];
    FindAt(name, ' ', NOT_SET[1..]);
    assert rest[|name|..] == NOT_SET;
  }

  // ---- files ----

  predicate IsBreak(c: char) { c == '\n' || c == '\r' }

  /** The index of the first line break, or the length. */
  function BreakAt(s: string): (n: nat)
    ensures n <= |s|
    ensures forall j | 0 <= j < n :: !IsBreak(s[j])
    ensures n < |s| ==> IsBreak(s[n])
  {
    if s == [] || IsBreak(s[0]) then 0 else 1 + BreakAt(s[1..])
  }

  /** A carriage return and a newline after it are one break. */
  function BreakEnd(s: string, n: nat): (m: nat)
    requires n < |s|
    ensures n < m <= |s|
  {
    if s[n] == '\r' && n + 1 < |s| && s[n + 1] == '\n' then n + 2 else n + 1
  }

  /** Reading a file line by line; a last line without a break counts if it is not empty. */
  function Split(text: string): seq<string>
    decreases |text|
  {
    if text == "" then [] else
    var n := BreakAt(text);
    if n == |text| then [text] else [text[..n]] + Split(text[BreakEnd(text, n)..])
  }

  predicate Ended(text: string) { text == "" || text[|text| - 1] == '\n' }

  lemma BreakIs(s: string, n: nat)
    requires n < |s| && IsBreak(s[n]) && forall j | 0 <= j < n :: !IsBreak(s[j])
    ensures BreakAt(s) == n
  {
    hide BreakAt;
  }

  /** What follows a text that ends in a newline is read on its own. */
  lemma {:induction false} SplitConcat(a: string, b: string)
    requires Ended(a)
    ensures Split(a + b) == Split(a) + Split(b)
    decreases |a|
  {
    hide BreakAt;
    if a == "" {
      assert a + b == b;
    } else {
      var t, n := a + b, BreakAt(a);
      assert a[|a| - 1] == '\n';
      assert t[..|a|] == a;
      BreakIs(t, n);
      var m := BreakEnd(a, n);
      assert BreakEnd(t, n) == m;
      assert t[m..] == a[m..] + b && t[..n] == a[..n];
      SplitConcat(a[m..], b);
      assert [a[..n]] + (Split(a[m..]) + Split(b)) == [a[..n]] + Split(a[m..]) + Split(b);
    }
  }

  lemma SplitLine(l: string)
    requires NoBreaks(l)
    ensures Split(l + "\n") == [l]
  {
    hide BreakAt;
    var t := l + "\n";
    assert forall j | 0 <= j < |l| :: t[j] in l;
    BreakIs(t, |l|);
    assert t[..|l|] == l && t[|l| + 1..] == "";
  }
}
