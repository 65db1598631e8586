/** What the printer's local decisions add up to. */
module PrinterLaws {
  import opened Wrappers
  import opened Unicode
  import opened FormatTree
  import opened Printer

  // ---- Flat groups stay flat ----

  predicate Fits(ir: FormatIR, cfg: FormatConfig, col: nat) {
    GroupFitsOnLine(col, FlatWidth(ir), cfg.maxWidth)
  }

  /** The state after laying out `text`, which holds `groups` groups, all flat. */
  function OneLine(st: Rendered, text: string, groups: nat): Rendered {
    Rendered(st.text + text, st.col + ByteLength(text), st.choices + seq(groups, _ => Flat))
  }

  lemma OneLineConcat(st: Rendered, a: string, m: nat, b: string, n: nat)
    ensures OneLine(OneLine(st, a, m), b, n) == OneLine(st, a + b, m + n)
  {
    ByteLengthConcat(a, b);
  }

  /** A tree that fits and is rendered flat comes out as its one-line text: every group met on the
      way is flat too, no space or line break ends the line, and the column moves by the width. */
  lemma {:induction false} FlatCoherent(ir: FormatIR, indent: nat, cfg: FormatConfig, st: Rendered)
    requires Fits(ir, cfg, st.col)
    ensures FlatText(ir).Some? && Render(ir, indent, Flat, cfg, st) == OneLine(st, FlatText(ir).value, FlatGroups(ir))
    decreases ir, 0
  {
    match ir
    case Indent(child) => FlatCoherent(child, indent + cfg.indentSize, cfg, st);
    case Group(child) =>
      var chosen := st.(choices := st.choices + [Flat]);
      FlatCoherent(child, indent, cfg, chosen);
      assert st.choices + [Flat] + seq(FlatGroups(child), _ => Flat) == st.choices + seq(FlatGroups(ir), _ => Flat);
    case IfBreak(flat, _) => FlatCoherent(flat, indent, cfg, st);
    case Concat(parts) => FlatCoherentAll(parts, indent, cfg, st);
    case Space => assert ByteLength(" ") == ByteOffset(" ", 0) + 1;
    case _ =>
  }

  lemma {:induction false} FlatCoherentAll(parts: seq<FormatIR>, indent: nat, cfg: FormatConfig, st: Rendered)
    requires FlatTexts(parts).Some?
    requires ByteLength(FlatTexts(parts).value) < USIZE_MAX
    requires st.col + ByteLength(FlatTexts(parts).value) <= cfg.maxWidth
    ensures RenderAll(parts, indent, Flat, cfg, st) == OneLine(st, FlatTexts(parts).value, FlatGroupsAll(parts))
    decreases parts, 1
  {
    if parts == [] {
      assert st.text + "" == st.text;
    } else {
      var last := |parts| - 1;
      var front, back := FlatTexts(parts[..last]).value, FlatText(parts[last]).value;
      ByteLengthConcat(front, back);
      FlatCoherentAll(parts[..last], indent, cfg, st);
      var before := OneLine(st, front, FlatGroupsAll(parts[..last]));
      FlatCoherent(parts[last], indent, cfg, before);
      OneLineConcat(st, front, FlatGroupsAll(parts[..last]), back, FlatGroups(parts[last]));
    }
  }

  /** A group is laid out flat exactly when its one-line text, measured from the current column,
      ends within the width; then all groups inside it are flat and the column ends within it. */
  lemma GroupCoherence(child: FormatIR, indent: nat, mode: Mode, cfg: FormatConfig, st: Rendered)
    ensures var width := FlatWidth(child);
      Choice(child, cfg, st.col) == Flat <==> width < USIZE_MAX && st.col + width <= cfg.maxWidth
    ensures Choice(child, cfg, st.col) == Flat ==>
      && FlatText(child).Some?
      && var end := Render(Group(child), indent, mode, cfg, st);
      && end == OneLine(st, FlatText(child).value, 1 + FlatGroups(child))
      && end.col == st.col + FlatWidth(child) <= cfg.maxWidth
  {
    if Choice(child, cfg, st.col) == Flat {
      FlatCoherent(Group(child), indent, cfg, st);
    }
  }

  /** A document that fits on one line prints as that line. */
  lemma FittingDocument(child: FormatIR, cfg: FormatConfig)
    requires Fits(child, cfg, 0)
    ensures FlatText(child).Some? && PrettyPrint(Group(child), cfg) == Finish(FlatText(child).value)
  {
    FlatCoherent(Group(child), 0, cfg, START);
    assert "" + FlatText(child).value == FlatText(child).value;
  }

  // ---- The real column ----

  predicate NewlineFree(s: string) {
    forall k | 0 <= k < |s| :: s[k] != '\n'
  }

  predicate TextsNewlineFree(ir: FormatIR)
    decreases ir, 0
  {
    match ir
    case Text(s) => NewlineFree(s)
    case Indent(child) => TextsNewlineFree(child)
    case Group(child) => TextsNewlineFree(child)
    case IfBreak(flat, broken) => TextsNewlineFree(flat) && TextsNewlineFree(broken)
    case Concat(parts) => AllNewlineFree(parts)
    case _ => true
  }

  predicate AllNewlineFree(parts: seq<FormatIR>)
    decreases parts, 1
  {
    parts == [] || (AllNewlineFree(parts[..|parts| - 1]) && TextsNewlineFree(parts[|parts| - 1]))
  }

  /** What follows the last newline. */
  function LastLine(s: string): string {
    if s == "" || s[|s| - 1] == '\n' then "" else LastLine(s[..|s| - 1]) + [s[|s| - 1]]
  }

  ghost predicate ColumnIsReal(st: Rendered) {
    st.col == ByteLength(LastLine(st.text))
  }

  lemma {:induction false} LastLineGrows(a: string, b: string)
    requires NewlineFree(b)
    ensures LastLine(a + b) == LastLine(a) + b
    decreases |b|
  {
    if b == "" {
      assert a + b == a;
    } else {
      var front := b[..|b| - 1];
      assert (a + b)[..|a + b| - 1] == a + front;
      LastLineGrows(a, front);
      assert front + [b[|b| - 1]] == b;
    }
  }

  lemma {:induction false} SpacesWidth(n: nat)
    ensures ByteLength(Spaces(n)) == n
  {
    if n > 0 {
      SpacesWidth(n - 1);
      assert Spaces(n) == Spaces(n - 1) + " ";
      ByteLengthConcat(Spaces(n - 1), " ");
      assert ByteLength(" ") == ByteOffset(" ", 0) + 1;
    }
  }

  lemma NewLineColumn(st: Rendered, indent: nat)
    ensures ColumnIsReal(NewLine(st, indent))
  {
    LastLineGrows(st.text + "\n", Spaces(indent));
    SpacesWidth(indent);
    assert LastLine(st.text + "\n") + Spaces(indent) == Spaces(indent);
  }

  lemma {:induction false} LastLineWidth(s: string)
    ensures ByteLength(LastLine(s)) <= ByteLength(s)
    ensures ByteLength(LastLine(s)) == ByteLength(s) <==> NewlineFree(s)
    decreases |s|
  {
    if s != "" {
      var front, c := s[..|s| - 1], s[|s| - 1];
      assert s == front + [c];
      ByteLengthConcat(front, [c]);
      assert ByteLength([c]) == ByteOffset([c], 0) + Utf8Width(c);
      LastLineWidth(front);
      if c != '\n' {
        ByteLengthConcat(LastLine(front), [c]);
      }
    }
  }

  lemma {:induction false} LastLineOfConcat(a: string, b: string)
    requires !NewlineFree(b)
    ensures LastLine(a + b) == LastLine(b)
    decreases |b|
  {
    var front := b[..|b| - 1];
    assert (a + b)[..|a + b| - 1] == a + front;
    if b[|b| - 1] != '\n' {
      LastLineOfConcat(a, front);
    }
  }

  /** Where the column goes wrong: a text keeps it right exactly when it holds no newline. */
  lemma TextColumn(s: string, indent: nat, mode: Mode, cfg: FormatConfig, st: Rendered)
    requires ColumnIsReal(st)
    ensures ColumnIsReal(Render(Text(s), indent, mode, cfg, st)) <==> NewlineFree(s)
  {
    if NewlineFree(s) {
      LastLineGrows(st.text, s);
      ByteLengthConcat(LastLine(st.text), s);
    } else {
      LastLineOfConcat(st.text, s);
      LastLineWidth(s);
    }
  }

  /** With newline-free texts the printer's column is the byte length of the line it is on. */
  lemma {:induction false} RenderColumn(ir: FormatIR, indent: nat, mode: Mode, cfg: FormatConfig, st: Rendered)
    requires TextsNewlineFree(ir) && ColumnIsReal(st)
    ensures ColumnIsReal(Render(ir, indent, mode, cfg, st))
    decreases ir, 0
  {
    match ir
    case Empty =>
    case Text(s) => TextColumn(s, indent, mode, cfg, st);
    case Space =>
      if mode == Flat {
        LastLineGrows(st.text, " ");
        ByteLengthConcat(LastLine(st.text), " ");
        assert ByteLength(" ") == ByteOffset(" ", 0) + 1;
      } else {
        NewLineColumn(st, indent);
      }
    case Hardline => NewLineColumn(st, indent);
    case Indent(child) => RenderColumn(child, indent + cfg.indentSize, mode, cfg, st);
    case Group(child) =>
      var choice := Choice(child, cfg, st.col);
      RenderColumn(child, indent, choice, cfg, st.(choices := st.choices + [choice]));
    case IfBreak(flat, broken) => RenderColumn(if mode == Flat then flat else broken, indent, mode, cfg, st);
    case Concat(parts) => RenderAllColumn(parts, indent, mode, cfg, st);
  }

  lemma {:induction false} RenderAllColumn(parts: seq<FormatIR>, indent: nat, mode: Mode, cfg: FormatConfig,
      st: Rendered)
    requires AllNewlineFree(parts) && ColumnIsReal(st)
    ensures ColumnIsReal(RenderAll(parts, indent, mode, cfg, st))
    decreases parts, 1
  {
    if parts != [] {
      var last := |parts| - 1;
      RenderAllColumn(parts[..last], indent, mode, cfg, st);
      RenderColumn(parts[last], indent, mode, cfg, RenderAll(parts[..last], indent, mode, cfg, st));
    }
  }

  /** With newline-free texts, the line on which a group is laid out flat ends, after the group,
      within the width. */
  lemma FlatLineWithinWidth(child: FormatIR, indent: nat, mode: Mode, cfg: FormatConfig, st: Rendered)
    requires TextsNewlineFree(child) && ColumnIsReal(st) && Choice(child, cfg, st.col) == Flat
    ensures ByteLength(LastLine(Render(Group(child), indent, mode, cfg, st).text)) <= cfg.maxWidth
  {
    GroupCoherence(child, indent, mode, cfg, st);
    RenderColumn(Group(child), indent, mode, cfg, st);
  }

  // ---- Layout changes only white space ----

  /** What is left after deleting spaces and newlines. */
  function Ink(s: string): string {
    if s == "" then ""
    else
      var front, c := Ink(s[..|s| - 1]), s[|s| - 1];
      if c == ' ' || c == '\n' then front else front + [c]
  }

  function TreeInk(ir: FormatIR): string
    decreases ir, 0
  {
    match ir
    case Text(s) => Ink(s)
    case Indent(child) => TreeInk(child)
    case Group(child) => TreeInk(child)
    case IfBreak(flat, _) => TreeInk(flat)
    case Concat(parts) => TreesInk(parts)
    case _ => ""
  }

  function TreesInk(parts: seq<FormatIR>): string
    decreases parts, 1
  {
    if parts == [] then "" else TreesInk(parts[..|parts| - 1]) + TreeInk(parts[|parts| - 1])
  }

  /** Both branches of every conditional node carry the same ink. */
  predicate BranchesAgree(ir: FormatIR)
    decreases ir, 0
  {
    match ir
    case Indent(child) => BranchesAgree(child)
    case Group(child) => BranchesAgree(child)
    case IfBreak(flat, broken) => BranchesAgree(flat) && BranchesAgree(broken) && TreeInk(flat) == TreeInk(broken)
    case Concat(parts) => AllBranchesAgree(parts)
    case _ => true
  }

  predicate AllBranchesAgree(parts: seq<FormatIR>)
    decreases parts, 1
  {
    parts == [] || (AllBranchesAgree(parts[..|parts| - 1]) && BranchesAgree(parts[|parts| - 1]))
  }

  lemma {:induction false} InkConcat(a: string, b: string)
    ensures Ink(a + b) == Ink(a) + Ink(b)
    decreases |b|
  {
    if b == "" {
      assert a + b == a;
    } else {
      assert (a + b)[..|a + b| - 1] == a + b[..|b| - 1];
      InkConcat(a, b[..|b| - 1]);
    }
  }

  lemma {:induction false} SpacesInk(n: nat)
    ensures Ink(Spaces(n)) == ""
  {
    if n > 0 {
      assert Spaces(n)[..n - 1] == Spaces(n - 1);
      SpacesInk(n - 1);
    }
  }

  lemma NewLineInk(st: Rendered, indent: nat)
    ensures Ink(NewLine(st, indent).text) == Ink(st.text)
  {
    InkConcat(st.text + "\n", Spaces(indent));
    InkConcat(st.text, "\n");
    SpacesInk(indent);
    assert "\n"[..0] == "";
  }

  /** Rendering appends the ink of the tree, whatever the mode, the width and the indentation. */
  lemma {:induction false} RenderInk(ir: FormatIR, indent: nat, mode: Mode, cfg: FormatConfig, st: Rendered)
    requires BranchesAgree(ir)
    ensures Ink(Render(ir, indent, mode, cfg, st).text) == Ink(st.text) + TreeInk(ir)
    decreases ir, 0
  {
    match ir
    case Empty =>
    case Text(s) => InkConcat(st.text, s);
    case Space =>
      if mode == Flat {
        InkConcat(st.text, " ");
        assert " "[..0] == "";
      } else {
        NewLineInk(st, indent);
      }
    case Hardline => NewLineInk(st, indent);
    case Indent(child) => RenderInk(child, indent + cfg.indentSize, mode, cfg, st);
    case Group(child) =>
      var choice := Choice(child, cfg, st.col);
      RenderInk(child, indent, choice, cfg, st.(choices := st.choices + [choice]));
    case IfBreak(flat, broken) => RenderInk(if mode == Flat then flat else broken, indent, mode, cfg, st);
    case Concat(parts) => RenderAllInk(parts, indent, mode, cfg, st);
  }

  lemma {:induction false} RenderAllInk(parts: seq<FormatIR>, indent: nat, mode: Mode, cfg: FormatConfig, st: Rendered)
    requires AllBranchesAgree(parts)
    ensures Ink(RenderAll(parts, indent, mode, cfg, st).text) == Ink(st.text) + TreesInk(parts)
    decreases parts, 1
  {
    if parts != [] {
      var last := |parts| - 1;
      RenderAllInk(parts[..last], indent, mode, cfg, st);
      RenderInk(parts[last], indent, mode, cfg, RenderAll(parts[..last], indent, mode, cfg, st));
    }
  }

  /** Any two configurations print the same characters apart from spaces and newlines. */
  lemma LayoutIsWhitespace(ir: FormatIR, a: FormatConfig, b: FormatConfig)
    requires BranchesAgree(ir)
    ensures Ink(PrettyPrint(ir, a)) == Ink(PrettyPrint(ir, b)) == TreeInk(ir)
  {
    PrintedInk(ir, a);
    PrintedInk(ir, b);
  }

  lemma PrintedInk(ir: FormatIR, cfg: FormatConfig)
    requires BranchesAgree(ir)
    ensures Ink(PrettyPrint(ir, cfg)) == TreeInk(ir)
  {
    RenderInk(ir, 0, Break, cfg, START);
    FinishInk(Render(ir, 0, Break, cfg, START).text);
  }

  lemma ConditionalInk(flat: FormatIR, broken: FormatIR, cfg: FormatConfig)
    requires BranchesAgree(flat) && BranchesAgree(broken)
    ensures Ink(PrettyPrint(Group(IfBreak(flat, broken)), cfg)) == TreeInk(if Fits(flat, cfg, 0) then flat else broken)
  {
    var ir := IfBreak(flat, broken);
    var choice := Choice(ir, cfg, 0);
    var chosen := if choice == Flat then flat else broken;
    var start := START.(choices := START.choices + [choice]);
    assert Render(Group(ir), 0, Break, cfg, START) == Render(ir, 0, choice, cfg, start);
    assert Render(ir, 0, choice, cfg, start) == Render(chosen, 0, choice, cfg, start);
    RenderInk(chosen, 0, choice, cfg, start);
    FinishInk(Render(Group(ir), 0, Break, cfg, START).text);
    assert Ink("") == "";
  }

  /** The condition is needed: branches with different ink show in two configurations as soon as
      the flat branch has a one-line width at all. */
  lemma DisagreeingBranchesShow(flat: FormatIR, broken: FormatIR)
    requires BranchesAgree(flat) && BranchesAgree(broken) && TreeInk(flat) != TreeInk(broken)
    requires 0 < FlatWidth(flat) < USIZE_MAX
    ensures var ir := Group(IfBreak(flat, broken));
      exists a, b :: Ink(PrettyPrint(ir, a)) != Ink(PrettyPrint(ir, b))
  {
    var wide, narrow := FormatConfig(2, FlatWidth(flat)), FormatConfig(2, 0);
    ConditionalInk(flat, broken, wide);
    ConditionalInk(flat, broken, narrow);
    var ir := Group(IfBreak(flat, broken));
    assert Ink(PrettyPrint(ir, wide)) != Ink(PrettyPrint(ir, narrow));
  }

  lemma FinishInk(text: string)
    ensures Ink(Finish(text)) == Ink(text)
  {
    InkConcat(text, "\n");
    assert "\n"[..0] == "";
  }
}
