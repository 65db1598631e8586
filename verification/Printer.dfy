/** The printer: a worklist over the document tree, proved equal to a recursive renderer that
    threads the output and the column from left to right. */
module Printer {
  import opened Wrappers
  import opened Unicode
  import opened FormatTree

  const USIZE_MAX: nat := 0xFFFF_FFFF_FFFF_FFFF

  type usize = n: nat | n <= USIZE_MAX

  datatype FormatConfig = FormatConfig(indentSize: nat, maxWidth: usize)

  datatype Mode = Flat | Break

  /** `usize::saturating_add` never goes past the largest value. */
  function Saturate(n: nat): usize {
    if n <= USIZE_MAX then n else USIZE_MAX
  }

  /** The width of the one-line layout; the largest value when there is none. */
  function FlatWidth(ir: FormatIR): usize {
    match FlatText(ir)
    case None => USIZE_MAX
    case Some(s) => Saturate(ByteLength(s))
  }

  method MeasureFlat(ir: FormatIR) returns (width: usize)
    ensures width == FlatWidth(ir)
    decreases ir
  {
    match ir
    case Empty => return 0;
    case Text(s) => return Saturate(ByteLength(s));
    case Space =>
      assert ByteLength(" ") == ByteOffset(" ", 0) + 1;
      return 1;
    case Hardline => return USIZE_MAX;
    case Indent(child) => width := MeasureFlat(child);
    case Group(child) => width := MeasureFlat(child);
    case IfBreak(flat, _) => width := MeasureFlat(flat);
    case Concat(parts) =>
      var total: usize := 0;
      for k := 0 to |parts|
        invariant FlatTexts(parts[..k]).Some? && total == ByteLength(FlatTexts(parts[..k]).value) < USIZE_MAX
      {
        FlatTextsTake(parts, k);
        var w := MeasureFlat(parts[k]);
        if FlatText(parts[k]).Some? {
          ByteLengthConcat(FlatTexts(parts[..k]).value, FlatText(parts[k]).value);
        }
        if w == USIZE_MAX {
          FlatWidthPrefix(parts, k + 1);
          return USIZE_MAX;
        }
        total := Saturate(total + w);
        if total == USIZE_MAX {
          FlatWidthPrefix(parts, k + 1);
          return USIZE_MAX;
        }
      }
      assert parts[..|parts|] == parts;
      width := total;
  }

  lemma FlatTextsTake(parts: seq<FormatIR>, k: nat)
    requires k < |parts|
    ensures var front, back := FlatTexts(parts[..k]), FlatText(parts[k]);
      FlatTexts(parts[..k + 1]) == if front.None? || back.None? then None else Some(front.value + back.value)
  {
    assert parts[..k + 1][..k] == parts[..k];
  }

  /** A prefix that is too wide, or cannot be flat, makes the whole too wide. */
  lemma {:induction false} FlatWidthPrefix(parts: seq<FormatIR>, k: nat)
    requires k <= |parts|
    requires FlatTexts(parts[..k]).None? || ByteLength(FlatTexts(parts[..k]).value) >= USIZE_MAX
    ensures FlatTexts(parts).None? || ByteLength(FlatTexts(parts).value) >= USIZE_MAX
    decreases |parts| - k
  {
    if k == |parts| {
      assert parts[..k] == parts;
    } else {
      FlatTextsTake(parts, k);
      if FlatTexts(parts[..k + 1]).Some? {
        ByteLengthConcat(FlatTexts(parts[..k]).value, FlatText(parts[k]).value);
      }
      FlatWidthPrefix(parts, k + 1);
    }
  }

  function GroupFitsOnLine(col: nat, flatWidth: usize, maxWidth: usize): (fits: bool)
    ensures fits <==> flatWidth != USIZE_MAX && col + flatWidth <= maxWidth
  {
    if flatWidth == USIZE_MAX || col > maxWidth then false
    else flatWidth <= maxWidth - col
  }

  // ---- The recursive renderer ----

  /** Output so far, the printer's column, and the layout chosen at each group met so far. */
  datatype Rendered = Rendered(text: string, col: nat, choices: seq<Mode>)

  function Spaces(n: nat): string {
    seq(n, _ => ' ')
  }

  function NewLine(st: Rendered, indent: nat): Rendered {
    st.(text := st.text + "\n" + Spaces(indent), col := indent)
  }

  function Choice(child: FormatIR, cfg: FormatConfig, col: nat): Mode {
    if GroupFitsOnLine(col, FlatWidth(child), cfg.maxWidth) then Flat else Break
  }

  function Render(ir: FormatIR, indent: nat, mode: Mode, cfg: FormatConfig, st: Rendered): Rendered
    decreases ir, 0
  {
    match ir
    case Empty => st
    case Text(s) => st.(text := st.text + s, col := st.col + ByteLength(s))
    case Space => if mode == Flat then st.(text := st.text + " ", col := st.col + 1) else NewLine(st, indent)
    case Hardline => NewLine(st, indent)
    case Indent(child) => Render(child, indent + cfg.indentSize, mode, cfg, st)
    case Group(child) =>
      var choice := Choice(child, cfg, st.col);
      Render(child, indent, choice, cfg, st.(choices := st.choices + [choice]))
    case IfBreak(flat, broken) => Render(if mode == Flat then flat else broken, indent, mode, cfg, st)
    case Concat(parts) => RenderAll(parts, indent, mode, cfg, st)
  }

  function RenderAll(parts: seq<FormatIR>, indent: nat, mode: Mode, cfg: FormatConfig, st: Rendered): Rendered
    decreases parts, 1
  {
    if parts == [] then st
    else
      var last := |parts| - 1;
      Render(parts[last], indent, mode, cfg, RenderAll(parts[..last], indent, mode, cfg, st))
  }

  const START := Rendered("", 0, [])

  /** Non-empty output ends with a newline. */
  function Finish(text: string): string {
    if text != "" && text[|text| - 1] != '\n' then text + "\n" else text
  }

  function PrettyPrint(ir: FormatIR, cfg: FormatConfig): string {
    Finish(Render(ir, 0, Break, cfg, START).text)
  }

  // ---- The worklist ----

  datatype PrintCmd = PrintCmd(indent: nat, mode: Mode, ir: FormatIR)

  /** Running the stack from the top down. */
  function RunStack(stack: seq<PrintCmd>, cfg: FormatConfig, st: Rendered): Rendered
    decreases |stack|
  {
    if stack == [] then st
    else
      var top := stack[|stack| - 1];
      RunStack(stack[..|stack| - 1], cfg, Render(top.ir, top.indent, top.mode, cfg, st))
  }

  function StackSize(stack: seq<PrintCmd>): nat {
    if stack == [] then 0 else StackSize(stack[..|stack| - 1]) + Size(stack[|stack| - 1].ir)
  }

  lemma RunPush(stack: seq<PrintCmd>, cmd: PrintCmd, cfg: FormatConfig, st: Rendered)
    ensures RunStack(stack + [cmd], cfg, st) == RunStack(stack, cfg, Render(cmd.ir, cmd.indent, cmd.mode, cfg, st))
    ensures StackSize(stack + [cmd]) == StackSize(stack) + Size(cmd.ir)
  {
    assert (stack + [cmd])[..|stack|] == stack;
  }

  lemma {:induction false} RenderAllCons(parts: seq<FormatIR>, indent: nat, mode: Mode, cfg: FormatConfig, st: Rendered)
    requires parts != []
    ensures RenderAll(parts, indent, mode, cfg, st)
      == RenderAll(parts[1..], indent, mode, cfg, Render(parts[0], indent, mode, cfg, st))
    decreases |parts|
  {
    var last := |parts| - 1;
    if last > 0 {
      RenderAllCons(parts[..last], indent, mode, cfg, st);
      assert parts[..last][1..] == parts[1..][..last - 1];
    } else {
      assert parts[..last] == [];
    }
  }

  /** Pushes the parts last first, so that the first is on top. */
  method PushReversed(stack: seq<PrintCmd>, parts: seq<FormatIR>, indent: nat, mode: Mode,
                      ghost cfg: FormatConfig, ghost st: Rendered) returns (pushed: seq<PrintCmd>)
    ensures RunStack(pushed, cfg, st) == RunStack(stack, cfg, RenderAll(parts, indent, mode, cfg, st))
    ensures StackSize(pushed) == StackSize(stack) + Sizes(parts)
  {
    hide Render, Size;
    pushed := stack;
    for k := |parts| downto 0
      invariant forall st' ::
        RunStack(pushed, cfg, st') == RunStack(stack, cfg, RenderAll(parts[k..], indent, mode, cfg, st'))
      invariant StackSize(pushed) == StackSize(stack) + Sizes(parts[k..])
    {
      var cmd := PrintCmd(indent, mode, parts[k]);
      assert parts[k..][1..] == parts[k + 1..];
      forall st'
        ensures RunStack(pushed + [cmd], cfg, st')
             == RunStack(stack, cfg, RenderAll(parts[k..], indent, mode, cfg, st'))
      {
        RunPush(pushed, cmd, cfg, st');
        RenderAllCons(parts[k..], indent, mode, cfg, st');
      }
      RunPush(pushed, cmd, cfg, st);
      pushed := pushed + [cmd];
    }
    assert parts[0..] == parts;
  }

  /** The printer's loop computes what the recursive renderer does. */
  method Print(ir: FormatIR, cfg: FormatConfig) returns (out: string)
    ensures out == PrettyPrint(ir, cfg)
  {
    hide RunStack, StackSize, RenderAll, Sizes, FlatWidth;
    out := "";
    var col: nat := 0;
    ghost var choices: seq<Mode> := [];
    var stack := [] + [PrintCmd(0, Break, ir)];
    ghost var goal := Render(ir, 0, Break, cfg, START);
    RunPush([], PrintCmd(0, Break, ir), cfg, START);
    RunEmpty(cfg, goal);
    while stack != []
      invariant RunStack(stack, cfg, Rendered(out, col, choices)) == goal
      decreases StackSize(stack)
    {
      var cmd, rest := stack[|stack| - 1], stack[..|stack| - 1];
      assert stack == rest + [cmd];
      RunPush(rest, cmd, cfg, Rendered(out, col, choices));
      stack := rest;
      match cmd.ir {
        case Empty =>
        case Text(s) =>
          out := out + s;
          col := col + ByteLength(s);
        case Space =>
          if cmd.mode == Flat {
            out := out + " ";
            col := col + 1;
          } else {
            out := out + "\n" + Spaces(cmd.indent);
            col := cmd.indent;
          }
        case Hardline =>
          out := out + "\n" + Spaces(cmd.indent);
          col := cmd.indent;
        case Indent(child) =>
          RunPush(rest, PrintCmd(cmd.indent + cfg.indentSize, cmd.mode, child), cfg, Rendered(out, col, choices));
          stack := rest + [PrintCmd(cmd.indent + cfg.indentSize, cmd.mode, child)];
        case Group(child) =>
          var flatWidth := MeasureFlat(child);
          var mode := if GroupFitsOnLine(col, flatWidth, cfg.maxWidth) then Flat else Break;
          choices := choices + [mode];
          RunPush(rest, PrintCmd(cmd.indent, mode, child), cfg, Rendered(out, col, choices));
          stack := rest + [PrintCmd(cmd.indent, mode, child)];
        case IfBreak(flat, broken) =>
          var chosen := if cmd.mode == Flat then flat else broken;
          RunPush(rest, PrintCmd(cmd.indent, cmd.mode, chosen), cfg, Rendered(out, col, choices));
          stack := rest + [PrintCmd(cmd.indent, cmd.mode, chosen)];
        case Concat(parts) =>
          stack := PushReversed(rest, parts, cmd.indent, cmd.mode, cfg, Rendered(out, col, choices));
      }
    }
    RunEmpty(cfg, Rendered(out, col, choices));
    if out != "" && out[|out| - 1] != '\n' {
      out := out + "\n";
    }
  }

  lemma RunEmpty(cfg: FormatConfig, st: Rendered)
    ensures RunStack([], cfg, st) == st
  {
  }
}
