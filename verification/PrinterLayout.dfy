/** The printed text read off the tree: which piece of it each leaf writes, line breaks and
    indentation included, and how each group is decided. */
module PrinterLayout {
  import opened Wrappers
  import opened Unicode
  import opened FormatTree
  import opened Printer
  import opened PrinterLaws

  // ---- Positions in a tree ----

  /** The child numbers from the root down to a node. */
  type Path = seq<nat>

  function Children(ir: FormatIR): seq<FormatIR> {
    match ir
    case Indent(child) => [child]
    case Group(child) => [child]
    case IfBreak(flat, broken) => [flat, broken]
    case Concat(parts) => parts
    case _ => []
  }

  function Parent(p: Path): Path
    requires p != []
  {
    p[..|p| - 1]
  }

  /** `q` is `p` or below it. */
  predicate Under(p: Path, q: Path) {
    p <= q
  }

  predicate StrictlyUnder(p: Path, q: Path) {
    p < q
  }

  function NodeAt(root: FormatIR, p: Path): Option<FormatIR> {
    if p == [] then Some(root)
    else
      match NodeAt(root, Parent(p))
      case None => None
      case Some(n) => if p[|p| - 1] < |Children(n)| then Some(Children(n)[p[|p| - 1]]) else None
  }

  predicate IsIndent(root: FormatIR, p: Path) {
    NodeAt(root, p).Some? && NodeAt(root, p).value.Indent?
  }

  predicate IsGroup(root: FormatIR, p: Path) {
    NodeAt(root, p).Some? && NodeAt(root, p).value.Group?
  }

  predicate IsIfBreak(root: FormatIR, p: Path) {
    NodeAt(root, p).Some? && NodeAt(root, p).value.IfBreak?
  }

  /** How many `Indent` nodes are above a position. */
  function IndentsAbove(root: FormatIR, p: Path): nat {
    if p == [] then 0 else IndentsAbove(root, Parent(p)) + if IsIndent(root, Parent(p)) then 1 else 0
  }

  /** The leaves under a node at `p`, from left to right, whichever branches are taken. */
  function Leaves(ir: FormatIR, p: Path): seq<Path>
    decreases ir, 0
  {
    match ir
    case Indent(child) => Leaves(child, p + [0])
    case Group(child) => Leaves(child, p + [0])
    case IfBreak(flat, broken) => Leaves(flat, p + [0]) + Leaves(broken, p + [1])
    case Concat(parts) => LeavesAll(parts, p)
    case _ => [p]
  }

  function LeavesAll(parts: seq<FormatIR>, p: Path): seq<Path>
    decreases parts, 1
  {
    if parts == [] then []
    else LeavesAll(parts[..|parts| - 1], p) + Leaves(parts[|parts| - 1], p + [|parts| - 1])
  }

  // ---- What a layout writes ----

  /** How each group is laid out. */
  type Decisions = map<Path, Mode>

  /** The layout in force at a position: that of the nearest group above it. */
  function ModeAt(root: FormatIR, d: Decisions, p: Path): Mode {
    if p == [] then Break
    else if IsGroup(root, Parent(p)) then (if Parent(p) in d then d[Parent(p)] else Break)
    else ModeAt(root, d, Parent(p))
  }

  /** Every conditional above the position has taken the branch that leads to it: the first if it is
      laid out flat, the second if not. */
  predicate Shown(root: FormatIR, d: Decisions, p: Path) {
    p == [] ||
    (Shown(root, d, Parent(p)) &&
     (IsIfBreak(root, Parent(p)) ==> (p[|p| - 1] == 0 <==> ModeAt(root, d, Parent(p)) == Flat)))
  }

  /** A line ends here: at a hard line break, and at a space that is not laid out flat. */
  predicate EndsLine(root: FormatIR, d: Decisions, p: Path) {
    && NodeAt(root, p).Some? && Shown(root, d, p)
    && (NodeAt(root, p).value.Hardline? || (NodeAt(root, p).value.Space? && ModeAt(root, d, p) == Break))
  }

  /** The piece of the printed text that comes from a leaf. A line break is followed by one
      indentation for each `Indent` above the leaf. */
  function Written(root: FormatIR, cfg: FormatConfig, d: Decisions, p: Path): string {
    if NodeAt(root, p).None? || !Shown(root, d, p) then ""
    else if EndsLine(root, d, p) then "\n" + Spaces(IndentsAbove(root, p) * cfg.indentSize)
    else
      match NodeAt(root, p).value
      case Text(s) => s
      case Space => " "
      case _ => ""
  }

  function WrittenAll(root: FormatIR, cfg: FormatConfig, d: Decisions, ps: seq<Path>): string {
    if ps == [] then ""
    else WrittenAll(root, cfg, d, ps[..|ps| - 1]) + Written(root, cfg, d, ps[|ps| - 1])
  }

  /** The bytes since the last line break of the layout. */
  function ColumnAfter(root: FormatIR, cfg: FormatConfig, d: Decisions, ps: seq<Path>): nat {
    if ps == [] then 0
    else
      var p := ps[|ps| - 1];
      if EndsLine(root, d, p) then IndentsAbove(root, p) * cfg.indentSize
      else ColumnAfter(root, cfg, d, ps[..|ps| - 1]) + ByteLength(Written(root, cfg, d, p))
  }

  /** The tree has a one-line form, of a width that the measure can hold, which ends within the width of
      the page. */
  predicate EndsWithin(ir: FormatIR, col: nat, maxWidth: nat) {
    && FlatText(ir).Some?
    && ByteLength(FlatText(ir).value) < 0xFFFF_FFFF_FFFF_FFFF
    && col + ByteLength(FlatText(ir).value) <= maxWidth
  }

  lemma ChoiceIsFit(child: FormatIR, cfg: FormatConfig, col: nat)
    ensures Choice(child, cfg, col) == Flat <==> EndsWithin(child, col, cfg.maxWidth)
  {
  }

  /** The leaves of a group come after the first `n`, and the group is flat exactly when it fits behind
      what those write. */
  ghost predicate DecidedAfter(root: FormatIR, cfg: FormatConfig, d: Decisions, all: seq<Path>, g: Path, n: nat)
    requires IsGroup(root, g)
  {
    var group := NodeAt(root, g).value;
    && g in d
    && n <= |all| && Leaves(group, g) <= all[n..]
    && (d[g] == Flat <==> EndsWithin(group.child, ColumnAfter(root, cfg, d, all[..n]), cfg.maxWidth))
  }

  ghost predicate DecidedAt(root: FormatIR, cfg: FormatConfig, d: Decisions, all: seq<Path>, g: Path)
    requires IsGroup(root, g)
  {
    exists n: nat :: DecidedAfter(root, cfg, d, all, g, n)
  }

  ghost predicate Decided(root: FormatIR, cfg: FormatConfig, d: Decisions, all: seq<Path>, p: Path) {
    forall g: Path | Under(p, g) && IsGroup(root, g) && Shown(root, d, g) :: DecidedAt(root, cfg, d, all, g)
  }

  // ---- Decisions elsewhere do not matter ----

  ghost predicate AgreeOutside(d: Decisions, e: Decisions, p: Path) {
    forall g: Path | !(Under(p, g)) :: (g in d <==> g in e) && (g in d ==> d[g] == e[g])
  }

  /** A position depends on the groups above it alone. */
  lemma {:induction false} SameAbove(root: FormatIR, cfg: FormatConfig, d: Decisions, e: Decisions, p: Path, q: Path)
    requires AgreeOutside(d, e, p) && !StrictlyUnder(p, q)
    ensures ModeAt(root, d, q) == ModeAt(root, e, q) && Shown(root, d, q) == Shown(root, e, q)
    ensures EndsLine(root, d, q) == EndsLine(root, e, q) && Written(root, cfg, d, q) == Written(root, cfg, e, q)
    decreases |q|
  {
    if q != [] {
      assert Under(p, Parent(q)) ==> StrictlyUnder(p, q);
      SameAbove(root, cfg, d, e, p, Parent(q));
    }
  }

  ghost predicate NoneUnder(ps: seq<Path>, p: Path) {
    forall q | q in ps :: !(Under(p, q))
  }

  lemma {:induction false} SameWritten(root: FormatIR, cfg: FormatConfig, d: Decisions, e: Decisions, p: Path,
      ps: seq<Path>)
    requires AgreeOutside(d, e, p) && NoneUnder(ps, p)
    ensures WrittenAll(root, cfg, d, ps) == WrittenAll(root, cfg, e, ps)
    ensures ColumnAfter(root, cfg, d, ps) == ColumnAfter(root, cfg, e, ps)
  {
    if ps != [] {
      assert ps[|ps| - 1] in ps && forall q | q in ps[..|ps| - 1] :: q in ps;
      SameAbove(root, cfg, d, e, p, ps[|ps| - 1]);
      SameWritten(root, cfg, d, e, p, ps[..|ps| - 1]);
    }
  }

  /** A decision stands when more is written and more is decided elsewhere. */
  lemma StaysDecided(root: FormatIR, cfg: FormatConfig, d: Decisions, e: Decisions, all: seq<Path>, more: seq<Path>,
      p: Path, g: Path)
    requires IsGroup(root, g) && DecidedAt(root, cfg, d, all, g)
    requires AgreeOutside(d, e, p) && !(Under(p, g)) && NoneUnder(all, p)
    ensures DecidedAt(root, cfg, e, all + more, g)
  {
    hide ColumnAfter, Leaves, NodeAt, EndsWithin;
    var n: nat :| DecidedAfter(root, cfg, d, all, g, n);
    assert forall q | q in all[..n] :: q in all;
    SameWritten(root, cfg, d, e, p, all[..n]);
    assert (all + more)[..n] == all[..n] && (all + more)[n..] == all[n..] + more;
    assert DecidedAfter(root, cfg, e, all + more, g, n);
  }

  // ---- Paths ----

  lemma {:induction false} LeavesAreUnder(ir: FormatIR, p: Path)
    ensures forall q | q in Leaves(ir, p) :: Under(p, q)
    decreases ir, 0
  {
    match ir
    case Indent(child) => LeavesAreUnder(child, p + [0]);
    case Group(child) => LeavesAreUnder(child, p + [0]);
    case IfBreak(flat, broken) =>
      LeavesAreUnder(flat, p + [0]);
      LeavesAreUnder(broken, p + [1]);
    case Concat(parts) => LeavesAllAreUnder(parts, p);
    case _ =>
  }

  lemma {:induction false} LeavesAllAreUnder(parts: seq<FormatIR>, p: Path)
    ensures forall q | q in LeavesAll(parts, p) :: Under(p, q) && p != q && q[|p|] < |parts|
    decreases parts, 1
  {
    if parts != [] {
      var n := |parts| - 1;
      LeavesAllAreUnder(parts[..n], p);
      LeavesAreUnder(parts[n], p + [n]);
    }
  }

  lemma ChildAt(root: FormatIR, d: Decisions, p: Path, ir: FormatIR, k: nat)
    requires NodeAt(root, p) == Some(ir) && k < |Children(ir)|
    ensures Parent(p + [k]) == p && NodeAt(root, p + [k]) == Some(Children(ir)[k])
    ensures IndentsAbove(root, p + [k]) == IndentsAbove(root, p) + if ir.Indent? then 1 else 0
    ensures ModeAt(root, d, p + [k]) == if ir.Group? then (if p in d then d[p] else Break) else ModeAt(root, d, p)
    ensures Shown(root, d, p + [k]) ==
      (Shown(root, d, p) && (ir.IfBreak? ==> (k == 0 <==> ModeAt(root, d, p) == Flat)))
  {
    assert Parent(p + [k]) == p;
  }

  /** A node below another is below one of its children. */
  lemma {:induction false} UnderSomeChild(root: FormatIR, p: Path, ir: FormatIR, g: Path)
    requires NodeAt(root, p) == Some(ir) && Under(p, g) && p != g && NodeAt(root, g).Some?
    ensures g[|p|] < |Children(ir)| && Under(p + [g[|p|]], g)
    decreases |g|
  {
    if |g| == |p| + 1 {
      assert g == p + [g[|p|]] && Parent(g) == p;
    } else {
      var q := Parent(g);
      assert p == g[..|p|] == q[..|p|] && q[|p|] == g[|p|];
      UnderSomeChild(root, p, ir, q);
      assert g == q + [g[|q|]];
    }
  }

  /** Nothing below a position that is not shown is shown. */
  lemma {:induction false} HiddenBelow(root: FormatIR, d: Decisions, p: Path, q: Path)
    requires Under(p, q) && !Shown(root, d, p)
    ensures !Shown(root, d, q)
    decreases |q|
  {
    if p != q {
      assert Under(p, Parent(q));
      HiddenBelow(root, d, p, Parent(q));
    }
  }

  lemma OneMoreLeaf(root: FormatIR, cfg: FormatConfig, d: Decisions, before: seq<Path>, p: Path)
    ensures WrittenAll(root, cfg, d, before + [p]) == WrittenAll(root, cfg, d, before) + Written(root, cfg, d, p)
    ensures ColumnAfter(root, cfg, d, before + [p]) ==
      if EndsLine(root, d, p) then IndentsAbove(root, p) * cfg.indentSize
      else ColumnAfter(root, cfg, d, before) + ByteLength(Written(root, cfg, d, p))
  {
    assert (before + [p])[..|before|] == before;
  }

  lemma HiddenLeaf(root: FormatIR, cfg: FormatConfig, d: Decisions, q: Path)
    requires !Shown(root, d, q)
    ensures Written(root, cfg, d, q) == "" && !EndsLine(root, d, q) && ByteLength("") == 0
  {
  }

  lemma {:induction false} HiddenWritesNothing(root: FormatIR, cfg: FormatConfig, d: Decisions, before: seq<Path>,
      hidden: seq<Path>, p: Path)
    requires !Shown(root, d, p) && forall q | q in hidden :: Under(p, q)
    ensures WrittenAll(root, cfg, d, before + hidden) == WrittenAll(root, cfg, d, before)
    ensures ColumnAfter(root, cfg, d, before + hidden) == ColumnAfter(root, cfg, d, before)
    decreases |hidden|
  {
    hide Shown, Written, EndsLine, WrittenAll, ColumnAfter;
    if hidden == [] {
      assert before + hidden == before;
    } else {
      var n := |hidden| - 1;
      assert hidden[n] in hidden && forall q | q in hidden[..n] :: q in hidden;
      HiddenBelow(root, d, p, hidden[n]);
      HiddenLeaf(root, cfg, d, hidden[n]);
      HiddenWritesNothing(root, cfg, d, before, hidden[..n], p);
      OneMoreLeaf(root, cfg, d, before + hidden[..n], hidden[n]);
      assert before + hidden == before + hidden[..n] + [hidden[n]];
    }
  }

  lemma ChildPrefix(p: Path, k: nat)
    ensures forall q: Path | Under(p + [k], q) :: Under(p, q) && p != q && q[|p|] == k
  {
    forall q: Path | Under(p + [k], q) ensures Under(p, q) && p != q && q[|p|] == k {
      assert q[|p|] == (p + [k])[|p|];
    }
  }

  // ---- The renderer writes just that ----

  /** The renderer's state is what the leaves so far have written. */
  ghost predicate Stands(root: FormatIR, cfg: FormatConfig, d: Decisions, before: seq<Path>, st: Rendered) {
    st.text == WrittenAll(root, cfg, d, before) && st.col == ColumnAfter(root, cfg, d, before)
  }

  /** Where the renderer comes to a node. */
  ghost predicate Arrives(root: FormatIR, cfg: FormatConfig, d: Decisions, before: seq<Path>, p: Path, ir: FormatIR,
      mode: Mode, st: Rendered)
  {
    && NodeAt(root, p) == Some(ir) && Shown(root, d, p) && ModeAt(root, d, p) == mode
    && (forall g | g in d :: !(Under(p, g))) && NoneUnder(before, p)
    && Stands(root, cfg, d, before, st)
  }

  ghost predicate IsLeaf(ir: FormatIR) {
    ir.Empty? || ir.Text? || ir.Space? || ir.Hardline?
  }

  lemma NoGroupBelowLeaf(root: FormatIR, p: Path, ir: FormatIR)
    requires NodeAt(root, p) == Some(ir) && IsLeaf(ir)
    ensures forall g: Path | Under(p, g) :: !IsGroup(root, g)
  {
    forall g: Path | Under(p, g) ensures !IsGroup(root, g) {
      if p != g && NodeAt(root, g).Some? {
        UnderSomeChild(root, p, ir, g);
      }
    }
  }

  lemma LeafWritten(root: FormatIR, cfg: FormatConfig, d: Decisions, before: seq<Path>, p: Path, ir: FormatIR,
      mode: Mode, st: Rendered)
    requires Arrives(root, cfg, d, before, p, ir, mode, st) && IsLeaf(ir)
    ensures Stands(root, cfg, d, before + Leaves(ir, p),
      Render(ir, IndentsAbove(root, p) * cfg.indentSize, mode, cfg, st))
    ensures Decided(root, cfg, d, before + Leaves(ir, p), p)
  {
    hide WrittenAll, ColumnAfter, DecidedAt, IndentsAbove, ModeAt, Shown, NoneUnder;
    OneMoreLeaf(root, cfg, d, before, p);
    assert ByteLength("") == 0;
    assert ByteLength(" ") == ByteOffset(" ", 0) + 1;
    NoGroupBelowLeaf(root, p, ir);
    assert st.text + "" == st.text;
    assert forall n :: st.text + "\n" + Spaces(n) == st.text + ("\n" + Spaces(n));
  }

  // ---- The induction ----

  /** What rendering a node comes to. */
  ghost predicate Done(root: FormatIR, cfg: FormatConfig, d: Decisions, e: Decisions, all: seq<Path>, p: Path,
      st: Rendered)
  {
    && AgreeOutside(d, e, p)
    && Stands(root, cfg, e, all, st)
    && Decided(root, cfg, e, all, p)
  }

  lemma {:induction false} RenderIsWritten(root: FormatIR, cfg: FormatConfig, d: Decisions, before: seq<Path>, p: Path,
      ir: FormatIR, mode: Mode, st: Rendered) returns (e: Decisions)
    requires Arrives(root, cfg, d, before, p, ir, mode, st)
    ensures Done(root, cfg, d, e, before + Leaves(ir, p), p,
      Render(ir, IndentsAbove(root, p) * cfg.indentSize, mode, cfg, st))
    decreases ir, 1
  {
    hide Stands, Decided, NoneUnder, NodeAt, ModeAt, Shown, IndentsAbove;
    match ir
    case Indent(_) => e := IndentWritten(root, cfg, d, before, p, ir, mode, st);
    case Group(_) => e := GroupWritten(root, cfg, d, before, p, ir, mode, st);
    case IfBreak(flat, broken) => e := IfBreakWritten(root, cfg, d, before, p, ir, mode, st);
    case Concat(parts) => e := ConcatWritten(root, cfg, d, before, p, parts, mode, st);
    case _ =>
      e := d;
      LeafWritten(root, cfg, d, before, p, ir, mode, st);
  }

  lemma {:induction false} IndentWritten(root: FormatIR, cfg: FormatConfig, d: Decisions, before: seq<Path>, p: Path,
      ir: FormatIR, mode: Mode, st: Rendered) returns (e: Decisions)
    requires Arrives(root, cfg, d, before, p, ir, mode, st) && ir.Indent?
    ensures Done(root, cfg, d, e, before + Leaves(ir, p), p,
      Render(ir, IndentsAbove(root, p) * cfg.indentSize, mode, cfg, st))
    decreases ir, 0
  {
    hide Stands, Decided, NoneUnder, NodeAt, ModeAt, Shown, IndentsAbove, Done;
    ChildAt(root, d, p, ir, 0);
    ChildArrives(root, cfg, d, before, p, ir, 0, mode, st);
    e := RenderIsWritten(root, cfg, d, before, p + [0], ir.child, mode, st);
    Distributes(IndentsAbove(root, p), cfg.indentSize);
    OnlyChildDone(root, cfg, d, e, before + Leaves(ir, p), p, ir,
      Render(ir, IndentsAbove(root, p) * cfg.indentSize, mode, cfg, st));
  }

  lemma {:induction false} GroupWritten(root: FormatIR, cfg: FormatConfig, d: Decisions, before: seq<Path>, p: Path,
      ir: FormatIR, mode: Mode, st: Rendered) returns (e: Decisions)
    requires Arrives(root, cfg, d, before, p, ir, mode, st) && ir.Group?
    ensures Done(root, cfg, d, e, before + Leaves(ir, p), p,
      Render(ir, IndentsAbove(root, p) * cfg.indentSize, mode, cfg, st))
    decreases ir, 0
  {
    hide Stands, Decided, NoneUnder, NodeAt, ModeAt, Shown, IndentsAbove, Done;
    var choice := Choice(ir.child, cfg, st.col);
    var chosen := st.(choices := st.choices + [choice]);
    ChildAt(root, d, p, ir, 0);
    GroupArrives(root, cfg, d, before, p, ir, mode, st);
    e := RenderIsWritten(root, cfg, d[p := choice], before, p + [0], ir.child, choice, chosen);
    GroupDone(root, cfg, d, e, before, p, ir, choice,
      Render(ir, IndentsAbove(root, p) * cfg.indentSize, mode, cfg, st), st);
  }

  lemma Distributes(k: nat, size: nat)
    ensures (k + 1) * size == k * size + size
  {
  }

  /** At a child of a node that is not a group. */
  lemma ChildArrives(root: FormatIR, cfg: FormatConfig, d: Decisions, before: seq<Path>, p: Path, ir: FormatIR, k: nat,
      mode: Mode, st: Rendered)
    requires Arrives(root, cfg, d, before, p, ir, mode, st) && k < |Children(ir)|
    requires !ir.Group? && (ir.IfBreak? ==> (k == 0 <==> mode == Flat))
    ensures Arrives(root, cfg, d, before, p + [k], Children(ir)[k], mode, st)
  {
    hide Stands, NodeAt, ModeAt, Shown, IndentsAbove;
    ChildAt(root, d, p, ir, k);
    ChildPrefix(p, k);
  }

  lemma GroupArrives(root: FormatIR, cfg: FormatConfig, d: Decisions, before: seq<Path>, p: Path, ir: FormatIR,
      mode: Mode, st: Rendered)
    requires Arrives(root, cfg, d, before, p, ir, mode, st) && ir.Group?
    ensures var choice := Choice(ir.child, cfg, st.col);
      Arrives(root, cfg, d[p := choice], before, p + [0], ir.child, choice, st.(choices := st.choices + [choice]))
  {
    hide NodeAt, ModeAt, Shown, IndentsAbove, WrittenAll, ColumnAfter, Choice;
    var chosen := d[p := Choice(ir.child, cfg, st.col)];
    ChildAt(root, chosen, p, ir, 0);
    SameAbove(root, cfg, d, chosen, p, p);
    SameWritten(root, cfg, d, chosen, p, before);
    ChildPrefix(p, 0);
  }

  /** What is below a node with one child is below the child. */
  lemma OnlyChildDecided(root: FormatIR, cfg: FormatConfig, e: Decisions, all: seq<Path>, p: Path, ir: FormatIR)
    requires NodeAt(root, p) == Some(ir) && |Children(ir)| == 1 && Decided(root, cfg, e, all, p + [0])
    ensures forall g: Path | Under(p, g) && p != g && IsGroup(root, g) && Shown(root, e, g) ::
      DecidedAt(root, cfg, e, all, g)
  {
    hide NodeAt, Shown, DecidedAt;
    forall g: Path | Under(p, g) && p != g && IsGroup(root, g) && Shown(root, e, g)
      ensures DecidedAt(root, cfg, e, all, g)
    {
      UnderSomeChild(root, p, ir, g);
    }
  }

  lemma OnlyChildDone(root: FormatIR, cfg: FormatConfig, d: Decisions, e: Decisions, all: seq<Path>, p: Path,
      ir: FormatIR, st: Rendered)
    requires NodeAt(root, p) == Some(ir) && ir.Indent? && Done(root, cfg, d, e, all, p + [0], st)
    ensures Done(root, cfg, d, e, all, p, st)
  {
    hide NodeAt, Shown, DecidedAt, Stands;
    OnlyChildDecided(root, cfg, e, all, p, ir);
    ChildPrefix(p, 0);
  }

  lemma GroupDone(root: FormatIR, cfg: FormatConfig, d: Decisions, e: Decisions, before: seq<Path>, p: Path,
      ir: FormatIR, choice: Mode, later: Rendered, st: Rendered)
    requires NodeAt(root, p) == Some(ir) && ir.Group? && NoneUnder(before, p) && Stands(root, cfg, d, before, st)
    requires choice == Choice(ir.child, cfg, st.col)
    requires Done(root, cfg, d[p := choice], e, before + Leaves(ir, p), p + [0], later)
    ensures Done(root, cfg, d, e, before + Leaves(ir, p), p, later)
  {
    hide NodeAt, Shown, Stands, Leaves;
    var all := before + Leaves(ir, p);
    ChildPrefix(p, 0);
    assert AgreeOutside(d, e, p);
    assert e[p] == choice;
    GroupIsDecided(root, cfg, d, e, before, p, ir, st);
    OnlyChildDecided(root, cfg, e, all, p, ir);
  }

  lemma GroupIsDecided(root: FormatIR, cfg: FormatConfig, d: Decisions, e: Decisions, before: seq<Path>, p: Path,
      ir: FormatIR, st: Rendered)
    requires NodeAt(root, p) == Some(ir) && ir.Group? && NoneUnder(before, p) && Stands(root, cfg, d, before, st)
    requires AgreeOutside(d, e, p) && p in e && e[p] == Choice(ir.child, cfg, st.col)
    ensures DecidedAt(root, cfg, e, before + Leaves(ir, p), p)
  {
    hide NodeAt, Leaves, ColumnAfter, WrittenAll;
    SameWritten(root, cfg, d, e, p, before);
    ChoiceIsFit(ir.child, cfg, st.col);
    var leaves := Leaves(ir, p);
    var all := before + leaves;
    assert all[..|before|] == before && all[|before|..] == leaves;
    assert DecidedAfter(root, cfg, e, all, p, |before|);
  }

  /** What is decided under one child stays decided when another is laid out. */
  lemma DecidedMore(root: FormatIR, cfg: FormatConfig, d: Decisions, e: Decisions, all: seq<Path>, more: seq<Path>,
      p: Path, j: nat, k: nat)
    requires j != k && Decided(root, cfg, d, all, p + [j])
    requires AgreeOutside(d, e, p + [k]) && NoneUnder(all, p + [k])
    ensures Decided(root, cfg, e, all + more, p + [j])
  {
    hide NodeAt, Shown, DecidedAt, AgreeOutside;
    ChildPrefix(p, j);
    ChildPrefix(p, k);
    forall g: Path | Under(p + [j], g) && IsGroup(root, g) && Shown(root, e, g)
      ensures DecidedAt(root, cfg, e, all + more, g)
    {
      SameAbove(root, cfg, d, e, p + [k], g);
      StaysDecided(root, cfg, d, e, all, more, p + [k], g);
    }
  }

  lemma HiddenIsDecided(root: FormatIR, cfg: FormatConfig, e: Decisions, all: seq<Path>, p: Path)
    requires !Shown(root, e, p)
    ensures Decided(root, cfg, e, all, p)
  {
    forall g: Path | Under(p, g) ensures !Shown(root, e, g) {
      HiddenBelow(root, e, p, g);
    }
  }

  /** If everything under each child is decided, everything under a node that is no group is. */
  lemma ChildrenDecided(root: FormatIR, cfg: FormatConfig, e: Decisions, all: seq<Path>, p: Path, ir: FormatIR)
    requires NodeAt(root, p) == Some(ir) && !ir.Group?
    requires forall j | 0 <= j < |Children(ir)| :: Decided(root, cfg, e, all, p + [j])
    ensures Decided(root, cfg, e, all, p)
  {
    hide NodeAt, Shown, DecidedAt;
    forall g: Path | Under(p, g) && IsGroup(root, g) && Shown(root, e, g) ensures DecidedAt(root, cfg, e, all, g) {
      UnderSomeChild(root, p, ir, g);
      assert Decided(root, cfg, e, all, p + [g[|p|]]);
    }
  }

  lemma NoneUnderOther(before: seq<Path>, leaves: seq<Path>, p: Path, j: nat, k: nat)
    requires NoneUnder(before, p) && j != k && forall q | q in leaves :: Under(p + [j], q)
    ensures NoneUnder(before + leaves, p + [k])
  {
    ChildPrefix(p, j);
    ChildPrefix(p, k);
  }

  /** The branch that is not taken writes nothing, before or behind the other. */
  lemma {:induction false} IfBreakWritten(root: FormatIR, cfg: FormatConfig, d: Decisions, before: seq<Path>, p: Path,
      ir: FormatIR, mode: Mode, st: Rendered) returns (e: Decisions)
    requires Arrives(root, cfg, d, before, p, ir, mode, st) && ir.IfBreak?
    ensures Done(root, cfg, d, e, before + Leaves(ir, p), p,
      Render(ir, IndentsAbove(root, p) * cfg.indentSize, mode, cfg, st))
    decreases ir, 0
  {
    hide Decided, NodeAt, ModeAt, Shown, IndentsAbove, WrittenAll, ColumnAfter;
    var k := if mode == Flat then 0 else 1;
    var first, second := Leaves(ir.flat, p + [0]), Leaves(ir.broken, p + [1]);
    LeavesAreUnder(ir.flat, p + [0]);
    LeavesAreUnder(ir.broken, p + [1]);
    ChildAt(root, d, p, ir, 0);
    ChildAt(root, d, p, ir, 1);
    NoneUnderOther(before, first, p, 0, 1);
    ChildArrives(root, cfg, d, before, p, ir, k, mode, st);
    assert before + Leaves(ir, p) == before + first + second;
    if mode == Flat {
      e := RenderIsWritten(root, cfg, d, before, p + [0], ir.flat, mode, st);
      SameAbove(root, cfg, d, e, p + [0], p);
      ChildAt(root, e, p, ir, 1);
      HiddenWritesNothing(root, cfg, e, before + first, second, p + [1]);
      DecidedMore(root, cfg, e, e, before + first, second, p, 0, 1);
      HiddenIsDecided(root, cfg, e, before + first + second, p + [1]);
    } else {
      HiddenWritesNothing(root, cfg, d, before, first, p + [0]);
      e := RenderIsWritten(root, cfg, d, before + first, p + [1], ir.broken, mode, st);
      SameAbove(root, cfg, d, e, p + [1], p);
      ChildAt(root, e, p, ir, 0);
      HiddenIsDecided(root, cfg, e, before + first + second, p + [0]);
    }
    ChildrenDecided(root, cfg, e, before + Leaves(ir, p), p, ir);
    ChildPrefix(p, k);
  }

  /** The first `k` parts of a sequence. */
  ghost predicate PartsDone(root: FormatIR, cfg: FormatConfig, d: Decisions, e: Decisions, all: seq<Path>, p: Path,
      k: nat, st: Rendered)
  {
    && AgreeOutside(d, e, p)
    && Stands(root, cfg, e, all, st)
    && (forall j | 0 <= j < k :: Decided(root, cfg, e, all, p + [j]))
    && (forall g | g in e && Under(p, g) :: p != g && g[|p|] < k)
  }

  lemma {:induction false} PartsWritten(root: FormatIR, cfg: FormatConfig, d: Decisions, before: seq<Path>, p: Path,
      parts: seq<FormatIR>, k: nat, mode: Mode, st: Rendered) returns (e: Decisions)
    requires Arrives(root, cfg, d, before, p, Concat(parts), mode, st) && k <= |parts|
    ensures PartsDone(root, cfg, d, e, before + LeavesAll(parts[..k], p), p, k,
      RenderAll(parts[..k], IndentsAbove(root, p) * cfg.indentSize, mode, cfg, st))
    decreases parts, k
  {
    hide Decided, NodeAt, ModeAt, Shown, IndentsAbove, WrittenAll, ColumnAfter, Stands;
    if k == 0 {
      e := d;
      assert before + LeavesAll(parts[..0], p) == before;
    } else {
      var n := k - 1;
      var done := before + LeavesAll(parts[..n], p);
      var front := RenderAll(parts[..n], IndentsAbove(root, p) * cfg.indentSize, mode, cfg, st);
      assert parts[..k][..n] == parts[..n];
      var f := PartsWritten(root, cfg, d, before, p, parts, n, mode, st);
      PartArrives(root, cfg, d, f, before, p, parts, n, mode, st, front);
      e := RenderIsWritten(root, cfg, f, done, p + [n], parts[n], mode, front);
      var more := Leaves(parts[n], p + [n]);
      assert before + LeavesAll(parts[..k], p) == done + more;
      ChildAt(root, f, p, Concat(parts), n);
      PartDone(root, cfg, d, f, e, done, more, p, n, front,
        RenderAll(parts[..k], IndentsAbove(root, p) * cfg.indentSize, mode, cfg, st));
    }
  }

  lemma PartArrives(root: FormatIR, cfg: FormatConfig, d: Decisions, f: Decisions, before: seq<Path>, p: Path,
      parts: seq<FormatIR>, n: nat, mode: Mode, st: Rendered, front: Rendered)
    requires Arrives(root, cfg, d, before, p, Concat(parts), mode, st) && n < |parts|
    requires PartsDone(root, cfg, d, f, before + LeavesAll(parts[..n], p), p, n, front)
    ensures Arrives(root, cfg, f, before + LeavesAll(parts[..n], p), p + [n], parts[n], mode, front)
  {
    hide Decided, NodeAt, ModeAt, Shown, IndentsAbove, Stands;
    ChildAt(root, f, p, Concat(parts), n);
    SameAbove(root, cfg, d, f, p, p);
    LeavesAllAreUnder(parts[..n], p);
    ChildPrefix(p, n);
  }

  lemma PartDone(root: FormatIR, cfg: FormatConfig, d: Decisions, f: Decisions, e: Decisions, done: seq<Path>,
      more: seq<Path>, p: Path, n: nat, front: Rendered, st: Rendered)
    requires PartsDone(root, cfg, d, f, done, p, n, front) && NoneUnder(done, p + [n])
    requires Done(root, cfg, f, e, done + more, p + [n], st)
    ensures PartsDone(root, cfg, d, e, done + more, p, n + 1, st)
  {
    hide Decided, Stands;
    ChildPrefix(p, n);
    forall j | 0 <= j < n + 1 ensures Decided(root, cfg, e, done + more, p + [j]) {
      if j < n {
        DecidedMore(root, cfg, f, e, done, more, p, j, n);
      }
    }
  }

  lemma {:induction false} ConcatWritten(root: FormatIR, cfg: FormatConfig, d: Decisions, before: seq<Path>, p: Path,
      parts: seq<FormatIR>, mode: Mode, st: Rendered) returns (e: Decisions)
    requires Arrives(root, cfg, d, before, p, Concat(parts), mode, st)
    ensures Done(root, cfg, d, e, before + Leaves(Concat(parts), p), p,
      Render(Concat(parts), IndentsAbove(root, p) * cfg.indentSize, mode, cfg, st))
    decreases parts, |parts| + 1
  {
    hide Decided, NodeAt, ModeAt, Shown, IndentsAbove, Stands;
    assert parts[..|parts|] == parts;
    e := PartsWritten(root, cfg, d, before, p, parts, |parts|, mode, st);
    ChildrenDecided(root, cfg, e, before + LeavesAll(parts, p), p, Concat(parts));
  }

  // ---- The whole document ----

  lemma AtTheRoot(ir: FormatIR, cfg: FormatConfig)
    ensures Arrives(ir, cfg, map[], [], [], ir, Break, START)
  {
  }

  /** The printed text is what the leaves of the tree write, in order, ended by a newline if there is
      any text: a text leaf its text; a hard line break, and a space whose group does not fit, a
      newline and one indentation for each `Indent` above it; a space whose group fits, a space. A
      group is flat exactly when it fits behind what is written before it. */
  lemma LayoutByPosition(ir: FormatIR, cfg: FormatConfig) returns (d: Decisions)
    ensures var all := Leaves(ir, []);
      var text := WrittenAll(ir, cfg, d, all);
      && (text == "" || text[|text| - 1] == '\n' ==> PrettyPrint(ir, cfg) == text)
      && (text != "" && text[|text| - 1] != '\n' ==> PrettyPrint(ir, cfg) == text + "\n")
      && forall g: Path | IsGroup(ir, g) && Shown(ir, d, g) :: DecidedAt(ir, cfg, d, all, g)
  {
    hide Render, DecidedAt, Leaves, WrittenAll, ColumnAfter, Shown, NodeAt;
    AtTheRoot(ir, cfg);
    d := RenderIsWritten(ir, cfg, map[], [], [], ir, Break, START);
    assert IndentsAbove(ir, []) * cfg.indentSize == 0;
    assert [] + Leaves(ir, []) == Leaves(ir, []);
    assert forall g: Path :: Under([], g);
  }
}
