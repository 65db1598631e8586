/** The document tree between the syntax walker and the printer. */
module FormatTree {
  import opened Wrappers
  import opened Unicode

  datatype FormatIR =
    | Text(text: string)
    | Space
    | Hardline
    | Indent(child: FormatIR)
    | Group(child: FormatIR)
    | IfBreak(flat: FormatIR, broken: FormatIR)
    | Concat(parts: seq<FormatIR>)
    | Empty

  /** The text of a tree laid out on one line, or None if a hard line break stands in the way. */
  function FlatText(ir: FormatIR): Option<string>
    decreases ir, 0
  {
    match ir
    case Empty => Some("")
    case Text(s) => Some(s)
    case Space => Some(" ")
    case Hardline => None
    case Indent(child) => FlatText(child)
    case Group(child) => FlatText(child)
    case IfBreak(flat, _) => FlatText(flat)
    case Concat(parts) => FlatTexts(parts)
  }

  function FlatTexts(parts: seq<FormatIR>): Option<string>
    decreases parts, 1
  {
    if parts == [] then Some("")
    else
      var last := |parts| - 1;
      var front := FlatTexts(parts[..last]);
      var back := FlatText(parts[last]);
      if front.None? || back.None? then None else Some(front.value + back.value)
  }

  /** How many groups lie on the one-line layout. */
  function FlatGroups(ir: FormatIR): nat
    decreases ir, 0
  {
    match ir
    case Indent(child) => FlatGroups(child)
    case Group(child) => 1 + FlatGroups(child)
    case IfBreak(flat, _) => FlatGroups(flat)
    case Concat(parts) => FlatGroupsAll(parts)
    case _ => 0
  }

  function FlatGroupsAll(parts: seq<FormatIR>): nat
    decreases parts, 1
  {
    if parts == [] then 0
    else FlatGroupsAll(parts[..|parts| - 1]) + FlatGroups(parts[|parts| - 1])
  }

  /** Number of nodes. */
  function Size(ir: FormatIR): nat
    decreases ir, 0
  {
    match ir
    case Indent(child) => 1 + Size(child)
    case Group(child) => 1 + Size(child)
    case IfBreak(flat, broken) => 1 + Size(flat) + Size(broken)
    case Concat(parts) => 1 + Sizes(parts)
    case _ => 1
  }

  function Sizes(parts: seq<FormatIR>): nat
    decreases parts, 1
  {
    if parts == [] then 0 else Size(parts[0]) + Sizes(parts[1..])
  }
}
