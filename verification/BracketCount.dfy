/** The number of brackets in a pattern, which bounds the number of groups that a scan enters. */
module BracketCount {
  import opened Regex

  /** The brackets in a node. */
  function Brackets(n: Node): nat {
    match n
    case Group(_, _, alts, _) => 1 + BracketsAlts(alts)
    case Optional(_, g) => Brackets(g)
    case _ => 0
  }

  function BracketsBranch(b: Branch): nat { if b.Nil? then 0 else Brackets(b.head) + BracketsBranch(b.tail) }

  function BracketsAlts(a: Alts): nat { BracketsBranch(a.branch) + if a.Or? then BracketsAlts(a.more) else 0 }
}
