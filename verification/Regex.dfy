/** Patterns of the common fragment and their meaning: ordered backtracking, as the
    interpreter performs it, and the plain language of a pattern. */
module Regex {
  import opened Opcodes

  datatype Option<+T> = None | Some(value: T)

  /** An item that consumes one code unit. `op` is its opcode. */
  datatype Item =
    | Lit(op: int, c: Unit)
    | Type(op: int)
    | Set(op: int, bits: Bitmap)

  /** The repeat of an item. For literals and types `op` is the opcode moved to the
      OP_STAR block; for classes it is the OP_CRxxx opcode. `m` and `n` are the counts. */
  datatype Rep = Rep(op: int, m: nat, n: nat)

  datatype Mode = Greedy | Lazy | Possessive

  datatype Node =
    | Single(item: Item)
    | Repeat(item: Item, rep: Rep)
    | Assert(op: int)
    | Group(bra: int, number: nat, alts: Alts, ket: int)
    | Optional(op: int, group: Node)

  datatype Branch = Nil | Cons(head: Node, tail: Branch)

  datatype Alts = Last(branch: Branch) | Or(branch: Branch, more: Alts)

  predicate OkItem(it: Item) {
    match it
    case Lit(op, _) => OP_CHAR <= op <= OP_NOTI
    case Type(op) => IsType(op)
    case Set(op, _) => op == OP_CLASS || op == OP_NCLASS
  }

  predicate OkRep(it: Item, r: Rep) {
    && r.m < 65536 && r.n < 65536
    && if it.Set? then
         && IsClassRepeat(r.op)
         && (IsRange(r.op) ==> r.m + r.n > 0 && (r.n == 0 || r.m <= r.n))
       else
         && OP_STAR <= r.op <= OP_POSUPTO
         && (HasCount(r.op) ==> r.n > 0)
  }

  predicate IsRange(op: int) { op == OP_CRRANGE || op == OP_CRMINRANGE || op == OP_CRPOSRANGE }

  predicate OkNode(n: Node) {
    match n
    case Single(it) => OkItem(it)
    case Repeat(it, r) => OkItem(it) && OkRep(it, r)
    case Assert(op) => IsAssertion(op)
    case Group(bra, num, alts, ket) =>
      IsBracket(bra) && IsKet(ket) && num < 65536 && OkAlts(alts)
    case Optional(op, g) => IsZero(op) && g.Group? && OkNode(g)
  }

  predicate OkBranch(b: Branch) { b.Nil? || (OkNode(b.head) && OkBranch(b.tail)) }

  predicate OkAlts(a: Alts) { OkBranch(a.branch) && (a.Or? ==> OkAlts(a.more)) }

  /** Smallest count of a repeat. */
  function Lo(r: Rep): nat {
    if r.op == OP_PLUS || r.op == OP_MINPLUS || r.op == OP_POSPLUS || r.op == OP_CRPLUS
       || r.op == OP_CRMINPLUS || r.op == OP_CRPOSPLUS then 1
    else if r.op == OP_EXACT then r.n
    else if IsRange(r.op) then r.m
    else 0
  }

  /** Largest count of a repeat; -1 means there is no limit. */
  function Hi(r: Rep): int {
    if r.op == OP_QUERY || r.op == OP_MINQUERY || r.op == OP_POSQUERY || r.op == OP_CRQUERY
       || r.op == OP_CRMINQUERY || r.op == OP_CRPOSQUERY then 1
    else if HasCount(r.op) then r.n
    else if IsRange(r.op) && r.n > 0 then r.n
    else -1
  }

  function ModeOf(r: Rep): Mode {
    if r.op == OP_STAR || r.op == OP_PLUS || r.op == OP_QUERY || r.op == OP_UPTO || r.op == OP_EXACT
       || r.op == OP_CRSTAR || r.op == OP_CRPLUS || r.op == OP_CRQUERY || r.op == OP_CRRANGE then Greedy
    else if OP_POSSTAR <= r.op <= OP_POSUPTO || OP_CRPOSSTAR <= r.op <= OP_CRPOSRANGE then Possessive
    else Lazy
  }

  /** A subject, its one-unit newline, and the offset where matching starts (for \G). */
  datatype Env = Env(s: seq<Unit>, nl: Unit, som: nat)

  predicate MatchesType(op: int, nl: Unit, c: Unit) {
    if op == OP_DIGIT then IsDigit(c)
    else if op == OP_NOT_DIGIT then !IsDigit(c)
    else if op == OP_WHITESPACE then IsSpace(c)
    else if op == OP_NOT_WHITESPACE then !IsSpace(c)
    else if op == OP_WORDCHAR then IsWord(c)
    else if op == OP_NOT_WORDCHAR then !IsWord(c)
    else if op == OP_ANY then c != nl
    else op == OP_ALLANY
  }

  /** Whether an item matches the code unit c. */
  predicate Matches(it: Item, nl: Unit, c: Unit) {
    match it
    case Lit(op, d) =>
      if op == OP_CHAR then c == d
      else if op == OP_CHARI then c == d || c == Flip(d)
      else if op == OP_NOT then c != d
      else c != d && c != Flip(d)
    case Type(op) => MatchesType(op, nl, c)
    case Set(_, bits) => Bit(bits, c)
  }

  /** A code unit, perhaps in either case. */
  datatype CodeUnit = CodeUnit(c: Unit, caseless: bool)

  predicate IsUnit(u: CodeUnit, c: int) { c == u.c || (u.caseless && c == Flip(u.c)) }

  predicate MatchesAt(it: Item, e: Env, i: nat) { i < |e.s| && Matches(it, e.nl, e.s[i]) }

  predicate WordAt(e: Env, i: int) { 0 <= i < |e.s| && IsWord(e.s[i]) }

  predicate NewlineAt(e: Env, i: int) { 0 <= i < |e.s| && e.s[i] == e.nl }

  /** Whether a zero-width item holds at offset i. */
  predicate Holds(op: int, e: Env, i: nat) {
    if op == OP_SOD || op == OP_CIRC then i == 0
    else if op == OP_SOM then i == e.som
    else if op == OP_WORD_BOUNDARY then WordAt(e, i - 1) != WordAt(e, i)
    else if op == OP_NOT_WORD_BOUNDARY then WordAt(e, i - 1) == WordAt(e, i)
    else if op == OP_EOD then i >= |e.s|
    else if op == OP_EODN || op == OP_DOLL then i >= |e.s| || (i == |e.s| - 1 && NewlineAt(e, i))
    else if op == OP_DOLLM then i >= |e.s| || NewlineAt(e, i)
    else i == 0 || (i < |e.s| && NewlineAt(e, i - 1))
  }

  // --- ordered backtracking --------------------------------------------------

  datatype State = State(pos: nat, caps: map<nat, (nat, nat)>)

  /** What the rest of the pattern does with a state: the first match it finds. */
  type Kont = State -> Option<State>

  function OrElse(a: Option<State>, b: Option<State>): Option<State> { if a.Some? then a else b }

  function Less(hi: int): int { if hi < 0 then hi else hi - 1 }

  function At(st: State, i: nat): State { st.(pos := i) }

  /** A repeated item: the required copies, then the optional ones in the order of the mode. */
  function TryRepeat(it: Item, lo: nat, hi: int, mode: Mode, e: Env, st: State, k: Kont): Option<State>
    decreases |e.s| - st.pos
  {
    var more := hi != 0 && MatchesAt(it, e, st.pos);
    if lo > 0 then
      (if more then TryRepeat(it, lo - 1, Less(hi), mode, e, At(st, st.pos + 1), k) else None)
    else if !more then k(st)
    else
      var next := TryRepeat(it, 0, Less(hi), mode, e, At(st, st.pos + 1), k);
      match mode
      case Greedy => OrElse(next, k(st))
      case Lazy => OrElse(k(st), next)
      case Possessive => next
  }

  /** The state after a closing bracket: a capturing group records its span. */
  function Close(g: Node, start: nat, st: State): State
    requires g.Group?
  {
    if IsCapture(g.bra) then st.(caps := st.caps[g.number := (start, st.pos)]) else st
  }

  function TryNode(n: Node, e: Env, st: State, k: Kont): Option<State>
    decreases n, |e.s| - st.pos
  {
    match n
    case Single(it) => if MatchesAt(it, e, st.pos) then k(At(st, st.pos + 1)) else None
    case Repeat(it, r) => TryRepeat(it, Lo(r), Hi(r), ModeOf(r), e, st, k)
    case Assert(op) => if Holds(op, e, st.pos) then k(st) else None
    case Optional(op, g) =>
      if op == OP_BRAZERO then OrElse(TryNode(g, e, st, k), k(st))
      else if op == OP_BRAMINZERO then OrElse(k(st), TryNode(g, e, st, k))
      else k(st)
    case Group(bra, num, alts, ket) => TryAlts(alts, e, st, r => AfterKet(n, e, st.pos, r, k))
  }

  /** At the closing bracket of a group entered at offset `start`: a repeating bracket that
      has consumed something may go round again. */
  function AfterKet(g: Node, e: Env, start: nat, r: State, k: Kont): Option<State>
    requires g.Group?
    decreases g, |e.s| - start, 0
  {
    var st := Close(g, start, r);
    if g.ket == OP_KET || !(start < r.pos <= |e.s|) then k(st)
    else if g.ket == OP_KETRMAX then OrElse(TryNode(g, e, st, k), k(st))
    else OrElse(k(st), TryNode(g, e, st, k))
  }

  function TryAlts(a: Alts, e: Env, st: State, k: Kont): Option<State>
    decreases a
  {
    match a
    case Last(b) => TryBranch(b, e, st, k)
    case Or(b, more) => OrElse(TryBranch(b, e, st, k), TryAlts(more, e, st, k))
  }

  function TryBranch(b: Branch, e: Env, st: State, k: Kont): Option<State>
    decreases b
  {
    match b
    case Nil => k(st)
    case Cons(n, t) => TryNode(n, e, st, r => TryBranch(t, e, r, k))
  }

  function Accept(st: State): Option<State> { Some(st) }

  /** The match the interpreter reports when it tries pattern p at offset i. */
  function FirstMatch(p: Node, e: Env, i: nat): Option<State> {
    TryNode(p, e, State(i, map[]), Accept)
  }
}
