/** The matcher that follows all the states of a pattern at once and reports every place where it can end. */
module DfaMatch {
  import opened Folding
  import opened Opcodes
  import opened Regex
  import opened Language
  import opened Layout
  import opened DfaGraph
  import opened DfaTrace

  const ERROR_NOMATCH := -1
  const ERROR_DFA_WSSIZE := -43

  datatype Options = Options(notEmpty: bool, notEmptyAtStart: bool, shortest: bool)

  /** One of the two state vectors in the workspace. */
  class StateList {
    const items: array<Block>
    var count: nat

    ghost predicate Valid() reads this { count <= items.Length }

    ghost function Contents(): seq<Block>
      requires Valid()
      reads this, items
    {
      items[..count]
    }

    constructor (size: nat)
      ensures Valid() && fresh(items) && items.Length == size && Contents() == []
    {
      items := new Block[size](_ => Block(0, 0));
      count := 0;
    }

    /** ADD_ACTIVE and ADD_NEW. */
    method Add(x: nat, y: nat) returns (ok: bool)
      requires Valid()
      modifies this, items
      ensures Valid() && ok == (old(count) < items.Length)
      ensures Contents() == if ok then old(Contents()) + [Block(x, y)] else old(Contents())
    {
      ok := count < items.Length;
      if ok {
        items[count] := Block(x, y);
        count := count + 1;
      }
    }

    method Clear()
      requires Valid()
      modifies this
      ensures Valid() && Contents() == []
    {
      count := 0;
    }
  }

  ghost predicate Disjoint(active: StateList, next: StateList)
    reads active, next
  {
    active.Valid() && next.Valid() && active != next && active.items != next.items
  }

  // --- the code at a state -------------------------------------------------------------

  /** An ALT at p, the alternatives a after it, and the closing bracket. */
  predicate AltLaid(code: seq<Cell>, p: nat, a: Alts, ket: nat) {
    && p < |code| && code[p] == WithLink(OP_ALT, 1 + LINK_SIZE + BranchSize(a.branch))
    && LaidAlts(code, p + 1 + LINK_SIZE, a) && OkAlts(a)
    && ket == p + 1 + LINK_SIZE + AltsSize(a) && IsKet(OpOf(code[ket]))
  }

  ghost predicate SpotLaid(code: seq<Cell>, sp: Spot, p: nat) {
    match sp
    case AtNode(n, x) => x == p && LaidNode(code, p, n) && OkNode(n) && NoPossessive(n)
                         && NoClassRepeat(code, p + NodeSize(n))
    case AtAlt(ket) => exists a: Alts :: AltLaid(code, p, a, ket)
    case AtKet(g, x) => g.Group? && IsKet(g.ket) && p == KetOffset(g, x) && p < |code|
                        && code[p] == WithLink(g.ket, p - x)
    case Nowhere => true
  }

  lemma KetLaidAt(code: seq<Cell>, n: Node, x: nat)
    requires n.Group? && LaidNode(code, x, n) && OkNode(n)
    ensures var k := KetOffset(n, x);
            && k < |code| && code[k] == WithLink(n.ket, k - x) && IsKet(OpOf(code[k]))
            && ClosesAt(n.alts, x + BraSize(n.bra), k) && LaidAlts(code, x + BraSize(n.bra), n.alts)
  {
  }

  lemma {:induction false} NodeSpotLaid(code: seq<Cell>, n: Node, x: nat, p: nat)
    requires LaidNode(code, x, n) && OkNode(n) && NoPossessive(n) && NoClassRepeat(code, x + NodeSize(n))
    ensures SpotLaid(code, FindNode(n, x, p), p)
    decreases n, 1
  {
    match n
    case Optional(_, g) => NodeSpotLaid(code, g, x + 1, p);
    case Group(_, _, _, _) => GroupSpotLaid(code, n, x, p);
    case _ =>
  }

  lemma {:induction false} GroupSpotLaid(code: seq<Cell>, n: Node, x: nat, p: nat)
    requires n.Group? && LaidNode(code, x, n) && OkNode(n) && NoPossessive(n) && NoClassRepeat(code, x + NodeSize(n))
    ensures SpotLaid(code, FindNode(n, x, p), p)
    decreases n, 0
  {
    KetLaidAt(code, n, x);
    AltsSpotLaid(code, n.alts, x + BraSize(n.bra), KetOffset(n, x), p);
  }

  lemma {:induction false} AltsSpotLaid(code: seq<Cell>, a: Alts, x: nat, ket: nat, p: nat)
    requires LaidAlts(code, x, a) && OkAlts(a) && NoPossessiveAlts(a) && ClosesAt(a, x, ket) && IsKet(OpOf(code[ket]))
    ensures SpotLaid(code, FindAlts(a, x, ket, p), p)
    decreases a, 1
  {
    if p < x + BranchSize(a.branch) {
      BranchSpotLaid(code, a.branch, x, p);
    } else if a.Or? {
      MoreSpotLaid(code, a, x, ket, p);
    }
  }

  lemma {:induction false} MoreSpotLaid(code: seq<Cell>, a: Alts, x: nat, ket: nat, p: nat)
    requires LaidAlts(code, x, a) && OkAlts(a) && NoPossessiveAlts(a) && ClosesAt(a, x, ket) && IsKet(OpOf(code[ket]))
    requires a.Or? && p >= x + BranchSize(a.branch)
    ensures SpotLaid(code, FindAlts(a, x, ket, p), p)
    decreases a, 0
  {
    var k, next := FirstAlt(code, x, a);
    FindMore(a, x, k, next, ket, p);
    if p >= next {
      AltsSpotLaid(code, a.more, next, ket, p);
    } else if p == k {
      AltSpot(code, p, next, a.more, ket);
    }
  }

  lemma FindMore(a: Alts, x: nat, k: nat, next: nat, ket: nat, p: nat)
    requires a.Or? && k == x + BranchSize(a.branch) && next == k + 1 + LINK_SIZE && k <= p
    ensures FindAlts(a, x, ket, p) == if p >= next then FindAlts(a.more, next, ket, p)
                                      else if p == k then AtAlt(ket) else Nowhere
  {
  }

  lemma AltSpot(code: seq<Cell>, p: nat, next: nat, a: Alts, ket: nat)
    requires p < |code| && code[p] == WithLink(OP_ALT, 1 + LINK_SIZE + BranchSize(a.branch)) && OkAlts(a)
    requires next == p + 1 + LINK_SIZE && LaidAlts(code, next, a) && ClosesAt(a, next, ket) && IsKet(OpOf(code[ket]))
    ensures SpotLaid(code, AtAlt(ket), p)
  {
    assert AltLaid(code, p, a, ket);
  }

  lemma {:induction false} BranchSpotLaid(code: seq<Cell>, b: Branch, x: nat, p: nat)
    requires LaidBranch(code, x, b) && OkBranch(b) && NoPossessiveBranch(b) && NoClassRepeat(code, x + BranchSize(b))
    ensures SpotLaid(code, FindBranch(b, x, p), p)
    decreases b
  {
    if b.Cons? {
      var x' := x + NodeSize(b.head);
      if b.tail.Cons? { NodeHead(code, x', b.tail.head); }
      if p < x' { NodeSpotLaid(code, b.head, x, p); } else { BranchSpotLaid(code, b.tail, x', p); }
    }
  }

  // --- acting on one state -----------------------------------------------------------

  /** Adds a state for the start of each alternative, going from link to link, and stops at the closing bracket. */
  method AddAlternatives(code: seq<Cell>, p: nat, list: StateList, ghost n: Node) returns (ok: bool, ket: nat)
    requires n.Group? && OkNode(n) && LaidNode(code, p, n) && list.Valid()
    modifies list, list.items
    ensures list.Valid()
    ensures ok ==> ket == KetOffset(n, p) && list.Contents() == old(list.Contents())
                     + Starts(n.alts, p + BraSize(n.bra))
    ensures !ok ==> |old(list.Contents())| + |Starts(n.alts, p + BraSize(n.bra))| > list.items.Length
  {
    FirstAlternative(code, n, p);
    ket := p;
    var length: nat := OpLength(OpOf(code[p]));
    ghost var y: nat, rest, added := p + BraSize(n.bra), n.alts, [];
    ghost var before := list.Contents();
    while true
      invariant list.Valid() && list.Contents() == before + added
      invariant y == ket + length && Adding(code, ket, y, rest, added, n, p)
      decreases rest
    {
      ghost var q;
      ok, q, y, added := AddAlternative(code, ket, length, list, y, rest, added, n, p, before);
      if !ok { return; }
      ket := ket + Link(code[ket]);
      length := 1 + LINK_SIZE;
      if OpOf(code[ket]) != OP_ALT { return; }
      rest := rest.more;
    }
  }

  method AddAlternative(code: seq<Cell>, p: nat, length: nat, list: StateList, ghost y: nat, ghost a: Alts,
                        ghost added: seq<Block>, ghost n: Node, ghost x: nat, ghost before: seq<Block>)
      returns (ok: bool, ghost q: nat, ghost next: nat, ghost added': seq<Block>)
    requires n.Group? && y == p + length && Adding(code, p, y, a, added, n, x)
    requires list.Valid() && list.Contents() == before + added
    modifies list, list.items
    ensures list.Valid() && p < |code| && q == p + Link(code[p]) && next == q + 1 + LINK_SIZE
    ensures q < |code| && (OpOf(code[q]) == OP_ALT <==> a.Or?)
    ensures a.Or? ==> Adding(code, q, next, a.more, added', n, x)
    ensures a.Last? ==> q == KetOffset(n, x) && added' == Starts(n.alts, x + BraSize(n.bra))
    ensures ok ==> list.Contents() == before + added'
    ensures !ok ==> |before| + |Starts(n.alts, x + BraSize(n.bra))| > list.items.Length
  {
    q, next, added' := NextAlternative(code, p, y, a, added, n, x);
    AddedTo(before, added, Block(y, 0));
    ok := list.Add(p + length, 0);
  }

  lemma AddedTo(before: seq<Block>, added: seq<Block>, s: Block)
    ensures before + added + [s] == before + (added + [s])
  {
  }

  /** At p is the bracket or the ALT before the alternatives a, which begin at y. */
  predicate AtAlternative(code: seq<Cell>, p: nat, y: nat, a: Alts, ket: nat) {
    && p < |code| && p < y && p + Link(code[p]) == y + BranchSize(a.branch)
    && LaidAlts(code, y, a) && ClosesAt(a, y, ket) && ket < |code| && IsKet(OpOf(code[ket]))
  }

  /** The same, folded. */
  ghost predicate StandsBefore(code: seq<Cell>, p: nat, y: nat, a: Alts, ket: nat) {
    forall k: int {:trigger Look(k)} :: Look(k) ==> AtAlternative(code, p, y, a, ket)
  }

  /** Some states of group n at x have been added; those of the alternatives `rest` come next. */
  ghost predicate Adding(code: seq<Cell>, p: nat, y: nat, rest: Alts, added: seq<Block>, n: Node, x: nat)
    requires n.Group?
  {
    StandsBefore(code, p, y, rest, KetOffset(n, x)) && added + Starts(rest, y) == Starts(n.alts, x + BraSize(n.bra))
  }

  lemma FirstAlternative(code: seq<Cell>, n: Node, p: nat)
    requires n.Group? && OkNode(n) && LaidNode(code, p, n)
    ensures p < |code| && OpLength(OpOf(code[p])) == BraSize(n.bra)
    ensures Adding(code, p, p + BraSize(n.bra), n.alts, [], n, p)
  {
    KetLaidAt(code, n, p);
  }

  lemma NextAlternative(code: seq<Cell>, p: nat, y: nat, a: Alts, added: seq<Block>, n: Node, x: nat)
      returns (q: nat, next: nat, added': seq<Block>)
    requires n.Group? && Adding(code, p, y, a, added, n, x)
    ensures p < |code| && Link(code[p]) >= 0 && q == p + Link(code[p]) && next == q + 1 + LINK_SIZE
    ensures added' == added + [Block(y, 0)] && |added'| <= |Starts(n.alts, x + BraSize(n.bra))|
    ensures q < |code| && (OpOf(code[q]) == OP_ALT <==> a.Or?)
    ensures a.Or? ==> Adding(code, q, next, a.more, added', n, x)
    ensures a.Last? ==> q == KetOffset(n, x) && added' == Starts(n.alts, x + BraSize(n.bra))
  {
    q, next := NextStands(code, p, y, a, KetOffset(n, x));
    added' := added + [Block(y, 0)];
    if a.Or? { StartsMore(added, added', a, y, next, Starts(n.alts, x + BraSize(n.bra))); } else { StartsLast(a, y); }
  }

  lemma NextStands(code: seq<Cell>, p: nat, y: nat, a: Alts, ket: nat) returns (q: nat, next: nat)
    requires StandsBefore(code, p, y, a, ket)
    ensures p < |code| && q == y + BranchSize(a.branch) == p + Link(code[p]) && Link(code[p]) >= 0
    ensures next == q + 1 + LINK_SIZE && q < |code| && (OpOf(code[q]) == OP_ALT <==> a.Or?)
    ensures a.Or? ==> StandsBefore(code, q, next, a.more, ket)
    ensures a.Last? ==> q == ket
  {
    assert Look(0);
    q, next := AfterAlternative(code, p, y, a, ket);
  }

  lemma StartsMore(added: seq<Block>, added': seq<Block>, a: Alts, x: nat, next: nat, all: seq<Block>)
    requires a.Or? && added + Starts(a, x) == all && added' == added + [Block(x, 0)]
    requires next == x + BranchSize(a.branch) + 1 + LINK_SIZE
    ensures added' + Starts(a.more, next) == all && |added'| <= |all|
  {
    assert Starts(a, x) == [Block(x, 0)] + Starts(a.more, next);
    Joined(added, [Block(x, 0)], Starts(a.more, next));
  }

  lemma Joined(a: seq<Block>, b: seq<Block>, c: seq<Block>)
    ensures a + (b + c) == (a + b) + c
  {
  }

  lemma StartsLast(a: Alts, x: nat)
    requires a.Last?
    ensures Starts(a, x) == [Block(x, 0)]
  {
  }

  lemma AfterAlternative(code: seq<Cell>, p: nat, y: nat, a: Alts, ket: nat) returns (q: nat, next: nat)
    requires AtAlternative(code, p, y, a, ket)
    ensures p < |code| && q == y + BranchSize(a.branch) == p + Link(code[p]) && Link(code[p]) >= 0
    ensures next == q + 1 + LINK_SIZE && q < |code| && (OpOf(code[q]) == OP_ALT <==> a.Or?)
    ensures a.Or? ==> AtAlternative(code, q, next, a.more, ket)
    ensures a.Last? ==> q == ket
  {
    q := y + BranchSize(a.branch);
    next := q + 1 + LINK_SIZE;
    if a.Or? { var k, n := FirstAlt(code, y, a); }
  }

  /** Acting on state s has added what it should. */
  twostate predicate Acted(active: StateList, next: StateList, sp: Spot, s: Block, e: Env, ptr: nat)
    requires old(Disjoint(active, next))
    reads active, next, active.items, next.items
  {
    && Disjoint(active, next)
    && active.Contents() == old(active.Contents()) + Eps(sp, s, e, ptr)
    && next.Contents() == old(next.Contents()) + Move(sp, s, e, ptr)
  }

  /** There was no room for what state s adds. */
  twostate predicate Overflows(active: StateList, next: StateList, sp: Spot, s: Block, e: Env, ptr: nat)
    requires old(Disjoint(active, next))
    reads active, next, active.items, next.items
  {
    || |old(active.Contents())| + |Eps(sp, s, e, ptr)| > active.items.Length
    || |old(next.Contents())| + |Move(sp, s, e, ptr)| > next.items.Length
  }

  /** A closing bracket: go on after it and, if it repeats, at its opening bracket. */
  method ActKet(code: seq<Cell>, e: Env, ptr: nat, s: Block, active: StateList, next: StateList, ghost g: Node,
                ghost x: nat)
      returns (ok: bool)
    requires Disjoint(active, next) && SpotLaid(code, AtKet(g, x), s.offset)
    modifies active, active.items
    ensures Disjoint(active, next)
    ensures ok ==> Acted(active, next, AtKet(g, x), s, e, ptr)
    ensures !ok ==> Overflows(active, next, AtKet(g, x), s, e, ptr)
  {
    ok := active.Add(s.offset + 1 + LINK_SIZE, 0);
    if !ok { return; }
    if OpOf(code[s.offset]) != OP_KET { ok := active.Add(s.offset - Link(code[s.offset]), 0); }
  }

  /** The end of an alternative: go on at the closing bracket. */
  method ActAlt(code: seq<Cell>, e: Env, ptr: nat, s: Block, active: StateList, next: StateList, ghost ket: nat)
      returns (ok: bool)
    requires Disjoint(active, next) && SpotLaid(code, AtAlt(ket), s.offset)
    modifies active, active.items
    ensures Disjoint(active, next)
    ensures ok ==> Acted(active, next, AtAlt(ket), s, e, ptr)
    ensures !ok ==> Overflows(active, next, AtAlt(ket), s, e, ptr)
  {
    var k := KetFrom(code, s.offset, ket);
    ok := active.Add(k, 0);
  }

  /** From an ALT along the links to the closing bracket. */
  method KetFrom(code: seq<Cell>, p: nat, ghost ket: nat) returns (k: nat)
    requires SpotLaid(code, AtAlt(ket), p)
    ensures k == ket
  {
    ghost var rest :| AltLaid(code, p, rest, ket);
    k := p;
    ghost var y: nat := p + 1 + LINK_SIZE;
    while true
      invariant AtAlternative(code, k, y, rest, ket)
      decreases rest
    {
      ghost var q, next := AfterAlternative(code, k, y, rest, ket);
      k := k + Link(code[k]);
      if OpOf(code[k]) != OP_ALT { break; }
      y, rest := next, rest.more;
    }
  }

  /** An opening bracket. */
  method ActBra(code: seq<Cell>, e: Env, ptr: nat, s: Block, active: StateList, next: StateList, ghost n: Node)
      returns (ok: bool)
    requires Disjoint(active, next) && n.Group? && SpotLaid(code, AtNode(n, s.offset), s.offset)
    modifies active, active.items
    ensures Disjoint(active, next)
    ensures ok ==> Acted(active, next, AtNode(n, s.offset), s, e, ptr)
    ensures !ok ==> Overflows(active, next, AtNode(n, s.offset), s, e, ptr)
  {
    var ket;
    ok, ket := AddAlternatives(code, s.offset, active, n);
  }

  /** A bracket that may be left out, or that is. */
  method ActZero(code: seq<Cell>, e: Env, ptr: nat, s: Block, active: StateList, next: StateList, ghost n: Node)
      returns (ok: bool)
    requires Disjoint(active, next) && n.Optional? && SpotLaid(code, AtNode(n, s.offset), s.offset)
    modifies active, active.items
    ensures Disjoint(active, next)
    ensures ok ==> Acted(active, next, AtNode(n, s.offset), s, e, ptr)
    ensures !ok ==> Overflows(active, next, AtNode(n, s.offset), s, e, ptr)
  {
    if OpOf(code[s.offset]) != OP_SKIPZERO {
      ok := active.Add(s.offset + 1, 0);
      if !ok { return; }
    }
    var ket := SkipAlternatives(code, s.offset + 1, n.group);
    ok := active.Add(ket + 1 + LINK_SIZE, 0);
  }

  /** Whether a zero-width item holds. */
  method TestAssertion(op: int, e: Env, ptr: nat) returns (holds: bool)
    requires IsAssertion(op) && ptr <= |e.s|
    ensures holds == Holds(op, e, ptr)
  {
    if op == OP_CIRC || op == OP_SOD { return ptr == 0; }
    if op == OP_CIRCM { return ptr == 0 || (ptr != |e.s| && e.s[ptr - 1] == e.nl); }
    if op == OP_SOM { return ptr == e.som; }
    if op == OP_EOD { return ptr >= |e.s|; }
    if op == OP_EODN || op == OP_DOLL { return ptr == |e.s| || (e.s[ptr] == e.nl && ptr == |e.s| - 1); }
    if op == OP_DOLLM { return ptr == |e.s| || e.s[ptr] == e.nl; }
    var left := ptr > 0 && IsWord(e.s[ptr - 1]);
    var right := ptr < |e.s| && IsWord(e.s[ptr]);
    return (left == right) == (op == OP_NOT_WORD_BOUNDARY);
  }

  method ActAssertion(code: seq<Cell>, e: Env, ptr: nat, s: Block, active: StateList, next: StateList, ghost n: Node)
      returns (ok: bool)
    requires Disjoint(active, next) && n.Assert? && SpotLaid(code, AtNode(n, s.offset), s.offset) && ptr <= |e.s|
    modifies active, active.items
    ensures Disjoint(active, next)
    ensures ok ==> Acted(active, next, AtNode(n, s.offset), s, e, ptr)
    ensures !ok ==> Overflows(active, next, AtNode(n, s.offset), s, e, ptr)
  {
    var holds := TestAssertion(OpOf(code[s.offset]), e, ptr);
    ok := true;
    if holds { ok := active.Add(s.offset + 1, 0); }
  }

  /** The character types that the two opcode tables assign to an item. */
  predicate InType(op: int, c: Unit) {
    if op == OP_DIGIT || op == OP_NOT_DIGIT then IsDigit(c) != (op == OP_NOT_DIGIT)
    else if op == OP_WHITESPACE || op == OP_NOT_WHITESPACE then IsSpace(c) != (op == OP_NOT_WHITESPACE)
    else if op == OP_WORDCHAR || op == OP_NOT_WORDCHAR then IsWord(c) != (op == OP_NOT_WORDCHAR)
    else true
  }

  /** The character at ptr against an item that is not repeated. */
  method TestSingle(code: seq<Cell>, p: nat, e: Env, ptr: nat, ghost it: Item) returns (matched: bool)
    requires p < |code| && code[p] == ItemCell(it) && OkItem(it)
    ensures matched == MatchesAt(it, e, ptr)
  {
    if ptr >= |e.s| { return false; }
    var op, c := OpOf(code[p]), e.s[ptr];
    if op == OP_ANY { return c != e.nl; }
    if IsType(op) { return InType(op, c); }
    if op == OP_CLASS || op == OP_NCLASS { return Bit(code[p].bits, c); }
    var d := code[p].arg;
    if op == OP_CHAR { return c == d; }
    if op == OP_CHARI { return Lower(c) == Lower(d); }
    if op == OP_NOT { return c != d; }
    return c != d && c != Flip(d);
  }

  method ActSingle(code: seq<Cell>, e: Env, ptr: nat, s: Block, active: StateList, next: StateList, ghost n: Node)
      returns (ok: bool)
    requires Disjoint(active, next) && n.Single? && !n.item.Set? && SpotLaid(code, AtNode(n, s.offset), s.offset)
    modifies next, next.items
    ensures Disjoint(active, next)
    ensures ok ==> Acted(active, next, AtNode(n, s.offset), s, e, ptr)
    ensures !ok ==> Overflows(active, next, AtNode(n, s.offset), s, e, ptr)
  {
    var matched := TestSingle(code, s.offset, e, ptr, n.item);
    ok := true;
    if matched { ok := next.Add(s.offset + OpLength(OpOf(code[s.offset])), 0); }
  }

  /** The character at ptr against the item of a repeat. */
  method TestRepeat(u: Cell, e: Env, ptr: nat, ghost it: Item, ghost r: Rep) returns (matched: bool)
    requires OkItem(it) && OkRep(it, r) && !it.Set? && u == RepeatCell(it, r)
    ensures matched == MatchesAt(it, e, ptr)
  {
    RepeatOpcode(it, r);
    if ptr >= |e.s| { return false; }
    var base, c, d := RepeatBase(OpOf(u)), e.s[ptr], u.arg;
    if base == OP_TYPESTAR { return (d != OP_ANY || c != e.nl) && InType(d, c); }
    var caseless := base == OP_STARI || base == OP_NOTSTARI;
    var same := c == d || (caseless && c == Flip(d));
    return same == (base == OP_STAR || base == OP_STARI);
  }

  method ActRepeat(code: seq<Cell>, e: Env, ptr: nat, s: Block, active: StateList, next: StateList, ghost n: Node)
      returns (ok: bool)
    requires Disjoint(active, next) && n.Repeat? && !n.item.Set? && SpotLaid(code, AtNode(n, s.offset), s.offset)
    requires CountOk(AtNode(n, s.offset), s)
    modifies active, active.items, next, next.items
    ensures Disjoint(active, next)
    ensures ok ==> Acted(active, next, AtNode(n, s.offset), s, e, ptr)
    ensures !ok ==> Overflows(active, next, AtNode(n, s.offset), s, e, ptr)
  {
    var u := code[s.offset];
    RepeatOpcode(n.item, n.rep);
    var matched := TestRepeat(u, e, ptr, n.item, n.rep);
    var k := OpOf(u) - RepeatBase(OpOf(u)) + OP_STAR;
    var after := s.offset + OpLength(OpOf(u));
    var leave, to := true, Block(after, 0);
    if k == OP_PLUS || k == OP_MINPLUS {
      leave, to := s.count > 0, Block(s.offset, s.count + 1);
    } else if k == OP_STAR || k == OP_MINSTAR {
      to := Block(s.offset, 0);
    } else if k != OP_QUERY && k != OP_MINQUERY {
      leave, to := k != OP_EXACT, Counted(s, u.n, after);
    }
    ok := AddRepeat(active, next, leave, after, matched, to);
  }

  /** One more item has been matched: on to what follows when that makes max of them, where 0 is no limit. */
  function Counted(s: Block, max: nat, after: nat): Block {
    if s.count + 1 >= max && max != 0 then Block(after, 0) else Block(s.offset, s.count + 1)
  }

  /** Adds the states of a repeat: the way out and, after a match of its item, the way on. */
  method AddRepeat(active: StateList, next: StateList, leave: bool, after: nat, matched: bool, to: Block)
      returns (ok: bool)
    requires Disjoint(active, next)
    modifies active, active.items, next, next.items
    ensures Disjoint(active, next)
    ensures ok ==> active.Contents() == old(active.Contents()) + if leave then [Block(after, 0)] else []
    ensures ok ==> next.Contents() == old(next.Contents()) + if matched then [to] else []
    ensures !ok ==> (leave && |old(active.Contents())| + 1 > active.items.Length)
                    || (matched && |old(next.Contents())| + 1 > next.items.Length)
  {
    ok := true;
    if leave { ok := active.Add(after, 0); }
    if ok && matched { ok := next.Add(to.offset, to.count); }
  }

  method ActClass(code: seq<Cell>, e: Env, ptr: nat, s: Block, active: StateList, next: StateList, ghost n: Node)
      returns (ok: bool)
    requires Disjoint(active, next) && (n.Single? || n.Repeat?) && n.item.Set?
             && SpotLaid(code, AtNode(n, s.offset), s.offset)
    requires CountOk(AtNode(n, s.offset), s)
    modifies active, active.items, next, next.items
    ensures Disjoint(active, next)
    ensures ok ==> Acted(active, next, AtNode(n, s.offset), s, e, ptr)
    ensures !ok ==> Overflows(active, next, AtNode(n, s.offset), s, e, ptr)
  {
    var isinclass := TestSingle(code, s.offset, e, ptr, n.item);
    var ecode := s.offset + 1 + CLASS_SIZE;
    var k := OpOf(code[ecode]);
    var leave, after, to := false, ecode, Block(ecode, 0);
    if k == OP_CRSTAR || k == OP_CRMINSTAR {
      leave, after, to := true, ecode + 1, Block(s.offset, 0);
    } else if k == OP_CRPLUS || k == OP_CRMINPLUS {
      leave, after, to := s.count > 0, ecode + 1, Block(s.offset, s.count + 1);
    } else if k == OP_CRQUERY || k == OP_CRMINQUERY {
      leave, after, to := true, ecode + 1, Block(ecode + 1, 0);
    } else if k == OP_CRRANGE || k == OP_CRMINRANGE {
      after := ecode + 1 + 2 * IMM2_SIZE;
      leave, to := s.count >= code[ecode].m, Counted(s, code[ecode].n, after);
    }
    ok := AddRepeat(active, next, leave, after, isinclass, to);
  }

  /** Acts on a state that is not the end of the pattern. */
  method Act(code: seq<Cell>, e: Env, ptr: nat, s: Block, active: StateList, next: StateList, ghost sp: Spot)
      returns (ok: bool)
    requires Disjoint(active, next) && ptr <= |e.s|
    requires SpotLaid(code, sp, s.offset) && CountOk(sp, s) && sp != Nowhere
    modifies active, active.items, next, next.items
    ensures Disjoint(active, next)
    ensures ok ==> Acted(active, next, sp, s, e, ptr)
    ensures !ok ==> Overflows(active, next, sp, s, e, ptr)
  {
    ghost var n := if sp.AtNode? then sp.n else Assert(0);
    if sp.AtNode? { NodeClass(code, s.offset, n); }
    var op := OpOf(code[s.offset]);
    if IsKet(op) { ok := ActKet(code, e, ptr, s, active, next, sp.g, sp.x); }
    else if op == OP_ALT { ok := ActAlt(code, e, ptr, s, active, next, sp.ket); }
    else if IsBracket(op) { ok := ActBra(code, e, ptr, s, active, next, n); }
    else if IsZero(op) { ok := ActZero(code, e, ptr, s, active, next, n); }
    else if IsAssertion(op) { ok := ActAssertion(code, e, ptr, s, active, next, n); }
    else if op == OP_CLASS || op == OP_NCLASS { ok := ActClass(code, e, ptr, s, active, next, n); }
    else if IsRepeat(op) { ok := ActRepeat(code, e, ptr, s, active, next, n); }
    else { ok := ActSingle(code, e, ptr, s, active, next, n); }
  }

  // --- the offsets vector ----------------------------------------------------------------

  /** The ends found so far, the last one first; the vector holds as many of them as fit, and the count is
      0 when that is not all. */
  ghost predicate IsStored(offsets: seq<nat>, cap: nat, matchCount: int, start: nat, ends: seq<nat>) {
    && 2 * cap <= |offsets|
    && matchCount == (if ends == [] then ERROR_NOMATCH else if |ends| <= cap then |ends| else 0)
    && forall k: nat {:trigger ends[k]} :: k < |ends| && k < cap ==>
         offsets[2 * k] == start && offsets[2 * k + 1] == ends[k]
  }

  ghost predicate Stored(offsets: seq<nat>, cap: nat, matchCount: int, start: nat, ends: seq<nat>) {
    forall k: int {:trigger Look(k)} :: Look(k) ==> IsStored(offsets, cap, matchCount, start, ends)
  }

  /** One more match: it goes to the front, and the others are shifted up. */
  method Record(offsets: array<nat>, offsetcount: nat, matchCount: int, start: nat, ptr: nat, ghost ends: seq<nat>)
      returns (count: int)
    requires offsetcount % 2 == 0 && Stored(offsets[..], offsetcount / 2, matchCount, start, ends)
    modifies offsets
    ensures Stored(offsets[..], offsetcount / 2, count, start, [ptr] + ends)
  {
    ghost var cap := offsetcount / 2;
    ghost var before := offsets[..];
    assert Look(0);
    count := matchCount;
    if count < 0 {
      count := if offsetcount >= 2 then 1 else 0;
    } else if count > 0 {
      count := count + 1;
      if count * 2 > offsetcount { count := 0; }
    }
    var shift := (if count == 0 then offsetcount else count * 2) - 2;
    if shift > 0 {
      forall i | 2 <= i < shift + 2 { offsets[i] := offsets[i - 2]; }
    }
    if offsetcount >= 2 {
      offsets[0] := start;
      offsets[1] := ptr;
    }
    forall k: nat | k < |ends| + 1 && k < cap
      ensures offsets[2 * k] == start && offsets[2 * k + 1] == ([ptr] + ends)[k]
    {
      if k > 0 {
        assert offsets[2 * k] == before[2 * (k - 1)] && offsets[2 * k + 1] == before[2 * (k - 1) + 1]
               && ([ptr] + ends)[k] == ends[k - 1];
      }
    }
  }

  // --- one offset of the subject ----------------------------------------------------------

  /** A match may be recorded, as far as the NOTEMPTY options go. */
  predicate Recordable(opt: Options, e: Env, start: nat, ptr: nat) {
    ptr > start || (!opt.notEmpty && (!opt.notEmptyAtStart || start > e.som))
  }

  lemma SpotHere(code: seq<Cell>, pat: Node, e: Env, start: nat, ptr: nat, s: Block)
    requires Compiled(code, pat) && NoPossessive(pat) && IsPattern(pat) && SoundState(pat, e, start, ptr, s)
    ensures s.offset == EndKet(pat) ==> s == Block(EndKet(pat), 0)
    ensures s.offset != EndKet(pat) ==>
              var sp := SpotOf(pat, s.offset); sp != Nowhere && CountOk(sp, s) && SpotLaid(code, sp, s.offset)
  {
    KetLaidAt(code, pat, 0);
    AltsSpotLaid(code, pat.alts, FIRST, EndKet(pat), s.offset);
  }

  /** The matches recorded once the states `acted` have been acted on. */
  ghost function EndsNow(pat: Node, e: Env, opt: Options, start: nat, ptr: nat, acted: seq<Block>,
                         ends: seq<nat>): seq<nat>
    requires IsPattern(pat)
  {
    if Block(EndKet(pat), 0) in acted && Recordable(opt, e, start, ptr) then [ptr] + ends else ends
  }

  /** Whether state i is a duplicate of an earlier one. */
  method IsDuplicate(active: StateList, i: nat) returns (dup: bool, ghost m: nat)
    requires active.Valid() && i < active.count
    ensures dup ==> m < i && active.Contents()[m] == active.Contents()[i]
    ensures !dup ==> active.Contents()[i] !in active.Contents()[..i]
  {
    var j := 0;
    while j < i
      invariant j <= i && active.Contents()[i] !in active.Contents()[..j]
    {
      if active.items[j].offset == active.items[i].offset && active.items[j].count == active.items[i].count {
        return true, j;
      }
      j := j + 1;
    }
    return false, 0;
  }

  /** Acts on active state i, which is not the end of the pattern. */
  method StepState(code: seq<Cell>, e: Env, start: nat, ptr: nat, i: nat, active: StateList, next: StateList,
                   ghost pat: Node)
      returns (ok: bool)
    requires Compiled(code, pat) && IsPattern(pat) && NoPossessive(pat)
    requires Disjoint(active, next) && ptr <= |e.s| && i < active.count && active.Contents()[i].offset != EndKet(pat)
    requires Scanning(pat, e, start, ptr, active.Contents(), i, next.Contents())
    modifies active, active.items, next, next.items
    ensures Disjoint(active, next)
    ensures ok ==> old(active.Contents()) <= active.Contents()
                   && Scanning(pat, e, start, ptr, active.Contents(), i + 1, next.Contents())
    ensures Grown(ok, pat, |old(active.Contents())|, |old(next.Contents())|, active, next)
  {
    ghost var act, fr := active.Contents(), next.Contents();
    var s := active.items[i];
    assert s == act[i];
    StateSound(pat, e, start, ptr, act, i, fr, i);
    SpotHere(code, pat, e, start, ptr, s);
    ScanAct(pat, e, start, ptr, act, i, fr);
    StepsBounded(pat, s, e, ptr);
    ok := Act(code, e, ptr, s, active, next, SpotOf(pat, s.offset));
  }

  /** How much the lists may grow when one state is acted on, and that it fails only for want of that much room. */
  ghost predicate Grown(ok: bool, pat: Node, a: nat, n: nat, active: StateList, next: StateList)
    requires active.Valid() && next.Valid()
    reads active, active.items, next, next.items
  {
    if ok then |active.Contents()| <= a + NodeSize(pat) && |next.Contents()| <= n + 1
    else a + NodeSize(pat) > active.items.Length || n + 1 > next.items.Length
  }

  /** Acts on active state i, which is not a duplicate: at the end of the pattern, a match is recorded. */
  method ScanOne(code: seq<Cell>, e: Env, start: nat, ptr: nat, i: nat, active: StateList, next: StateList,
                 opt: Options,
                 offsets: array<nat>, offsetcount: nat, matchCount: int, endCode: nat, ghost pat: Node,
                     ghost ends: seq<nat>)
      returns (ok: bool, stop: bool, count: int)
    requires Compiled(code, pat) && IsPattern(pat) && NoPossessive(pat) && endCode == EndKet(pat)
    requires Disjoint(active, next) && ptr <= |e.s| && i < active.count
             && active.Contents()[i] !in active.Contents()[..i]
    requires Scanning(pat, e, start, ptr, active.Contents(), i, next.Contents())
    requires offsetcount % 2 == 0
    requires Stored(offsets[..], offsetcount / 2, matchCount, start,
                    EndsNow(pat, e, opt, start, ptr, active.Contents()[..i], ends))
    modifies active, active.items, next, next.items, offsets
    ensures Disjoint(active, next)
    ensures ok && !stop ==>
              && old(active.Contents()) <= active.Contents()
              && Scanning(pat, e, start, ptr, active.Contents(), i + 1, next.Contents())
              && Stored(offsets[..], offsetcount / 2, count, start,
                        EndsNow(pat, e, opt, start, ptr, active.Contents()[..i + 1], ends))
              && (opt.shortest && old(EndsNow(pat, e, opt, start, ptr, active.Contents()[..i], ends)) == ends ==>
                    EndsNow(pat, e, opt, start, ptr, active.Contents()[..i + 1], ends) == ends)
    ensures ok && stop ==>
              && opt.shortest && Recordable(opt, e, start, ptr) && InAlts(pat.alts, e, start, ptr)
              && Stored(offsets[..], offsetcount / 2, count, start, [ptr] + ends)
    ensures Grown(ok, pat, |old(active.Contents())|, |old(next.Contents())|, active, next)
  {
    ok, stop, count := true, false, matchCount;
    ghost var act, fr := active.Contents(), next.Contents();
    var s := active.items[i];
    assert s == act[i] && act[..i + 1] == act[..i] + [s];
    StateSound(pat, e, start, ptr, act, i, fr, i);
    if s.offset != endCode {
      ok := StepState(code, e, start, ptr, i, active, next, pat);
      assert ok ==> active.Contents()[..i + 1] == act[..i + 1];
    } else {
      EndReached(pat, e, start, ptr, act, i, fr);
      if ptr > start || (!opt.notEmpty && (!opt.notEmptyAtStart || start > e.som)) {
        count := Record(offsets, offsetcount, count, start, ptr, ends);
        stop := opt.shortest;
      }
    }
  }

  /** Active state i is the end of the pattern. */
  lemma EndReached(pat: Node, e: Env, start: nat, ptr: nat, act: seq<Block>, i: nat, next: seq<Block>)
    requires IsPattern(pat) && Scanning(pat, e, start, ptr, act, i, next) && i < |act| && act[i].offset == EndKet(pat)
    ensures act[i] == Block(EndKet(pat), 0) && InAlts(pat.alts, e, start, ptr)
            && Scanning(pat, e, start, ptr, act, i + 1, next)
  {
    StateSound(pat, e, start, ptr, act, i, next, i);
    NothingAtKet(pat.alts, FIRST, EndKet(pat));
    KetSound(pat, e, start, ptr);
    ScanAct(pat, e, start, ptr, act, i, next);
    assert act + [] == act && next + [] == next;
  }

  /** The number of different states among the first i. */
  ghost function Different(act: seq<Block>, i: nat): nat
    requires i <= |act|
  {
    |SetOf(act[..i])|
  }

  lemma OneMore(act: seq<Block>, i: nat)
    requires i < |act|
    ensures Different(act, i + 1) == Different(act, i) + if act[i] in act[..i] then 0 else 1
  {
    assert act[..i + 1] == act[..i] + [act[i]];
    assert SetOf(act[..i + 1]) == SetOf(act[..i]) + {act[i]};
  }

  lemma DifferentBounded(pat: Node, e: Env, start: nat, ptr: nat, act: seq<Block>, k: nat, next: seq<Block>, i: nat)
    requires IsPattern(pat) && Scanning(pat, e, start, ptr, act, k, next) && i <= |act|
    ensures Different(act, i) <= MaxStates(pat, e)
  {
    assert Look(0);
    forall s | s in SetOf(act[..i]) ensures SoundState(pat, e, start, ptr, s) { assert s in act; }
    StatesBounded(pat, e, start, ptr, SetOf(act[..i]));
  }

  /** Each different state that has been acted on has made the lists grow by no more than it may. */
  ghost predicate Sized(pat: Node, first: nat, acted: nat, a: nat, n: nat) {
    a <= first + acted * NodeSize(pat) && n <= acted
  }

  /** Workspace enough for any run of the pattern on the subject. */
  function Enough(pat: Node, e: Env): nat
    requires pat.Group?
  {
    MaxStates(pat, e) * (NodeSize(pat) + 1)
  }

  lemma RoomLeft(pat: Node, e: Env, first: nat, acted: nat, a: nat, n: nat)
    requires pat.Group? && Sized(pat, first, acted, a, n) && first <= MaxStates(pat, e) && acted < MaxStates(pat, e)
    ensures a + NodeSize(pat) <= Enough(pat, e) && n + 1 <= Enough(pat, e)
  {
    Times(acted, MaxStates(pat, e), NodeSize(pat));
  }

  lemma Times(a: nat, m: nat, w: nat)
    requires a < m
    ensures a * w + w <= m * w && m * (w + 1) == m * w + m
  {
    var d: nat := m - (a + 1);
    assert m * w == a * w + w + d * w;
  }

  /** A state that was not met before: the count of different states, and the room that is left. */
  lemma NewState(pat: Node, e: Env, start: nat, ptr: nat, act: seq<Block>, i: nat, next: seq<Block>, first: nat)
    requires IsPattern(pat) && Scanning(pat, e, start, ptr, act, i, next) && i < |act| && act[i] !in act[..i]
    requires Sized(pat, first, Different(act, i), |act|, |next|)
    ensures Different(act, i + 1) == Different(act, i) + 1 <= MaxStates(pat, e)
    ensures first <= MaxStates(pat, e) ==> |act| + NodeSize(pat) <= Enough(pat, e) && |next| + 1 <= Enough(pat, e)
  {
    OneMore(act, i);
    DifferentBounded(pat, e, start, ptr, act, i, next, i + 1);
    if first <= MaxStates(pat, e) { RoomLeft(pat, e, first, Different(act, i), |act|, |next|); }
  }

  lemma SizedMore(pat: Node, first: nat, acted: nat, a: nat, n: nat, a': nat, n': nat)
    requires Sized(pat, first, acted, a, n) && a' <= a + NodeSize(pat) && n' <= n + 1
    ensures Sized(pat, first, acted + 1, a', n')
  {
    assert acted * NodeSize(pat) + NodeSize(pat) == (acted + 1) * NodeSize(pat);
  }

  /** Acts on the state number i, unless it has been acted on already. */
  method ScanNext(code: seq<Cell>, e: Env, start: nat, ptr: nat, i: nat, active: StateList, next: StateList,
                  opt: Options,
                  offsets: array<nat>, offsetcount: nat, matchCount: int, endCode: nat, ghost pat: Node,
                  ghost ends: seq<nat>, ghost first: nat)
      returns (ok: bool, stop: bool, count: int)
    requires Compiled(code, pat) && IsPattern(pat) && NoPossessive(pat) && endCode == EndKet(pat)
    requires Disjoint(active, next) && ptr <= |e.s| && i < active.count
    requires Scanning(pat, e, start, ptr, active.Contents(), i, next.Contents())
    requires offsetcount % 2 == 0
    requires Stored(offsets[..], offsetcount / 2, matchCount, start,
                    EndsNow(pat, e, opt, start, ptr, active.Contents()[..i], ends))
    requires opt.shortest ==> EndsNow(pat, e, opt, start, ptr, active.Contents()[..i], ends) == ends
    requires Sized(pat, first, Different(active.Contents(), i), |active.Contents()|, |next.Contents()|)
    modifies active, active.items, next, next.items, offsets
    ensures Disjoint(active, next)
    ensures ok && !stop ==>
              var act := active.Contents();
              && old(active.Contents()) <= act && Scanning(pat, e, start, ptr, act, i + 1, next.Contents())
              && Stored(offsets[..], offsetcount / 2, count, start,
                        EndsNow(pat, e, opt, start, ptr, act[..i + 1], ends))
              && (opt.shortest ==> EndsNow(pat, e, opt, start, ptr, act[..i + 1], ends) == ends)
              && Sized(pat, first, Different(act, i + 1), |act|, |next.Contents()|)
    ensures ok && stop ==>
              && opt.shortest && Recordable(opt, e, start, ptr) && InAlts(pat.alts, e, start, ptr)
              && Stored(offsets[..], offsetcount / 2, count, start, [ptr] + ends)
    ensures first <= MaxStates(pat, e) && ok && stop ==> |next.Contents()| <= MaxStates(pat, e)
    ensures first <= MaxStates(pat, e) && !ok ==>
              active.items.Length < Enough(pat, e) || next.items.Length < Enough(pat, e)
  {
    ok, stop, count := true, false, matchCount;
    ghost var act, fr := active.Contents(), next.Contents();
    var dup; ghost var m;
    dup, m := IsDuplicate(active, i);
    if dup {
      DuplicateSkipped(pat, e, opt, start, ptr, act, i, fr, m, ends);
      OneMore(act, i);
    } else {
      NewState(pat, e, start, ptr, act, i, fr, first);
      ok, stop, count := ScanOne(code, e, start, ptr, i, active, next, opt, offsets, offsetcount, matchCount, endCode,
                                 pat,
                                 ends);
      if !ok { return; }
      SizedMore(pat, first, Different(act, i), |act|, |fr|, |active.Contents()|, |next.Contents()|);
      if stop { return; }
      SamePart(act, active.Contents(), i + 1);
    }
  }

  /** Acts on all the active states, those that are added on the way included. */
  method ScanStates(code: seq<Cell>, e: Env, start: nat, ptr: nat, active: StateList, next: StateList, opt: Options,
                    offsets: array<nat>, offsetcount: nat, matchCount: int, endCode: nat, ghost pat: Node,
                        ghost ends: seq<nat>)
      returns (ok: bool, stop: bool, count: int)
    requires Compiled(code, pat) && IsPattern(pat) && NoPossessive(pat) && endCode == EndKet(pat)
    requires Disjoint(active, next) && next.Contents() == [] && ptr <= |e.s|
    requires AllSound(pat, e, start, ptr, active.Contents())
    requires offsetcount % 2 == 0 && Stored(offsets[..], offsetcount / 2, matchCount, start, ends)
    modifies active, active.items, next, next.items, offsets
    ensures Disjoint(active, next)
    ensures ok && !stop ==>
              var act := active.Contents();
              && old(active.Contents()) <= act
              && Scanning(pat, e, start, ptr, act, |act|, next.Contents())
              && Stored(offsets[..], offsetcount / 2, count, start, EndsNow(pat, e, opt, start, ptr, act, ends))
              && (opt.shortest ==> EndsNow(pat, e, opt, start, ptr, act, ends) == ends)
    ensures ok && stop ==>
              && opt.shortest && Recordable(opt, e, start, ptr) && InAlts(pat.alts, e, start, ptr)
              && Stored(offsets[..], offsetcount / 2, count, start, [ptr] + ends)
    ensures |old(active.Contents())| <= MaxStates(pat, e) ==>
              if ok then |next.Contents()| <= MaxStates(pat, e)
              else active.items.Length < Enough(pat, e) || next.items.Length < Enough(pat, e)
  {
    ok, stop, count := true, false, matchCount;
    ScanStart(pat, e, start, ptr, active.Contents());
    var i := 0;
    ghost var first := |active.Contents()|;
    while i < active.count
      invariant i <= active.count && Disjoint(active, next) && ok && !stop
      invariant old(active.Contents()) <= active.Contents()
      invariant Scanning(pat, e, start, ptr, active.Contents(), i, next.Contents())
      invariant Stored(offsets[..], offsetcount / 2, count, start,
                       EndsNow(pat, e, opt, start, ptr, active.Contents()[..i], ends))
      invariant opt.shortest ==> EndsNow(pat, e, opt, start, ptr, active.Contents()[..i], ends) == ends
      invariant Sized(pat, first, Different(active.Contents(), i), |active.Contents()|, |next.Contents()|)
      decreases active.items.Length - i
    {
      ok, stop, count := ScanNext(code, e, start, ptr, i, active, next, opt, offsets, offsetcount, count, endCode, pat,
                                  ends, first);
      if !ok || stop { return; }
      i := i + 1;
    }
    DifferentBounded(pat, e, start, ptr, active.Contents(), i, next.Contents(), i);
    assert active.Contents()[..i] == active.Contents();
  }

  lemma SamePart(a: seq<Block>, b: seq<Block>, i: nat)
    requires a <= b && i <= |a|
    ensures a[..i] == b[..i]
  {
  }

  lemma DuplicateSkipped(pat: Node, e: Env, opt: Options, start: nat, i: nat, act: seq<Block>, k: nat, next: seq<Block>,
                         m: nat, ends: seq<nat>)
    requires IsPattern(pat) && Scanning(pat, e, start, i, act, k, next) && m < k < |act| && act[m] == act[k]
    ensures Scanning(pat, e, start, i, act, k + 1, next)
    ensures EndsNow(pat, e, opt, start, i, act[..k + 1], ends) == EndsNow(pat, e, opt, start, i, act[..k], ends)
  {
    ScanDuplicate(pat, e, start, i, act, k, next, m);
    assert act[..k + 1] == act[..k] + [act[k]];
    assert act[..k][m] == act[k];
  }

  // --- the whole subject -----------------------------------------------------------------------

  ghost predicate Descending(ends: seq<nat>) {
    forall k: nat, l: nat {:trigger ends[k], ends[l]} :: k < l < |ends| ==> ends[l] < ends[k]
  }

  /** What is known when the run has reached offset ptr with the given states. */
  ghost predicate IsReached(pat: Node, e: Env, opt: Options, start: nat, T: Trace, ptr: nat, states: seq<Block>,
                            ends: seq<nat>)
    requires IsPattern(pat)
  {
    && start <= ptr <= |e.s| && Closed(pat, e, T, ptr) && T[ptr] == SetOf(states)
    && AllSound(pat, e, start, ptr, states)
    && StartsIn(pat.alts, FIRST, T[start])
    && Descending(ends)
    && (forall p {:trigger p in ends} :: p in ends ==>
          p < ptr && Recordable(opt, e, start, p) && InAlts(pat.alts, e, start, p))
    && (forall p: nat {:trigger T[p]} :: p < ptr && Block(EndKet(pat), 0) in T[p] && Recordable(opt, e, start, p) ==>
          p in ends)
  }

  ghost predicate Reached(pat: Node, e: Env, opt: Options, start: nat, T: Trace, ptr: nat, states: seq<Block>,
                          ends: seq<nat>)
    requires IsPattern(pat)
  {
    forall k: int {:trigger Look(k)} :: Look(k) ==> IsReached(pat, e, opt, start, T, ptr, states, ends)
  }

  lemma ReachStart(pat: Node, e: Env, opt: Options, start: nat)
    requires IsPattern(pat) && start <= |e.s|
    ensures Reached(pat, e, opt, start, seq(start, _ => {}) + [SetOf(Starts(pat.alts, FIRST))], start,
                    Starts(pat.alts, FIRST), [])
  {
    var T := seq(start, _ => {}) + [SetOf(Starts(pat.alts, FIRST))];
    forall s | s in Starts(pat.alts, FIRST) ensures SoundState(pat, e, start, start, s) {
      StartsSound(pat, e, start, s);
    }
    AllStart(pat.alts, FIRST, T[start]);
  }

  lemma {:induction false} StartsInMore(a: Alts, x: nat, here: set<Block>, more: set<Block>)
    requires StartsIn(a, x, here) && here <= more
    ensures StartsIn(a, x, more)
    decreases a
  {
    if a.Or? { StartsInMore(a.more, x + BranchSize(a.branch) + 1 + LINK_SIZE, here, more); }
  }

  lemma ReachStates(pat: Node, e: Env, opt: Options, start: nat, T: Trace, ptr: nat, states: seq<Block>, ends: seq<nat>)
    requires IsPattern(pat) && Reached(pat, e, opt, start, T, ptr, states, ends)
    ensures ptr <= |e.s| && |T| == ptr + 1 && AllSound(pat, e, start, ptr, states)
  {
    assert Look(0);
  }

  /** All the states at ptr have been acted on, and some are left for the next offset. */
  lemma ReachNext(pat: Node, e: Env, opt: Options, start: nat, T: Trace, ptr: nat, states: seq<Block>, ends: seq<nat>,
                  act: seq<Block>, next: seq<Block>)
    requires IsPattern(pat) && Reached(pat, e, opt, start, T, ptr, states, ends) && ptr < |T|
    requires states <= act && Scanning(pat, e, start, ptr, act, |act|, next) && ptr + 1 <= |e.s|
    ensures Reached(pat, e, opt, start, T[..ptr] + [SetOf(act), SetOf(next)], ptr + 1, next,
                    EndsNow(pat, e, opt, start, ptr, act, ends))
  {
    assert Look(0);
    var T', ends' := T[..ptr] + [SetOf(act), SetOf(next)], EndsNow(pat, e, opt, start, ptr, act, ends);
    SetGrows(states, act);
    ExtendTrace(pat, e, start, T, ptr, act, next);
    StartsInMore(pat.alts, FIRST, T[start], T'[start]);
    EndsGrow(pat, e, opt, start, T, ptr, states, ends, act, next);
    forall p: nat | p < ptr + 1 && Block(EndKet(pat), 0) in T'[p] && Recordable(opt, e, start, p) ensures p in ends' {
      if p < ptr { assert T'[p] == T[p]; }
    }
  }

  lemma SetGrows(a: seq<Block>, b: seq<Block>)
    requires a <= b
    ensures SetOf(a) <= SetOf(b)
  {
    forall s | s in a ensures s in b {
      var i :| 0 <= i < |a| && a[i] == s;
      assert b[i] == s;
    }
  }

  lemma EndsGrow(pat: Node, e: Env, opt: Options, start: nat, T: Trace, ptr: nat, states: seq<Block>, ends: seq<nat>,
                 act: seq<Block>, next: seq<Block>)
    requires IsPattern(pat) && IsReached(pat, e, opt, start, T, ptr, states, ends)
             && Scanning(pat, e, start, ptr, act, |act|, next)
    ensures var ends' := EndsNow(pat, e, opt, start, ptr, act, ends);
            && Descending(ends')
            && (forall p {:trigger p in ends'} :: p in ends' ==>
                  p <= ptr && Recordable(opt, e, start, p) && InAlts(pat.alts, e, start, p))
  {
    if Block(EndKet(pat), 0) in act && Recordable(opt, e, start, ptr) {
      var m :| 0 <= m < |act| && act[m] == Block(EndKet(pat), 0);
      StateSound(pat, e, start, ptr, act, |act|, next, m);
      KetSound(pat, e, start, ptr);
      var ends' := [ptr] + ends;
      forall k: nat, l: nat | k < l < |ends'| ensures ends'[l] < ends'[k] {
        assert ends'[l] == ends[l - 1] && ends[l - 1] in ends;
        if k > 0 { assert ends'[k] == ends[k - 1]; }
      }
    }
  }

  /** The ends are those of the slices that may be recorded, the longest first. */
  ghost predicate AllEnds(pat: Node, e: Env, opt: Options, start: nat, ends: seq<nat>) {
    Descending(ends) && forall j: nat :: j in ends <==> InNode(pat, e, start, j) && Recordable(opt, e, start, j)
  }

  /** No state is left: all the matches have been found. */
  lemma ReachEnd(pat: Node, e: Env, opt: Options, start: nat, T: Trace, ptr: nat, states: seq<Block>, ends: seq<nat>,
                 act: seq<Block>)
    requires IsPattern(pat) && Reached(pat, e, opt, start, T, ptr, states, ends)
    requires states <= act && Scanning(pat, e, start, ptr, act, |act|, [])
    ensures AllEnds(pat, e, opt, start, EndsNow(pat, e, opt, start, ptr, act, ends))
  {
    assert Look(0);
    var T', ends' := T[..ptr] + [SetOf(act), {}], EndsNow(pat, e, opt, start, ptr, act, ends);
    SetGrows(states, act);
    assert SetOf([]) == {};
    ExtendTrace(pat, e, start, T, ptr, act, []);
    StartsInMore(pat.alts, FIRST, T[start], T'[start]);
    EndsGrow(pat, e, opt, start, T, ptr, states, ends, act, []);
    PadTrace(pat, e, T', ptr + 1, |e.s| + 1);
    forall j: nat | InAlts(pat.alts, e, start, j) && Recordable(opt, e, start, j) ensures j in ends' {
      AltsSpan(pat.alts, e, start, j);
      TraceComplete(pat, e, T' + seq(|e.s| + 1 - (ptr + 1), _ => {}), |e.s| + 1, start, j);
      if j < ptr { assert Block(EndKet(pat), 0) in T[j]; }
    }
  }

  /** Nothing could be recorded before the offset where the first match ends. */
  lemma ReachFirst(pat: Node, e: Env, opt: Options, start: nat, T: Trace, ptr: nat, states: seq<Block>, j: nat)
    requires IsPattern(pat) && Reached(pat, e, opt, start, T, ptr, states, []) && j < ptr
    ensures !(InNode(pat, e, start, j) && Recordable(opt, e, start, j))
  {
    assert Look(0);
    if InNode(pat, e, start, j) && Recordable(opt, e, start, j) {
      TraceComplete(pat, e, T, ptr, start, j);
    }
  }

  /** There is a next state only if there was a character. */
  lemma NextInside(pat: Node, e: Env, start: nat, i: nat, act: seq<Block>, next: seq<Block>)
    requires IsPattern(pat) && Scanning(pat, e, start, i, act, |act|, next) && next != []
    ensures i + 1 <= |e.s|
  {
    assert Look(0);
    assert next[0] in next;
  }

  /** The shortest match: it ends at p, and nothing that may be recorded ends before. */
  ghost predicate FirstEnd(pat: Node, e: Env, opt: Options, start: nat, p: nat) {
    && InNode(pat, e, start, p) && Recordable(opt, e, start, p)
    && forall j: nat :: InNode(pat, e, start, j) && Recordable(opt, e, start, j) ==> p <= j
  }

  lemma ReachStop(pat: Node, e: Env, opt: Options, start: nat, T: Trace, ptr: nat, states: seq<Block>)
    requires IsPattern(pat) && Reached(pat, e, opt, start, T, ptr, states, [])
    requires Recordable(opt, e, start, ptr) && InAlts(pat.alts, e, start, ptr)
    ensures FirstEnd(pat, e, opt, start, ptr)
  {
    forall j: nat | j < ptr ensures !(InNode(pat, e, start, j) && Recordable(opt, e, start, j)) {
      ReachFirst(pat, e, opt, start, T, ptr, states, j);
    }
  }

  /** What the run reports. */
  ghost predicate Reported(pat: Node, e: Env, opt: Options, start: nat, ends: seq<nat>) {
    if opt.shortest && ends != [] then |ends| == 1 && FirstEnd(pat, e, opt, start, ends[0])
    else AllEnds(pat, e, opt, start, ends)
  }

  /** All the work at one offset: `active` holds its states. When `more` is false the run is over. */
  method ScanOffset(code: seq<Cell>, e: Env, start: nat, ptr: nat, active: StateList, next: StateList, opt: Options,
                    offsets: array<nat>, count: nat, matchCount: int, endCode: nat,
                    ghost pat: Node, ghost T: Trace, ghost ends: seq<nat>)
      returns (ok: bool, more: bool, rc: int, ghost T': Trace, ghost ends': seq<nat>)
    requires Compiled(code, pat) && IsPattern(pat) && NoPossessive(pat) && endCode == EndKet(pat)
             && Disjoint(active, next)
    requires Reached(pat, e, opt, start, T, ptr, active.Contents(), ends) && (opt.shortest ==> ends == [])
    requires count % 2 == 0 && Stored(offsets[..], count / 2, matchCount, start, ends)
    modifies active, active.items, next, next.items, offsets
    ensures Disjoint(active, next)
    ensures ok ==> Stored(offsets[..], count / 2, rc, start, ends')
    ensures ok && more ==>
              && Reached(pat, e, opt, start, T', ptr + 1, next.Contents(), ends') && (opt.shortest ==> ends' == [])
                 && ptr < |e.s|
    ensures ok && !more ==> Reported(pat, e, opt, start, ends')
    ensures |old(active.Contents())| <= MaxStates(pat, e) ==>
              if ok then |next.Contents()| <= MaxStates(pat, e)
              else active.items.Length < Enough(pat, e) || next.items.Length < Enough(pat, e)
  {
    next.Clear();
    ghost var states := active.Contents();
    ReachStates(pat, e, opt, start, T, ptr, states, ends);
    var stop;
    ok, stop, rc := ScanStates(code, e, start, ptr, active, next, opt, offsets, count, matchCount, endCode, pat, ends);
    more := ok && !stop && next.count > 0;
    T', ends' := T, ends;
    if ok && stop {
      ReachStop(pat, e, opt, start, T, ptr, states);
      ends' := [ptr] + ends;
    } else if ok {
      ghost var act := active.Contents();
      ends' := EndsNow(pat, e, opt, start, ptr, act, ends);
      if more {
        NextInside(pat, e, start, ptr, act, next.Contents());
        ReachNext(pat, e, opt, start, T, ptr, states, ends, act, next.Contents());
        T' := T[..ptr] + [SetOf(act), SetOf(next.Contents())];
      } else {
        ReachEnd(pat, e, opt, start, T, ptr, states, ends, act);
      }
    }
  }

  /** Runs the pattern from offset start of the subject. Unless the workspace is too small, the offsets vector
      tells all the slices from there that match, the longest first, or the shortest one if that was
      asked for; `ends` are their ends. */
  method InternalDfaMatch(code: seq<Cell>, e: Env, start: nat, offsets: array<nat>, offsetcount: nat, wscount: nat,
                          opt: Options,
                          ghost pat: Node)
      returns (rc: int, ghost ends: seq<nat>)
    requires Compiled(code, pat) && NoPossessive(pat) && start <= |e.s| && offsetcount <= offsets.Length && wscount >= 2
    modifies offsets
    ensures rc != ERROR_DFA_WSSIZE ==>
              IsStored(offsets[..], offsetcount / 2, rc, start, ends) && Reported(pat, e, opt, start, ends)
    ensures rc == ERROR_DFA_WSSIZE ==> (wscount - 2) / 6 < Enough(pat, e)
  {
    ends := [];
    var count := 2 * (offsetcount / 2);
    assert count / 2 == offsetcount / 2 && count % 2 == 0;
    var blocks := (wscount - 2 - (wscount - 2) % 6) / 6;
    var active := new StateList(blocks);
    var next := new StateList(blocks);
    var ok, endCode := AddAlternatives(code, 0, next, pat);
    StartsFit(pat, e);
    if !ok { return ERROR_DFA_WSSIZE, []; }
    rc, ends := ScanSubject(code, e, start, active, next, opt, offsets, count, endCode, pat);
    assert Look(0);
  }

  /** The loop along the subject; `next` holds the states to start with. */
  method ScanSubject(code: seq<Cell>, e: Env, start: nat, active0: StateList, next0: StateList, opt: Options,
                     offsets: array<nat>, count: nat, endCode: nat, ghost pat: Node)
      returns (rc: int, ghost ends: seq<nat>)
    requires Compiled(code, pat) && IsPattern(pat) && NoPossessive(pat) && endCode == EndKet(pat)
             && Disjoint(active0, next0)
    requires start <= |e.s| && next0.Contents() == Starts(pat.alts, FIRST)
    requires count % 2 == 0 && count <= offsets.Length
    modifies active0, active0.items, next0, next0.items, offsets
    ensures rc != ERROR_DFA_WSSIZE ==> Stored(offsets[..], count / 2, rc, start, ends)
                                       && Reported(pat, e, opt, start, ends)
    ensures rc == ERROR_DFA_WSSIZE ==> active0.items.Length < Enough(pat, e) || next0.items.Length < Enough(pat, e)
  {
    ends := [];
    rc := ERROR_NOMATCH;
    ReachStart(pat, e, opt, start);
    StartsFit(pat, e);
    ghost var T := seq(start, _ => {}) + [SetOf(Starts(pat.alts, FIRST))];
    var active, next, ptr := active0, next0, start;
    while true
      invariant Disjoint(active, next) && {active, next} == {active0, next0}
      invariant Reached(pat, e, opt, start, T, ptr, next.Contents(), ends)
      invariant Stored(offsets[..], count / 2, rc, start, ends) && (opt.shortest ==> ends == [])
      invariant ptr <= |e.s| && |next.Contents()| <= MaxStates(pat, e)
      decreases |e.s| - ptr
    {
      active, next := next, active;
      var ok, more;
      ok, more, rc, T, ends := ScanOffset(code, e, start, ptr, active, next, opt, offsets, count, rc, endCode, pat, T,
                                          ends);
      if !ok { return ERROR_DFA_WSSIZE, []; }
      if !more {
        StoredCount(offsets[..], count / 2, rc, start, ends);
        return;
      }
      ptr := ptr + 1;
    }
  }

  lemma StoredCount(offsets: seq<nat>, cap: nat, matchCount: int, start: nat, ends: seq<nat>)
    requires Stored(offsets, cap, matchCount, start, ends)
    ensures matchCount >= ERROR_NOMATCH
  {
    assert Look(0);
  }

  /** The states that a run starts with fit. */
  lemma StartsFit(pat: Node, e: Env)
    requires IsPattern(pat)
    ensures |Starts(pat.alts, FIRST)| <= MaxStates(pat, e) <= Enough(pat, e)
  {
    StartsSize(pat.alts, FIRST);
    TimesMore(EndKet(pat) + 1, |e.s|);
    TimesMore(MaxStates(pat, e), NodeSize(pat));
  }

  lemma TimesMore(k: nat, w: nat)
    ensures k <= k * (w + 1)
  {
    assert k * (w + 1) == k * w + k;
  }
}
