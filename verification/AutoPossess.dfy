/** The scan of the compiled code that makes repeats possessive in place. */
module AutoPossess {
  import opened Folding
  import opened Opcodes
  import opened Bits
  import opened Regex
  import opened Layout
  import opened Walk
  import opened PossessRule
  import opened PossessRewrite
  import opened PossessCalls
  import opened PossessLayout

  const NOTACHAR := 0xffff_ffff

  /** The list holds the properties of an item whose code ends at `end`. */
  predicate ListsItem(code: seq<Cell>, list: seq<int>, end: nat, it: Item) {
    && |list| == 8
    && match it
       case Lit(op, c) =>
         && list[0] == (if IsList(it) then OP_CHAR else OP_NOT)
         && list[2] == c
         && (if (op == OP_CHARI || op == OP_NOTI) && Flip(c) != c then list[3] == Flip(c) && list[4] == NOTACHAR
             else list[3] == NOTACHAR)
       case Type(op) => list[0] == op
       case Set(op, bits) => list[0] == op && 0 < end - list[2] <= |code|
                             && code[end - list[2] - 1] == WithMap(op, bits)
  }

  predicate Listable(n: Node) { n.Single? || n.Repeat? || (n.Assert? && OP_EODN <= n.op <= OP_DOLLM) }

  predicate Lists(code: seq<Cell>, list: seq<int>, end: nat, n: Node)
    requires Listable(n)
  {
    match n
    case Single(it) => ListsItem(code, list, end, it)
    case Repeat(it, _) => ListsItem(code, list, end, it)
    case Assert(op) => |list| == 8 && list[0] == op
  }

  predicate EndsBranch(op: int, c: Ctx) {
    match c
    case Top => op == OP_END
    case In(Some(_), _, _, _) => op == OP_ALT
    case In(None, _, _, _) => IsKet(op)
  }

  /** Which item an opcode belongs to. */
  lemma Classify(code: seq<Cell>, p: nat, q: Branch, c: Ctx)
    requires Standing(code, p, q, c)
    ensures p < |code|
    ensures q.Cons? ==> StartsNode(OpOf(code[p]), q.head) && LaidNode(code, p, q.head) && OkNode(q.head)
    ensures q.Nil? ==> EndsBranch(OpOf(code[p]), c)
  {
    if q.Cons? {
      NodeClass(code, p, q.head);
    } else {
      assert p + BranchSize(q) == p;
      CtxClass(code, p, c);
    }
  }

  lemma CtxClass(code: seq<Cell>, p: nat, c: Ctx)
    requires CtxLaid(code, p, c)
    ensures p < |code| && EndsBranch(OpOf(code[p]), c)
  {
    if c.In? { assert IsKet(c.group.ket); }
  }

  /** How the opcode of a repeat tells the item and the kind of repeat. */
  lemma RepeatKind(it: Item, r: Rep)
    requires OkItem(it) && OkRep(it, r) && !it.Set?
    ensures Normal(OpOf(RepeatCell(it, r))) == r.op
            && (Skippable(r) <==> r.op != OP_PLUS && r.op != OP_MINPLUS && r.op != OP_EXACT && r.op != OP_POSPLUS)
  {
  }

  lemma ClassRepeatOpcode(it: Item, r: Rep)
    requires OkItem(it) && OkRep(it, r) && it.Set?
    ensures var op := r.op;
            && (IsRange(op) ==> (Skippable(r) <==> r.m == 0))
            && (!IsRange(op) ==> (Skippable(r) <==> op != OP_CRPLUS && op != OP_CRMINPLUS && op != OP_CRPOSPLUS))
  {
  }

  /** Fills the list with the properties of the item at p. Returns the offset after the item, or -1 when
      the code there is not an item that the analysis knows. */
  method GetChrPropertyList(code: seq<Cell>, p: nat, list: array<int>, ghost q: Branch, ghost c: Ctx) returns (end: int)
    requires Standing(code, p, q, c) && list.Length == 8
    modifies list
    ensures end == -1 <==> !(q.Cons? && Listable(q.head))
    ensures end != -1 ==>
              && end == p + NodeSize(q.head)
              && Lists(code, list[..], end, q.head)
              && (list[1] != 0 <==> q.head.Repeat? && Skippable(q.head.rep))
  {
    Classify(code, p, q, c);
    var u := code[p];
    var op := OpOf(u);
    var next := p + 1;
    list[0] := op;
    list[1] := 0;
    if IsRepeat(op) {
      RepeatOpcode(q.head.item, q.head.rep);
      RepeatKind(q.head.item, q.head.rep);
      var base := RepeatBase(op);
      var k := op - (base - OP_STAR);
      if k == OP_UPTO || k == OP_MINUPTO || k == OP_EXACT || k == OP_POSUPTO {
        next := next + IMM2_SIZE;
      }
      list[1] := if k != OP_PLUS && k != OP_MINPLUS && k != OP_EXACT && k != OP_POSPLUS then 1 else 0;
      if base == OP_STAR { list[0] := OP_CHAR; }
      else if base == OP_STARI { list[0] := OP_CHARI; }
      else if base == OP_NOTSTAR { list[0] := OP_NOT; }
      else if base == OP_NOTSTARI { list[0] := OP_NOTI; }
      else { list[0] := u.arg; next := next + 1; }
      op := list[0];
    }
    if IsType(op) || OP_EODN <= op <= OP_DOLLM {
      return next;
    } else if op == OP_CHAR || op == OP_NOT {
      list[2] := u.arg;
      list[3] := NOTACHAR;
      return next + 1;
    } else if op == OP_CHARI || op == OP_NOTI {
      list[0] := if op == OP_CHARI then OP_CHAR else OP_NOT;
      list[2] := u.arg;
      list[3] := Flip(u.arg);
      if list[2] == list[3] { list[3] := NOTACHAR; } else { list[4] := NOTACHAR; }
      return next + 1;
    } else if op == OP_CLASS || op == OP_NCLASS {
      end := ClassEnd(code, p, list, q, c);
      list[2] := end - next;
      return end;
    }
    return -1;
  }

  /** Past the class at p and the repeat that may follow it, which says whether the item can be empty. */
  method ClassEnd(code: seq<Cell>, p: nat, list: array<int>, ghost q: Branch, ghost c: Ctx) returns (end: int)
    requires Standing(code, p, q, c) && p < |code| && (OpOf(code[p]) == OP_CLASS || OpOf(code[p]) == OP_NCLASS)
    requires list.Length == 8 && list[1] == 0
    modifies list
    ensures q.Cons? && (q.head.Single? || q.head.Repeat?) && q.head.item.Set? && end == p + NodeSize(q.head)
    ensures code[p] == ItemCell(q.head.item)
    ensures list[1] != 0 <==> q.head.Repeat? && Skippable(q.head.rep)
    ensures forall i :: 0 <= i < 8 && i != 1 ==> list[i] == old(list[i])
  {
    end := p + 1 + CLASS_SIZE;
    ClassTail(code, p, q, c);
    if q.head.Repeat? { ClassRepeatOpcode(q.head.item, q.head.rep); }
    var r := OpOf(code[end]);
    if r == OP_CRSTAR || r == OP_CRMINSTAR || r == OP_CRQUERY || r == OP_CRMINQUERY || r == OP_CRPOSSTAR
       || r == OP_CRPOSQUERY {
      list[1] := 1;
      end := end + 1;
    } else if r == OP_CRPLUS || r == OP_CRMINPLUS || r == OP_CRPOSPLUS {
      end := end + 1;
    } else if IsRange(r) {
      list[1] := if code[end].m == 0 then 1 else 0;
      end := end + 1 + 2 * IMM2_SIZE;
    }
  }

  /** What follows a class is its repeat, or something that is not a class repeat. */
  lemma ClassTail(code: seq<Cell>, p: nat, q: Branch, c: Ctx)
    requires Standing(code, p, q, c) && p < |code| && (OpOf(code[p]) == OP_CLASS || OpOf(code[p]) == OP_NCLASS)
    ensures q.Cons? && (q.head.Single? || q.head.Repeat?) && q.head.item.Set? && p + 1 + CLASS_SIZE < |code|
    ensures q.head.Single? ==> !IsClassRepeat(OpOf(code[p + 1 + CLASS_SIZE]))
    ensures LaidNode(code, p, q.head) && OkNode(q.head)
  {
    Classify(code, p, q, c);
    StandingTail(code, p, q, c);
    if q.head.Single? { StandingHead(code, p + 1 + CLASS_SIZE, q.tail, c); }
  }

  // --- the comparison of two lists ---------------------------------------------------

  /** The decision for a repeated item when node n comes next. */
  ghost predicate ApartNode(x: Item, n: Node)
    requires Listable(n)
  {
    match n
    case Single(it) => Apart(x, it)
    case Repeat(it, _) => Apart(x, it)
    case Assert(op) => ApartAssert(x, op)
  }

  /** Character c may start node n: the reason to give up. */
  predicate Clash(n: Node, c: Unit)
    requires Listable(n)
  {
    match n
    case Single(it) => (it.Type? && it.op >= OP_ANY) || Matches(it, 0, c)
    case Repeat(it, _) => (it.Type? && it.op >= OP_ANY) || Matches(it, 0, c)
    case Assert(op) => op == OP_DOLLM || (op != OP_EOD && NewlineLike(c))
  }

  predicate OkListable(n: Node)
    requires Listable(n)
  {
    match n
    case Single(it) => OkItem(it)
    case Repeat(it, _) => OkItem(it)
    case Assert(_) => true
  }

  /** One character against the item of a list: the switch on list_ptr[0]. */
  method CharClashes(code: seq<Cell>, chr: Unit, list: seq<int>, end: nat, ghost n: Node) returns (clash: bool)
    requires Listable(n) && OkListable(n) && Lists(code, list, end, n)
    ensures clash <==> Clash(n, chr)
  {
    var op := list[0];
    if op == OP_CHAR || op == OP_NOT {
      var found := chr == list[2];
      var i := 3;
      while !found && list[i] != NOTACHAR
        invariant 3 <= i <= 4 && (i == 4 ==> list[4] == NOTACHAR && list[3] != NOTACHAR)
        invariant found <==> chr == list[2] || (i == 4 && chr == list[3])
        decreases 4 - i, !found
      {
        found := chr == list[i];
        i := i + 1;
      }
      clash := if op == OP_CHAR then found else !found;
    } else if op == OP_DIGIT { clash := IsDigit(chr); }
    else if op == OP_NOT_DIGIT { clash := !IsDigit(chr); }
    else if op == OP_WHITESPACE { clash := IsSpace(chr); }
    else if op == OP_NOT_WHITESPACE { clash := !IsSpace(chr); }
    else if op == OP_WORDCHAR { clash := chr < 255 && IsWord(chr); }
    else if op == OP_NOT_WORDCHAR { clash := !IsWord(chr); }
    else if op == OP_DOLL || op == OP_EODN { clash := NewlineLike(chr); }
    else if op == OP_EOD { clash := false; }
    else if op == OP_CLASS || op == OP_NCLASS { clash := Bit(code[end - list[2] - 1].bits, chr); }
    else { clash := true; }
  }

  /** All the characters of a short list against the other side. */
  method CharsApart(code: seq<Cell>, chars: seq<int>, cend: nat, list: seq<int>, end: nat, ghost x: Item, ghost n: Node)
      returns (apart: bool)
    requires OkItem(x) && IsList(x) && ListsItem(code, chars, cend, x)
    requires Listable(n) && OkListable(n) && Lists(code, list, end, n)
    ensures apart <==> !Clash(n, x.c) && (x.op == OP_CHARI ==> !Clash(n, Flip(x.c)))
  {
    var clash := CharClashes(code, chars[2], list, end, n);
    var i := 3;
    while !clash && chars[i] != NOTACHAR
      invariant 3 <= i <= 4 && (i == 4 ==> chars[4] == NOTACHAR && chars[3] != NOTACHAR)
      invariant clash <==> Clash(n, x.c) || (i == 4 && Clash(n, Flip(x.c)))
      decreases 4 - i, !clash
    {
      clash := CharClashes(code, chars[i], list, end, n);
      i := i + 1;
    }
    apart := !clash;
  }

  /** Two bit maps, byte by byte; `invert` takes the complement of the second. */
  method MapsApart(set1: Bitmap, set2: Bitmap, invert: bool) returns (apart: bool)
    ensures apart <==> forall c: Unit :: Bit(set1, c) ==> Bit(set2, c) == invert
  {
    apart := BytesApart(set1, set2, invert);
    ByteWise(set1, set2, invert);
  }

  method BytesApart(set1: Bitmap, set2: Bitmap, invert: bool) returns (apart: bool)
    ensures apart <==> AllMasked(set1, set2, invert)
  {
    var i := 0;
    while i < CLASS_SIZE
      invariant 0 <= i <= CLASS_SIZE
      invariant forall j: nat {:trigger Masked(set1, set2, invert, j)} :: j < i ==> Masked(set1, set2, invert, j) == 0
    {
      if Masked(set1, set2, invert, i) != 0 { return false; }
      i := i + 1;
    }
    return true;
  }

  /** A class against another class or a type. */
  method ClassApart(code: seq<Cell>, set1: Bitmap, list: seq<int>, end: nat, ghost x: Item, ghost n: Node)
      returns (apart: bool)
    requires x.Set? && x.bits == set1 && Listable(n) && OkListable(n) && Lists(code, list, end, n)
    requires list[0] != OP_CHAR
    ensures apart <==>
              && !n.Assert?
              && !n.item.Lit? && !(n.item.Type? && n.item.op >= OP_ANY) && SetApart(x, n.item)
  {
    var op := list[0];
    if op == OP_CLASS || op == OP_NCLASS {
      var set2 := code[end - list[2] - 1].bits;
      apart := MapsApart(set1, set2, false);
      assert forall c: Unit :: Matches(x, 0, c) == Bit(set1, c) && Matches(n.item, 0, c) == Bit(set2, c);
    } else if OP_NOT_DIGIT <= op <= OP_WORDCHAR {
      var invert := op == OP_NOT_DIGIT || op == OP_NOT_WHITESPACE || op == OP_NOT_WORDCHAR;
      forall c: Unit ensures Bit(TypeMap(op), c) == (Matches(n.item, 0, c) != invert) { TypeBit(op, c); }
      apart := MapsApart(set1, TypeMap(op), invert);
      assert forall c: Unit :: Matches(x, 0, c) == Bit(set1, c);
    } else {
      apart := false;
    }
  }

  lemma TypeBit(op: int, c: Unit)
    requires OP_NOT_DIGIT <= op <= OP_WORDCHAR
    ensures var invert := op == OP_NOT_DIGIT || op == OP_NOT_WHITESPACE || op == OP_NOT_WORDCHAR;
            Bit(TypeMap(op), c) == (MatchesType(op, 0, c) != invert)
  {
    MapBit(IsDigit, c);
    MapBit(IsSpace, c);
    MapBit(IsWord, c);
  }

  /** The comparison of the base list with the list of the next item. */
  method ListsApart(code: seq<Cell>, base: seq<int>, bend: nat, list: seq<int>, end: nat, ghost x: Item, ghost n: Node)
      returns (apart: bool)
    requires OkItem(x) && ListsItem(code, base, bend, x)
    requires Listable(n) && OkListable(n) && Lists(code, list, end, n)
    ensures apart <==> ApartNode(x, n)
  {
    if base[0] == OP_CHAR {
      apart := CharsApart(code, base, bend, list, end, x, n);
    } else if list[0] == OP_CHAR {
      apart := CharsApart(code, list, end, base, bend, n.item, Single(x));
    } else if base[0] == OP_CLASS || base[0] == OP_NCLASS {
      apart := ClassApart(code, code[bend - base[2] - 1].bits, list, end, x, n);
    } else if list[0] == OP_CLASS || list[0] == OP_NCLASS {
      apart := ClassApart(code, code[end - list[2] - 1].bits, base, bend, n.item, Single(x));
      assert SetApart(n.item, x) <==> SetApart(x, n.item);
    } else {
      apart := InTable(base[0], list[0]);
    }
  }

  // --- the alternatives of a group ------------------------------------------------

  /** The alternatives `a` of group n, from offset p on; after the group comes t in context c. */
  predicate AltsStand(code: seq<Cell>, p: nat, a: Alts, n: Node, t: Branch, c: Ctx) {
    LaidAlts(code, p, a) && OkAlts(a) && KetLaid(code, p + AltsSize(a), In(None, t, n, c))
  }

  lemma StandOpen(code: seq<Cell>, p: nat, a: Alts, n: Node, t: Branch, c: Ctx) returns (ket: nat)
    requires AltsStand(code, p, a, n, t, c)
    ensures LaidAlts(code, p, a) && OkAlts(a) && ket == p + AltsSize(a) && KetLaid(code, ket, In(None, t, n, c))
  {
    ket := p + AltsSize(a);
  }

  lemma StandFold(code: seq<Cell>, p: nat, ket: nat, a: Alts, n: Node, t: Branch, c: Ctx)
    requires LaidAlts(code, p, a) && OkAlts(a) && ket == p + AltsSize(a) && KetLaid(code, ket, In(None, t, n, c))
    ensures AltsStand(code, p, a, n, t, c)
  {
  }

  lemma AltsNext(code: seq<Cell>, p: nat, a: Alts, n: Node, t: Branch, c: Ctx) returns (k: nat, next: nat)
    requires AltsStand(code, p, a, n, t, c) && a.Or?
    ensures k == p + BranchSize(a.branch) && k < |code| && next == k + 1 + LINK_SIZE
    ensures code[k] == WithLink(OP_ALT, 1 + LINK_SIZE + BranchSize(a.more.branch))
            && AltsStand(code, next, a.more, n, t, c)
  {
    var ket := StandOpen(code, p, a, n, t, c);
    k, next := FirstAlt(code, p, a);
    StandFold(code, next, ket, a.more, n, t, c);
  }

  lemma AltsLast(code: seq<Cell>, p: nat, a: Alts, n: Node, t: Branch, c: Ctx)
    requires AltsStand(code, p, a, n, t, c) && a.Last?
    ensures var next := p + BranchSize(a.branch); next < |code| && IsKet(OpOf(code[next]))
  {
    assert p + BranchSize(a.branch) == p + AltsSize(a);
    CtxClass(code, p + AltsSize(a), In(None, t, n, c));
  }

  lemma BranchOpcode(code: seq<Cell>, p: nat, a: Alts, n: Node, t: Branch, c: Ctx)
    requires AltsStand(code, p, a, n, t, c)
    ensures Standing(code, p, a.branch, In(Later(a), t, n, c))
  {
    var ket := StandOpen(code, p, a, n, t, c);
    KetOther(code, ket, In(None, t, n, c), Later(a));
    AltsStanding(code, p, ket, a, t, n, c);
  }

  ghost predicate AltsHere(code: seq<Cell>, p: nat, a: Alts, n: Node, t: Branch, c: Ctx) {
    forall k: int {:trigger Look(k)} :: Look(k) ==> AltsStand(code, p, a, n, t, c)
  }

  /** An ALT comes after every branch but the last, which a KET closes. */
  lemma PossessAltsTurn(code: seq<Cell>, p: nat, a: Alts, n: Node, t: Branch, c: Ctx) returns (k: nat, next: nat)
    requires AltsHere(code, p, a, n, t, c)
    ensures k == p + BranchSize(a.branch) && k < |code| && next == k + 1 + LINK_SIZE
    ensures (OpOf(code[k]) == OP_ALT <==> a.Or?) && Here(code, p, a.branch, In(Later(a), t, n, c))
    ensures a.Or? ==> Link(code[k]) == 1 + LINK_SIZE + BranchSize(a.more.branch)
                      && AltsHere(code, next, a.more, n, t, c)
  {
    assert Look(0);
    BranchOpcode(code, p, a, n, t, c);
    k := p + BranchSize(a.branch);
    next := k + 1 + LINK_SIZE;
    if a.Or? { k, next := AltsNext(code, p, a, n, t, c); } else { AltsLast(code, p, a, n, t, c); }
  }

  lemma LaterHere(code: seq<Cell>, p: nat, c: Ctx) returns (x: nat)
    requires CtxLaid(code, p, c) && c.In? && c.later.Some?
    ensures p < |code| && Link(code[p]) == 1 + LINK_SIZE + BranchSize(c.later.value.branch)
    ensures x == p + 1 + LINK_SIZE && AltsHere(code, x, c.later.value, c.group, c.rest, c.up)
  {
    var ket := LaterOpen(code, p, c);
    KetOther(code, ket, c, None);
    x := p + 1 + LINK_SIZE;
    StandFold(code, x, ket, c.later.value, c.group, c.rest, c.up);
  }

  /** From the ALT after a branch to the closing bracket, over the alternatives in between. */
  method SkipLater(code: seq<Cell>, p: nat, ghost c: Ctx) returns (k: nat)
    requires CtxLaid(code, p, c) && c.In? && c.later.Some?
    ensures CtxLaid(code, k, c.(later := None))
  {
    ghost var rest, x: nat := c.later.value, p + 1 + LINK_SIZE;
    x := LaterHere(code, p, c);
    k := p + Link(code[p]);
    while true
      invariant AltsHere(code, x, rest, c.group, c.rest, c.up) && k == x + BranchSize(rest.branch)
      decreases rest
    {
      ghost var e, next := PossessAltsTurn(code, x, rest, c.group, c.rest, c.up);
      if OpOf(code[k]) != OP_ALT { break; }
      x, rest := next, rest.more;
      k := k + Link(code[k]);
    }
    AltsEnd(code, x, rest, c);
  }

  lemma AltsEnd(code: seq<Cell>, x: nat, a: Alts, c: Ctx)
    requires c.In? && AltsHere(code, x, a, c.group, c.rest, c.up) && a.Last?
    ensures CtxLaid(code, x + BranchSize(a.branch), c.(later := None))
  {
    assert Look(0);
    var ket := StandOpen(code, x, a, c.group, c.rest, c.up);
    assert ket == x + BranchSize(a.branch);
    KetOther(code, ket, In(None, c.rest, c.group, c.up), None);
  }

  // --- one step of the analysis ---------------------------------------------------------

  ghost function Measure(q: Branch, c: Ctx): nat { BranchWeight(q) + CtxWeight(c) }

  /** The analysis goes on in the same way from one place as from the other. */
  ghost predicate GoesOn(b: Base, q: Branch, c: Ctx, q': Branch, c': Ctx) {
    (Passes(b, q, c) <==> Passes(b, q', c')) && Used(b, q, c) == Used(b, q', c')
  }

  lemma StepKet(code: seq<Cell>, p: nat, b: Base, c: Ctx)
    requires c.In? && KetLaid(code, p, c)
    ensures Standing(code, p + 1 + LINK_SIZE, c.rest, c.up) && Measure(c.rest, c.up) < Measure(Nil, c)
    ensures if b.greedy && c.group.ket == OP_KET then GoesOn(b, Nil, c, c.rest, c.up)
            else !Passes(b, Nil, c) && Used(b, Nil, c) == 0
  {
  }

  lemma StepLater(b: Base, c: Ctx)
    requires c.In?
    ensures GoesOn(b, Nil, c, Nil, c.(later := None))
    ensures Measure(Nil, c) == Measure(Nil, c.(later := None))
  {
  }

  lemma StepGroup(code: seq<Cell>, p: nat, b: Base, q: Branch, c: Ctx)
    requires Standing(code, p, q, c) && q.Cons? && q.head.Group? && (q.head.bra == OP_BRA || q.head.bra == OP_CBRA)
    ensures AltsStand(code, p + BraSize(q.head.bra), q.head.alts, q.head, q.tail, c)
    ensures Passes(b, q, c) <==> FollowAlts(b, q.head.alts, q.tail, q.head, c) != Fail
    ensures Used(b, q, c) == UsedAlts(b, q.head.alts, q.tail, q.head, c)
    ensures AltsWeight(q.head.alts) + 1 + BranchWeight(q.tail) + CtxWeight(c) < Measure(q, c)
  {
    StandingTail(code, p, q, c);
    var ket := GroupKet(code, p, q.head, q.tail, c, None);
    StandFold(code, p + BraSize(q.head.bra), ket, q.head.alts, q.head, q.tail, c);
    assert BranchWeight(q) == Weight(q.head) + BranchWeight(q.tail) && Weight(q.head) == 3 + AltsWeight(q.head.alts);
  }

  lemma StepBranch(b: Base, a: Alts, n: Node, t: Branch, c: Ctx)
    ensures FollowAlts(b, a, t, n, c) != Fail <==>
              Passes(b, a.branch, In(Later(a), t, n, c)) && (a.Or? ==> FollowAlts(b, a.more, t, n, c) != Fail)
    ensures UsedAlts(b, a, t, n, c) ==
              Used(b, a.branch, In(Later(a), t, n, c)) +
              if a.Last? then 0
              else 1 + if Passes(b, a.branch, In(Later(a), t, n, c)) then UsedAlts(b, a.more, t, n, c) else 0
    ensures Measure(a.branch, In(Later(a), t, n, c)) < AltsWeight(a) + 1 + BranchWeight(t) + CtxWeight(c)
  {
  }

  lemma StepZero(code: seq<Cell>, p: nat, q: Branch, c: Ctx)
    requires Standing(code, p, q, c) && q.Cons? && q.head.Optional?
    ensures var g := q.head.group;
            && g.Group? && OkNode(g) && LaidNode(code, p + 1, g) && OpOf(code[p + 1]) == g.bra
            && Here(code, p + 1, Cons(g, q.tail), c)
            && Here(code, p + 1 + NodeSize(g), q.tail, c)
  {
    StandingTail(code, p, q, c);
    var g := q.head.group;
    assert p + 1 + NodeSize(g) == p + NodeSize(q.head);
    ZeroStanding(code, p + 1, g, q.tail, c);
  }

  lemma ZeroStanding(code: seq<Cell>, p: nat, g: Node, t: Branch, c: Ctx)
    requires LaidNode(code, p, g) && OkNode(g) && Standing(code, p + NodeSize(g), t, c)
    ensures Standing(code, p, Cons(g, t), c)
  {
    assert BranchSize(Cons(g, t)) == NodeSize(g) + BranchSize(t);
    assert p + BranchSize(Cons(g, t)) == p + NodeSize(g) + BranchSize(t);
  }

  lemma StepZeroVerdict(b: Base, q: Branch, c: Ctx)
    requires q.Cons? && q.head.Optional? && q.head.op != OP_SKIPZERO && q.head.group.Group?
    ensures var g := q.head.group;
            && (Passes(b, q, c) <==> (g.bra == OP_BRA || g.bra == OP_CBRA) && Passes(b, q.tail, c)
                                     && Passes(b, Cons(g, q.tail), c))
            && Used(b, q, c) ==
               (if g.bra == OP_BRA || g.bra == OP_CBRA then
                  1 + Used(b, q.tail, c) + if Passes(b, q.tail, c) then Used(b, Cons(g, q.tail), c) else 0
                else 0)
            && Measure(q.tail, c) < Measure(q, c) && Measure(Cons(g, q.tail), c) < Measure(q, c)
  {
    var g := q.head.group;
    assert BranchWeight(q) == 1 + Weight(g) + BranchWeight(q.tail);
    assert BranchWeight(Cons(g, q.tail)) == Weight(g) + BranchWeight(q.tail);
  }

  lemma StepItem(code: seq<Cell>, p: nat, b: Base, q: Branch, c: Ctx)
    requires Standing(code, p, q, c) && q.Cons? && Listable(q.head)
    ensures OkListable(q.head)
    ensures Standing(code, p + NodeSize(q.head), q.tail, c) && Measure(q.tail, c) < Measure(q, c)
    ensures if ApartNode(b.item, q.head) && q.head.Repeat? && Skippable(q.head.rep) then GoesOn(b, q, c, q.tail, c)
            else (Passes(b, q, c) <==> ApartNode(b.item, q.head)) && Used(b, q, c) == 0
  {
    StandingTail(code, p, q, c);
  }

  lemma StepOther(code: seq<Cell>, p: nat, b: Base, q: Branch, c: Ctx)
    requires Standing(code, p, q, c) && p < |code|
    requires var op := OpOf(code[p]); op != OP_ALT && op != OP_END && op != OP_KET && op != OP_BRA && op != OP_CBRA
                                      && op != OP_BRAZERO && op != OP_BRAMINZERO
    requires !(q.Cons? && Listable(q.head))
    ensures !Passes(b, q, c) && Used(b, q, c) == 0
  {
    Classify(code, p, q, c);
    if q.Nil? && c.In? { StepKet(code, p, b, c); }
  }

  // --- the path analysis on the code --------------------------------------------------

  /** Checks what can come after a repeat, from offset p0 on; the base list describes its item. The limit
      is shared by all the calls made for a pattern: this call and those below it take from it, and when it has run out
      the answer is false. */
  method CompareOpcodes(code: seq<Cell>, p0: nat, base: seq<int>, bend: nat, recLimit: int,
                        ghost b: Base, ghost q0: Branch, ghost c0: Ctx) returns (ok: bool, limit: int)
    requires Here(code, p0, q0, c0)
    requires OkItem(b.item) && ListsItem(code, base, bend, b.item) && (base[1] != 0 <==> b.greedy)
    ensures limit < recLimit && Left(limit, recLimit, 1 + Used(b, q0, c0))
    ensures ok <==> limit > 0 && Passes(b, q0, c0)
    decreases Measure(q0, c0)
  {
    limit := recLimit - 1;
    if limit <= 0 { return false, limit; }
    var list := new int[8];
    var p: nat := p0;
    ghost var q, c := q0, c0;
    while true
      invariant Here(code, p, q, c) && 0 < limit < recLimit
      invariant Passes(b, q, c) <==> Passes(b, q0, c0)
      invariant limit - Used(b, q, c) == recLimit - 1 - Used(b, q0, c0)
      invariant Measure(q, c) <= Measure(q0, c0)
      decreases Measure(q, c)
    {
      Opcode(code, p, q, c);
      var op := OpOf(code[p]);
      if op == OP_ALT || op == OP_END || op == OP_KET {
        var next := LeaveGroup(code, p, base[1] != 0, b, c);
        if next < 0 { return op == OP_END && base[1] != 0, limit; }
        p := next;
        q, c := c.rest, c.up;
      } else if op == OP_BRA || op == OP_CBRA {
        ok, limit, p := LeadingBranches(code, p, base, bend, limit, b, q, c);
        if !ok { return false, limit; }
        q, c := LastBranch(q.head.alts), In(None, q.tail, q.head, c);
      } else if op == OP_BRAZERO || op == OP_BRAMINZERO {
        var after := AfterZero(code, p, b, q, c);
        if after < 0 { return false, limit; }
        ok, limit := CompareOpcodes(code, after, base, bend, limit, b, q.tail, c);
        if !ok { return false, limit; }
        p := p + OpLength(op);
        q := Cons(q.head.group, q.tail);
      } else {
        var end, apart, empty := CompareItem(code, p, base, bend, list, b, q, c);
        if !apart { return false, limit; }
        if !empty { return true, limit; }
        p := end;
        q := q.tail;
      }
    }
  }

  /** Classify, on the folded form. */
  lemma Opcode(code: seq<Cell>, p: nat, q: Branch, c: Ctx)
    requires Here(code, p, q, c)
    ensures p < |code|
    ensures q.Cons? ==> StartsNode(OpOf(code[p]), q.head)
    ensures q.Nil? ==> EndsBranch(OpOf(code[p]), c)
  {
    Unfold(code, p, q, c);
    Classify(code, p, q, c);
  }

  /** At the end of a branch: past the closing bracket; or -1 when the verdict is known, which is that of the
      end of the pattern at OP_END and a failure otherwise. */
  method LeaveGroup(code: seq<Cell>, p: nat, greedy: bool, ghost b: Base, ghost c: Ctx) returns (next: int)
    requires Here(code, p, Nil, c) && greedy == b.greedy && p < |code|
    ensures next < 0 ==> (Passes(b, Nil, c) <==> OpOf(code[p]) == OP_END && greedy) && Used(b, Nil, c) == 0
    ensures next >= 0 ==>
              c.In? && Here(code, next, c.rest, c.up) && Measure(c.rest, c.up) < Measure(Nil, c) &&
              GoesOn(b, Nil, c, c.rest, c.up)
  {
    Unfold(code, p, Nil, c);
    CtxClass(code, p, c);
    ghost var z := c;
    var k := p;
    if OpOf(code[p]) == OP_ALT {
      k := SkipLater(code, p, c);
      StepLater(b, c);
      z := c.(later := None);
      CtxClass(code, k, z);
    }
    if OpOf(code[k]) != OP_KET {
      if z.In? { StepKet(code, k, b, z); }
      return -1;
    }
    StepKet(code, k, b, z);
    if !greedy { return -1; }
    next := k + OpLength(OP_KET);
  }

  /** Past the optional group at p; -1 when the group is of a kind that the analysis does not enter. */
  method AfterZero(code: seq<Cell>, p: nat, ghost b: Base, ghost q: Branch, ghost c: Ctx) returns (after: int)
    requires Here(code, p, q, c) && q.Cons? && q.head.Optional? && q.head.op != OP_SKIPZERO && p < |code|
    ensures after < 0 ==> !Passes(b, q, c) && Used(b, q, c) == 0
    ensures after >= 0 ==>
              && Here(code, after, q.tail, c) && Measure(q.tail, c) < Measure(q, c)
              && Here(code, p + 1, Cons(q.head.group, q.tail), c)
                 && Measure(Cons(q.head.group, q.tail), c) < Measure(q, c)
              && (Passes(b, q, c) <==> Passes(b, q.tail, c) && Passes(b, Cons(q.head.group, q.tail), c))
              && Used(b, q, c) == 1 + Used(b, q.tail, c)
                                  + if Passes(b, q.tail, c) then Used(b, Cons(q.head.group, q.tail), c) else 0
  {
    Unfold(code, p, q, c);
    StepZero(code, p, q, c);
    StepZeroVerdict(b, q, c);
    var next := OpOf(code[p + 1]);
    if next != OP_BRA && next != OP_CBRA { return -1; }
    var ket := SkipAlternatives(code, p + 1, q.head.group);
    after := ket + 1 + LINK_SIZE;
  }

  /** The item at p: whether it is known and has nothing in common with the base, and whether it can be
      empty, so that the scan goes on at `end`. */
  method CompareItem(code: seq<Cell>, p: nat, base: seq<int>, bend: nat, list: array<int>,
                     ghost b: Base, ghost q: Branch, ghost c: Ctx) returns (end: int, apart: bool, empty: bool)
    requires Here(code, p, q, c) && p < |code| && list.Length == 8
    requires var op := OpOf(code[p]);
             op != OP_ALT && op != OP_END && op != OP_KET && op != OP_BRA && op != OP_CBRA && op != OP_BRAZERO
                 && op != OP_BRAMINZERO
    requires OkItem(b.item) && ListsItem(code, base, bend, b.item)
    modifies list
    ensures !apart ==> !Passes(b, q, c) && Used(b, q, c) == 0
    ensures apart && !empty ==> Passes(b, q, c) && Used(b, q, c) == 0
    ensures apart && empty ==>
              q.Cons? && end >= 0 && Here(code, end, q.tail, c) && Measure(q.tail, c) < Measure(q, c) &&
              GoesOn(b, q, c, q.tail, c)
  {
    Unfold(code, p, q, c);
    end := GetChrPropertyList(code, p, list, q, c);
    if end < 0 {
      StepOther(code, p, b, q, c);
      return end, false, false;
    }
    StepItem(code, p, b, q, c);
    apart := ListsApart(code, base, bend, list[..], end, b.item, q.head);
    empty := list[1] != 0;
  }

  ghost function LastBranch(a: Alts): Branch { if a.Or? then LastBranch(a.more) else a.branch }

  lemma EnterGroup(code: seq<Cell>, p: nat, b: Base, q: Branch, c: Ctx)
    requires Here(code, p, q, c) && q.Cons? && q.head.Group? && (q.head.bra == OP_BRA || q.head.bra == OP_CBRA)
    ensures p < |code| && OpLength(OpOf(code[p])) == BraSize(q.head.bra)
    ensures Link(code[p]) == BraSize(q.head.bra) + BranchSize(q.head.alts.branch)
    ensures Pending(code, p + BraSize(q.head.bra), b, q.head.alts, q, c, 0)
  {
    Unfold(code, p, q, c);
    StepGroup(code, p, b, q, c);
    StandingTail(code, p, q, c);
  }

  /** The alternatives `a`, from offset p on, of the group at the head of q are still to be checked, after so many
      calls. */
  ghost predicate Pending(code: seq<Cell>, p: nat, b: Base, a: Alts, q: Branch, c: Ctx, used: nat) {
    forall k: int {:trigger Look(k)} :: Look(k) ==>
      && q.Cons? && q.head.Group?
      && AltsStand(code, p, a, q.head, q.tail, c)
      && (Passes(b, q, c) <==> FollowAlts(b, a, q.tail, q.head, c) != Fail)
      && Used(b, q, c) == used + UsedAlts(b, a, q.tail, q.head, c)
      && AltsWeight(a) + 1 + BranchWeight(q.tail) + CtxWeight(c) < Measure(q, c)
      && LastBranch(a) == LastBranch(q.head.alts)
  }

  /** The first pending alternative, and what is pending after it. */
  lemma PendingStep(code: seq<Cell>, p: nat, b: Base, a: Alts, q: Branch, c: Ctx, used: nat)
      returns (k: nat, next: nat, used': nat)
    requires Pending(code, p, b, a, q, c, used)
    ensures q.Cons? && q.head.Group?
    ensures k == p + BranchSize(a.branch) && next == k + 1 + LINK_SIZE
    ensures var z := In(Later(a), q.tail, q.head, c);
            && k < |code| && (OpOf(code[k]) == OP_ALT <==> a.Or?)
            && Here(code, p, a.branch, z) && Measure(a.branch, z) < Measure(q, c)
            && used' == used + 1 + Used(b, a.branch, z)
            && (!Passes(b, a.branch, z) ==> !Passes(b, q, c) && (a.Or? ==> Used(b, q, c) == used'))
            && (a.Or? ==> used' <= Used(b, q, c))
            && (a.Last? ==> a.branch == LastBranch(q.head.alts) && (Passes(b, q, c) <==> Passes(b, a.branch, z))
                            && Used(b, q, c) == used + Used(b, a.branch, z))
            && (a.Or? && Passes(b, a.branch, z) ==>
                  && Link(code[k]) == 1 + LINK_SIZE + BranchSize(a.more.branch)
                  && Pending(code, next, b, a.more, q, c, used'))
  {
    assert Look(0);
    k, next := PossessAltsTurn(code, p, a, q.head, q.tail, c);
    StepBranch(b, a, q.head, q.tail, c);
    used' := used + 1 + Used(b, a.branch, In(Later(a), q.tail, q.head, c));
    if a.Or? && Passes(b, a.branch, In(Later(a), q.tail, q.head, c)) {
      PendingNext(code, p, next, b, a, q, c, used, used');
    }
  }

  lemma PendingNext(code: seq<Cell>, p: nat, next: nat, b: Base, a: Alts, q: Branch, c: Ctx, used: nat, used': nat)
    requires next == p + BranchSize(a.branch) + 1 + LINK_SIZE
    requires a.Or? && q.Cons? && q.head.Group? && AltsStand(code, p, a, q.head, q.tail, c)
    requires Passes(b, q, c) <==> FollowAlts(b, a, q.tail, q.head, c) != Fail
    requires Used(b, q, c) == used + UsedAlts(b, a, q.tail, q.head, c)
    requires used' == used + 1 + Used(b, a.branch, In(Later(a), q.tail, q.head, c))
    requires Passes(b, a.branch, In(Later(a), q.tail, q.head, c))
    requires AltsWeight(a) + 1 + BranchWeight(q.tail) + CtxWeight(c) < Measure(q, c)
             && LastBranch(a) == LastBranch(q.head.alts)
    ensures Pending(code, next, b, a.more, q, c, used')
  {
    var k, next' := AltsNext(code, p, a, q.head, q.tail, c);
    PassesNext(b, a, q, c);
    StepBranch(b, a, q.head, q.tail, c);
  }

  lemma PassesNext(b: Base, a: Alts, q: Branch, c: Ctx)
    requires a.Or? && q.Cons? && Passes(b, a.branch, In(Later(a), q.tail, q.head, c))
    requires Passes(b, q, c) <==> FollowAlts(b, a, q.tail, q.head, c) != Fail
    ensures Passes(b, q, c) <==> FollowAlts(b, a.more, q.tail, q.head, c) != Fail
    ensures AltsWeight(a.more) < AltsWeight(a) && LastBranch(a.more) == LastBranch(a)
  {
    StepBranch(b, a, q.head, q.tail, c);
  }

  /** Check each branch of the group at p0 but the last, whose offset is returned. */
  method LeadingBranches(code: seq<Cell>, p0: nat, base: seq<int>, bend: nat, recLimit: int,
                         ghost b: Base, ghost q: Branch, ghost c: Ctx) returns (ok: bool, limit: int, p: nat)
    requires Here(code, p0, q, c) && q.Cons? && q.head.Group? && (q.head.bra == OP_BRA || q.head.bra == OP_CBRA)
    requires OkItem(b.item) && ListsItem(code, base, bend, b.item) && (base[1] != 0 <==> b.greedy) && recLimit > 0
    ensures limit <= recLimit
    ensures var z := In(None, q.tail, q.head, c);
            && (ok ==> limit > 0 && Here(code, p, LastBranch(q.head.alts), z)
                       && (Passes(b, q, c) <==> Passes(b, LastBranch(q.head.alts), z))
                       && limit - Used(b, LastBranch(q.head.alts), z) == recLimit - Used(b, q, c)
                       && Measure(LastBranch(q.head.alts), z) < Measure(q, c))
            && (!ok ==> Left(limit, recLimit, Used(b, q, c)) && (limit > 0 ==> !Passes(b, q, c)))
    decreases Measure(q, c), 0
  {
    ghost var rest, used := q.head.alts, 0;
    limit := recLimit;
    EnterGroup(code, p0, b, q, c);
    p := p0 + OpLength(OpOf(code[p0]));
    var next: nat := p0 + Link(code[p0]);
    while true
      invariant Pending(code, p, b, rest, q, c, used) && next == p + BranchSize(rest.branch)
      invariant 0 < limit <= recLimit && limit == recLimit - used
      decreases rest
    {
      ghost var k, next', used' := PendingStep(code, p, b, rest, q, c, used);
      if OpOf(code[next]) != OP_ALT { return true, limit, p; }
      ok, limit := CompareOpcodes(code, p, base, bend, limit, b, rest.branch, In(Later(rest), q.tail, q.head, c));
      if !ok { return; }
      p := next + 1 + LINK_SIZE;
      next := next + Link(code[next]);
      rest, used := rest.more, used';
    }
  }

  // --- the scan ---------------------------------------------------------------------------

  /** What the code looks like when the scan has reached offset p: only units before p have been
      overwritten, and perhaps the repeat of a class that starts at p. */
  ghost predicate Ahead(code: seq<Cell>, code': seq<Cell>, p: nat) {
    && |code'| == |code|
    && (forall i {:trigger code'[i]} :: p < i < |code| ==> code'[i] == code[i])
    && (p < |code| ==> code'[p] == code[p] || (IsClassRepeat(OpOf(code[p]))
                                               && OpOf(code'[p]) == PossessiveOf(OpOf(code[p]))))
  }

  function PossessiveOf(op: int): int { if IsOpenOp(op) then PossessiveOp(op) else op }

  /** The verdict of the path analysis on the repeat at offset p of a pattern. */
  ghost predicate MayPossess(pat: Node, p: nat) {
    OpenInNode(pat, 0, p) && VerdictInNode(pat, Nil, Top, 0, p) != Fail
  }

  /** The greedy repeats among those that can become possessive. */
  predicate GreedyOp(k: int) {
    k == OP_STAR || k == OP_PLUS || k == OP_QUERY || k == OP_UPTO || (IsClassRepeat(k) && k % 2 == 0)
  }

  lemma GreedyRepeat(it: Item, r: Rep)
    requires OkItem(it) && OkRep(it, r) && IsOpenOp(r.op)
    ensures Normal(OpOf(RepeatCell(it, r))) == r.op && (GreedyOp(r.op) <==> ModeOf(r) == Greedy)
  {
  }

  /** Checks the open repeat at p against what comes after it. */
  method CheckRepeat(code: seq<Cell>, p: nat, greedy: bool, recLimit: int, ghost before: seq<Cell>, ghost pat: Node)
      returns (ok: bool, limit: int)
    requires Compiled(before, pat) && OpenInNode(pat, 0, p) && p < |before|
    requires Agree(before, code, p, |before|)
    requires RepeatUnit(before, p) < |before| && greedy == GreedyOp(Normal(OpOf(before[RepeatUnit(before, p)])))
    ensures Left(limit, recLimit, CallsFor(pat, p)) && (ok <==> limit > 0 && MayPossess(pat, p))
  {
    ghost var b, q, c := RepeatSpot(before, code, pat, p, greedy);
    var list := new int[8];
    var end := GetChrPropertyList(code, p, list, q, c);
    list[1] := if greedy then 1 else 0;
    ok, limit := CompareOpcodes(code, end, list[..], end, recLimit, b, q.tail, c);
  }

  /** The open repeat at p, and what comes after it. */
  lemma RepeatSpot(before: seq<Cell>, code: seq<Cell>, pat: Node, p: nat, greedy: bool)
      returns (b: Base, q: Branch, c: Ctx)
    requires Compiled(before, pat) && OpenInNode(pat, 0, p) && p < |before|
    requires Agree(before, code, p, |before|)
    requires RepeatUnit(before, p) < |before| && greedy == GreedyOp(Normal(OpOf(before[RepeatUnit(before, p)])))
    ensures Standing(code, p, q, c) && q.Cons? && q.head.Repeat? && Here(code, p + NodeSize(q.head), q.tail, c)
    ensures b.item == q.head.item && OkItem(b.item) && b.greedy == greedy
    ensures (MayPossess(pat, p) <==> Passes(b, q.tail, c)) && CallsFor(pat, p) == 1 + Used(b, q.tail, c)
  {
    var it, r, t;
    it, r, t, c := NodeLocate(before, pat, Nil, Top, 0, p);
    q, b := Cons(Repeat(it, r), t), BaseOf(it, r);
    assert p + BranchSize(q) == p + NodeSize(Repeat(it, r)) + BranchSize(t);
    StandingAgree(before, code, p, q, c);
    GreedyRepeat(it, r);
    StandingTail(code, p, q, c);
  }

  /** Whether the repeat at p becomes possessive: the analysis allows it, and its calls and those for the repeats before
      it are within the limit. */
  ghost predicate Possesses(pat: Node, p: nat) { MayPossess(pat, p) && CallsUpTo(pat, p + 1) < REC_LIMIT }

  /** What the scan has achieved when it has reached offset p. */
  ghost predicate Scanned(start: seq<Cell>, code: seq<Cell>, pat: Node, p: nat, recLimit: int, done: set<nat>) {
    && |code| == |start|
    && forall k: int {:trigger Look(k)} :: Look(k) ==> IsScanned(start, code, pat, p, recLimit, done)
  }

  ghost predicate IsScanned(start: seq<Cell>, code: seq<Cell>, pat: Node, p: nat, recLimit: int, done: set<nat>) {
    && Rewritten(start, code, done) && Ahead(start, code, p)
    && Left(recLimit, REC_LIMIT, CallsUpTo(pat, p))
    && forall d: nat :: d in done <==> d < p && Possesses(pat, d)
  }

  lemma ScanAdvance(start: seq<Cell>, code: seq<Cell>, code': seq<Cell>, pat: Node, p: nat, u: nat,
                    recLimit: int, limit: int, done: set<nat>, done': set<nat>)
    requires Compiled(start, pat) && StopInNode(pat, 0, p) && Scanned(start, code, pat, p, recLimit, done)
    requires p < |start| && u < |start| && (u == p
                                            || (u == p + OpLength(OpOf(start[p])) && IsClassRepeat(OpOf(start[u]))))
    requires |code'| == |code| && forall i :: 0 <= i < |code| && i != u ==> code'[i] == code[i]
    requires code'[u] == code[u] || (code[u] == start[u] && IsOpenOp(Normal(OpOf(start[u])))
                                     && code'[u] == Possessed(start[u]))
    requires Rewritten(start, code', done') && done <= done' <= done + {p}
    requires Left(limit, recLimit, if OpenInNode(pat, 0, p) then CallsFor(pat, p) else 0)
    requires p in done' <==> limit > 0 && MayPossess(pat, p)
    ensures Scanned(start, code', pat, p + OpLength(OpOf(start[p])), limit, done')
  {
    assert Look(0);
    ScanStep(start, pat, p);
    var q := p + OpLength(OpOf(start[p]));
    assert p < q;
    assert Ahead(start, code', q);
    assert Left(limit, REC_LIMIT, CallsUpTo(pat, p + 1));
    NothingBetween(start, pat, p, q);
    forall d: nat ensures d in done' <==> d < q && Possesses(pat, d) { }
  }

  /** Between p and the next opcode there is no repeat. */
  lemma NothingBetween(start: seq<Cell>, pat: Node, p: nat, q: nat)
    requires Compiled(start, pat) && StopInNode(pat, 0, p) && p < |start| && q == p + OpLength(OpOf(start[p]))
    ensures p < q && CallsUpTo(pat, q) == CallsUpTo(pat, p + 1)
    ensures forall d: nat :: p < d < q ==> !MayPossess(pat, d)
  {
    ScanStep(start, pat, p);
    assert forall d: nat :: p < d < q ==> !OpenInNode(pat, 0, d);
    NoCallsBetween(pat, p + 1, q);
  }

  lemma ScanUnit(start: seq<Cell>, code: seq<Cell>, pat: Node, p: nat, recLimit: int, done: set<nat>)
    requires Compiled(start, pat) && p <= NodeSize(pat) && (StopInNode(pat, 0, p) || p == NodeSize(pat))
    requires Scanned(start, code, pat, p, recLimit, done)
    ensures IsOpcode(code[p]) && (OpOf(code[p]) == OP_END <==> p == NodeSize(pat))
    ensures p < NodeSize(pat) ==>
              var q := p + OpLength(OpOf(start[p])); q <= NodeSize(pat) && (StopInNode(pat, 0, q) || q == NodeSize(pat))
  {
    assert Look(0);
    if StopInNode(pat, 0, p) { ScanStep(start, pat, p); }
  }

  /** The units that the scan looks at are still as they were. */
  lemma ScanHere(start: seq<Cell>, code: seq<Cell>, pat: Node, p: nat, recLimit: int, done: set<nat>)
    requires Compiled(start, pat) && StopInNode(pat, 0, p) && Scanned(start, code, pat, p, recLimit, done)
    ensures p < |start| == |code| && |start| > p + OpLength(OpOf(start[p]))
    ensures OpLength(OpOf(code[p])) == OpLength(OpOf(start[p]))
    ensures var c := OpOf(code[p]);
            && (IsRepeat(c) || c == OP_CLASS || c == OP_NCLASS ==> code[p] == start[p])
            && (IsRepeat(c) ==> RepeatUnit(start, p) == p && (OpenCode(start, p) <==> Normal(c) <= OP_MINUPTO))
            && (!IsRepeat(c) && c != OP_CLASS && c != OP_NCLASS ==> !OpenCode(start, p))
            && (c == OP_CLASS || c == OP_NCLASS ==>
                  var u := p + 1 + CLASS_SIZE;
                  && u == RepeatUnit(start, p) == p + OpLength(c) && code[u] == start[u]
                  && (OpenCode(start, p) <==> OP_CRSTAR <= OpOf(code[u]) <= OP_CRMINRANGE))
    ensures (OpenInNode(pat, 0, p) <==> OpenCode(start, p)) && (MayPossess(pat, p) ==> OpenCode(start, p))
    ensures Rewritten(start, code, done) && p !in done
  {
    assert Look(0);
    ScanStep(start, pat, p);
  }

  /** From an untouched opcode on, the code is still as it was. */
  lemma ScanAgree(start: seq<Cell>, code: seq<Cell>, pat: Node, p: nat, recLimit: int, done: set<nat>)
    requires Scanned(start, code, pat, p, recLimit, done) && p < |start| && code[p] == start[p]
    ensures Agree(start, code, p, |start|)
  {
    assert Look(0);
    forall i | p <= i < |start| ensures code[i] == start[i] { assert i == p || p < i; }
  }

  /** The analysis has run for the repeat at p, whose opcode is at u: what to do with its answer. */
  lemma ScanRepeat(start: seq<Cell>, code: seq<Cell>, pat: Node, p: nat, u: nat, recLimit: int, limit: int, ok: bool,
                   done: set<nat>)
    requires Compiled(start, pat) && StopInNode(pat, 0, p) && Scanned(start, code, pat, p, recLimit, done)
    requires p < |start| && OpenCode(start, p) && u == RepeatUnit(start, p)
    requires u == p || u == p + OpLength(OpOf(start[p]))
    requires code[p] == start[p] && code[u] == start[u] && OpenInNode(pat, 0, p)
    requires Left(limit, recLimit, CallsFor(pat, p)) && (ok <==> limit > 0 && MayPossess(pat, p))
    ensures IsOpenOp(Normal(OpOf(code[u])))
    ensures var code' := if ok then code[u := Possessed(code[u])] else code;
            && Scanned(start, code', pat, p + OpLength(OpOf(start[p])), limit, if ok then done + {p} else done)
            && OpLength(OpOf(code'[p])) == OpLength(OpOf(start[p]))
  {
    ScanHere(start, code, pat, p, recLimit, done);
    if ok {
      RewriteOne(start, code, p, done);
      ScanAdvance(start, code, code[u := Possessed(code[u])], pat, p, u, recLimit, limit, done, done + {p});
      if u == p { PossessedLength(start[p]); }
    } else {
      ScanAdvance(start, code, code, pat, p, u, recLimit, limit, done, done);
    }
  }

  lemma PossessedLength(c: Cell)
    requires IsRepeat(OpOf(c)) && IsOpenOp(Normal(OpOf(c)))
    ensures OpLength(OpOf(Possessed(c))) == OpLength(OpOf(c))
  {
  }

  /** The repeat at p, whose opcode is at u: overwritten when nothing that follows needs its characters. */
  method PossessAt(code: array<Cell>, p: nat, u: nat, greedy: bool, recLimit: int, ghost start: seq<Cell>,
                   ghost pat: Node, ghost done: set<nat>)
      returns (limit: int, ghost done': set<nat>)
    requires Compiled(start, pat) && StopInNode(pat, 0, p) && Scanned(start, code[..], pat, p, recLimit, done)
    requires p < |start| && OpenCode(start, p) && u == RepeatUnit(start, p) && OpenInNode(pat, 0, p)
    requires u == p || u == p + OpLength(OpOf(start[p]))
    requires code[p] == start[p] && code[u] == start[u] && greedy == GreedyOp(Normal(OpOf(start[u])))
    modifies code
    ensures Scanned(start, code[..], pat, p + OpLength(OpOf(start[p])), limit, done')
    ensures OpLength(OpOf(code[p])) == OpLength(OpOf(start[p]))
  {
    ghost var code0 := code[..];
    ScanAgree(start, code0, pat, p, recLimit, done);
    var ok;
    ok, limit := CheckRepeat(code[..], p, greedy, recLimit, start, pat);
    ScanRepeat(start, code0, pat, p, u, recLimit, limit, ok, done);
    done' := done;
    if ok {
      code[u] := Possessed(code[u]);
      done' := done + {p};
      assert code[..] == code0[u := Possessed(code0[u])];
    }
  }

  /** Nothing to do at p. */
  lemma ScanSkip(start: seq<Cell>, code: seq<Cell>, pat: Node, p: nat, recLimit: int, done: set<nat>)
    requires Compiled(start, pat) && StopInNode(pat, 0, p) && Scanned(start, code, pat, p, recLimit, done)
    requires p < |start| && !OpenCode(start, p)
    ensures Scanned(start, code, pat, p + OpLength(OpOf(start[p])), recLimit, done)
  {
    ScanHere(start, code, pat, p, recLimit, done);
    ScanAdvance(start, code, code, pat, p, p, recLimit, recLimit, done, done);
  }

  /** The opcode at p, when it starts a repeat or a class. */
  method ScanOne(code: array<Cell>, p: nat, recLimit: int, ghost start: seq<Cell>, ghost pat: Node,
                 ghost done: set<nat>)
      returns (limit: int, ghost done': set<nat>)
    requires p < NodeSize(pat) && Compiled(start, pat) && StopInNode(pat, 0, p)
    requires Scanned(start, code[..], pat, p, recLimit, done)
    modifies code
    ensures Scanned(start, code[..], pat, p + OpLength(OpOf(start[p])), limit, done')
    ensures OpLength(OpOf(code[p])) == OpLength(OpOf(start[p]))
  {
    ScanHere(start, code[..], pat, p, recLimit, done);
    var c := OpOf(code[p]);
    if IsRepeat(c) {
      var k := c - (RepeatBase(c) - OP_STAR);
      if k <= OP_MINUPTO {
        var greedy := k == OP_STAR || k == OP_PLUS || k == OP_QUERY || k == OP_UPTO;
        limit, done' := PossessAt(code, p, p, greedy, recLimit, start, pat, done);
        return;
      }
    } else if c == OP_CLASS || c == OP_NCLASS {
      var k := OpOf(code[p + 1 + CLASS_SIZE]);
      if OP_CRSTAR <= k <= OP_CRMINRANGE {
        limit, done' := PossessAt(code, p, p + 1 + CLASS_SIZE, k % 2 == 0, recLimit, start, pat, done);
        return;
      }
    }
    ScanSkip(start, code[..], pat, p, recLimit, done);
    limit, done' := recLimit, done;
  }

  /** Replaces single-character repeats by their possessive form, in place. `done` are the offsets of the
      repeats that were replaced: all those that may be, as far as the limit on calls reaches. */
  method AutoPossessify(code: array<Cell>, ghost pat: Node) returns (rc: int, ghost done: set<nat>)
    requires Compiled(code[..], pat)
    modifies code
    ensures rc == 0
    ensures Rewritten(old(code[..]), code[..], done) && Compiled(code[..], PossessNode(pat, 0, done))
    ensures forall p: nat :: p in done <==> MayPossess(pat, p) && CallsUpTo(pat, p + 1) < REC_LIMIT
    ensures CallsUpTo(pat, NodeSize(pat)) < REC_LIMIT ==> forall p: nat :: p in done <==> MayPossess(pat, p)
    ensures forall e: Env, i: nat :: OkNewline(e.nl) ==>
              FirstMatch(PossessNode(pat, 0, done), e, i) == FirstMatch(pat, e, i)
  {
    ghost var start := code[..];
    var recLimit := 1000;
    var p: nat := 0;
    done := {};
    while true
      invariant p <= NodeSize(pat) < code.Length == |start| && (StopInNode(pat, 0, p) || p == NodeSize(pat))
      invariant Scanned(start, code[..], pat, p, recLimit, done)
      decreases code.Length - p
    {
      assert p == NodeSize(pat) || StopInNode(pat, 0, p);
      ScanUnit(start, code[..], pat, p, recLimit, done);
      var c := OpOf(code[p]);
      if c >= OP_TABLE_LENGTH { return -1, done; }
      if c == OP_END {
        rc := 0;
        break;
      }
      recLimit, done := ScanOne(code, p, recLimit, start, pat, done);
      p := p + OpLength(OpOf(code[p]));
    }
    ScanDone(start, code[..], pat, recLimit, done);
    NodeRewritten(start, code[..], pat, 0, done);
    NodePossessSize(pat, 0, done);
    forall e: Env, i: nat | OkNewline(e.nl)
      ensures FirstMatch(PossessNode(pat, 0, done), e, i) == FirstMatch(pat, e, i)
    {
      PossessKeepsMatch(pat, done, e, i);
    }
  }

  /** The scan has come to the end. */
  lemma ScanDone(start: seq<Cell>, code: seq<Cell>, pat: Node, recLimit: int, done: set<nat>)
    requires Compiled(start, pat) && Scanned(start, code, pat, NodeSize(pat), recLimit, done)
    ensures Rewritten(start, code, done) && |code| > NodeSize(pat) && code[NodeSize(pat)] == Plain(OP_END)
    ensures forall p: nat :: p in done <==> MayPossess(pat, p) && CallsUpTo(pat, p + 1) < REC_LIMIT
    ensures CallsUpTo(pat, NodeSize(pat)) < REC_LIMIT ==> forall p: nat :: p in done <==> MayPossess(pat, p)
  {
    assert Look(0);
    forall p: nat | MayPossess(pat, p) ensures p < NodeSize(pat)
                                               && CallsUpTo(pat, p + 1) <= CallsUpTo(pat, NodeSize(pat)) {
      NodeOpenSpan(pat, 0, p);
      CallsGrow(pat, p + 1, NodeSize(pat));
    }
    forall p: nat ensures p in done <==> MayPossess(pat, p) && CallsUpTo(pat, p + 1) < REC_LIMIT {
      assert p in done <==> p < NodeSize(pat) && Possesses(pat, p);
    }
  }
}
