/** The pre-pass that works out how much memory the code of a pattern needs, without producing the copies
    of repeated groups. */
module PrePass {
  import opened Opcodes
  import opened Regex
  import opened Layout
  import opened Source
  import opened Unroll

  const MAX_PATTERN_SIZE := 0x10000
  const INT_MAX := 0x7fff_ffff
  const OFLOW_MAX := INT_MAX - 20

  /** A bracket and its KET. */
  const BRACKETS := 2 + 2 * LINK_SIZE

  /** The length of a quantified group, when one copy of it takes up L units. */
  function GroupLen(L: nat, min: nat, max: int): int {
    if min == 1 && max == 1 then L
    else if max == 0 then L + 1
    else if min == 0 then (if max < 0 || max == 1 then L + 1 else L + 7 + ((max - 1) * (L + 7) - 6))
    else L + (min - 1) * L + (if max > min then (max - min) * (L + 7) - 6 else 0)
  }

  function OneLen(it: Item, q: Quant): nat
    requires OkQuant(q)
  {
    if q.Once? then ItemSize(it)
    else if it.Set? then BranchSize(EmitClass(it, q.min, q.max, q.lazy, Nil))
    else BranchSize(EmitSingle(it, q.min, q.max, q.lazy, Nil))
  }

  /** The length that the pre-pass counts for an item: code that a quantifier has removed again is not taken off. */
  function PreItem(a: Atom, q: Quant): int
    requires OkQuant(q) && OkAtom(a)
    decreases a, 1
  {
    match a
    case Zero(_) => 1
    case One(it) => if OneLen(it, q) < ItemSize(it) then ItemSize(it) else OneLen(it, q)
    case Paren(_, _) => if q.Once? then PreParen(a) else GroupLen(PreParen(a), q.min, q.max)
  }

  function PreParen(a: Atom): (n: nat)
    requires a.Paren? && OkAtom(a)
    decreases a, 0
  {
    var n := PreAlts(a.alts);
    BRACKETS + (if a.number > 0 then IMM2_SIZE else 0) + if n < 0 then 0 else n
  }

  function PreBranch(b: SrcBranch): int
    requires OkSBranch(b)
    decreases b
  {
    if b.SNil? then 0 else PreItem(b.atom, b.quant) + PreBranch(b.rest)
  }

  function PreAlts(a: SrcAlts): int
    requires OkSAlts(a)
    decreases a
  {
    PreBranch(a.branch) + if a.SOr? then 1 + LINK_SIZE + PreAlts(a.more) else 0
  }

  // --- the length of what is emitted ---------------------------------------------------

  lemma {:induction false} CopiesSize(g: Node, n: nat, t: Branch)
    ensures BranchSize(Copies(g, n, t)) == n * NodeSize(g) + BranchSize(t)
    decreases n
  {
    if n > 0 {
      CopiesSize(g, n - 1, t);
      assert n * NodeSize(g) == (n - 1) * NodeSize(g) + NodeSize(g);
    }
  }

  lemma OneMoreTimes(a: nat, n: nat)
    requires n > 0
    ensures n * a == (n - 1) * a + a
  {
  }

  /** Nested optional brackets: for each copy a BRAZERO, and for all but the last a bracket. */
  lemma {:induction false} NestSize(g: Node, n: nat, lazy: bool)
    requires n > 0
    ensures NodeSize(Nest(g, n, lazy)) == n * (NodeSize(g) + 7) - 6
    decreases n
  {
    if n > 1 {
      var inner := Nest(g, n - 1, lazy);
      NestSize(g, n - 1, lazy);
      WrapSize(g, inner);
      OneMoreTimes(NodeSize(g) + 7, n);
    }
  }

  /** The closed form for a repeated group is the size of its copies, BRAZEROs and nested brackets. */
  lemma EmitGroupSize(g: Node, min: nat, max: int, lazy: bool, consumes: bool, t: Branch)
    requires g.Group? && (g.bra == OP_BRA || g.bra == OP_CBRA) && max >= -1 && (max < 0 || min <= max)
    ensures BranchSize(EmitGroup(g, min, max, lazy, consumes, t)) == GroupLen(NodeSize(g), min, max) + BranchSize(t)
  {
    var G := NodeSize(g);
    if (min == 1 && max == 1) || max == 0 {
    } else if max < 0 {
      var loop := Looped(g, lazy, consumes);
      assert NodeSize(loop) == G;
      if min > 0 { CopiesSize(g, min - 1, Cons(loop, t)); }
    } else if max == min {
      CopiesSize(g, min, t);
      assert min * G == (min - 1) * G + G;
    } else {
      CopiesSize(g, min, Cons(Nest(g, max - min, lazy), t));
      NestSize(g, max - min, lazy);
      if min > 0 { assert min * G == (min - 1) * G + G; }
      else if max > 1 { assert max * (G + 7) == (max - 1) * (G + 7) + G + 7; }
    }
  }

  lemma GroupLenGrows(G: nat, L: nat, min: nat, max: int)
    requires G <= L && max >= -1 && (max < 0 || min <= max)
    ensures G <= GroupLen(G, min, max) <= GroupLen(L, min, max)
  {
    if min > 0 { Product(G, L, min - 1); }
    if max > min { Product(G + 7, L + 7, max - min); }
    if max > 1 { Product(G + 7, L + 7, max - 1); }
  }

  lemma Product(a: nat, b: nat, n: nat)
    requires a <= b
    ensures n * a <= n * b && (n > 0 ==> a <= n * a)
  {
    assert n * b == n * a + n * (b - a);
    if n > 0 { assert n * a == a + (n - 1) * a; }
  }

  /** The units of an item that is not a group, whatever follows. */
  function UnitsOf(it: Item, q: Quant): nat
    requires OkQuant(q) && q.Times?
  {
    var R := if it.Set? then 1 + CLASS_SIZE + RepSize(it, EmitRep(q)) else 2;
    if q.max == 0 then 0
    else if q.min == 1 && q.max == 1 then ItemSize(it)
    else if it.Set? then R
    else if q.min == 0 then (if q.max <= 1 then 2 else 4)
    else if q.min == 1 then (if q.max < 0 then 2 else ItemSize(it) + 4)
    else if q.max == q.min then 4
    else if q.max < 0 || q.max - q.min == 1 then 6
    else 8
  }

  function EmitRep(q: Quant): Rep
    requires q.Times?
  {
    if (q.min == 0 && q.max < 0) || (q.min == 1 && q.max < 0) || (q.min == 0 && q.max == 1) then Rep(OP_CRSTAR, 0, 0)
    else Rep(OP_CRRANGE, 0, 0)
  }

  lemma SingleTail(it: Item, q: Quant, t: Branch)
    requires OkQuant(q) && q.Times? && !it.Set?
    ensures BranchSize(EmitSingle(it, q.min, q.max, q.lazy, t)) == UnitsOf(it, q) + BranchSize(t)
  {
    if q.min == 1 && q.max > 1 {
      TwoNodes(EmitSingle(it, q.min, q.max, q.lazy, t), t);
    } else if q.min > 1 && q.min != q.max {
      TwoNodes(EmitSingle(it, q.min, q.max, q.lazy, t), t);
    } else if q.max != 0 {
      OneNode(EmitSingle(it, q.min, q.max, q.lazy, t), t);
    }
  }

  lemma OneNode(b: Branch, t: Branch)
    requires b.Cons? && b.tail == t
    ensures BranchSize(b) == NodeSize(b.head) + BranchSize(t)
  {
  }

  lemma TwoNodes(b: Branch, t: Branch)
    requires b.Cons? && b.tail.Cons? && b.tail.tail == t
    ensures BranchSize(b) == NodeSize(b.head) + NodeSize(b.tail.head) + BranchSize(t)
  {
  }

  lemma ClassTail(it: Item, q: Quant, t: Branch)
    requires OkQuant(q) && q.Times? && it.Set?
    ensures BranchSize(EmitClass(it, q.min, q.max, q.lazy, t)) == UnitsOf(it, q) + BranchSize(t)
  {
  }

  lemma OneSize(it: Item, q: Quant, t: Branch)
    requires OkQuant(q) && q.Times?
    ensures OneLen(it, q) == UnitsOf(it, q)
    ensures BranchSize(if it.Set? then EmitClass(it, q.min, q.max, q.lazy, t)
                       else EmitSingle(it, q.min, q.max, q.lazy, t))
         == OneLen(it, q) + BranchSize(t)
    ensures q.max != 0 ==> ItemSize(it) <= OneLen(it, q)
  {
    if it.Set? {
      ClassTail(it, q, t);
      ClassTail(it, q, Nil);
    } else {
      SingleTail(it, q, t);
      SingleTail(it, q, Nil);
    }
  }

  // --- the pre-pass is never short --------------------------------------------------------

  /** No single item has a {0} quantifier, which removes it again. */
  predicate AllKeptAtom(a: Atom) { a.Paren? ==> AllKept(a.alts) }

  predicate AllKeptBranch(b: SrcBranch) {
    b.SCons? ==> AllKeptAtom(b.atom) && (b.atom.One? && b.quant.Times? ==> b.quant.max != 0) && AllKeptBranch(b.rest)
  }

  predicate AllKept(a: SrcAlts) { AllKeptBranch(a.branch) && (a.SOr? ==> AllKept(a.more)) }

  lemma {:induction false} ParenFits(a: Atom)
    requires a.Paren? && OkAtom(a)
    ensures NodeSize(EmitParen(a)) <= PreParen(a)
    ensures AllKeptAtom(a) ==> NodeSize(EmitParen(a)) == PreParen(a)
    decreases a, 0
  {
    AltsFit(a.alts);
  }

  lemma {:induction false} ItemFits(a: Atom, q: Quant, t: Branch)
    requires OkAtom(a) && OkQuant(q) && (a.Zero? ==> q.Once?)
    ensures BranchSize(EmitItem(a, q, t)) <= PreItem(a, q) + BranchSize(t)
    ensures AllKeptAtom(a) && (a.One? && q.Times? ==> q.max != 0) ==>
              BranchSize(EmitItem(a, q, t)) == PreItem(a, q) + BranchSize(t)
    decreases a, 1
  {
    match a
    case Zero(_) =>
    case One(it) => if q.Times? { OneSize(it, q, t); }
    case Paren(_, _) =>
      ParenFits(a);
      if q.Times? {
        EmitGroupSize(EmitParen(a), q.min, q.max, q.lazy, AltsConsume(a.alts), t);
        GroupLenGrows(NodeSize(EmitParen(a)), PreParen(a), q.min, q.max);
      }
  }

  lemma {:induction false} BranchFits(b: SrcBranch)
    requires OkSBranch(b)
    ensures BranchSize(EmitBranch(b)) <= PreBranch(b)
    ensures AllKeptBranch(b) ==> BranchSize(EmitBranch(b)) == PreBranch(b)
    decreases b
  {
    if b.SCons? {
      BranchFits(b.rest);
      ItemFits(b.atom, b.quant, EmitBranch(b.rest));
    }
  }

  lemma {:induction false} AltsFit(a: SrcAlts)
    requires OkSAlts(a)
    ensures AltsSize(EmitAlts(a)) <= PreAlts(a)
    ensures AllKept(a) ==> AltsSize(EmitAlts(a)) == PreAlts(a)
    decreases a
  {
    BranchFits(a.branch);
    if a.SOr? { AltsFit(a.more); }
  }

  // --- the pre-pass itself --------------------------------------------------------------

  lemma PreItemCounts(a: Atom, q: Quant)
    requires OkAtom(a) && OkQuant(q) && (a.Zero? ==> q.Once?)
    ensures PreItem(a, q) >= 0
    ensures a.Paren? ==> PreItem(a, q) >= PreParen(a) == BRACKETS + (if a.number > 0 then IMM2_SIZE else 0)
                           + PreAlts(a.alts)
  {
    if a.Paren? {
      AltsFit(a.alts);
      if q.Times? { GroupLenGrows(PreParen(a), PreParen(a), q.min, q.max); }
    }
  }

  lemma PreBranchCounts(b: SrcBranch)
    requires OkSBranch(b)
    ensures PreBranch(b) >= 0
  {
    BranchFits(b);
  }

  /** The quantifier of a group, of which there are `code` units in the workspace. */
  method QuantGroup(L: nat, min: nat, max: int, length0: nat, code0: nat) returns (ok: bool, length: nat, code: nat)
    requires OkQuant(Times(min, max, false)) && L <= length0 + code0 && length0 <= OFLOW_MAX
    ensures ok ==> length <= OFLOW_MAX
    ensures ok ==> length + code == length0 + code0 - L + GroupLen(L, min, max) && code >= code0
    ensures !ok ==> length0 + code0 - L + GroupLen(L, min, max) > MAX_PATTERN_SIZE
  {
    ok, length, code := true, length0, code0;
    if max == 1 && min == 1 { return; }
    GroupLenGrows(L, L, min, max);
    var repeatMax, bralinks := max, 0;
    if min == 0 {
      if max <= 1 {
        code := code + 1;
        if max == 0 { return; }
      } else {
        code := code + 2 + LINK_SIZE;
        bralinks := 1;
      }
      if repeatMax != UNLIMITED { repeatMax := repeatMax - 1; }
    } else {
      if min > 1 {
        var delta := (min - 1) * L;
        Product(L, L, min - 1);
        if max > min { Product(L + 7, L + 7, max - min); }
        if delta > INT_MAX || OFLOW_MAX - length < delta { return false, length, code; }
        length := length + delta;
      }
      if repeatMax != UNLIMITED { repeatMax := repeatMax - min; }
    }
    if repeatMax != UNLIMITED {
      if repeatMax > 0 {
        var delta := repeatMax * (L + 1 + 2 + 2 * LINK_SIZE) - 2 - 2 * LINK_SIZE;
        Product(L + 7, L + 7, repeatMax);
        if repeatMax * (L + 1 + 2 + 2 * LINK_SIZE) > INT_MAX || OFLOW_MAX - length < delta {
          return false, length, code;
        }
        length := length + delta;
      }
      if bralinks > 0 { code := code + 1 + LINK_SIZE; }
    }
  }

  /** The size of the code that replaces a literal, a type or a class when it has a quantifier. */
  method QuantOne(it: Item, q: Quant, code0: nat) returns (code: nat)
    requires OkQuant(q) && q.Times? && code0 == ItemSize(it)
    ensures code == OneLen(it, q)
  {
    OneSize(it, q, Nil);
    var min, max := q.min, q.max;
    if max == 0 { return 0; }
    if min == 1 && max == 1 { return code0; }
    if it.Set? {
      var isRange := !(max < 0 && min <= 1) && !(min == 0 && max == 1);
      return code0 + 1 + if isRange then 2 * IMM2_SIZE else 0;
    }
    if min == 0 { return if max < 0 || max == 1 then 2 else 2 + IMM2_SIZE; }
    if min == 1 { return if max < 0 then 2 else code0 + 2 + IMM2_SIZE; }
    code := 2 + IMM2_SIZE;
    if max != min { code := code + if max < 0 || max - min == 1 then 2 else 2 + IMM2_SIZE; }
  }

  /** One branch. The length is that of all the items but the last one, which is still in the workspace. */
  method BranchLength(b: SrcBranch, length0: nat) returns (ok: bool, length: nat)
    requires OkSBranch(b) && length0 <= MAX_PATTERN_SIZE + 10
    ensures ok ==> length == length0 + PreBranch(b) <= MAX_PATTERN_SIZE
    ensures !ok ==> length0 + PreBranch(b) > MAX_PATTERN_SIZE
    decreases b, 1
  {
    ok, length := true, length0;
    var code, rest := 0, b;
    while rest.SCons?
      invariant OkSBranch(rest) && code >= 0 && length <= OFLOW_MAX
      invariant length + code + PreBranch(rest) == length0 + PreBranch(b)
      decreases rest
    {
      PreBranchCounts(rest);
      PreBranchCounts(rest.rest);
      PreItemCounts(rest.atom, rest.quant);
      if OFLOW_MAX - length < code { return false, length; }
      length := length + code;
      if length > MAX_PATTERN_SIZE { return false, length; }
      ok, length, code := ItemLength(rest.atom, rest.quant, length);
      if !ok { return; }
      rest := rest.rest;
    }
    if OFLOW_MAX - length < code { return false, length; }
    length := length + code;
    if length > MAX_PATTERN_SIZE { return false, length; }
  }

  /** One item and its quantifier. Its code, or what is left of it, stays in the workspace. */
  method ItemLength(a: Atom, q: Quant, length0: nat) returns (ok: bool, length: nat, code: nat)
    requires OkAtom(a) && OkQuant(q) && (a.Zero? ==> q.Once?) && length0 <= MAX_PATTERN_SIZE
    ensures ok ==> length + code == length0 + PreItem(a, q) && length <= OFLOW_MAX
    ensures !ok ==> length0 + PreItem(a, q) > MAX_PATTERN_SIZE
    decreases a, 0
  {
    ok, length := true, length0;
    match a {
      case Zero(_) => code := 1;
      case One(it) =>
        code := ItemSize(it);
        if q.Times? {
          var lastCode := code;
          code := QuantOne(it, q, code);
          if code < lastCode { code := lastCode; }
        }
      case Paren(number, alts) =>
        PreItemCounts(a, q);
        var prevgroup;
        ok, prevgroup := AltsLength(alts, number);
        code := 0;
        if !ok { return; }
        if OFLOW_MAX - length < prevgroup - 2 - 2 * LINK_SIZE {
          ok := false;
          return;
        }
        length := length + (prevgroup - 2 - 2 * LINK_SIZE);
        code := 2 + 2 * LINK_SIZE;
        if q.Times? { ok, length, code := QuantGroup(prevgroup, q.min, q.max, length, code); }
    }
  }

  /** A bracketed group: its brackets, and its branches one after the other. */
  method AltsLength(a: SrcAlts, number: nat) returns (ok: bool, length: nat)
    requires OkSAlts(a)
    ensures ok ==> length == BRACKETS + (if number > 0 then IMM2_SIZE else 0) + PreAlts(a) <= MAX_PATTERN_SIZE
    ensures !ok ==> BRACKETS + (if number > 0 then IMM2_SIZE else 0) + PreAlts(a) > MAX_PATTERN_SIZE
    decreases a, 2
  {
    var skipunits := if number > 0 then IMM2_SIZE else 0;
    if a.SOr? { AltsFit(a.more); }
    length := 2 + 2 * LINK_SIZE + skipunits;
    ok, length := BranchLength(a.branch, length);
    var rest := a;
    while ok && rest.SOr?
      invariant OkSAlts(rest) && (rest == a || (a decreases to rest))
      invariant ok ==> length + PreAlts(rest) - PreBranch(rest.branch) == BRACKETS + skipunits + PreAlts(a)
                       && length <= MAX_PATTERN_SIZE
      invariant !ok ==> BRACKETS + skipunits + PreAlts(a) > MAX_PATTERN_SIZE
      decreases rest, ok
    {
      AltsFit(rest.more);
      if rest.more.SOr? { AltsFit(rest.more.more); }
      PreBranchCounts(rest.branch);
      length := length + 1 + LINK_SIZE;
      rest := rest.more;
      ok, length := BranchLength(rest.branch, length);
    }
  }

  /** The memory for a whole pattern and the OP_END after it. The code that is emitted into it never overflows, and
      fills it unless a {0} quantifier has removed an item. */
  method PatternLength(a: SrcAlts) returns (ok: bool, length: nat)
    requires OkSAlts(a)
    ensures ok ==> NodeSize(CodeOf(a)) + 1 <= length == 1 + BRACKETS + PreAlts(a) <= MAX_PATTERN_SIZE
    ensures ok && AllKept(a) ==> NodeSize(CodeOf(a)) + 1 == length
    ensures !ok ==> 1 + BRACKETS + PreAlts(a) > MAX_PATTERN_SIZE
  {
    var n;
    AltsFit(a);
    length := 1;
    ok, n := AltsLength(a, 0);
    if !ok { return; }
    length := length + n;
    ok := length <= MAX_PATTERN_SIZE;
  }
}
