/** The pass that writes the code: brackets and the links that are filled in when they close, and the
    copies that a quantifier makes of a group. */
module EmitCode {
  import opened Folding
  import opened Opcodes
  import opened Regex
  import opened Layout
  import opened Source
  import opened Unroll
  import opened PrePass

  // --- code can be moved --------------------------------------------------------

  /** The units from x to x + n of one vector are those from y of the other. */
  ghost predicate Moved(code: seq<Cell>, x: nat, code': seq<Cell>, y: nat, n: nat) {
    && x + n <= |code| && y + n <= |code'|
    && forall k: int {:trigger Look(k)} :: Look(k) ==>
         forall i {:trigger code'[i]} :: y <= i < y + n ==> code'[i] == code[x + (i - y)]
  }

  lemma MovedPart(code: seq<Cell>, x: nat, code': seq<Cell>, y: nat, n: nat, d: nat, m: nat)
    requires Moved(code, x, code', y, n) && d + m <= n
    ensures Moved(code, x + d, code', y + d, m)
  {
    assert Look(0);
  }

  lemma {:induction false} NodeMoved(code: seq<Cell>, x: nat, code': seq<Cell>, y: nat, n: Node)
    requires LaidNode(code, x, n) && Moved(code, x, code', y, NodeSize(n))
    ensures LaidNode(code', y, n)
    decreases n, 1
  {
    match n
    case Optional(_, _) => WholeOptionMoved(code, x, code', y, n);
    case Group(_, _, _, _) => WholeGroupMoved(code, x, code', y, n);
    case _ => ItemMoved(code, x, code', y, n);
  }

  lemma {:induction false} WholeOptionMoved(code: seq<Cell>, x: nat, code': seq<Cell>, y: nat, n: Node)
    requires n.Optional? && LaidNode(code, x, n) && Moved(code, x, code', y, NodeSize(n))
    ensures LaidNode(code', y, n)
    decreases n, 0
  {
    OptionParts(code, x, code', y, n);
    NodeMoved(code, x + 1, code', y + 1, n.group);
    OptionMoved(code', y, n.op, n.group);
  }

  lemma {:induction false} WholeGroupMoved(code: seq<Cell>, x: nat, code': seq<Cell>, y: nat, n: Node)
    requires n.Group? && LaidNode(code, x, n) && Moved(code, x, code', y, NodeSize(n))
    ensures LaidNode(code', y, n)
    decreases n, 0
  {
    GroupParts(code, x, code', y, n);
    AltsMoved(code, x + BraSize(n.bra), code', y + BraSize(n.bra), n.alts);
    GroupMoved(code, x, code', y, n);
  }

  lemma OptionParts(code: seq<Cell>, x: nat, code': seq<Cell>, y: nat, n: Node)
    requires n.Optional? && LaidNode(code, x, n) && Moved(code, x, code', y, NodeSize(n))
    ensures y < |code'| && code'[y] == Plain(n.op) && LaidNode(code, x + 1, n.group)
    ensures Moved(code, x + 1, code', y + 1, NodeSize(n.group))
  {
    assert Look(0);
    MovedPart(code, x, code', y, NodeSize(n), 1, NodeSize(n.group));
    assert code'[y] == code[x];
  }

  lemma OptionMoved(code: seq<Cell>, y: nat, op: int, g: Node)
    requires y < |code| && code[y] == Plain(op) && LaidNode(code, y + 1, g)
    ensures LaidNode(code, y, Optional(op, g))
  {
  }

  lemma GroupMoved(code: seq<Cell>, x: nat, code': seq<Cell>, y: nat, n: Node)
    requires n.Group? && LaidNode(code, x, n) && Moved(code, x, code', y, NodeSize(n))
    requires LaidAlts(code', y + BraSize(n.bra), n.alts)
    ensures LaidNode(code', y, n)
  {
    GroupParts(code, x, code', y, n);
  }

  lemma ItemMoved(code: seq<Cell>, x: nat, code': seq<Cell>, y: nat, n: Node)
    requires !n.Group? && !n.Optional? && LaidNode(code, x, n) && Moved(code, x, code', y, NodeSize(n))
    ensures LaidNode(code', y, n)
  {
    assert Look(0);
    assert code'[y] == code[x];
    if n.Repeat? && n.item.Set? { assert code'[y + 1 + CLASS_SIZE] == code[x + 1 + CLASS_SIZE]; }
  }

  lemma GroupParts(code: seq<Cell>, x: nat, code': seq<Cell>, y: nat, n: Node)
    requires n.Group? && LaidNode(code, x, n) && Moved(code, x, code', y, NodeSize(n))
    ensures code'[y] == code[x]
    ensures var k := BraSize(n.bra) + AltsSize(n.alts); code'[y + k] == code[x + k]
    ensures Moved(code, x + BraSize(n.bra), code', y + BraSize(n.bra), AltsSize(n.alts) + 1)
    ensures LaidAlts(code, x + BraSize(n.bra), n.alts)
  {
    assert Look(0);
    var d := BraSize(n.bra);
    MovedPart(code, x, code', y, NodeSize(n), d, AltsSize(n.alts) + 1);
  }

  lemma MovedAt(code: seq<Cell>, x: nat, code': seq<Cell>, y: nat, n: nat, x': nat, y': nat, m: nat)
    requires Moved(code, x, code', y, n) && x <= x' && x' + y == x + y' && x' + m <= x + n
    ensures Moved(code, x', code', y', m)
  {
    assert Look(0);
    MovedPart(code, x, code', y, n, x' - x, m);
  }

  lemma MovedUnit(code: seq<Cell>, x: nat, code': seq<Cell>, y: nat, n: nat, x': nat, y': nat)
    requires Moved(code, x, code', y, n) && x <= x' && x' + y == x + y' && x' < x + n
    ensures code'[y'] == code[x']
  {
    assert Look(0);
  }

  lemma {:induction false} AltsMoved(code: seq<Cell>, x: nat, code': seq<Cell>, y: nat, a: Alts)
    requires LaidAlts(code, x, a) && Moved(code, x, code', y, AltsSize(a) + 1)
    ensures LaidAlts(code', y, a)
    decreases a
  {
    var d, n := BranchSize(a.branch), AltsSize(a) + 1;
    MovedAt(code, x, code', y, n, x, y, d);
    BranchMoved(code, x, code', y, a.branch);
    if a.Or? {
      var k, next := FirstAlt(code, x, a);
      var k', next' := y + d, y + d + 1 + LINK_SIZE;
      MovedUnit(code, x, code', y, n, k, k');
      MovedAt(code, x, code', y, n, next, next', AltsSize(a.more) + 1);
      AltsMoved(code, next, code', next', a.more);
      AltsFold(code', y, k', next', a.branch, a.more);
    }
  }

  lemma {:induction false} BranchMoved(code: seq<Cell>, x: nat, code': seq<Cell>, y: nat, b: Branch)
    requires LaidBranch(code, x, b) && Moved(code, x, code', y, BranchSize(b))
    ensures LaidBranch(code', y, b)
    decreases b
  {
    if b.Cons? {
      var x', y' := x + NodeSize(b.head), y + NodeSize(b.head);
      ConsParts(code, x, x', code', y, y', b);
      NodeMoved(code, x, code', y, b.head);
      BranchMoved(code, x', code', y', b.tail);
      ConsFold(code', y, y', b.head, b.tail);
    }
  }

  lemma ConsParts(code: seq<Cell>, x: nat, x': nat, code': seq<Cell>, y: nat, y': nat, b: Branch)
    requires b.Cons? && LaidBranch(code, x, b) && Moved(code, x, code', y, BranchSize(b))
    requires x' == x + NodeSize(b.head) && y' == y + NodeSize(b.head)
    ensures LaidNode(code, x, b.head) && Moved(code, x, code', y, NodeSize(b.head))
    ensures LaidBranch(code, x', b.tail) && Moved(code, x', code', y', BranchSize(b.tail))
  {
    MovedPart(code, x, code', y, BranchSize(b), 0, NodeSize(b.head));
    MovedPart(code, x, code', y, BranchSize(b), NodeSize(b.head), BranchSize(b.tail));
  }

  // --- changes to the vector ------------------------------------------------------

  /** The vector after n units have been copied from src to dst. */
  function Copied(code: seq<Cell>, dst: nat, src: nat, n: nat): (c: seq<Cell>)
    requires src + n <= |code| && dst + n <= |code|
    ensures |c| == |code|
  {
    code[..dst] + code[src..src + n] + code[dst + n..]
  }

  /** Copies units; the two ranges may overlap. */
  method MoveUnits(code: array<Cell>, dst: nat, src: nat, n: nat)
    requires src + n <= code.Length && dst + n <= code.Length
    modifies code
    ensures code[..] == Copied(old(code[..]), dst, src, n)
  {
    forall i | dst <= i < dst + n { code[i] := code[src + (i - dst)]; }
  }

  lemma CopiedUnits(code: seq<Cell>, dst: nat, src: nat, n: nat)
    requires src + n <= |code| && dst + n <= |code|
    ensures Moved(code, src, Copied(code, dst, src, n), dst, n)
    ensures Agree(code, Copied(code, dst, src, n), 0, dst)
  {
  }

  // --- branches joined end to end ----------------------------------------------------

  function Join(b: Branch, c: Branch): Branch { if b.Nil? then c else Cons(b.head, Join(b.tail, c)) }

  lemma {:induction false} JoinLaid(code: seq<Cell>, x: nat, p: nat, b: Branch, c: Branch)
    requires LaidBranch(code, x, b) && p == x + BranchSize(b) && LaidBranch(code, p, c)
    ensures LaidBranch(code, x, Join(b, c)) && BranchSize(Join(b, c)) == BranchSize(b) + BranchSize(c)
    decreases b
  {
    if b.Cons? {
      var y := x + NodeSize(b.head);
      JoinLaid(code, y, p, b.tail, c);
      ConsFold(code, x, y, b.head, Join(b.tail, c));
    }
  }

  lemma ConsFold(code: seq<Cell>, x: nat, y: nat, n: Node, t: Branch)
    requires LaidNode(code, x, n) && y == x + NodeSize(n) && LaidBranch(code, y, t)
    ensures LaidBranch(code, x, Cons(n, t)) && BranchSize(Cons(n, t)) == NodeSize(n) + BranchSize(t)
  {
  }

  lemma {:induction false} JoinAssociates(b: Branch, c: Branch, d: Branch)
    ensures Join(Join(b, c), d) == Join(b, Join(c, d))
    decreases b
  {
    if b.Cons? { JoinAssociates(b.tail, c, d); }
  }

  lemma {:induction false} JoinNil(b: Branch)
    ensures Join(b, Nil) == b
    decreases b
  {
    if b.Cons? { JoinNil(b.tail); }
  }

  lemma {:induction false} CopiesJoin(g: Node, n: nat, t: Branch)
    ensures Copies(g, n, t) == Join(Copies(g, n, Nil), t)
    ensures Copies(g, n + 1, Nil) == Join(Copies(g, n, Nil), Cons(g, Nil))
    decreases n
  {
    if n > 0 { CopiesJoin(g, n - 1, t); }
  }

  // --- nested optional brackets ---------------------------------------------------------

  /** A bracket for the optional copy number k is open at p; its link leads back, over w units, to the bracket for
      copy k + 1, or is 0 when that is the outermost one, n. */
  ghost predicate Pending(code: seq<Cell>, p: nat, k: nat, n: nat, g: Node, zero: int, w: nat)
    decreases n - k
  {
    && 1 < k <= n
    && forall l: int {:trigger Look(l)} :: Look(l) ==>
         && p + 4 + NodeSize(g) <= |code|
         && code[p] == Plain(zero)
         && code[p + 1] == WithLink(OP_BRA, if k == n then 0 else w)
         && LaidNode(code, p + 4, g)
         && (k < n ==> w <= p && Pending(code, p - w, k + 1, n, g, zero, w))
  }

  lemma {:induction false} PendingAgree(code: seq<Cell>, code': seq<Cell>, p: nat, k: nat, n: nat, g: Node, zero: int,
                                        w: nat)
    requires Pending(code, p, k, n, g, zero, w) && Agree(code, code', 0, p + w) && w == 4 + NodeSize(g)
    ensures Pending(code', p, k, n, g, zero, w)
    decreases n - k
  {
    assert Look(0);
    assert code'[p] == code[p] && code'[p + 1] == code[p + 1];
    NodeAgree(code, code', p + 4, g);
    if k < n { PendingAgree(code, code', p - w, k + 1, n, g, zero, w); }
  }

  /** The vector when a bracket for an optional copy has been opened at p and the copy put into it. */
  function Opened(code: seq<Cell>, src: nat, p: nat, size: nat, zero: int, link: int): (c: seq<Cell>)
    requires src + size <= |code| && p + 4 + size <= |code|
    ensures |c| == |code|
  {
    Copied(code[p := Plain(zero)][p + 1 := WithLink(OP_BRA, link)], p + 4, src, size)
  }

  lemma OpenedUnits(code: seq<Cell>, src: nat, p: nat, g: Node, zero: int, link: int)
    requires LaidNode(code, src, g) && src + NodeSize(g) <= p && p + 4 + NodeSize(g) <= |code|
    ensures var c := Opened(code, src, p, NodeSize(g), zero, link);
            && Agree(code, c, 0, p) && c[p] == Plain(zero) && c[p + 1] == WithLink(OP_BRA, link)
               && LaidNode(c, p + 4, g)
  {
    var y, n := p + 4, NodeSize(g);
    var d := Opened(code, src, p, n, zero, link);
    PutTwoCopied(code, d, src, p, y, n, Plain(zero), WithLink(OP_BRA, link));
    NodeMoved(code, src, d, y, g);
  }

  /** Two units have been put in at p, and then n units from before them have been copied to y. */
  lemma PutTwoCopied(code: seq<Cell>, c: seq<Cell>, src: nat, p: nat, y: nat, n: nat, u: Cell, v: Cell)
    requires src + n <= p && p + 1 < y && y + n <= |code| && c == Copied(code[p := u][p + 1 := v], y, src, n)
    ensures Moved(code, src, c, y, n) && Agree(code, c, 0, p) && c[p] == u && c[p + 1] == v
  {
    CopiedUnits(code[p := u][p + 1 := v], y, src, n);
  }

  /** Open the bracket for one more optional copy, and put the copy into it. */
  lemma OpenNest(code: seq<Cell>, src: nat, p: nat, k: nat, n: nat, g: Node, zero: int, w: nat)
    requires w == 4 + NodeSize(g) && LaidNode(code, src, g) && src + NodeSize(g) <= p && p + w <= |code| && 1 < k <= n
    requires k < n ==> w <= p && Pending(code, p - w, k + 1, n, g, zero, w)
    ensures var c := Opened(code, src, p, NodeSize(g), zero, if k == n then 0 else w);
            Pending(c, p, k, n, g, zero, w) && Agree(code, c, 0, p)
  {
    var c := Opened(code, src, p, NodeSize(g), zero, if k == n then 0 else w);
    OpenedUnits(code, src, p, g, zero, if k == n then 0 else w);
    if k < n { PendingAgree(code, c, p - w, k + 1, n, g, zero, w); }
  }

  /** The bracket at p has been closed at `end`: its link and that of the KET have been filled in. */
  ghost predicate Closed(code: seq<Cell>, c: seq<Cell>, p: nat, end: nat) {
    forall k: int {:trigger Look(k)} :: Look(k) ==>
      p < end < |code| && c == code[end := WithLink(OP_KET, end - p)][p := WithLink(OP_BRA, end - p)]
  }

  lemma ClosedUnits(code: seq<Cell>, c: seq<Cell>, p: nat, end: nat)
    requires Closed(code, c, p, end)
    ensures p < end < |code| == |c|
    ensures Agree(code, c, 0, p) && Agree(code, c, p + 1, end)
    ensures c[p] == WithLink(OP_BRA, end - p) && c[end] == WithLink(OP_KET, end - p)
  {
    assert Look(0);
  }

  lemma ClosedNodes(code: seq<Cell>, c: seq<Cell>, p: nat, end: nat, g: Node, inner: Node)
    requires LaidNode(code, p + 3, g) && LaidNode(code, p + 3 + NodeSize(g), inner) && Closed(code, c, p, end)
    requires end == p + 3 + NodeSize(g) + NodeSize(inner) && end + 3 <= |code|
    ensures LaidNode(c, p, Wrap(g, inner)) && NodeSize(Wrap(g, inner)) == NodeSize(g) + NodeSize(inner) + 6
  {
    ClosedUnits(code, c, p, end);
    NodeAgree(code, c, p + 3, g);
    NodeAgree(code, c, p + 3 + NodeSize(g), inner);
    WrapLaid(c, p, g, inner);
  }

  /** Close the innermost open bracket, that of copy d + 1, at offset `end`. */
  lemma CloseNest(code: seq<Cell>, c: seq<Cell>, p: nat, base: nat, d: nat, n: nat, g: Node, lazy: bool, w: nat,
                  end: nat)
    requires d > 0 && Pending(code, p, d + 1, n, g, ZeroOp(lazy), w) && w == 4 + NodeSize(g)
             && Closed(code, c, p + 1, end)
    requires base == p + w && LaidNode(code, base, Nest(g, d, lazy)) && end == base + NodeSize(Nest(g, d, lazy))
             && end + 3 <= |code|
    ensures LaidNode(c, p, Nest(g, d + 1, lazy)) && end + 1 + LINK_SIZE == p + NodeSize(Nest(g, d + 1, lazy))
    ensures Agree(code, c, 0, p)
    ensures d + 1 < n ==> w <= p && Pending(c, p - w, d + 2, n, g, ZeroOp(lazy), w)
  {
    PendingTop(code, p, d + 1, n, g, ZeroOp(lazy), w);
    CloseWrap(code, c, p, g, Nest(g, d, lazy), w, end);
    NestLaid(c, p, d, g, lazy);
    if d + 1 < n { PendingAgree(code, c, p - w, d + 2, n, g, ZeroOp(lazy), w); }
  }

  lemma CloseWrap(code: seq<Cell>, c: seq<Cell>, p: nat, g: Node, inner: Node, w: nat, end: nat)
    requires w == 4 + NodeSize(g) && LaidNode(code, p + 4, g) && LaidNode(code, p + w, inner)
             && Closed(code, c, p + 1, end)
    requires end == p + w + NodeSize(inner) && end + 3 <= |code|
    ensures LaidNode(c, p + 1, Wrap(g, inner)) && end + 1 + LINK_SIZE == p + 1 + NodeSize(Wrap(g, inner))
    ensures Agree(code, c, 0, p) && c[p] == code[p]
  {
    ClosedUnits(code, c, p + 1, end);
    AgreeLess(code, c, p);
    ClosedNodes(code, c, p + 1, end, g, inner);
  }

  lemma AgreeLess(code: seq<Cell>, c: seq<Cell>, p: nat)
    requires Agree(code, c, 0, p + 1) && p < |code|
    ensures Agree(code, c, 0, p) && c[p] == code[p]
  {
  }

  lemma PendingTop(code: seq<Cell>, p: nat, k: nat, n: nat, g: Node, zero: int, w: nat)
    requires Pending(code, p, k, n, g, zero, w)
    ensures 1 < k <= n && p + 4 + NodeSize(g) <= |code| && code[p] == Plain(zero) && LaidNode(code, p + 4, g)
    ensures k < n ==> w <= p && Pending(code, p - w, k + 1, n, g, zero, w)
  {
    assert Look(0);
  }

  lemma NestLaid(code: seq<Cell>, p: nat, d: nat, g: Node, lazy: bool)
    requires d > 0 && p < |code| && code[p] == Plain(ZeroOp(lazy)) && LaidNode(code, p + 1, Wrap(g, Nest(g, d, lazy)))
    ensures LaidNode(code, p, Nest(g, d + 1, lazy))
            && NodeSize(Nest(g, d + 1, lazy)) == 1 + NodeSize(Wrap(g, Nest(g, d, lazy)))
  {
  }

  lemma WrapLaid(code: seq<Cell>, x: nat, g: Node, inner: Node)
    requires LaidNode(code, x + 3, g) && LaidNode(code, x + 3 + NodeSize(g), inner)
    requires var k := 3 + NodeSize(g) + NodeSize(inner);
             x + k + 3 <= |code| && code[x] == WithLink(OP_BRA, k) && code[x + k] == WithLink(OP_KET, k)
    ensures LaidNode(code, x, Wrap(g, inner)) && NodeSize(Wrap(g, inner)) == NodeSize(g) + NodeSize(inner) + 6
  {
    var b := Cons(inner, Nil);
    assert BranchSize(b) == NodeSize(inner) && LaidBranch(code, x + 3 + NodeSize(g), b);
    var d := Cons(g, b);
    assert BranchSize(d) == NodeSize(g) + NodeSize(inner) && LaidBranch(code, x + 3, d);
    assert AltsSize(Last(d)) == BranchSize(d) && LaidAlts(code, x + 3, Last(d));
  }

  // --- the quantifier of a group ------------------------------------------------------

  lemma NestStep(g: Node, n: nat, lazy: bool)
    requires n > 0
    ensures NodeSize(Nest(g, n, lazy)) == if n == 1 then 1 + NodeSize(g)
            else 7 + NodeSize(g) + NodeSize(Nest(g, n - 1, lazy))
  {
    if n > 1 { WrapSize(g, Nest(g, n - 1, lazy)); }
  }

  /** The innermost copy, which gets no bracket. */
  lemma LastNest(code: seq<Cell>, src: nat, p: nat, g: Node, lazy: bool)
    requires LaidNode(code, src, g) && g.Group? && src + NodeSize(g) <= p && p + 1 + NodeSize(g) <= |code|
    ensures var c := Copied(code[p := Plain(ZeroOp(lazy))], p + 1, src, NodeSize(g));
            LaidNode(c, p, Nest(g, 1, lazy)) && Agree(code, c, 0, p)
  {
    var y, n, u := p + 1, NodeSize(g), Plain(ZeroOp(lazy));
    var c := Copied(code[p := u], y, src, n);
    PutCopied(code, c, src, p, y, n, u);
    NodeMoved(code, src, c, y, g);
    LastFold(c, p, y, g, lazy);
  }

  /** One unit has been put in at p, and then n units from before it have been copied to y. */
  lemma PutCopied(code: seq<Cell>, c: seq<Cell>, src: nat, p: nat, y: nat, n: nat, u: Cell)
    requires src + n <= p < y && y + n <= |code| && c == Copied(code[p := u], y, src, n)
    ensures Moved(code, src, c, y, n) && Agree(code, c, 0, p) && c[p] == u
  {
    CopiedUnits(code[p := u], y, src, n);
  }

  lemma LastFold(code: seq<Cell>, p: nat, y: nat, g: Node, lazy: bool)
    requires g.Group? && p < |code| && y == p + 1 && code[p] == Plain(ZeroOp(lazy)) && LaidNode(code, y, g)
    ensures LaidNode(code, p, Nest(g, 1, lazy))
  {
    assert Nest(g, 1, lazy) == Optional(ZeroOp(lazy), g);
  }

  /** The brackets that are still open for optional copies: k to n, the innermost one at p. */
  ghost predicate Chain(code: seq<Cell>, bralink: Option<nat>, p: int, k: nat, n: nat, g: Node, lazy: bool) {
    if k > n then bralink.None? && k == n + 1
    else p >= 0 && bralink == Some(p + 2) && Pending(code, p, k, n, g, ZeroOp(lazy), 4 + NodeSize(g))
  }

  lemma {:induction false} ChainAgree(code: seq<Cell>, code': seq<Cell>, bralink: Option<nat>, p: int, k: nat, n: nat,
                                      g: Node, lazy: bool)
    requires Chain(code, bralink, p, k, n, g, lazy) && (k <= n ==> Agree(code, code', 0, p + 4 + NodeSize(g)))
    ensures Chain(code', bralink, p, k, n, g, lazy)
  {
    if k <= n { PendingAgree(code, code', p, k, n, g, ZeroOp(lazy), 4 + NodeSize(g)); }
  }

  /** Copies number i and below are still to be put in at pos. */
  ghost predicate Opening(code: seq<Cell>, src: nat, pos: nat, bralink: Option<nat>, i: nat, n: nat, g: Node,
                          lazy: bool) {
    forall k: int {:trigger Look(k)} :: Look(k) ==>
      && g.Group? && LaidNode(code, src, g) && src + NodeSize(g) <= pos
      && 0 < i <= n && Chain(code, bralink, pos - (4 + NodeSize(g)), i + 1, n, g, lazy)
  }

  /** The distance back to the bracket that was opened before. */
  function LinkBack(pos: nat, bralink: Option<nat>): int { if bralink.None? then 0 else pos + 2 - bralink.value }

  lemma OpeningStep(code: seq<Cell>, c: seq<Cell>, src: nat, pos: nat, w: nat, bralink: Option<nat>, i: nat, n: nat,
                    g: Node, lazy: bool)
    requires Opening(code, src, pos, bralink, i, n, g, lazy) && i > 1 && w == 4 + NodeSize(g)
    requires src + NodeSize(g) <= pos && pos + w <= |code|
    requires c == Opened(code, src, pos, NodeSize(g), ZeroOp(lazy), LinkBack(pos, bralink))
    ensures Opening(c, src, pos + w, Some(pos + 2), i - 1, n, g, lazy) && Agree(code, c, 0, pos)
  {
    OpenedPending(code, c, src, pos, w, bralink, i, n, g, lazy);
    OpenedOpening(code, c, src, pos, w, bralink, i, n, g, lazy);
  }

  lemma OpenedPending(code: seq<Cell>, c: seq<Cell>, src: nat, pos: nat, w: nat, bralink: Option<nat>, i: nat, n: nat,
                      g: Node, lazy: bool)
    requires Opening(code, src, pos, bralink, i, n, g, lazy) && i > 1 && w == 4 + NodeSize(g)
    requires src + NodeSize(g) <= pos && pos + w <= |code|
    requires c == Opened(code, src, pos, NodeSize(g), ZeroOp(lazy), LinkBack(pos, bralink))
    ensures Pending(c, pos, i, n, g, ZeroOp(lazy), w) && Agree(code, c, 0, pos)
  {
    OpeningIs(code, src, pos, bralink, i, n, g, lazy, w);
    OpenNest(code, src, pos, i, n, g, ZeroOp(lazy), w);
  }

  lemma OpenedOpening(code: seq<Cell>, c: seq<Cell>, src: nat, pos: nat, w: nat, bralink: Option<nat>, i: nat, n: nat,
                      g: Node, lazy: bool)
    requires Opening(code, src, pos, bralink, i, n, g, lazy) && i > 1 && w == 4 + NodeSize(g)
    requires Pending(c, pos, i, n, g, ZeroOp(lazy), w) && Agree(code, c, 0, pos)
    ensures Opening(c, src, pos + w, Some(pos + 2), i - 1, n, g, lazy)
  {
    OpeningIs(code, src, pos, bralink, i, n, g, lazy, w);
    StepOpen(code, c, src, pos, pos + w, i, n, g, lazy);
  }

  lemma OpeningIs(code: seq<Cell>, src: nat, pos: nat, bralink: Option<nat>, i: nat, n: nat, g: Node, lazy: bool,
                  w: nat)
    requires Opening(code, src, pos, bralink, i, n, g, lazy) && w == 4 + NodeSize(g)
    ensures g.Group? && LaidNode(code, src, g) && src + NodeSize(g) <= pos && 0 < i <= n
    ensures i < n ==> w <= pos && Pending(code, pos - w, i + 1, n, g, ZeroOp(lazy), w)
    ensures LinkBack(pos, bralink) == if i == n then 0 else w
  {
    assert Look(0);
  }

  lemma StepOpen(code: seq<Cell>, c: seq<Cell>, src: nat, pos: nat, next: nat, i: nat, n: nat, g: Node, lazy: bool)
    requires g.Group? && LaidNode(code, src, g) && src + NodeSize(g) <= pos && Agree(code, c, 0, pos)
             && next == pos + 4 + NodeSize(g)
    requires 1 < i <= n && Pending(c, pos, i, n, g, ZeroOp(lazy), 4 + NodeSize(g))
    ensures Opening(c, src, next, Some(pos + 2), i - 1, n, g, lazy)
  {
    AgreePart(code, c, 0, pos, src, src + NodeSize(g));
    NodeAgree(code, c, src, g);
    StillOpen(c, src, pos, next, Some(pos + 2), i - 1, n, g, lazy);
  }

  lemma StillOpen(code: seq<Cell>, src: nat, p: nat, pos: nat, bralink: Option<nat>, i: nat, n: nat, g: Node,
                  lazy: bool)
    requires g.Group? && LaidNode(code, src, g) && src + NodeSize(g) <= p && pos == p + 4 + NodeSize(g)
    requires 0 < i < n && Chain(code, bralink, p, i + 1, n, g, lazy)
    ensures Opening(code, src, pos, bralink, i, n, g, lazy)
  {
    assert pos - (4 + NodeSize(g)) == p;
  }

  /** The copies up to number d are complete, from base to pos; the brackets for the others are still open. */
  ghost predicate Closing(code: seq<Cell>, base: nat, pos: nat, bralink: Option<nat>, d: nat, n: nat, g: Node,
                          lazy: bool) {
    forall l: int {:trigger Look(l)} :: Look(l) ==>
      && 0 < d <= n && LaidNode(code, base, Nest(g, d, lazy)) && pos == base + NodeSize(Nest(g, d, lazy))
      && Chain(code, bralink, base - (4 + NodeSize(g)), d + 1, n, g, lazy)
  }

  lemma OpeningLast(code: seq<Cell>, src: nat, pos: nat, bralink: Option<nat>, n: nat, g: Node, lazy: bool)
    requires Opening(code, src, pos, bralink, 1, n, g, lazy) && pos + 1 + NodeSize(g) <= |code|
    ensures src + NodeSize(g) <= |code|
    ensures var c := Copied(code[pos := Plain(ZeroOp(lazy))], pos + 1, src, NodeSize(g));
            Closing(c, pos, pos + 1 + NodeSize(g), bralink, 1, n, g, lazy) && Agree(code, c, 0, pos)
  {
    assert Look(0);
    LastNest(code, src, pos, g, lazy);
    NestStep(g, 1, lazy);
    var c := Copied(code[pos := Plain(ZeroOp(lazy))], pos + 1, src, NodeSize(g));
    ChainAgree(code, c, bralink, pos - (4 + NodeSize(g)), 2, n, g, lazy);
  }

  method OpenBracket(code: array<Cell>, src: nat, len: nat, pos: nat, bralink: Option<nat>, lazy: bool, ghost i: nat,
                     ghost n: nat, ghost g: Node)
    requires Opening(code[..], src, pos, bralink, i, n, g, lazy) && i > 1 && len == NodeSize(g)
             && pos + 4 + len <= code.Length
    modifies code
    ensures Opening(code[..], src, pos + 4 + len, Some(pos + 2), i - 1, n, g, lazy)
            && Agree(old(code[..]), code[..], 0, pos)
  {
    ghost var c0 := code[..];
    OpeningIs(c0, src, pos, bralink, i, n, g, lazy, 4 + len);
    OpenCopy(code, src, len, pos, ZeroOp(lazy), LinkBack(pos, bralink));
    OpeningStep(c0, code[..], src, pos, 4 + len, bralink, i, n, g, lazy);
  }

  method OpenCopy(code: array<Cell>, src: nat, len: nat, pos: nat, zero: int, link: int)
    requires src + len <= code.Length && pos + 4 + len <= code.Length
    modifies code
    ensures code[..] == Opened(old(code[..]), src, pos, len, zero, link)
  {
    PutOpener(code, pos, zero, link);
    MoveUnits(code, pos + 4, src, len);
  }

  method PutOpener(code: array<Cell>, pos: nat, zero: int, link: int)
    requires pos + 1 < code.Length
    modifies code
    ensures code[..] == old(code[..])[pos := Plain(zero)][pos + 1 := WithLink(OP_BRA, link)]
  {
    code[pos] := Plain(zero);
    code[pos + 1] := WithLink(OP_BRA, link);
  }

  method LastCopy(code: array<Cell>, src: nat, len: nat, pos: nat, lazy: bool, ghost bralink: Option<nat>, ghost n: nat,
                  ghost g: Node)
    requires Opening(code[..], src, pos, bralink, 1, n, g, lazy) && len == NodeSize(g) && pos + 1 + len <= code.Length
    modifies code
    ensures Closing(code[..], pos, pos + 1 + len, bralink, 1, n, g, lazy) && Agree(old(code[..]), code[..], 0, pos)
  {
    ghost var c0 := code[..];
    OpeningLast(c0, src, pos, bralink, n, g, lazy);
    code[pos] := Plain(ZeroOp(lazy));
    MoveUnits(code, pos + 1, src, len);
    assert code[..] == Copied(c0[pos := Plain(ZeroOp(lazy))], pos + 1, src, len);
  }

  /** Put in the optional copies from number i0 down, each but the last in a bracket that is left open. */
  method OpenNests(code: array<Cell>, src: nat, len: nat, pos0: nat, bralink0: Option<nat>, i0: nat, lazy: bool,
                   ghost n: nat, ghost g: Node)
      returns (pos: nat, bralink: Option<nat>)
    requires i0 > 0 && len == NodeSize(g) && Opening(code[..], src, pos0, bralink0, i0, n, g, lazy)
    requires pos0 + NodeSize(Nest(g, i0, lazy)) <= code.Length
    modifies code
    ensures pos0 <= pos && Agree(old(code[..]), code[..], 0, pos0)
            && Closing(code[..], pos, pos + 1 + len, bralink, 1, n, g, lazy)
    ensures pos + 1 + len + 3 * i0 == pos0 + NodeSize(Nest(g, i0, lazy)) + 3
  {
    pos, bralink := pos0, bralink0;
    var i := i0;
    NestStep(g, 1, lazy);
    while i > 1
      invariant 0 < i <= i0 && pos0 <= pos && Agree(old(code[..]), code[..], 0, pos0)
      invariant Opening(code[..], src, pos, bralink, i, n, g, lazy)
      invariant pos + NodeSize(Nest(g, i, lazy)) + 3 * (i0 - i) == pos0 + NodeSize(Nest(g, i0, lazy))
    {
      NestStep(g, i, lazy);
      ghost var c0 := code[..];
      OpenBracket(code, src, len, pos, bralink, lazy, i, n, g);
      AgreeTwice(old(code[..]), c0, code[..], pos0, pos);
      bralink := Some(pos + 2);
      pos := pos + 4 + len;
      i := i - 1;
    }
    ghost var c0 := code[..];
    LastCopy(code, src, len, pos, lazy, bralink, n, g);
    AgreeTwice(old(code[..]), c0, code[..], pos0, pos);
  }

  lemma AgreeTwice(a: seq<Cell>, b: seq<Cell>, c: seq<Cell>, p: nat, q: nat)
    requires Agree(a, b, 0, p) && Agree(b, c, 0, q) && p <= q
    ensures Agree(a, c, 0, p)
  {
  }

  lemma ClosingTop(code: seq<Cell>, base: nat, pos: nat, link: nat, d: nat, n: nat, g: Node, lazy: bool)
      returns (p: nat, w: nat)
    requires Closing(code, base, pos, Some(link), d, n, g, lazy)
    ensures w == 4 + NodeSize(g) && 0 < d < n && base == p + w && link == p + 2 && p + 1 < pos && p + 1 < |code|
    ensures Link(code[p + 1]) == (if d + 1 == n then 0 else w) && (d + 1 < n ==> w <= p)
    ensures Pending(code, p, d + 1, n, g, ZeroOp(lazy), w)
    ensures LaidNode(code, base, Nest(g, d, lazy)) && pos == base + NodeSize(Nest(g, d, lazy))
  {
    assert Look(0);
    w := 4 + NodeSize(g);
    p := base - w;
    PendingTop(code, p, d + 1, n, g, ZeroOp(lazy), w);
  }

  function LinkBefore(link: nat, w: nat, last: bool): Option<nat> { if last || link < w then None else Some(link - w) }

  lemma ClosingFold(code: seq<Cell>, base: nat, pos: nat, link: nat, w: nat, d: nat, n: nat, g: Node, lazy: bool)
    requires 0 < d <= n && LaidNode(code, base, Nest(g, d, lazy)) && pos == base + NodeSize(Nest(g, d, lazy))
             && link == base + 2 && w == 4 + NodeSize(g)
    requires d < n ==> w <= base && Pending(code, base - w, d + 1, n, g, ZeroOp(lazy), w)
    ensures Closing(code, base, pos, LinkBefore(link, w, d == n), d, n, g, lazy)
  {
  }

  lemma ClosingStep(code: seq<Cell>, c: seq<Cell>, base: nat, p: nat, pos: nat, link: nat, d: nat, n: nat, g: Node,
                    lazy: bool)
    requires Closing(code, base, pos, Some(link), d, n, g, lazy) && pos + 3 <= |code| && link == p + 2
             && Closed(code, c, p + 1, pos)
    ensures Agree(code, c, 0, p)
    ensures Closing(c, p, pos + 1 + LINK_SIZE, LinkBefore(link, 4 + NodeSize(g), d + 1 == n), d + 1, n, g, lazy)
  {
    var p', w := ClosingTop(code, base, pos, link, d, n, g, lazy);
    assert p' == p;
    CloseNest(code, c, p, base, d, n, g, lazy, w, pos);
    ClosingFold(c, p, pos + 1 + LINK_SIZE, link, w, d + 1, n, g, lazy);
  }

  /** Close the innermost bracket and follow its link to the one before. */
  method CloseBracket(code: array<Cell>, pos: nat, link: nat, ghost base: nat, ghost d: nat, ghost n: nat,
                      ghost g: Node, ghost lazy: bool)
      returns (bralink: Option<nat>, ghost base': nat)
    requires Closing(code[..], base, pos, Some(link), d, n, g, lazy) && pos + 3 <= code.Length
    modifies code
    ensures base' < base && Closing(code[..], base', pos + 1 + LINK_SIZE, bralink, d + 1, n, g, lazy)
    ensures Agree(old(code[..]), code[..], 0, base')
  {
    ghost var p, w := ClosingTop(code[..], base, pos, link, d, n, g, lazy);
    ghost var c0 := code[..];
    var linkoffset := pos - link + 1;
    var bra := pos - linkoffset;
    var oldlinkoffset := Link(code[bra]);
    bralink := None;
    if oldlinkoffset != 0 {
      var back: nat := link - oldlinkoffset;
      bralink := Some(back);
    }
    code[pos] := WithLink(OP_KET, linkoffset);
    code[bra] := WithLink(OP_BRA, linkoffset);
    assert Closed(c0, code[..], p + 1, pos);
    ClosingStep(c0, code[..], base, p, pos, link, d, n, g, lazy);
    base' := p;
  }

  /** Closes the brackets of a nest, from the inside out, each with its link. */
  method CloseNests(code: array<Cell>, pos0: nat, bralink0: Option<nat>, ghost q0: nat, ghost n: nat, ghost g: Node,
                    ghost lazy: bool)
      returns (pos: nat, ghost base: nat)
    requires Closing(code[..], q0, pos0, bralink0, 1, n, g, lazy) && n > 0 && pos0 + 3 * (n - 1) <= code.Length
    modifies code
    ensures Closing(code[..], base, pos, None, n, n, g, lazy) && pos == pos0 + 3 * (n - 1)
    ensures base <= q0 && Agree(old(code[..]), code[..], 0, base)
  {
    pos := pos0;
    var bralink := bralink0;
    base := q0;
    ghost var d := 1;
    ChainEnd(code[..], base, pos, bralink, d, n, g, lazy);
    while bralink.Some?
      invariant 0 < d <= n && base <= q0 && (bralink.None? <==> d == n)
      invariant Closing(code[..], base, pos, bralink, d, n, g, lazy)
      invariant pos + 3 * (n - d) == pos0 + 3 * (n - 1)
      invariant Agree(old(code[..]), code[..], 0, base)
      decreases n - d
    {
      ghost var c0 := code[..];
      bralink, base := CloseBracket(code, pos, bralink.value, base, d, n, g, lazy);
      pos := pos + 1 + LINK_SIZE;
      d := d + 1;
      AgreeTwice(old(code[..]), c0, code[..], base, base);
      ChainEnd(code[..], base, pos, bralink, d, n, g, lazy);
    }
  }

  lemma ChainEnd(code: seq<Cell>, base: nat, pos: nat, bralink: Option<nat>, d: nat, n: nat, g: Node, lazy: bool)
    requires Closing(code, base, pos, bralink, d, n, g, lazy)
    ensures 0 < d <= n && (bralink.None? <==> d == n)
  {
    assert Look(0);
  }

  lemma {:induction false} CopiesLaid(code: seq<Cell>, code': seq<Cell>, x: nat, p: nat, g: Node, i: nat)
    requires LaidBranch(code, x, Copies(g, i, Nil)) && p == x + BranchSize(Copies(g, i, Nil))
             && Agree(code, code', 0, p)
    requires LaidNode(code', p, g)
    ensures LaidBranch(code', x, Copies(g, i + 1, Nil))
            && BranchSize(Copies(g, i + 1, Nil)) == BranchSize(Copies(g, i, Nil)) + NodeSize(g)
  {
    var b := Copies(g, i, Nil);
    BranchAgree(code, code', x, b);
    CopiesJoin(g, i, Nil);
    OneLaid(code', p, g);
    JoinLaid(code', x, p, b, Cons(g, Nil));
  }

  lemma OneLaid(code: seq<Cell>, x: nat, n: Node)
    requires LaidNode(code, x, n)
    ensures LaidBranch(code, x, Cons(n, Nil)) && BranchSize(Cons(n, Nil)) == NodeSize(n)
  {
  }

  /** Several copies of a group, the first of which is at `previous`. */
  ghost predicate CopiesAt(code: seq<Cell>, previous: nat, end: nat, g: Node, i: nat) {
    forall k: int {:trigger Look(k)} :: Look(k) ==>
      && i > 0 && LaidNode(code, previous, g) && previous + NodeSize(g) <= end
      && LaidBranch(code, previous, Copies(g, i, Nil)) && end == previous + BranchSize(Copies(g, i, Nil))
  }

  lemma CopiesFirst(code: seq<Cell>, previous: nat, g: Node)
    requires LaidNode(code, previous, g)
    ensures CopiesAt(code, previous, previous + NodeSize(g), g, 1)
  {
    assert Copies(g, 1, Nil) == Cons(g, Nil);
    OneLaid(code, previous, g);
  }

  /** The last of several copies, which end at `end`, and the ones before it. */
  ghost predicate LastAt(code: seq<Cell>, previous: nat, last: nat, g: Node, i: nat) {
    forall k: int {:trigger Look(k)} :: Look(k) ==>
      LaidNode(code, last, g) && if i > 1 then CopiesAt(code, previous, last, g, i - 1) else last == previous
  }

  lemma CopiesStep(code: seq<Cell>, previous: nat, end: nat, g: Node, i: nat)
    requires CopiesAt(code, previous, end, g, i) && end + NodeSize(g) <= |code|
    ensures previous + NodeSize(g) <= |code|
    ensures var c := Copied(code, end, previous, NodeSize(g));
            && CopiesAt(c, previous, end + NodeSize(g), g, i + 1) && Agree(code, c, 0, end)
            && LastAt(c, previous, end, g, i + 1)
  {
    assert Look(0);
    var c := Copied(code, end, previous, NodeSize(g));
    CopiedUnits(code, end, previous, NodeSize(g));
    NodeMoved(code, previous, c, end, g);
    NodeAgree(code, c, previous, g);
    CopiesLaid(code, c, previous, end, g, i);
    BranchAgree(code, c, previous, Copies(g, i, Nil));
  }

  method OneCopy(code: array<Cell>, previous: nat, len: nat, end: nat, ghost i: nat, ghost g: Node)
    requires len == NodeSize(g) && CopiesAt(code[..], previous, end, g, i) && end + len <= code.Length
    modifies code
    ensures CopiesAt(code[..], previous, end + len, g, i + 1) && LastAt(code[..], previous, end, g, i + 1)
    ensures Agree(old(code[..]), code[..], 0, end)
  {
    CopiesStep(code[..], previous, end, g, i);
    MoveUnits(code, end, previous, len);
  }

  /** Copies the group min - 1 times, each copy right after the one before. */
  method MoreCopies(code: array<Cell>, previous: nat, len: nat, min: nat, ghost g: Node) returns (end: nat)
    requires min > 0 && len == NodeSize(g) && LaidNode(code[..], previous, g) && previous + min * len <= code.Length
    modifies code
    ensures CopiesAt(code[..], previous, end, g, min) && end == previous + min * len
    ensures previous + len <= end && LastAt(code[..], previous, end - len, g, min)
    ensures Agree(old(code[..]), code[..], 0, previous + len)
  {
    CopiesFirst(code[..], previous, g);
    end := previous + len;
    var i := 1;
    while i < min
      invariant 1 <= i <= min && CopiesAt(code[..], previous, end, g, i) && end == previous + i * len
      invariant previous + len <= end && LastAt(code[..], previous, end - len, g, i)
      invariant Agree(old(code[..]), code[..], 0, previous + len)
    {
      ghost var c0 := code[..];
      TimesLess(i, min, len);
      OneCopy(code, previous, len, end, i, g);
      AgreeTwice(old(code[..]), c0, code[..], previous + len, end);
      end := end + len;
      i := i + 1;
    }
  }

  lemma TimesLess(i: nat, m: nat, w: nat)
    requires i < m
    ensures i * w + w <= m * w && (i + 1) * w == i * w + w
  {
    var d: nat := m - (i + 1);
    assert m * w == i * w + w + d * w;
  }

  predicate Plainly(g: Node) { g.Group? && g.ket == OP_KET && (g.bra == OP_BRA || g.bra == OP_CBRA) && OkNode(g) }

  /** Move the group up by one unit and put an opcode before it. */
  method PutBefore(code: array<Cell>, previous: nat, len: nat, op: int, ghost g: Node)
    requires g.Group? && len == NodeSize(g) && LaidNode(code[..], previous, g) && previous + 1 + len <= code.Length
    modifies code
    ensures LaidNode(code[..], previous, Optional(op, g)) && Agree(old(code[..]), code[..], 0, previous)
    ensures LaidNode(code[..], previous + 1, g)
  {
    ghost var c0 := code[..];
    MoveUnits(code, previous + 1, previous, len);
    CopiedUnits(c0, previous + 1, previous, len);
    NodeMoved(c0, previous, code[..], previous + 1, g);
    ghost var c1 := code[..];
    code[previous] := Plain(op);
    NodeAgree(c1, code[..], previous + 1, g);
  }

  /** Move the group up, and put it into an optional bracket that is left open. */
  method OpenFirst(code: array<Cell>, previous: nat, len: nat, lazy: bool, ghost n: nat, ghost g: Node)
    requires g.Group? && len == NodeSize(g) && LaidNode(code[..], previous, g) && previous + 4 + len <= code.Length
             && n > 1
    modifies code
    ensures Opening(code[..], previous + 4, previous + 4 + len, Some(previous + 2), n - 1, n, g, lazy)
    ensures Agree(old(code[..]), code[..], 0, previous)
  {
    ghost var c0 := code[..];
    MoveUnits(code, previous + 4, previous, len);
    CopiedUnits(c0, previous + 4, previous, len);
    NodeMoved(c0, previous, code[..], previous + 4, g);
    ghost var c1 := code[..];
    code[previous] := Plain(ZeroOp(lazy));
    code[previous + 1] := WithLink(OP_BRA, 0);
    NodeAgree(c1, code[..], previous + 4, g);
    OpeningFold(code[..], previous, n, g, lazy);
  }

  lemma OpeningFold(code: seq<Cell>, p: nat, n: nat, g: Node, lazy: bool)
    requires g.Group? && n > 1 && p + 4 + NodeSize(g) <= |code| && LaidNode(code, p + 4, g)
    requires code[p] == Plain(ZeroOp(lazy)) && code[p + 1] == WithLink(OP_BRA, 0)
    ensures Opening(code, p + 4, p + 4 + NodeSize(g), Some(p + 2), n - 1, n, g, lazy)
  {
    assert Pending(code, p, n, n, g, ZeroOp(lazy), 4 + NodeSize(g));
  }

  /** All the optional copies, once the place for the first one is settled. */
  method NestCopies(code: array<Cell>, src: nat, len: nat, pos0: nat, bralink0: Option<nat>, i0: nat, lazy: bool,
                    ghost base: nat, ghost n: nat, ghost g: Node)
      returns (end: nat)
    requires i0 > 0 && len == NodeSize(g) && Opening(code[..], src, pos0, bralink0, i0, n, g, lazy)
    requires (i0 == n && base == pos0) || (i0 + 1 == n && base + 4 + len == pos0)
    requires base + NodeSize(Nest(g, n, lazy)) <= code.Length
    modifies code
    ensures LaidNode(code[..], base, Nest(g, n, lazy)) && end == base + NodeSize(Nest(g, n, lazy))
    ensures Agree(old(code[..]), code[..], 0, base)
  {
    if i0 < n { NestStep(g, n, lazy); }
    NestStep(g, 1, lazy);
    var pos, bralink := OpenNests(code, src, len, pos0, bralink0, i0, lazy, n, g);
    ghost var c1 := code[..];
    ghost var b;
    end, b := CloseNests(code, pos + 1 + len, bralink, pos, n, g, lazy);
    ClosingDone(code[..], b, end, n, g, lazy);
    AgreeTwice(old(code[..]), c1, code[..], base, base);
  }

  lemma ClosingDone(code: seq<Cell>, base: nat, pos: nat, n: nat, g: Node, lazy: bool)
    requires n > 0 && Closing(code, base, pos, None, n, n, g, lazy)
    ensures LaidNode(code, base, Nest(g, n, lazy)) && pos == base + NodeSize(Nest(g, n, lazy))
  {
    assert Look(0);
  }

  /** Make the last copy, which ends at `end`, the one that repeats. */
  method SetLoop(code: array<Cell>, end: nat, lazy: bool, consumes: bool, ghost p: nat, ghost g: Node)
    requires Plainly(g) && LaidNode(code[..], p, g) && end == p + NodeSize(g)
    modifies code
    ensures LaidNode(code[..], p, Looped(g, lazy, consumes)) && Agree(old(code[..]), code[..], 0, p)
    ensures NodeSize(Looped(g, lazy, consumes)) == NodeSize(g)
  {
    ghost var c0 := code[..];
    ghost var k := GroupOpen(c0, p, g);
    var ketcode := end - 1 - LINK_SIZE;
    assert ketcode == k;
    var bracode := ketcode - Link(code[ketcode]);
    if !consumes { code[bracode] := WithOp(code[bracode], OpOf(code[bracode]) + OP_SBRA - OP_BRA); }
    code[ketcode] := WithOp(code[ketcode], if lazy then OP_KETRMIN else OP_KETRMAX);
    LoopLaid(c0, code[..], p, p + BraSize(g.bra), ketcode, g, lazy, consumes);
  }

  lemma LoopLaid(code: seq<Cell>, c: seq<Cell>, p: nat, x: nat, k: nat, g: Node, lazy: bool, consumes: bool)
    requires Plainly(g) && x == p + BraSize(g.bra) && LaidAlts(code, x, g.alts) && k == x + AltsSize(g.alts)
             && k + 1 + LINK_SIZE <= |code| == |c|
    requires code[p] == BraCell(g.bra, g.number, BranchSize(g.alts.branch) + BraSize(g.bra))
             && code[k] == WithLink(OP_KET, k - p)
    requires c[p] == if consumes then code[p] else WithOp(code[p], OpOf(code[p]) + OP_SBRA - OP_BRA)
    requires c[k] == WithOp(code[k], if lazy then OP_KETRMIN else OP_KETRMAX) && Agree(code, c, x, k)
    ensures LaidNode(c, p, Looped(g, lazy, consumes)) && NodeSize(Looped(g, lazy, consumes)) == NodeSize(g)
  {
    var bra, ket := if consumes then g.bra else g.bra + OP_SBRA - OP_BRA, if lazy then OP_KETRMIN else OP_KETRMAX;
    LoopOpener(code[p], c[p], bra, BranchSize(g.alts.branch) + BraSize(g.bra), g, consumes);
    LoopFold(code, c, p, x, k, bra, g.number, g.alts, ket);
  }

  lemma LoopOpener(u: Cell, v: Cell, bra: int, link: int, g: Node, consumes: bool)
    requires Plainly(g) && u == BraCell(g.bra, g.number, link) && link >= 0
    requires v == if consumes then u else WithOp(u, OpOf(u) + OP_SBRA - OP_BRA)
    requires bra == if consumes then g.bra else g.bra + OP_SBRA - OP_BRA
    ensures v == BraCell(bra, g.number, link) && BraSize(bra) == BraSize(g.bra)
  {
    SForm(g.bra, g.number, link);
  }

  lemma LoopFold(code: seq<Cell>, c: seq<Cell>, p: nat, x: nat, k: nat, bra: int, num: nat, alts: Alts, ket: int)
    requires p < x == p + BraSize(bra) && LaidAlts(code, x, alts) && k == x + AltsSize(alts)
             && k + 1 + LINK_SIZE <= |code| == |c|
    requires c[p] == BraCell(bra, num, BranchSize(alts.branch) + BraSize(bra)) && c[k] == WithLink(ket, k - p)
             && Agree(code, c, x, k)
    ensures LaidNode(c, p, Group(bra, num, alts, ket))
  {
    AltsAgree(code, c, x, alts);
    GroupFold(c, p, k, bra, num, alts, ket);
  }

  lemma SForm(bra: int, num: nat, link: int)
    requires bra == OP_BRA || bra == OP_CBRA
    ensures var u, s := BraCell(bra, num, link), bra + OP_SBRA - OP_BRA;
            WithOp(u, OpOf(u) + OP_SBRA - OP_BRA) == BraCell(s, num, link) && BraSize(s) == BraSize(bra)
  {
  }

  /** Copies before a last part. */
  lemma CopiesThen(code: seq<Cell>, code': seq<Cell>, previous: nat, p: nat, g: Node, i: nat, last: Node)
    requires CopiesAt(code, previous, p, g, i) && Agree(code, code', 0, p) && LaidNode(code', p, last)
    ensures LaidBranch(code', previous, Copies(g, i, Cons(last, Nil)))
    ensures previous + BranchSize(Copies(g, i, Cons(last, Nil))) == p + NodeSize(last)
  {
    assert Look(0);
    var b, t := Copies(g, i, Nil), Cons(last, Nil);
    AgreePart(code, code', 0, p, previous, p);
    BranchAgree(code, code', previous, b);
    CopiesJoin(g, i, t);
    OneLaid(code', p, last);
    JoinLaid(code', previous, p, b, t);
  }

  /** The quantifier of the group at `previous`, which takes up len units. */
  method RepeatGroup(code: array<Cell>, previous: nat, len: nat, min: nat, max: int, lazy: bool, consumes: bool,
                     ghost g: Node)
      returns (end: nat)
    requires Plainly(g) && len == NodeSize(g) && LaidNode(code[..], previous, g) && OkQuant(Times(min, max, lazy))
    requires previous + len <= code.Length
    requires previous + BranchSize(EmitGroup(g, min, max, lazy, consumes, Nil)) <= code.Length
    modifies code
    ensures LaidBranch(code[..], previous, EmitGroup(g, min, max, lazy, consumes, Nil))
    ensures end == previous + BranchSize(EmitGroup(g, min, max, lazy, consumes, Nil))
    ensures Agree(old(code[..]), code[..], 0, previous)
  {
    if min == 1 && max == 1 {
      OneLaid(code[..], previous, g);
      return previous + len;
    }
    if min == 0 {
      end := RepeatOptional(code, previous, len, max, lazy, consumes, g);
    } else {
      end := RepeatRequired(code, previous, len, min, max, lazy, consumes, g);
    }
  }

  /** No copy is required, and there is only one in the code. */
  method RepeatNoneOrOne(code: array<Cell>, previous: nat, len: nat, max: int, lazy: bool, consumes: bool,
                         ghost g: Node)
      returns (end: nat)
    requires Plainly(g) && len == NodeSize(g) && LaidNode(code[..], previous, g) && -1 <= max <= 1
    requires previous + 1 + len <= code.Length
    modifies code
    ensures LaidNode(code[..], previous, EmitGroup(g, 0, max, lazy, consumes, Nil).head)
    ensures end == previous + 1 + len && Agree(old(code[..]), code[..], 0, previous)
  {
    PutBefore(code, previous, len, if max == 0 then OP_SKIPZERO else ZeroOp(lazy), g);
    end := previous + 1 + len;
    if max < 0 {
      ghost var c0 := code[..];
      SetLoop(code, end, lazy, consumes, previous + 1, g);
      AgreeTwice(old(code[..]), c0, code[..], previous, previous + 1);
    } else if max == 1 {
      NestStep(g, 1, lazy);
    }
  }

  /** No copy is required. */
  method RepeatOptional(code: array<Cell>, previous: nat, len: nat, max: int, lazy: bool, consumes: bool, ghost g: Node)
      returns (end: nat)
    requires Plainly(g) && len == NodeSize(g) && LaidNode(code[..], previous, g) && -1 <= max <= MAX_REPEAT
    requires previous + BranchSize(EmitGroup(g, 0, max, lazy, consumes, Nil)) <= code.Length
    modifies code
    ensures LaidBranch(code[..], previous, EmitGroup(g, 0, max, lazy, consumes, Nil))
    ensures end == previous + BranchSize(EmitGroup(g, 0, max, lazy, consumes, Nil))
    ensures Agree(old(code[..]), code[..], 0, previous)
  {
    ghost var n := EmitGroup(g, 0, max, lazy, consumes, Nil).head;
    OptionalSize(g, max, lazy, consumes);
    if max > 1 { NestStep(g, max, lazy); }
    if max <= 1 {
      end := RepeatNoneOrOne(code, previous, len, max, lazy, consumes, g);
    } else {
      OpenFirst(code, previous, len, lazy, max, g);
      ghost var c0 := code[..];
      end := NestCopies(code, previous + 4, len, previous + 4 + len, Some(previous + 2), max - 1, lazy, previous, max,
                        g);
      AgreeTwice(old(code[..]), c0, code[..], previous, previous);
    }
    OneLaid(code[..], previous, n);
  }

  lemma OptionalSize(g: Node, max: int, lazy: bool, consumes: bool)
    requires g.Group? && max >= -1 && (g.bra == OP_BRA || g.bra == OP_CBRA)
    ensures var b := EmitGroup(g, 0, max, lazy, consumes, Nil);
            b.Cons? && b == Cons(b.head, Nil) && BranchSize(b) == NodeSize(b.head)
            && (max <= 1 ==> NodeSize(b.head) == 1 + NodeSize(g))
            && (max > 1 ==> b.head == Nest(g, max, lazy))
  {
    var b := EmitGroup(g, 0, max, lazy, consumes, Nil);
    assert BranchSize(b) == NodeSize(b.head) + BranchSize(b.tail);
    if max == 1 { NestStep(g, 1, lazy); }
  }

  lemma RequiredSize(g: Node, min: nat, max: int, lazy: bool, consumes: bool)
    requires g.Group? && max >= -1 && min > 0 && (max < 0 || min <= max) && !(min == 1 && max == 1)
             && (g.bra == OP_BRA || g.bra == OP_CBRA)
    ensures BranchSize(EmitGroup(g, min, max, lazy, consumes, Nil))
         == min * NodeSize(g) + if max > min then NodeSize(Nest(g, max - min, lazy)) else 0
  {
    if max < 0 {
      var loop := Looped(g, lazy, consumes);
      assert NodeSize(loop) == NodeSize(g) == BranchSize(Cons(loop, Nil));
      CopiesSize(g, min - 1, Cons(loop, Nil));
      OneMoreTimes(NodeSize(g), min);
    } else if max > min {
      assert BranchSize(Cons(Nest(g, max - min, lazy), Nil)) == NodeSize(Nest(g, max - min, lazy));
      CopiesSize(g, min, Cons(Nest(g, max - min, lazy), Nil));
    } else {
      CopiesSize(g, min, Nil);
    }
  }

  /** The copies before the last one, and the last one that repeats. */
  lemma LoopAfter(code: seq<Cell>, code': seq<Cell>, previous: nat, p: nat, g: Node, min: nat, loop: Node)
    requires min > 0 && Agree(code, code', 0, p) && LaidNode(code', p, loop)
    requires if min > 1 then CopiesAt(code, previous, p, g, min - 1) else p == previous
    ensures LaidBranch(code', previous, Copies(g, min - 1, Cons(loop, Nil)))
    ensures previous + BranchSize(Copies(g, min - 1, Cons(loop, Nil))) == p + NodeSize(loop)
  {
    if min > 1 { CopiesThen(code, code', previous, p, g, min - 1, loop); } else { OneLaid(code', p, loop); }
  }

  lemma LastCopyAt(code: seq<Cell>, previous: nat, last: nat, g: Node, i: nat)
    requires LastAt(code, previous, last, g, i)
    ensures LaidNode(code, last, g)
    ensures if i > 1 then CopiesAt(code, previous, last, g, i - 1) else last == previous
  {
    assert Look(0);
  }

  lemma CopiesOpen(code: seq<Cell>, previous: nat, end: nat, g: Node, i: nat, n: nat, lazy: bool)
    requires g.Group? && CopiesAt(code, previous, end, g, i) && n > 0
    ensures Opening(code, previous, end, None, n, n, g, lazy)
  {
    assert Look(0);
  }

  lemma CopiesOnly(code: seq<Cell>, previous: nat, end: nat, g: Node, i: nat)
    requires CopiesAt(code, previous, end, g, i)
    ensures LaidBranch(code, previous, Copies(g, i, Nil)) && end == previous + BranchSize(Copies(g, i, Nil))
  {
    assert Look(0);
  }

  /** The last copy repeats. */
  method LastLoops(code: array<Cell>, previous: nat, len: nat, end: nat, lazy: bool, consumes: bool, ghost min: nat,
                   ghost g: Node)
    requires Plainly(g) && len == NodeSize(g) && min > 0 && previous + len <= end
    requires LastAt(code[..], previous, end - len, g, min)
    modifies code
    ensures LaidBranch(code[..], previous, Copies(g, min - 1, Cons(Looped(g, lazy, consumes), Nil)))
    ensures end == previous + BranchSize(Copies(g, min - 1, Cons(Looped(g, lazy, consumes), Nil)))
    ensures Agree(old(code[..]), code[..], 0, previous)
  {
    ghost var c0, p := code[..], end - len;
    LastCopyAt(c0, previous, p, g, min);
    SetLoop(code, end, lazy, consumes, p, g);
    LoopAfter(c0, code[..], previous, p, g, min, Looped(g, lazy, consumes));
  }

  /** Optional copies come after those that are required. */
  method ThenNest(code: array<Cell>, previous: nat, len: nat, end0: nat, more: nat, lazy: bool, ghost min: nat,
                  ghost g: Node)
      returns (end: nat)
    requires Plainly(g) && len == NodeSize(g) && more > 0 && min > 0 && previous <= end0
    requires CopiesAt(code[..], previous, end0, g, min) && end0 + NodeSize(Nest(g, more, lazy)) <= code.Length
    modifies code
    ensures LaidBranch(code[..], previous, Copies(g, min, Cons(Nest(g, more, lazy), Nil)))
    ensures end == previous + BranchSize(Copies(g, min, Cons(Nest(g, more, lazy), Nil)))
    ensures Agree(old(code[..]), code[..], 0, previous)
  {
    ghost var c0 := code[..];
    CopiesOpen(c0, previous, end0, g, min, more, lazy);
    end := NestCopies(code, previous, len, end0, None, more, lazy, end0, more, g);
    CopiesThen(c0, code[..], previous, end0, g, min, Nest(g, more, lazy));
  }

  lemma RequiredIs(g: Node, min: nat, max: int, lazy: bool, consumes: bool)
    requires g.Group? && min > 0 && (max < 0 || min <= max) && !(min == 1 && max == 1)
             && (g.bra == OP_BRA || g.bra == OP_CBRA)
    ensures EmitGroup(g, min, max, lazy, consumes, Nil) ==
            if max < 0 then Copies(g, min - 1, Cons(Looped(g, lazy, consumes), Nil))
            else if max > min then Copies(g, min, Cons(Nest(g, max - min, lazy), Nil))
            else Copies(g, min, Nil)
  {
  }

  /** At least one copy is required. */
  method RepeatRequired(code: array<Cell>, previous: nat, len: nat, min: nat, max: int, lazy: bool, consumes: bool,
                        ghost g: Node)
      returns (end: nat)
    requires Plainly(g) && len == NodeSize(g) && LaidNode(code[..], previous, g)
    requires OkQuant(Times(min, max, lazy)) && min > 0 && !(min == 1 && max == 1)
    requires previous + BranchSize(EmitGroup(g, min, max, lazy, consumes, Nil)) <= code.Length
    modifies code
    ensures LaidBranch(code[..], previous, EmitGroup(g, min, max, lazy, consumes, Nil))
    ensures end == previous + BranchSize(EmitGroup(g, min, max, lazy, consumes, Nil))
    ensures Agree(old(code[..]), code[..], 0, previous)
  {
    RequiredSize(g, min, max, lazy, consumes);
    RequiredIs(g, min, max, lazy, consumes);
    end := MoreCopies(code, previous, len, min, g);
    ghost var c0 := code[..];
    if max < 0 {
      LastLoops(code, previous, len, end, lazy, consumes, min, g);
    } else if max > min {
      end := ThenNest(code, previous, len, end, max - min, lazy, min, g);
    } else {
      CopiesOnly(c0, previous, end, g, min);
    }
    AgreeTwice(old(code[..]), c0, code[..], previous, previous);
  }
}
