/** Patterns with calls of groups in them, as they lie in the code: where each call leads once the group numbers have
    been replaced by offsets. */
module References {
  import opened Opcodes
  import opened Regex
  import opened Layout
  import opened Recursions
  import opened Numbering

  /** A pattern as it is laid out: items, calls of groups by number, brackets, and brackets that may be left out. */
  datatype Tree =
    | Leaf(node: Node)
    | Call(number: nat)
    | Bracket(bra: int, number: nat, rows: Rows, ket: int)
    | Choice(op: int, bracket: Tree)

  datatype Row = Empty | Then(head: Tree, tail: Row)

  datatype Rows = Only(row: Row) | Either(row: Row, more: Rows)

  predicate OkTree(t: Tree) {
    match t
    case Leaf(n) => !n.Group? && !n.Optional? && OkNode(n)
    case Call(_) => true
    case Bracket(bra, _, rows, ket) => IsBracket(bra) && IsKet(ket) && OkRows(rows)
    case Choice(op, b) => IsZero(op) && b.Bracket? && OkTree(b)
  }

  predicate OkRow(r: Row) { r.Then? ==> OkTree(r.head) && OkRow(r.tail) }

  predicate OkRows(rs: Rows) { OkRow(rs.row) && (rs.Either? ==> OkRows(rs.more)) }

  function Size(t: Tree): (size: nat)
    ensures size > 0
  {
    match t
    case Leaf(n) => NodeSize(n)
    case Call(_) => 1 + LINK_SIZE
    case Bracket(bra, _, rows, _) => BraSize(bra) + RowsSize(rows) + 1 + LINK_SIZE
    case Choice(_, b) => 1 + Size(b)
  }

  function RowSize(r: Row): nat { if r.Empty? then 0 else Size(r.head) + RowSize(r.tail) }

  function RowsSize(rs: Rows): nat { RowSize(rs.row) + if rs.Either? then 1 + LINK_SIZE + RowsSize(rs.more) else 0 }

  /** The tree lies in the code from x on; a call still has the number of its group. */
  predicate Laid(code: seq<Cell>, x: nat, t: Tree)
    decreases t
  {
    && x + Size(t) <= |code|
    && match t
       case Leaf(n) => LaidNode(code, x, n)
       case Call(number) => code[x] == WithLink(OP_RECURSE, number)
       case Bracket(bra, number, rows, ket) =>
         && code[x] == BraCell(bra, number, BraSize(bra) + RowSize(rows.row))
         && LaidRows(code, x + BraSize(bra), rows)
         && code[x + BraSize(bra) + RowsSize(rows)] == WithLink(ket, BraSize(bra) + RowsSize(rows))
       case Choice(op, b) => code[x] == Layout.Plain(op) && Laid(code, x + 1, b)
  }

  predicate LaidRow(code: seq<Cell>, x: nat, r: Row)
    decreases r
  {
    x + RowSize(r) <= |code| && (r.Then? ==> Laid(code, x, r.head) && LaidRow(code, x + Size(r.head), r.tail))
  }

  predicate LaidRows(code: seq<Cell>, x: nat, rs: Rows)
    decreases rs
  {
    && x + RowsSize(rs) < |code| && LaidRow(code, x, rs.row)
    && (rs.Either? ==>
          && code[x + RowSize(rs.row)] == WithLink(OP_ALT, 1 + LINK_SIZE + RowSize(rs.more.row))
          && LaidRows(code, x + RowSize(rs.row) + 1 + LINK_SIZE, rs.more))
  }

  /** The bracket of the whole pattern, and OP_END. */
  predicate LaidOut(code: seq<Cell>, t: Tree) {
    && t.Bracket? && t.bra == OP_BRA && OkTree(t) && Laid(code, 0, t)
    && Size(t) < |code| && code[Size(t)] == Layout.Plain(OP_END)
  }

  /** When t lies at x, its part g lies at q. */
  predicate PartAt(t: Tree, x: nat, q: nat, g: Tree) {
    (x == q && t == g) ||
    match t
    case Bracket(bra, _, rows, _) => PartInRows(rows, x + BraSize(bra), q, g)
    case Choice(_, b) => PartAt(b, x + 1, q, g)
    case _ => false
  }

  predicate PartInRow(r: Row, x: nat, q: nat, g: Tree) {
    r.Then? && (PartAt(r.head, x, q, g) || PartInRow(r.tail, x + Size(r.head), q, g))
  }

  predicate PartInRows(rs: Rows, x: nat, q: nat, g: Tree) {
    PartInRow(rs.row, x, q, g) || (rs.Either? && PartInRows(rs.more, x + RowSize(rs.row) + 1 + LINK_SIZE, q, g))
  }

  predicate Captures(g: Tree, n: nat) { g.Bracket? && IsCapture(g.bra) && g.number == n }

  // --- what the walk through the code meets -----------------------------------------------------------

  /** A capturing bracket or a call, with its offset and its number. */
  datatype Event = Opens(at: nat, number: nat) | Calls(at: nat, group: int)

  function Here(code: seq<Cell>, p: nat): seq<Event>
    requires p < |code|
  {
    if IsCapture(OpOf(code[p])) && code[p].WithCapture? then [Opens(p, code[p].num)]
    else if OpOf(code[p]) == OP_RECURSE then [Calls(p, Link(code[p]))]
    else []
  }

  function Walked(code: seq<Cell>, p: nat): seq<Event>
    requires Walks(code, p)
    decreases |code| - p
  {
    if OpOf(code[p]) == OP_END then [] else Here(code, p) + Walked(code, Next(code, p))
  }

  function Events(t: Tree, x: nat): seq<Event> {
    match t
    case Leaf(_) => []
    case Call(number) => [Calls(x, number)]
    case Bracket(bra, number, rows, _) =>
      (if IsCapture(bra) then [Opens(x, number)] else []) + RowsEvents(rows, x + BraSize(bra))
    case Choice(_, b) => Events(b, x + 1)
  }

  function RowEvents(r: Row, x: nat): seq<Event> {
    if r.Empty? then [] else Events(r.head, x) + RowEvents(r.tail, x + Size(r.head))
  }

  function RowsEvents(rs: Rows, x: nat): seq<Event> {
    RowEvents(rs.row, x) + if rs.Either? then RowsEvents(rs.more, x + RowSize(rs.row) + 1 + LINK_SIZE) else []
  }

  /** From x on the walk meets these events and comes to y. */
  predicate Passes(code: seq<Cell>, x: nat, es: seq<Event>, y: nat) {
    Walks(code, y) ==> Walks(code, x) && Walked(code, x) == es + Walked(code, y)
  }

  lemma PassOne(code: seq<Cell>, x: nat, y: nat)
    requires x < |code| && OpOf(code[x]) != OP_END && y == Next(code, x)
    ensures Passes(code, x, Here(code, x), y)
  {
  }

  lemma PassTwo(code: seq<Cell>, x: nat, es: seq<Event>, y: nat, fs: seq<Event>, z: nat)
    requires Passes(code, x, es, y) && Passes(code, y, fs, z)
    ensures Passes(code, x, es + fs, z)
  {
    if Walks(code, z) { assert es + (fs + Walked(code, z)) == (es + fs) + Walked(code, z); }
  }

  lemma PassLeaf(code: seq<Cell>, x: nat, y: nat, n: Node)
    requires !n.Group? && !n.Optional? && OkNode(n) && LaidNode(code, x, n) && y == x + NodeSize(n)
    ensures Passes(code, x, [], y)
  {
    NodeClass(code, x, n);
    if n.Repeat? && n.item.Set? {
      PassOne(code, x, x + 1 + CLASS_SIZE);
      PassOne(code, x + 1 + CLASS_SIZE, y);
      PassTwo(code, x, [], x + 1 + CLASS_SIZE, [], y);
    } else {
      if n.Repeat? { RepeatOpcode(n.item, n.rep); }
      PassOne(code, x, y);
    }
  }

  lemma {:induction false} PassTree(code: seq<Cell>, x: nat, y: nat, t: Tree)
    requires Laid(code, x, t) && OkTree(t) && y == x + Size(t)
    ensures Passes(code, x, Events(t, x), y)
    decreases t
  {
    match t
    case Leaf(n) => PassLeaf(code, x, y, n);
    case Call(_) => PassOne(code, x, y);
    case Bracket(bra, number, rows, ket) =>
      var first := x + BraSize(bra);
      var k := first + RowsSize(rows);
      PassOne(code, x, first);
      PassRows(code, first, k, rows);
      PassOne(code, k, y);
      PassTwo(code, x, Here(code, x), first, RowsEvents(rows, first), k);
      PassTwo(code, x, Here(code, x) + RowsEvents(rows, first), k, [], y);
      assert Here(code, x) + RowsEvents(rows, first) + [] == Events(t, x);
    case Choice(_, b) =>
      PassOne(code, x, x + 1);
      PassTree(code, x + 1, y, b);
      PassTwo(code, x, [], x + 1, Events(b, x + 1), y);
      assert [] + Events(b, x + 1) == Events(t, x);
  }

  lemma {:induction false} PassRow(code: seq<Cell>, x: nat, y: nat, r: Row)
    requires LaidRow(code, x, r) && OkRow(r) && y == x + RowSize(r)
    ensures Passes(code, x, RowEvents(r, x), y)
    decreases r
  {
    if r.Then? {
      var z := x + Size(r.head);
      PassTree(code, x, z, r.head);
      PassRow(code, z, y, r.tail);
      PassTwo(code, x, Events(r.head, x), z, RowEvents(r.tail, z), y);
    }
  }

  lemma {:induction false} PassRows(code: seq<Cell>, x: nat, y: nat, rs: Rows)
    requires LaidRows(code, x, rs) && OkRows(rs) && y == x + RowsSize(rs)
    ensures Passes(code, x, RowsEvents(rs, x), y)
    decreases rs
  {
    var k, next := FirstRow(code, x, rs);
    RowsEventsAre(rs, x, next);
    PassRow(code, x, k, rs.row);
    if rs.Either? {
      PassRows(code, next, y, rs.more);
      PassAlt(code, x, k, next, y, RowEvents(rs.row, x), RowsEvents(rs.more, next));
    }
  }

  lemma RowsEventsAre(rs: Rows, x: nat, next: nat)
    requires next == x + RowSize(rs.row) + 1 + LINK_SIZE
    ensures rs.Either? ==> RowsEvents(rs, x) == RowEvents(rs.row, x) + RowsEvents(rs.more, next)
    ensures rs.Only? ==> RowsEvents(rs, x) == RowEvents(rs.row, x)
  {
  }

  /** The first of some rows ends at k, where an ALT comes before the others. */
  lemma FirstRow(code: seq<Cell>, x: nat, rs: Rows) returns (k: nat, next: nat)
    requires LaidRows(code, x, rs)
    ensures k == x + RowSize(rs.row) && next == k + 1 + LINK_SIZE && LaidRow(code, x, rs.row) && k < |code|
    ensures rs.Either? ==> OpOf(code[k]) == OP_ALT && LaidRows(code, next, rs.more)
                           && next + RowsSize(rs.more) == x + RowsSize(rs)
    ensures rs.Only? ==> k == x + RowsSize(rs)
  {
    k := x + RowSize(rs.row);
    next := k + 1 + LINK_SIZE;
  }

  lemma PassAlt(code: seq<Cell>, x: nat, k: nat, next: nat, y: nat, es: seq<Event>, fs: seq<Event>)
    requires k < |code| && OpOf(code[k]) == OP_ALT && next == k + 1 + LINK_SIZE
    requires Passes(code, x, es, k) && Passes(code, next, fs, y)
    ensures Passes(code, x, es + fs, y)
  {
    PassOne(code, k, next);
    PassTwo(code, x, es, k, [], next);
    PassTwo(code, x, es + [], next, fs, y);
    assert es + [] == es;
  }

  lemma WalkedIs(code: seq<Cell>, t: Tree)
    requires LaidOut(code, t)
    ensures Walks(code, 0) && Walked(code, 0) == Events(t, 0)
  {
    PassTree(code, 0, Size(t), t);
    assert Walked(code, Size(t)) == [];
  }

  // --- the events of the walk are the opcodes it comes to ------------------------------------------------

  lemma {:induction false} WalkedComes(code: seq<Cell>, p: nat, e: Event)
    requires Walks(code, p) && e in Walked(code, p)
    ensures e.at < |code| && Comes(code, p, e.at) && OpOf(code[e.at]) != OP_END && e in Here(code, e.at)
    decreases |code| - p
  {
    if e !in Here(code, p) { WalkedComes(code, Next(code, p), e); }
  }

  lemma {:induction false} ComesWalked(code: seq<Cell>, p: nat, q: nat, e: Event)
    requires Walks(code, p) && Comes(code, p, q) && q < |code| && OpOf(code[q]) != OP_END && e in Here(code, q)
    ensures e in Walked(code, p)
    decreases |code| - p
  {
    if p != q { ComesWalked(code, Next(code, p), q, e); }
  }

  lemma {:induction false} FindLeast(code: seq<Cell>, p: nat, q: nat, n: int)
    requires Walks(code, p) && Comes(code, p, q) && q < |code| && OpOf(code[q]) != OP_END && IsGroup(code[q], n)
    ensures Find(code, p, n).Some? && Find(code, p, n).value <= q
    decreases |code| - p
  {
    if IsGroup(code[p], n) { ComesOn(code, p, q); } else { FindLeast(code, Next(code, p), q, n); }
  }

  /** The numbers rise: no bracket has a number that is more than one above the highest before it. */
  predicate Rising(es: seq<Event>, m: nat) {
    if es == [] then true
    else if es[0].Opens? then 0 < es[0].number <= m + 1 && Rising(es[1..], Higher(m, es[0].number))
    else Rising(es[1..], m)
  }

  lemma {:induction false} RisingClimbs(code: seq<Cell>, p: nat, m: nat)
    requires Walks(code, p) && Rising(Walked(code, p), m)
    ensures Climbs(code, p, m)
    decreases |code| - p
  {
    if OpOf(code[p]) != OP_END {
      var h, rest := Here(code, p), Walked(code, Next(code, p));
      if h != [] { assert (h + rest)[0] == h[0] && (h + rest)[1..] == rest; } else { assert h + rest == rest; }
      RisingClimbs(code, Next(code, p), if h != [] && h[0].Opens? then Higher(m, h[0].number) else m);
    }
  }

  // --- and the parts of the tree ---------------------------------------------------------------------------

  predicate EventOf(g: Tree, e: Event) {
    if e.Opens? then Captures(g, e.number) else g.Call? && g.number == e.group
  }

  lemma {:induction false} EventPart(t: Tree, x: nat, e: Event) returns (g: Tree)
    requires e in Events(t, x)
    ensures PartAt(t, x, e.at, g) && EventOf(g, e)
    decreases t
  {
    match t
    case Call(_) => g := t;
    case Bracket(bra, number, rows, _) =>
      if IsCapture(bra) && e == Opens(x, number) { g := t; } else { g := RowsEventPart(rows, x + BraSize(bra), e); }
    case Choice(_, b) => g := EventPart(b, x + 1, e);
  }

  lemma {:induction false} RowEventPart(r: Row, x: nat, e: Event) returns (g: Tree)
    requires e in RowEvents(r, x)
    ensures PartInRow(r, x, e.at, g) && EventOf(g, e)
    decreases r
  {
    if e in Events(r.head, x) { g := EventPart(r.head, x, e); } else { g := RowEventPart(r.tail, x + Size(r.head), e); }
  }

  lemma {:induction false} RowsEventPart(rs: Rows, x: nat, e: Event) returns (g: Tree)
    requires e in RowsEvents(rs, x)
    ensures PartInRows(rs, x, e.at, g) && EventOf(g, e)
    decreases rs
  {
    if e in RowEvents(rs.row, x) {
      g := RowEventPart(rs.row, x, e);
    } else {
      g := RowsEventPart(rs.more, x + RowSize(rs.row) + 1 + LINK_SIZE, e);
    }
  }

  lemma {:induction false} PartEvent(t: Tree, x: nat, g: Tree, e: Event)
    requires PartAt(t, x, e.at, g) && EventOf(g, e)
    ensures e in Events(t, x)
    decreases t
  {
    if !(x == e.at && t == g) {
      match t
      case Bracket(bra, _, rows, _) => RowsPartEvent(rows, x + BraSize(bra), g, e);
      case Choice(_, b) => PartEvent(b, x + 1, g, e);
    }
  }

  lemma {:induction false} RowPartEvent(r: Row, x: nat, g: Tree, e: Event)
    requires PartInRow(r, x, e.at, g) && EventOf(g, e)
    ensures e in RowEvents(r, x)
    decreases r
  {
    if PartAt(r.head, x, e.at, g) { PartEvent(r.head, x, g, e); } else { RowPartEvent(r.tail, x + Size(r.head), g, e); }
  }

  lemma {:induction false} RowsPartEvent(rs: Rows, x: nat, g: Tree, e: Event)
    requires PartInRows(rs, x, e.at, g) && EventOf(g, e)
    ensures e in RowsEvents(rs, x)
    decreases rs
  {
    if PartInRow(rs.row, x, e.at, g) {
      RowPartEvent(rs.row, x, g, e);
    } else {
      RowsPartEvent(rs.more, x + RowSize(rs.row) + 1 + LINK_SIZE, g, e);
    }
  }

  lemma {:induction false} PartLaid(code: seq<Cell>, t: Tree, x: nat, q: nat, g: Tree)
    requires Laid(code, x, t) && OkTree(t) && PartAt(t, x, q, g)
    ensures Laid(code, q, g) && OkTree(g)
    decreases t
  {
    if !(x == q && t == g) {
      match t
      case Bracket(bra, _, rows, _) => RowsPartLaid(code, rows, x + BraSize(bra), q, g);
      case Choice(_, b) => PartLaid(code, b, x + 1, q, g);
    }
  }

  lemma {:induction false} RowPartLaid(code: seq<Cell>, r: Row, x: nat, q: nat, g: Tree)
    requires LaidRow(code, x, r) && OkRow(r) && PartInRow(r, x, q, g)
    ensures Laid(code, q, g) && OkTree(g)
    decreases r
  {
    if PartAt(r.head, x, q, g) {
      PartLaid(code, r.head, x, q, g);
    } else {
      RowPartLaid(code, r.tail, x + Size(r.head), q, g);
    }
  }

  lemma {:induction false} RowsPartLaid(code: seq<Cell>, rs: Rows, x: nat, q: nat, g: Tree)
    requires LaidRows(code, x, rs) && OkRows(rs) && PartInRows(rs, x, q, g)
    ensures Laid(code, q, g) && OkTree(g)
    decreases rs
  {
    if PartInRow(rs.row, x, q, g) {
      RowPartLaid(code, rs.row, x, q, g);
    } else {
      RowsPartLaid(code, rs.more, x + RowSize(rs.row) + 1 + LINK_SIZE, q, g);
    }
  }

  // --- where calls lead ------------------------------------------------------------------------------------

  /** The bracket that a call of group n is to lead to lies at x: that of the whole pattern for 0, and otherwise the
      first capturing bracket with that number. */
  predicate IsTarget(t: Tree, n: nat, x: nat, g: Tree) {
    if n == 0 then x == 0 && g == t else PartAt(t, 0, x, g) && Captures(g, n)
  }

  ghost predicate IsFirstTarget(t: Tree, n: nat, x: nat, g: Tree) {
    IsTarget(t, n, x, g) && forall y: nat, h: Tree {:trigger IsTarget(t, n, y, h)} :: IsTarget(t, n, y, h) ==> x <= y
  }

  /** A search from the start of the code finds the first bracket of the pattern with the number, if there is one. */
  lemma TargetIs(code: seq<Cell>, t: Tree, n: nat)
    requires LaidOut(code, t) && Walks(code, 0)
    ensures Target(code, n).Some? <==> exists x: nat, g: Tree :: IsTarget(t, n, x, g)
    ensures Target(code, n).Some? ==> exists g: Tree :: IsFirstTarget(t, n, Target(code, n).value, g)
  {
    WalkedIs(code, t);
    if n == 0 {
      assert IsFirstTarget(t, 0, 0, t);
    } else {
      forall y: nat, h: Tree | IsTarget(t, n, y, h) ensures Target(code, n).Some? && Target(code, n).value <= y {
        PartEvent(t, 0, h, Opens(y, n));
        WalkedComes(code, 0, Opens(y, n));
        FindLeast(code, 0, y, n);
      }
      if Target(code, n).Some? {
        var x := Target(code, n).value;
        FindComes(code, 0, n);
        ComesWalked(code, 0, x, Opens(x, n));
        var g := EventPart(t, 0, Opens(x, n));
        assert IsFirstTarget(t, n, x, g);
      }
    }
  }

  /** Every call of the pattern is a reference on the walk, and every reference on the walk is a call. */
  lemma CallsAre(code: seq<Cell>, t: Tree, q: nat)
    requires LaidOut(code, t) && Walks(code, 0)
    ensures IsReference(code, q) <==> exists n: nat :: PartAt(t, 0, q, Call(n))
    ensures forall n: nat :: PartAt(t, 0, q, Call(n)) ==> q < |code| && code[q] == WithLink(OP_RECURSE, n)
    ensures IsReference(code, q) ==> code[q].WithLink? && PartAt(t, 0, q, Call(Link(code[q])))
  {
    WalkedIs(code, t);
    forall n: nat | PartAt(t, 0, q, Call(n)) ensures IsReference(code, q) && code[q] == WithLink(OP_RECURSE, n) {
      PartEvent(t, 0, Call(n), Calls(q, n));
      WalkedComes(code, 0, Calls(q, n));
      PartLaid(code, t, 0, q, Call(n));
    }
    if IsReference(code, q) {
      var e := Calls(q, Link(code[q]));
      ComesWalked(code, 0, q, e);
      var g := EventPart(t, 0, e);
      PartLaid(code, t, 0, q, g);
      assert g == Call(g.number);
    }
  }

  /** A call of group n at q: its operand is the offset of the bracket it is to lead to. */
  ghost predicate Leads(t: Tree, start: seq<Cell>, code: seq<Cell>, q: nat, n: nat) {
    exists x: nat, g: Tree ::
      && IsFirstTarget(t, n, x, g) && q < |code| && code[q] == WithLink(OP_RECURSE, x)
      && Laid(start, x, g) && x < |code| == |start| && code[x] == start[x]
  }

  /** Replaces the numbers in the calls of a pattern. Each then leads to the bracket of its group, the one of the whole
      pattern for number 0; or some group does not exist. */
  method ResolveCalls(code: array<Cell>, ghost t: Tree) returns (errorcode: int)
    requires LaidOut(code[..], t) && Rising(Events(t, 0), 0)
    modifies code
    ensures errorcode == 0 || errorcode == ERR53
    ensures errorcode == 0 ==> forall q: nat, n: nat :: PartAt(t, 0, q, Call(n)) ==>
              Leads(t, old(code[..]), code[..], q, n)
    ensures errorcode == 0 ==> forall q: nat :: q < code.Length && (forall n: nat :: !PartAt(t, 0, q, Call(n))) ==>
                                 code[q] == old(code[q])
    ensures errorcode == ERR53 <==>
              exists q: nat, n: nat :: PartAt(t, 0, q, Call(n)) && forall x: nat, g: Tree :: !IsTarget(t, n, x, g)
  {
    ghost var start := code[..];
    WalkedIs(start, t);
    RisingClimbs(start, 0, 0);
    ClimbsInOrder(start);
    forall q: nat ensures IsReference(start, q) ==> start[q].WithLink? { CallsAre(start, t, q); }
    errorcode := ResolveRecursions(code);
    CallsLead(start, code[..], t, errorcode);
  }

  lemma CallsLead(start: seq<Cell>, code: seq<Cell>, t: Tree, errorcode: int)
    requires LaidOut(start, t) && Walks(start, 0) && (errorcode == 0 ==> Resolved(start, code, |start|))
    requires errorcode == ERR53 <==>
              exists q: nat :: IsReference(start, q) && Target(start, Link(start[q])).None?
    ensures errorcode == 0 ==> forall q: nat, n: nat :: PartAt(t, 0, q, Call(n)) ==> Leads(t, start, code, q, n)
    ensures errorcode == 0 ==> |code| == |start| && forall q: nat ::
              q < |start| && (forall n: nat :: !PartAt(t, 0, q, Call(n))) ==> code[q] == start[q]
    ensures errorcode == ERR53 <==>
              exists q: nat, n: nat :: PartAt(t, 0, q, Call(n)) && forall x: nat, g: Tree :: !IsTarget(t, n, x, g)
  {
    if errorcode == 0 {
      forall q: nat, n: nat | PartAt(t, 0, q, Call(n)) ensures Leads(t, start, code, q, n) {
        CallLeads(start, code, t, q, n);
      }
      forall q: nat | q < |start| && (forall n: nat :: !PartAt(t, 0, q, Call(n))) ensures code[q] == start[q] {
        CallsAre(start, t, q);
      }
    }
    if errorcode == ERR53 {
      var q: nat :| IsReference(start, q) && Target(start, Link(start[q])).None?;
      CallsAre(start, t, q);
      var n: nat := Link(start[q]);
      TargetIs(start, t, n);
      assert PartAt(t, 0, q, Call(n)) && forall x: nat, g: Tree :: !IsTarget(t, n, x, g);
    }
    if q: nat, n: nat :| PartAt(t, 0, q, Call(n)) && forall x: nat, g: Tree :: !IsTarget(t, n, x, g) {
      CallsAre(start, t, q);
      TargetIs(start, t, n);
      assert IsReference(start, q) && Target(start, Link(start[q])).None?;
    }
  }

  lemma CallLeads(start: seq<Cell>, code: seq<Cell>, t: Tree, q: nat, n: nat)
    requires LaidOut(start, t) && Walks(start, 0) && Resolved(start, code, |start|) && PartAt(t, 0, q, Call(n))
    ensures Leads(t, start, code, q, n)
  {
    CallsAre(start, t, q);
    TargetIs(start, t, n);
    assert code[q] == WithLink(OP_RECURSE, Target(start, n).value);
    var x := Target(start, n).value;
    var g :| IsFirstTarget(t, n, x, g);
    TargetLaid(start, t, n, x, g);
    CallsAre(start, t, x);
    assert code[x] == start[x];
  }

  lemma TargetLaid(code: seq<Cell>, t: Tree, n: nat, x: nat, g: Tree)
    requires LaidOut(code, t) && IsTarget(t, n, x, g)
    ensures g.Bracket? && Laid(code, x, g) && x < |code| && OpOf(code[x]) == g.bra && OpOf(code[x]) != OP_RECURSE
  {
    if n > 0 { PartLaid(code, t, 0, x, g); }
  }
}
