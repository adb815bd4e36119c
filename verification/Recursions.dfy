/** Recursion references: the group numbers in the compiled code become offsets, with the help of a small cache of the
    groups found last. */
module Recursions {
  import opened Opcodes
  import opened Regex
  import opened Layout

  const CACHE_SIZE := 8
  const ERR53 := 153

  // --- the walk from opcode to opcode ---------------------------------------------------

  function Next(code: seq<Cell>, p: nat): nat
    requires p < |code|
    ensures Next(code, p) > p
  {
    p + OpLength(OpOf(code[p]))
  }

  /** From offset p each opcode's length leads to the next opcode, up to OP_END. */
  predicate Walks(code: seq<Cell>, p: nat)
    decreases |code| - p
  {
    p < |code| && (OpOf(code[p]) == OP_END || Walks(code, Next(code, p)))
  }

  /** The walk from p comes to q. */
  predicate Comes(code: seq<Cell>, p: nat, q: nat)
    requires Walks(code, p)
    decreases |code| - p
  {
    p == q || (OpOf(code[p]) != OP_END && Comes(code, Next(code, p), q))
  }

  predicate IsGroup(u: Cell, number: int) { IsCapture(OpOf(u)) && u.WithCapture? && u.num == number }

  /** The first capturing bracket with this number on the walk from p. */
  function Find(code: seq<Cell>, p: nat, number: int): Option<nat>
    requires Walks(code, p)
    decreases |code| - p
  {
    if OpOf(code[p]) == OP_END then None
    else if IsGroup(code[p], number) then Some(p)
    else Find(code, Next(code, p), number)
  }

  lemma {:induction false} FindComes(code: seq<Cell>, p: nat, number: int)
    requires Walks(code, p) && Find(code, p, number).Some?
    ensures var q := Find(code, p, number).value;
            p <= q < |code| && Comes(code, p, q) && IsGroup(code[q], number)
    decreases |code| - p
  {
    if !IsGroup(code[p], number) { FindComes(code, Next(code, p), number); }
  }

  lemma {:induction false} ComesOn(code: seq<Cell>, p: nat, q: nat)
    requires Walks(code, p) && Comes(code, p, q)
    ensures p <= q && Walks(code, q)
    ensures q < |code| && OpOf(code[q]) != OP_END ==> Comes(code, p, Next(code, q))
    decreases |code| - p
  {
    if p != q { ComesOn(code, Next(code, p), q); }
  }

  /** A search may start later, as long as it does not start after the bracket it is to find. */
  lemma {:induction false} FindLater(code: seq<Cell>, p: nat, x: nat, number: int)
    requires Walks(code, p) && Comes(code, p, x)
    requires Find(code, p, number).Some? ==> x <= Find(code, p, number).value
    ensures Walks(code, x) && Find(code, x, number) == Find(code, p, number)
    decreases |code| - p
  {
    if p != x {
      ComesOn(code, Next(code, p), x);
      FindLater(code, Next(code, p), x, number);
    }
  }

  /** find_bracket */
  method FindBracket(code: seq<Cell>, from: nat, number: int) returns (r: Option<nat>)
    requires Walks(code, from)
    ensures r == Find(code, from, number)
  {
    var p := from;
    while true
      invariant Walks(code, p) && Find(code, p, number) == Find(code, from, number)
      decreases |code| - p
    {
      var c := OpOf(code[p]);
      if c == OP_END { return None; }
      if IsCapture(c) && code[p].WithCapture? && code[p].num == number { return Some(p); }
      p := p + OpLength(c);
    }
  }

  /** find_recurse: the next recursion reference on the walk from p. */
  function NextReference(code: seq<Cell>, p: nat): Option<nat>
    requires Walks(code, p)
    decreases |code| - p
  {
    if OpOf(code[p]) == OP_END then None
    else if OpOf(code[p]) == OP_RECURSE then Some(p)
    else NextReference(code, Next(code, p))
  }

  method FindRecurse(code: array<Cell>, from: nat) returns (r: Option<nat>)
    requires Walks(code[..], from)
    ensures r == NextReference(code[..], from)
  {
    var p := from;
    while true
      invariant Walks(code[..], p) && NextReference(code[..], p) == NextReference(code[..], from)
      decreases code.Length - p
    {
      var c := OpOf(code[p]);
      if c == OP_END { return None; }
      if c == OP_RECURSE { return Some(p); }
      p := p + OpLength(c);
    }
  }

  // --- only references change --------------------------------------------------------------

  /** The two vectors differ only in the operands of references. */
  predicate SameShape(code: seq<Cell>, c: seq<Cell>) {
    |c| == |code| && forall i {:trigger c[i]} {:trigger code[i]} :: 0 <= i < |code| ==>
      c[i] == code[i] || (c[i].WithLink? && code[i].WithLink? && c[i].op == OP_RECURSE == code[i].op)
  }

  lemma {:induction false} SameWalk(code: seq<Cell>, c: seq<Cell>, p: nat)
    requires SameShape(code, c) && Walks(code, p)
    ensures Walks(c, p)
    ensures forall q :: Comes(c, p, q) == Comes(code, p, q)
    ensures forall number :: Find(c, p, number) == Find(code, p, number)
    ensures NextReference(c, p) == NextReference(code, p)
    decreases |code| - p
  {
    assert c[p] == c[p];
    if OpOf(code[p]) != OP_END { SameWalk(code, c, Next(code, p)); }
  }

  // --- groups in the order of their numbers ----------------------------------------------------

  /** The first occurrence of a group comes before the first occurrences of the groups with higher numbers. */
  ghost predicate InOrder(code: seq<Cell>)
    requires Walks(code, 0)
  {
    forall m: int, n: int {:trigger Find(code, 0, m), Find(code, 0, n)} ::
      m < n && Find(code, 0, m).Some? && Find(code, 0, n).Some? ==> Find(code, 0, m).value < Find(code, 0, n).value
  }

  // --- the cache --------------------------------------------------------------------------------

  datatype Entry = Entry(groupnumber: int, group: nat)

  /** The entries in use, the latest first, are at start, start + 1 and so on, round the end of the array. */
  function Slot(start: nat, i: nat): nat { (start + i) % CACHE_SIZE }

  ghost predicate Right(code: seq<Cell>, u: Entry)
    requires Walks(code, 0)
  {
    Find(code, 0, u.groupnumber) == Some(u.group)
  }

  ghost predicate CacheRight(code: seq<Cell>, rc: seq<Entry>, start: nat, ccount: nat)
    requires Walks(code, 0)
  {
    && |rc| == CACHE_SIZE && ccount <= CACHE_SIZE && start <= CACHE_SIZE && (ccount > 0 ==> start < CACHE_SIZE)
    && forall i: nat {:trigger Slot(start, i)} :: i < ccount ==> Right(code, rc[Slot(start, i)])
  }

  /** Looks a group up: in the cache, and otherwise in the code from where it can be at the earliest. */
  method Lookup(code: seq<Cell>, rc: array<Entry>, start: nat, ccount: nat, groupnumber: int)
      returns (group: Option<nat>, cached: bool)
    requires Walks(code, 0) && InOrder(code) && CacheRight(code, rc[..], start, ccount)
    ensures group == Find(code, 0, groupnumber) && (cached ==> group.Some?)
  {
    var searchFrom: nat, i, p: nat := 0, 0, start;
    while i < ccount
      invariant 0 <= i <= ccount && (i < ccount ==> p == Slot(start, i))
      invariant searchFrom < |code| && Comes(code, 0, searchFrom)
      invariant Find(code, 0, groupnumber).Some? ==> searchFrom <= Find(code, 0, groupnumber).value
    {
      var u := rc[p];
      assert Right(code, rc[..][Slot(start, i)]);
      FindComes(code, 0, u.groupnumber);
      if groupnumber == u.groupnumber { return Some(u.group), true; }
      if groupnumber > u.groupnumber { searchFrom := u.group; }
      i, p := i + 1, (p + 1) % CACHE_SIZE;
    }
    FindLater(code, 0, searchFrom, groupnumber);
    group := FindBracket(code, searchFrom, groupnumber);
    cached := false;
  }

  /** A group that has been looked for goes to the front of the cache; when the cache is full, the oldest entry is
      lost. */
  method Remember(rc: array<Entry>, start0: nat, ccount0: nat, u: Entry, ghost code: seq<Cell>)
      returns (start: nat, ccount: nat)
    requires Walks(code, 0) && CacheRight(code, rc[..], start0, ccount0) && Right(code, u)
    requires ccount0 == 0 || start0 < CACHE_SIZE
    modifies rc
    ensures CacheRight(code, rc[..], start, ccount) && ccount > 0 && rc[start] == u
  {
    start := if start0 == 0 then CACHE_SIZE - 1 else start0 - 1;
    ghost var before := rc[..];
    rc[start] := u;
    ccount := if ccount0 < CACHE_SIZE then ccount0 + 1 else ccount0;
    forall i: nat | i < ccount ensures Right(code, rc[..][Slot(start, i)]) {
      if i > 0 { assert Slot(start, i) == Slot(start0, i - 1) && Right(code, before[Slot(start0, i - 1)]); }
    }
  }

  // --- filling in the offsets --------------------------------------------------------------------

  /** There is a reference at q. */
  predicate IsReference(code: seq<Cell>, q: nat)
    requires Walks(code, 0)
  {
    Comes(code, 0, q) && q < |code| && OpOf(code[q]) == OP_RECURSE
  }

  /** Where the group that a reference names starts; number 0 is the whole pattern. */
  function Target(code: seq<Cell>, number: int): Option<nat>
    requires Walks(code, 0)
  {
    if number == 0 then Some(0) else Find(code, 0, number)
  }

  /** The references before offset p lead to their groups, and nothing else has changed. */
  ghost predicate Resolved(code: seq<Cell>, c: seq<Cell>, p: nat)
    requires Walks(code, 0)
  {
    |c| == |code| && forall q: nat {:trigger c[q]} {:trigger code[q]} :: q < |code| ==>
      if q < p && IsReference(code, q) then
        Target(code, Link(code[q])).Some? && c[q] == WithLink(OP_RECURSE, Target(code, Link(code[q])).value)
      else c[q] == code[q]
  }

  lemma {:induction false} ComesFrom(code: seq<Cell>, x: nat, p: nat, q: nat)
    requires Walks(code, x) && Comes(code, x, p) && Comes(code, x, q) && p <= q
    ensures Walks(code, p) && Comes(code, p, q)
    decreases |code| - x
  {
    if x != p {
      ComesOn(code, Next(code, x), p);
      ComesFrom(code, Next(code, x), p, q);
    }
  }

  /** No reference lies between offset p and the next one. */
  lemma {:induction false} NoneBetween(code: seq<Cell>, p: nat, q: nat)
    requires Walks(code, p) && Comes(code, p, q) && q < |code| && OpOf(code[q]) == OP_RECURSE
    ensures NextReference(code, p).Some? && NextReference(code, p).value <= q
    decreases |code| - p
  {
    ComesOn(code, p, q);
    if OpOf(code[p]) != OP_RECURSE { NoneBetween(code, Next(code, p), q); }
  }

  lemma {:induction false} ReferenceComes(code: seq<Cell>, p: nat)
    requires Walks(code, p) && NextReference(code, p).Some?
    ensures var q := NextReference(code, p).value;
            p <= q < |code| && Comes(code, p, q) && OpOf(code[q]) == OP_RECURSE
    decreases |code| - p
  {
    if OpOf(code[p]) != OP_RECURSE { ReferenceComes(code, Next(code, p)); }
  }

  lemma {:induction false} ComesJoin(code: seq<Cell>, x: nat, p: nat, q: nat)
    requires Walks(code, x) && Comes(code, x, p) && Walks(code, p) && Comes(code, p, q)
    ensures Comes(code, x, q)
    decreases |code| - x
  {
    if x != p { ComesJoin(code, Next(code, x), p, q); }
  }

  /** The references up to p have been dealt with; r is the next one. */
  lemma ResolvedTo(code: seq<Cell>, c: seq<Cell>, p: nat, r: Option<nat>)
    requires Walks(code, 0) && Comes(code, 0, p) && Walks(code, p) && Resolved(code, c, p)
             && r == NextReference(code, p)
    ensures r.Some? ==> p <= r.value && IsReference(code, r.value) && Resolved(code, c, r.value)
    ensures r.None? ==> Resolved(code, c, |code|)
  {
    if r.Some? {
      ReferenceComes(code, p);
      ComesJoin(code, 0, p, r.value);
    }
    var end := if r.Some? then r.value else |code|;
    forall q: nat | q < end && IsReference(code, q) ensures q < p {
      if q >= p {
        ComesFrom(code, 0, p, q);
        NoneBetween(code, p, q);
      }
    }
  }

  lemma ResolvedShape(code: seq<Cell>, c: seq<Cell>, p: nat)
    requires Walks(code, 0) && Resolved(code, c, p) && forall q: nat :: IsReference(code, q) ==> code[q].WithLink?
    ensures SameShape(code, c)
  {
  }

  /** The reference at r has been filled in. */
  lemma ResolvedOne(code: seq<Cell>, c: seq<Cell>, r: nat, target: nat)
    requires Walks(code, 0) && IsReference(code, r) && Resolved(code, c, r)
             && Target(code, Link(code[r])) == Some(target)
    ensures Comes(code, 0, Next(code, r)) && Walks(code, Next(code, r))
    ensures Resolved(code, c[r := WithLink(OP_RECURSE, target)], Next(code, r))
  {
    ComesOn(code, 0, r);
    ComesOn(code, 0, Next(code, r));
    forall q: nat | r < q && IsReference(code, q) ensures Next(code, r) <= q {
      ComesFrom(code, 0, r, q);
      ComesOn(code, Next(code, r), q);
    }
  }

  /** Writes the offset of the group into the reference, once the group has been found. */
  method FillReference(code: array<Cell>, r: nat, rc: array<Entry>, start0: nat, ccount0: nat, ghost c0: seq<Cell>)
      returns (found: bool, start: nat, ccount: nat)
    requires Walks(c0, 0) && InOrder(c0) && CacheRight(c0, rc[..], start0, ccount0) && IsReference(c0, r)
             && Resolved(c0, code[..], r)
    requires SameShape(c0, code[..])
    modifies code, rc
    ensures found <==> Target(c0, Link(c0[r])).Some?
    ensures found ==> Comes(c0, 0, Next(c0, r)) && Walks(c0, Next(c0, r)) && Resolved(c0, code[..], Next(c0, r))
    ensures found ==> CacheRight(c0, rc[..], start, ccount)
  {
    start, ccount := start0, ccount0;
    SameWalk(c0, code[..], 0);
    var groupnumber := Link(code[r]);
    var rgroup: Option<nat> := Some(0);
    if groupnumber != 0 {
      CacheSame(c0, code[..], rc[..], start, ccount);
      var cached;
      rgroup, cached := Lookup(code[..], rc, start, ccount, groupnumber);
      if rgroup.None? { return false, start, ccount; }
      if !cached { start, ccount := Remember(rc, start, ccount, Entry(groupnumber, rgroup.value), c0); }
    }
    ResolvedOne(c0, code[..], r, rgroup.value);
    code[r] := WithLink(OP_RECURSE, rgroup.value);
    found := true;
  }

  lemma CacheSame(code: seq<Cell>, c: seq<Cell>, rc: seq<Entry>, start: nat, ccount: nat)
    requires Walks(code, 0) && SameShape(code, c) && InOrder(code) && CacheRight(code, rc, start, ccount)
    ensures Walks(c, 0) && InOrder(c) && CacheRight(c, rc, start, ccount)
  {
    SameWalk(code, c, 0);
  }

  /** Replaces the group number in every reference by the offset of the group: the same offset that a search from the
      start of the code would give, whatever the cache holds. */
  method ResolveRecursions(code: array<Cell>) returns (errorcode: int)
    requires Walks(code[..], 0) && InOrder(code[..])
    requires forall q: nat :: IsReference(code[..], q) ==> code[q].WithLink?
    modifies code
    ensures errorcode == 0 ==> Resolved(old(code[..]), code[..], code.Length)
    ensures errorcode == 0 || errorcode == ERR53
    ensures errorcode == ERR53 <==>
              exists q: nat :: IsReference(old(code[..]), q) && Target(old(code[..]), Link(old(code[..])[q])).None?
  {
    ghost var c0 := code[..];
    var rc := new Entry[CACHE_SIZE](_ => Entry(0, 0));
    var start: nat, ccount: nat := CACHE_SIZE, 0;
    ghost var p: nat := 0;
    var rcode := FindRecurse(code, 0);
    ResolvedTo(c0, c0, 0, rcode);
    while rcode.Some?
      invariant fresh(rc) && CacheRight(c0, rc[..], start, ccount)
      invariant Resolved(c0, code[..], if rcode.Some? then rcode.value else |c0|)
      invariant rcode.Some? ==> IsReference(c0, rcode.value)
      decreases if rcode.Some? then |c0| - rcode.value + 1 else 0
    {
      var r := rcode.value;
      ResolvedShape(c0, code[..], r);
      var found;
      found, start, ccount := FillReference(code, r, rc, start, ccount, c0);
      if !found { return ERR53; }
      p := Next(c0, r);
      ResolvedShape(c0, code[..], p);
      SameWalk(c0, code[..], p);
      rcode := FindRecurse(code, r + 1 + LINK_SIZE);
      ResolvedTo(c0, code[..], p, rcode);
    }
    errorcode := 0;
  }
}
