/** The language of a pattern: which slices of the subject it can match, without order or
    captures, and how ordered backtracking relates to it. */
module Language {
  import opened Opcodes
  import opened Regex

  ghost predicate AllMatch(it: Item, e: Env, i: nat, j: nat) {
    forall x :: i <= x < j ==> MatchesAt(it, e, x)
  }

  ghost predicate InRepeat(it: Item, lo: nat, hi: int, e: Env, i: nat, j: nat) {
    i + lo <= j && (hi < 0 || j - i <= hi) && AllMatch(it, e, i, j)
  }

  /** The slice s[i..j] is in the language of the node. */
  ghost predicate InNode(n: Node, e: Env, i: nat, j: nat)
    decreases n, |e.s| - i
  {
    match n
    case Single(it) => j == i + 1 && MatchesAt(it, e, i)
    case Repeat(it, r) => InRepeat(it, Lo(r), Hi(r), e, i, j)
    case Assert(op) => i == j && Holds(op, e, i)
    case Optional(op, g) => i == j || (op != OP_SKIPZERO && InNode(g, e, i, j))
    case Group(_, _, alts, ket) =>
      InAlts(alts, e, i, j) ||
      (ket != OP_KET && exists m: nat :: i < m <= |e.s| && InAlts(alts, e, i, m) && InNode(n, e, m, j))
  }

  ghost predicate InAlts(a: Alts, e: Env, i: nat, j: nat)
    decreases a
  {
    InBranch(a.branch, e, i, j) || (a.Or? && InAlts(a.more, e, i, j))
  }

  ghost predicate InBranch(b: Branch, e: Env, i: nat, j: nat)
    decreases b
  {
    match b
    case Nil => i == j
    case Cons(n, t) => exists m: nat :: i <= m <= |e.s| && InNode(n, e, i, m) && InBranch(t, e, m, j)
  }

  /** A slice never runs backwards or past the end of the subject. */
  lemma {:induction false} NodeSpan(n: Node, e: Env, i: nat, j: nat)
    requires i <= |e.s| && InNode(n, e, i, j)
    ensures i <= j <= |e.s|
    decreases n, |e.s| - i
  {
    match n
    case Single(it) =>
    case Repeat(it, r) => if i < j { assert MatchesAt(it, e, j - 1); }
    case Assert(op) =>
    case Optional(op, g) => if i != j { NodeSpan(g, e, i, j); }
    case Group(_, _, alts, ket) =>
      if InAlts(alts, e, i, j) {
        AltsSpan(alts, e, i, j);
      } else {
        var m: nat :| i < m <= |e.s| && InAlts(alts, e, i, m) && InNode(n, e, m, j);
        NodeSpan(n, e, m, j);
      }
  }

  lemma {:induction false} AltsSpan(a: Alts, e: Env, i: nat, j: nat)
    requires i <= |e.s| && InAlts(a, e, i, j)
    ensures i <= j <= |e.s|
    decreases a
  {
    if InBranch(a.branch, e, i, j) { BranchSpan(a.branch, e, i, j); } else { AltsSpan(a.more, e, i, j); }
  }

  lemma {:induction false} BranchSpan(b: Branch, e: Env, i: nat, j: nat)
    requires i <= |e.s| && InBranch(b, e, i, j)
    ensures i <= j <= |e.s|
    decreases b
  {
    if b.Cons? {
      var m: nat :| i <= m <= |e.s| && InNode(b.head, e, i, m) && InBranch(b.tail, e, m, j);
      BranchSpan(b.tail, e, m, j);
    }
  }

  lemma HeadSlice(b: Branch, e: Env, i: nat, j: nat) returns (m: nat)
    requires b.Cons? && InBranch(b, e, i, j)
    ensures i <= m <= |e.s| && InNode(b.head, e, i, m) && InBranch(b.tail, e, m, j)
  {
    m :| i <= m <= |e.s| && InNode(b.head, e, i, m) && InBranch(b.tail, e, m, j);
  }

  // --- a match found by backtracking spans a slice of the language ------------

  lemma {:induction false} RepeatSound(it: Item, lo: nat, hi: int, mode: Mode, e: Env, st: State, k: Kont)
      returns (mid: State)
    requires st.pos <= |e.s| && (hi < 0 || lo <= hi) && TryRepeat(it, lo, hi, mode, e, st, k).Some?
    ensures InRepeat(it, lo, hi, e, st.pos, mid.pos) && mid.pos <= |e.s|
    ensures k(mid) == TryRepeat(it, lo, hi, mode, e, st, k)
    decreases |e.s| - st.pos
  {
    var more := hi != 0 && MatchesAt(it, e, st.pos);
    if lo == 0 && (!more || TryRepeat(it, lo, hi, mode, e, st, k) == k(st)) {
      mid := st;
    } else {
      mid := RepeatSound(it, if lo > 0 then lo - 1 else 0, Less(hi), mode, e, At(st, st.pos + 1), k);
    }
  }

  lemma {:induction false} NodeSound(n: Node, e: Env, st: State, k: Kont) returns (mid: State)
    requires OkNode(n) && st.pos <= |e.s| && TryNode(n, e, st, k).Some?
    ensures st.pos <= mid.pos <= |e.s| && InNode(n, e, st.pos, mid.pos) && k(mid) == TryNode(n, e, st, k)
    decreases n, |e.s| - st.pos
  {
    match n
    case Single(it) => mid := At(st, st.pos + 1);
    case Repeat(it, r) => mid := RepeatSound(it, Lo(r), Hi(r), ModeOf(r), e, st, k);
    case Assert(op) => mid := st;
    case Optional(op, g) =>
      if TryNode(n, e, st, k) == k(st) { mid := st; } else { mid := NodeSound(g, e, st, k); }
    case Group(_, _, alts, ket) =>
      var r := AltsSound(alts, e, st, r => AfterKet(n, e, st.pos, r, k));
      var c := Close(n, st.pos, r);
      if AfterKet(n, e, st.pos, r, k) == k(c) {
        mid := c;
      } else {
        mid := NodeSound(n, e, c, k);
      }
  }

  lemma {:induction false} AltsSound(a: Alts, e: Env, st: State, k: Kont) returns (mid: State)
    requires OkAlts(a) && st.pos <= |e.s| && TryAlts(a, e, st, k).Some?
    ensures st.pos <= mid.pos <= |e.s| && InAlts(a, e, st.pos, mid.pos) && k(mid) == TryAlts(a, e, st, k)
    decreases a
  {
    if TryBranch(a.branch, e, st, k).Some? {
      mid := BranchSound(a.branch, e, st, k);
    } else {
      mid := AltsSound(a.more, e, st, k);
    }
  }

  lemma {:induction false} BranchSound(b: Branch, e: Env, st: State, k: Kont) returns (mid: State)
    requires OkBranch(b) && st.pos <= |e.s| && TryBranch(b, e, st, k).Some?
    ensures st.pos <= mid.pos <= |e.s| && InBranch(b, e, st.pos, mid.pos) && k(mid) == TryBranch(b, e, st, k)
    decreases b
  {
    if b.Nil? {
      mid := st;
    } else {
      var r := NodeSound(b.head, e, st, r => TryBranch(b.tail, e, r, k));
      mid := BranchSound(b.tail, e, r, k);
    }
  }

  // --- and every slice of the language is found, when nothing is possessive -----

  predicate NoPossessive(n: Node) {
    match n
    case Repeat(_, r) => ModeOf(r) != Possessive
    case Group(_, _, alts, _) => NoPossessiveAlts(alts)
    case Optional(_, g) => NoPossessive(g)
    case _ => true
  }

  predicate NoPossessiveAlts(a: Alts) {
    NoPossessiveBranch(a.branch) && (a.Or? ==> NoPossessiveAlts(a.more))
  }

  predicate NoPossessiveBranch(b: Branch) {
    b.Nil? || (NoPossessive(b.head) && NoPossessiveBranch(b.tail))
  }

  /** The continuation succeeds from offset j, whatever was captured. */
  ghost predicate SucceedsAt(k: Kont, j: nat) {
    forall st: State :: st.pos == j ==> k(st).Some?
  }

  lemma {:induction false} RepeatComplete(it: Item, lo: nat, hi: int, mode: Mode, e: Env, st: State, j: nat, k: Kont)
    requires InRepeat(it, lo, hi, e, st.pos, j) && mode != Possessive && SucceedsAt(k, j)
    ensures TryRepeat(it, lo, hi, mode, e, st, k).Some?
    decreases |e.s| - st.pos
  {
    if st.pos < j {
      assert MatchesAt(it, e, st.pos);
      RepeatComplete(it, if lo > 0 then lo - 1 else 0, Less(hi), mode, e, At(st, st.pos + 1), j, k);
    }
  }

  lemma {:induction false} NodeComplete(n: Node, e: Env, st: State, j: nat, k: Kont)
    requires OkNode(n) && NoPossessive(n) && st.pos <= |e.s| && InNode(n, e, st.pos, j) && SucceedsAt(k, j)
    ensures TryNode(n, e, st, k).Some?
    decreases n, |e.s| - st.pos
  {
    match n
    case Single(it) =>
    case Repeat(it, r) => RepeatComplete(it, Lo(r), Hi(r), ModeOf(r), e, st, j, k);
    case Assert(op) =>
    case Optional(op, g) =>
      if st.pos != j { NodeComplete(g, e, st, j, k); }
    case Group(_, _, alts, ket) =>
      var k' := r => AfterKet(n, e, st.pos, r, k);
      if InAlts(alts, e, st.pos, j) {
        assert SucceedsAt(k', j);
        AltsComplete(alts, e, st, j, k');
      } else {
        var m: nat :| st.pos < m <= |e.s| && InAlts(alts, e, st.pos, m) && InNode(n, e, m, j);
        forall r: State | r.pos == m ensures k'(r).Some? {
          NodeComplete(n, e, Close(n, st.pos, r), j, k);
        }
        AltsComplete(alts, e, st, m, k');
      }
  }

  lemma {:induction false} AltsComplete(a: Alts, e: Env, st: State, j: nat, k: Kont)
    requires OkAlts(a) && NoPossessiveAlts(a) && st.pos <= |e.s| && InAlts(a, e, st.pos, j) && SucceedsAt(k, j)
    ensures TryAlts(a, e, st, k).Some?
    decreases a
  {
    if InBranch(a.branch, e, st.pos, j) {
      BranchComplete(a.branch, e, st, j, k);
    } else {
      AltsComplete(a.more, e, st, j, k);
    }
  }

  lemma {:induction false} BranchComplete(b: Branch, e: Env, st: State, j: nat, k: Kont)
    requires OkBranch(b) && NoPossessiveBranch(b) && st.pos <= |e.s| && InBranch(b, e, st.pos, j) && SucceedsAt(k, j)
    ensures TryBranch(b, e, st, k).Some?
    decreases b
  {
    if b.Cons? {
      var m: nat :| st.pos <= m <= |e.s| && InNode(b.head, e, st.pos, m) && InBranch(b.tail, e, m, j);
      var k' := r => TryBranch(b.tail, e, r, k);
      forall r: State | r.pos == m ensures k'(r).Some? {
        BranchComplete(b.tail, e, r, j, k);
      }
      NodeComplete(b.head, e, st, m, k');
    }
  }

  /** Pattern p matches somewhere from offset i exactly when its language holds a slice that
      starts at i; and the match found spans such a slice. */
  lemma MatchIsSlice(p: Node, e: Env, i: nat)
    requires OkNode(p) && i <= |e.s|
    ensures FirstMatch(p, e, i).Some? ==>
              i <= FirstMatch(p, e, i).value.pos <= |e.s| && InNode(p, e, i, FirstMatch(p, e, i).value.pos)
    ensures NoPossessive(p) && (exists j :: InNode(p, e, i, j)) ==> FirstMatch(p, e, i).Some?
  {
    var st := State(i, map[]);
    if TryNode(p, e, st, Accept).Some? {
      var mid := NodeSound(p, e, st, Accept);
    }
    if NoPossessive(p) && exists j :: InNode(p, e, i, j) {
      var j: nat :| InNode(p, e, i, j);
      NodeComplete(p, e, st, j, Accept);
    }
  }
}
