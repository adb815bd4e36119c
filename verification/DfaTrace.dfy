/** What a run of the set-of-states matcher has established: at the offset it has reached, and over
    all the offsets it has passed. */
module DfaTrace {
  import opened Folding
  import opened Opcodes
  import opened Regex
  import opened Language
  import opened Layout
  import opened DfaGraph

  /** A whole pattern: a plain bracket. */
  predicate IsPattern(pat: Node) {
    pat.Group? && pat.bra == OP_BRA && pat.ket == OP_KET && OkNode(pat)
  }

  const FIRST := 1 + LINK_SIZE

  function EndKet(pat: Node): nat
    requires pat.Group?
  {
    KetOffset(pat, 0)
  }

  /** State s at offset i can only find ends of slices that start where the run started. */
  ghost predicate SoundState(pat: Node, e: Env, start: nat, i: nat, s: Block)
    requires IsPattern(pat)
  {
    && start <= i <= |e.s| && s.count <= i - start
    && StaysAlts(pat.alts, FIRST, EndKet(pat), s)
    && forall j: nat :: j <= |e.s| && EndsAlts(pat.alts, FIRST, s, e, i, j) ==> InAlts(pat.alts, e, start, j)
  }

  ghost predicate AllSound(pat: Node, e: Env, start: nat, i: nat, ss: seq<Block>)
    requires IsPattern(pat)
  {
    forall s {:trigger s in ss} :: s in ss ==> SoundState(pat, e, start, i, s)
  }

  lemma StepCount(sp: Spot, s: Block, t: Block, e: Env, i: nat, d: nat)
    requires Step(sp, s, t, e, i, d)
    ensures t.count <= s.count + d
  {
    if sp.AtNode? && sp.n.Group? && d == 0 { StartsAfter(sp.n.alts, sp.x + BraSize(sp.n.bra), t); }
  }

  lemma SoundStep(pat: Node, e: Env, start: nat, i: nat, s: Block, t: Block, d: nat)
    requires IsPattern(pat) && SoundState(pat, e, start, i, s) && Step(SpotOf(pat, s.offset), s, t, e, i, d)
    ensures SoundState(pat, e, start, i + d, t)
  {
    var ket := EndKet(pat);
    if s.offset >= ket {
      NothingAtKet(pat.alts, FIRST, ket);
    } else {
      BackAlts(pat.alts, FIRST, ket, s, t, e, i, d, 0);
      StepCount(SpotOf(pat, s.offset), s, t, e, i, d);
      assert i + d <= |e.s|;
      forall j: nat | j <= |e.s| && EndsAlts(pat.alts, FIRST, t, e, i + d, j) ensures InAlts(pat.alts, e, start, j) {
        BackAlts(pat.alts, FIRST, ket, s, t, e, i, d, j);
      }
    }
  }

  predicate ClosesAt(a: Alts, x: nat, ket: nat) { ket == x + AltsSize(a) }

  lemma ClosesMore(a: Alts, x: nat, ket: nat)
    requires ClosesAt(a, x, ket)
    ensures a.Or? ==> var y := x + BranchSize(a.branch) + 1 + LINK_SIZE; y <= ket && ClosesAt(a.more, y, ket)
    ensures a.Last? ==> FindAlts(a, x, ket, ket) == Nowhere
  {
  }

  /** The closing bracket of the pattern leads nowhere. */
  lemma {:induction false} NothingAtKet(a: Alts, x: nat, ket: nat)
    requires ClosesAt(a, x, ket)
    ensures FindAlts(a, x, ket, ket) == Nowhere
    decreases a
  {
    ClosesMore(a, x, ket);
    if a.Or? {
      NothingAtKet(a.more, x + BranchSize(a.branch) + 1 + LINK_SIZE, ket);
      FindMore(a, x, ket, ket);
    }
  }

  lemma FindMore(a: Alts, x: nat, ket: nat, p: nat)
    requires a.Or? && p >= x + BranchSize(a.branch) + 1 + LINK_SIZE
    ensures FindAlts(a, x, ket, p) == FindAlts(a.more, x + BranchSize(a.branch) + 1 + LINK_SIZE, ket, p)
  {
    assert !(p < x + BranchSize(a.branch)) && p != x + BranchSize(a.branch);
  }

  lemma StartsSound(pat: Node, e: Env, start: nat, s: Block)
    requires IsPattern(pat) && start <= |e.s| && s in Starts(pat.alts, FIRST)
    ensures SoundState(pat, e, start, start, s)
  {
    StartsInside(pat.alts, FIRST, EndKet(pat), s);
    StartsAfter(pat.alts, FIRST, s);
    forall j: nat | j <= |e.s| && EndsAlts(pat.alts, FIRST, s, e, start, j) ensures InAlts(pat.alts, e, start, j) {
      StartsBack(pat.alts, FIRST, s, e, start, j);
    }
  }

  /** When the run reaches the closing bracket, it has found a slice. */
  lemma KetSound(pat: Node, e: Env, start: nat, i: nat)
    requires IsPattern(pat) && SoundState(pat, e, start, i, Block(EndKet(pat), 0))
    ensures InAlts(pat.alts, e, start, i)
  {
    KetEnds(pat.alts, FIRST, Block(EndKet(pat), 0), e, i);
  }

  // --- at one offset -------------------------------------------------------------------

  ghost predicate FollowedSeq(pat: Node, e: Env, i: nat, s: Block, here: seq<Block>, next: seq<Block>)
    requires IsPattern(pat)
  {
    && (forall t {:trigger t in here} :: t in Eps(SpotOf(pat, s.offset), s, e, i) ==> t in here)
    && (forall t {:trigger t in next} :: t in Move(SpotOf(pat, s.offset), s, e, i) ==> t in next)
  }

  /** The first k of the active states have been acted on. */
  ghost predicate IsScanning(pat: Node, e: Env, start: nat, i: nat, act: seq<Block>, k: nat, next: seq<Block>)
    requires IsPattern(pat) && k <= |act|
  {
    && AllSound(pat, e, start, i, act)
    && AllSound(pat, e, start, i + 1, next)
    && forall m: nat {:trigger act[m]} :: m < k ==> FollowedSeq(pat, e, i, act[m], act, next)
  }

  ghost predicate Scanning(pat: Node, e: Env, start: nat, i: nat, act: seq<Block>, k: nat, next: seq<Block>)
    requires IsPattern(pat)
  {
    k <= |act| && forall l: int {:trigger Look(l)} :: Look(l) ==> IsScanning(pat, e, start, i, act, k, next)
  }

  lemma ScanStart(pat: Node, e: Env, start: nat, i: nat, act: seq<Block>)
    requires IsPattern(pat) && AllSound(pat, e, start, i, act)
    ensures Scanning(pat, e, start, i, act, 0, [])
  {
  }

  lemma StateSound(pat: Node, e: Env, start: nat, i: nat, act: seq<Block>, k: nat, next: seq<Block>, m: nat)
    requires IsPattern(pat) && Scanning(pat, e, start, i, act, k, next) && m < |act|
    ensures SoundState(pat, e, start, i, act[m])
  {
    assert Look(0);
    assert act[m] in act;
  }

  /** Acting on the next state. */
  lemma ScanAct(pat: Node, e: Env, start: nat, i: nat, act: seq<Block>, k: nat, next: seq<Block>)
    requires IsPattern(pat) && Scanning(pat, e, start, i, act, k, next) && k < |act|
    ensures var sp := SpotOf(pat, act[k].offset);
            Scanning(pat, e, start, i, act + Eps(sp, act[k], e, i), k + 1, next + Move(sp, act[k], e, i))
  {
    var s := act[k];
    var sp := SpotOf(pat, s.offset);
    var act', next' := act + Eps(sp, s, e, i), next + Move(sp, s, e, i);
    StateSound(pat, e, start, i, act, k, next, k);
    assert Look(0);
    forall t | t in act' ensures SoundState(pat, e, start, i, t) {
      if t in Eps(sp, s, e, i) { SoundStep(pat, e, start, i, s, t, 0); }
    }
    forall t | t in next' ensures SoundState(pat, e, start, i + 1, t) {
      if t in Move(sp, s, e, i) { SoundStep(pat, e, start, i, s, t, 1); }
    }
    forall m: nat | m < k + 1 ensures FollowedSeq(pat, e, i, act'[m], act', next') {
      if m < k { assert FollowedSeq(pat, e, i, act[m], act, next); }
    }
  }

  /** A duplicate of a state that was acted on can be passed over. */
  lemma ScanDuplicate(pat: Node, e: Env, start: nat, i: nat, act: seq<Block>, k: nat, next: seq<Block>, m: nat)
    requires IsPattern(pat) && Scanning(pat, e, start, i, act, k, next) && m < k < |act| && act[m] == act[k]
    ensures Scanning(pat, e, start, i, act, k + 1, next)
  {
    assert Look(0);
    assert FollowedSeq(pat, e, i, act[m], act, next);
  }

  // --- over all the offsets -----------------------------------------------------------------

  function SetOf(ss: seq<Block>): set<Block> { set s | s in ss }

  /** One more offset has been scanned. */
  lemma ExtendTrace(pat: Node, e: Env, start: nat, T: Trace, i: nat, act: seq<Block>, next: seq<Block>)
    requires IsPattern(pat) && Closed(pat, e, T, i) && T[i] <= SetOf(act)
             && Scanning(pat, e, start, i, act, |act|, next)
    ensures Closed(pat, e, T[..i] + [SetOf(act), SetOf(next)], i + 1)
  {
    var T' := T[..i] + [SetOf(act), SetOf(next)];
    assert Look(0);
    forall p: nat, s: Block | p < i + 1 && s in T'[p] ensures Followed(pat, e, p, s, T'[p], T'[p + 1]) {
      if p < i {
        assert s in T[p] && Followed(pat, e, p, s, T[p], T[p + 1]);
      } else {
        var m :| 0 <= m < |act| && act[m] == s;
        assert FollowedSeq(pat, e, i, act[m], act, next);
      }
    }
  }

  /** The run has ended: no state is left, so nothing more would be found further on. */
  lemma PadTrace(pat: Node, e: Env, T: Trace, i: nat, L: nat)
    requires IsPattern(pat) && Closed(pat, e, T, i) && T[i] == {} && i <= L
    ensures Closed(pat, e, T + seq(L - i, _ => {}), L)
  {
    var T' := T + seq(L - i, _ => {});
    assert Look(0);
    forall p: nat, s: Block | p < L && s in T'[p] ensures Followed(pat, e, p, s, T'[p], T'[p + 1]) {
      assert p < i;
      assert s in T[p] && Followed(pat, e, p, s, T[p], T[p + 1]);
    }
  }

  /** Every slice is found: if the pattern can end at j, the closing bracket was reached there. */
  lemma TraceComplete(pat: Node, e: Env, T: Trace, L: nat, start: nat, j: nat)
    requires IsPattern(pat) && Closed(pat, e, T, L) && start <= |e.s| && start < |T|
             && StartsIn(pat.alts, FIRST, T[start])
    requires j < L && InAlts(pat.alts, e, start, j)
    ensures Block(EndKet(pat), 0) in T[j]
  {
    AltsSpan(pat.alts, e, start, j);
    AltsFlow(pat, e, T, L, pat.alts, FIRST, EndKet(pat), start, j);
  }

  // --- how many states there can be ---------------------------------------------------------

  /** No more than this many different states can be met at one offset. */
  function MaxStates(pat: Node, e: Env): nat
    requires pat.Group?
  {
    (EndKet(pat) + 1) * (|e.s| + 1)
  }

  function CodeOf(s: Block, width: nat): nat { s.offset * width + s.count }

  lemma CodeUnique(s: Block, t: Block, width: nat)
    requires s.count < width && t.count < width && CodeOf(s, width) == CodeOf(t, width)
    ensures s == t
  {
    if s.offset < t.offset { CodeBound(s.offset, t.offset - 1, width, s.count); }
    if t.offset < s.offset { CodeBound(t.offset, s.offset - 1, width, t.count); }
  }

  lemma {:induction false} CountCodes(ss: set<Block>, width: nat, m: nat)
    requires forall s {:trigger s in ss} :: s in ss ==> s.count < width && CodeOf(s, width) < m
    ensures |ss| <= m
    decreases m
  {
    if ss != {} {
      if t :| t in ss && CodeOf(t, width) == m - 1 {
        forall s | s in ss - {t} ensures CodeOf(s, width) < m - 1 {
          if CodeOf(s, width) == m - 1 { CodeUnique(s, t, width); }
        }
        CountCodes(ss - {t}, width, m - 1);
      } else {
        var t :| t in ss;
        assert m > 0;
        CountCodes(ss, width, m - 1);
      }
    }
  }

  /** The different states among those that are active at one offset. */
  lemma StatesBounded(pat: Node, e: Env, start: nat, i: nat, ss: set<Block>)
    requires IsPattern(pat) && forall s {:trigger s in ss} :: s in ss ==> SoundState(pat, e, start, i, s)
    ensures |ss| <= MaxStates(pat, e)
  {
    var width := |e.s| + 1;
    forall s | s in ss ensures s.count < width && CodeOf(s, width) < MaxStates(pat, e) {
      assert SoundState(pat, e, start, i, s);
      assert s.offset <= EndKet(pat);
      CodeBound(s.offset, EndKet(pat), width, s.count);
    }
    CountCodes(ss, width, MaxStates(pat, e));
  }

  lemma CodeBound(o: nat, k: nat, width: nat, c: nat)
    requires o <= k && c < width
    ensures o * width + c < (k + 1) * width
  {
    assert (o + 1) * width <= (k + 1) * width;
    assert (o + 1) * width == o * width + width;
  }

  /** What one state adds. */
  lemma StepsBounded(pat: Node, s: Block, e: Env, i: nat)
    requires IsPattern(pat)
    ensures |Eps(SpotOf(pat, s.offset), s, e, i)| <= NodeSize(pat)
    ensures |Move(SpotOf(pat, s.offset), s, e, i)| <= 1
  {
    AltsFindSize(pat.alts, FIRST, EndKet(pat), s.offset);
    var sp := SpotOf(pat, s.offset);
    if sp.AtNode? && sp.n.Group? { StartsSize(sp.n.alts, sp.x + BraSize(sp.n.bra)); }
  }

  lemma {:induction false} StartsSize(a: Alts, x: nat)
    ensures |Starts(a, x)| <= 1 + AltsSize(a)
    decreases a
  {
    if a.Or? { StartsSize(a.more, x + BranchSize(a.branch) + 1 + LINK_SIZE); }
  }

  predicate NodeWithin(sp: Spot, size: nat) { sp.AtNode? ==> NodeSize(sp.n) <= size }

  lemma {:induction false} NodeFindSize(n: Node, x: nat, p: nat)
    ensures NodeWithin(FindNode(n, x, p), NodeSize(n))
    decreases n
  {
    match n
    case Optional(_, g) => NodeFindSize(g, x + 1, p);
    case Group(bra, _, alts, _) => AltsFindSize(alts, x + BraSize(bra), KetOffset(n, x), p);
    case _ =>
  }

  lemma {:induction false} AltsFindSize(a: Alts, x: nat, ket: nat, p: nat)
    ensures NodeWithin(FindAlts(a, x, ket, p), AltsSize(a))
    decreases a
  {
    BranchFindSize(a.branch, x, p);
    if a.Or? { AltsFindSize(a.more, x + BranchSize(a.branch) + 1 + LINK_SIZE, ket, p); }
  }

  lemma {:induction false} BranchFindSize(b: Branch, x: nat, p: nat)
    ensures NodeWithin(FindBranch(b, x, p), BranchSize(b))
    decreases b
  {
    if b.Cons? {
      NodeFindSize(b.head, x, p);
      BranchFindSize(b.tail, x + NodeSize(b.head), p);
    }
  }
}
