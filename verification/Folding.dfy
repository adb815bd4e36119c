/** Folded predicates: a proof that only passes one on is not burdened with what is inside it. */
module Folding {
  /** Always true: the term that unfolds a folded predicate. */
  predicate Look(k: int) { true }
}
