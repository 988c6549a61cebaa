/** The sign convention for stored amounts, applied by the client before it
    sends a transaction and again by the server before it stores one: an
    expense is kept as the negated magnitude, every other type as the
    magnitude. */
module Normalization {
  import opened Common

  /** The amount stored for `v` under a category of type `kind`. */
  function NormalizeAmount(kind: CategoryType, v: Cents): (r: Cents)
    ensures Abs(r) == Abs(v)
    ensures SignAgrees(kind, r)
    ensures kind == EXPENSE ==> r <= 0
    ensures kind != EXPENSE ==> r >= 0
  {
    if kind == EXPENSE then -(Abs(v) as int) else Abs(v)
  }

  /** Normalising twice for the same type is normalising once. */
  lemma NormalizeIdempotent(kind: CategoryType, v: Cents)
    ensures NormalizeAmount(kind, NormalizeAmount(kind, v)) == NormalizeAmount(kind, v)
  {
  }

  /** The amounts normalisation leaves alone are exactly those that already
      carry the sign their type demands. */
  lemma NormalizeFixedPoints(kind: CategoryType, v: Cents)
    ensures NormalizeAmount(kind, v) == v <==> SignAgrees(kind, v)
  {
  }

  /** Two amounts of equal magnitude normalise alike: the sign the user typed
      is ignored. */
  lemma NormalizeIgnoresSign(kind: CategoryType, v: Cents)
    ensures NormalizeAmount(kind, -v) == NormalizeAmount(kind, v)
  {
  }
}
