/**
 SHA-256 enters the models only as a function from text to text. What a digest binds is
 stated as "equal, or a collision of the function is at hand".
 */
module Hashing {
  type Hash = string -> string

  ghost predicate HasCollision(h: Hash) {
    exists x, y :: x != y && h(x) == h(y)
  }

  /** Equal digests of different texts are a collision. */
  lemma EqualDigests(h: Hash, x: string, y: string)
    requires h(x) == h(y)
    ensures x == y || HasCollision(h)
  {
  }
}
