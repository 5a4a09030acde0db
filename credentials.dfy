/** The password hashing library, seen from the handlers: one hashing
    function and one comparison, both opaque. */
module Credentials {

  /** `hash` stands for `bcrypt.hash(password, 10)` and `matches(password, stored)`
      for `bcrypt.compare(password, stored)`. */
  datatype Hasher = Hasher(hash: string -> string, matches: (string, string) -> bool)

  /** The one property the handlers rely on: a password matches its own hash. */
  ghost predicate Consistent(h: Hasher) {
    forall p :: h.matches(p, h.hash(p))
  }
}
