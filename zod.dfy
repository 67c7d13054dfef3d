/**
 * The parts of Zod the schemas use. `.min(n)` is written out; the `.email()` and
 * `.url()` checks are Zod's own regular expressions and URL parser, which this
 * model takes as given predicates.
 */
module Zod {

  datatype Checks = Checks(isEmail: string -> bool, isUrl: string -> bool)

  /** `z.string().min(n)`. */
  predicate MinLength(s: string, n: nat) {
    |s| >= n
  }
}
