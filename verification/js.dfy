/**
 * JavaScript truthiness and the `||` / `??` operators, for the kinds of value
 * the storefront applies them to. Absence (`null` or `undefined`) is `None`.
 */
module Js {
  import opened Wrappers

  /** A string is truthy iff it is non-empty. */
  predicate TruthyString(s: string) {
    s != ""
  }

  /** An optional string is truthy iff it is present and non-empty. */
  predicate TruthyOptString(s: Option<string>) {
    s.Some? && TruthyString(s.value)
  }

  /**
   * An optional integer (a GraphQL `Int`) is truthy iff it is present and
   * non-zero; negative quantities are truthy like any other non-zero number.
   */
  predicate TruthyNumber(n: Option<int>) {
    n.Some? && n.value != 0
  }

  /** `s || fallback` for a string that is always present. */
  function OrElse(s: string, fallback: string): string {
    if TruthyString(s) then s else fallback
  }

  /** `s || fallback` for a string that may be absent. */
  function OptOrElse(s: Option<string>, fallback: string): string {
    if TruthyOptString(s) then s.value else fallback
  }

  /** `s ?? fallback`: only absence falls back, the empty string does not. */
  function Coalesce(s: Option<string>, fallback: string): string {
    s.GetOr(fallback)
  }
}
