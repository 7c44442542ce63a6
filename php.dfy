/**
 * The PHP values a filter can carry, and the few pieces of PHP semantics the
 * query builder relies on: `is_int`, truthiness of a nullable string,
 * `strtoupper` and the loose comparison `$operator == '='`.
 */
module Php {
  import opened Wrappers

  /** A scalar PHP value as passed to `where`. */
  datatype Value = VInt(i: int) | VStr(s: string) | VBool(b: bool) | VNull

  /** One variadic argument of `where`: a scalar, or a PHP list of scalars. */
  datatype Arg = Scalar(v: Value) | List(items: seq<Value>)

  /** PHP `is_int`: true of integers only (not of numeric strings, bools or null). */
  predicate IsInt(v: Value) {
    v.VInt?
  }

  /** PHP truthiness of a `?string`: null, "" and "0" are falsy. */
  predicate Truthy(s: Option<string>) {
    s.Some? && s.value != "" && s.value != "0"
  }

  /**
   * PHP 8 `$operator == '='`. A string compares as a string; a bool compares
   * with the truthiness of '=' (true); an int compares with '=' as the string
   * of its digits, never equal; null compares as "" and a list is never
   * equal to a string.
   */
  predicate LooselyEqualsEq(op: Arg) {
    op == Scalar(VStr("=")) || op == Scalar(VBool(true))
  }

  function UpperChar(c: char): (u: char)
    ensures 'a' <= c <= 'z' ==> 'A' <= u <= 'Z' && u as int == c as int - 32
    ensures !('a' <= c <= 'z') ==> u == c
  {
    if 'a' <= c <= 'z' then (c as int - 32) as char else c
  }

  /** `strtoupper`: ASCII letters are upper-cased, every other character is kept. */
  function Upper(s: string): (r: string)
    ensures |r| == |s|
    ensures forall i :: 0 <= i < |s| ==> !('a' <= r[i] <= 'z')
    ensures forall i :: 0 <= i < |s| && 'a' <= s[i] <= 'z' ==> r[i] as int == s[i] as int - 32
    ensures forall i :: 0 <= i < |s| && !('a' <= s[i] <= 'z') ==> r[i] == s[i]
  {
    seq(|s|, i requires 0 <= i < |s| => UpperChar(s[i]))
  }

  /** Upper-casing twice is upper-casing once. */
  lemma UpperIdempotent(s: string)
    ensures Upper(Upper(s)) == Upper(s)
  {
    var u := Upper(s);
    assert forall i :: 0 <= i < |u| ==> Upper(u)[i] == u[i];
  }

  /** The directions the callers pass come out as the sorter enum values. */
  lemma UpperDirections()
    ensures Upper("desc") == "DESC" && Upper("DESC") == "DESC"
    ensures Upper("asc") == "ASC" && Upper("Asc") == "ASC"
  {
    assert Upper("desc") == ['D', 'E', 'S', 'C'];
    assert Upper("DESC") == ['D', 'E', 'S', 'C'];
    assert Upper("asc") == ['A', 'S', 'C'];
    assert Upper("Asc") == ['A', 'S', 'C'];
  }
}
