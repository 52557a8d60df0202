/** JavaScript values as the command line sees them, plus the small string
    searches the rest of the model shares. */
module Js {

  /** An option, environment variable or decoded JSON field: `undefined` or a string. */
  datatype Value = Undefined | Str(s: string)

  datatype Option<T> = None | Some(value: T)

  /** A task's callback result: a value, or the error the task passed to its callback. */
  datatype Result<T> = Ok(value: T) | Err(error: string)

  /** JavaScript truthiness: `undefined` and the empty string are falsy. */
  predicate Truthy(v: Value) {
    v.Str? && v.s != ""
  }

  /** `a || b`: the left operand when it is truthy, otherwise the right one. */
  function Or(a: Value, b: Value): Value {
    if Truthy(a) then a else b
  }

  /** `a && b`: the left operand when it is falsy, otherwise the right one. */
  function And(a: Value, b: Value): Value {
    if Truthy(a) then b else a
  }

  /** The string that `+` concatenates for a value: `undefined` prints as "undefined". */
  function Text(v: Value): string {
    match v
    case Undefined => "undefined"
    case Str(s) => s
  }

  /** Index of the first `c` in `s`, or `|s|` when `s` has none. */
  function IndexOf(s: string, c: char): (i: nat)
    ensures i <= |s|
    ensures i < |s| ==> s[i] == c
    ensures forall j :: 0 <= j < i ==> s[j] != c
  {
    if |s| == 0 then 0
    else if s[0] == c then 0
    else 1 + IndexOf(s[1..], c)
  }

  /** Index of the last `c` in `s`, or -1 when `s` has none. */
  function LastIndexOf(s: string, c: char): (i: int)
    ensures -1 <= i < |s|
    ensures 0 <= i ==> s[i] == c
    ensures forall j :: i < j < |s| ==> s[j] != c
  {
    if |s| == 0 then -1
    else if s[|s| - 1] == c then |s| - 1
    else LastIndexOf(s[..|s| - 1], c)
  }

  /** The first `c` in `a + [c] + b` is the one between the parts when `a` has none. */
  lemma IndexOfSeparator(a: string, c: char, b: string)
    requires c !in a
    ensures IndexOf(a + [c] + b, c) == |a|
  {
    var s := a + [c] + b;
    assert s[|a|] == c;
  }

  /** The last `c` in `a + [c] + b` is the one between the parts when `b` has none. */
  lemma LastIndexOfSeparator(a: string, c: char, b: string)
    requires c !in b
    ensures LastIndexOf(a + [c] + b, c) == |a|
  {
    var s := a + [c] + b;
    assert s[|a|] == c;
  }
}
