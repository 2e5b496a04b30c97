/** The few pieces of JavaScript semantics the route handlers and components
    lean on: `undefined` as an absent value, `??`, and `toLowerCase`. */
module Js {

  /** A value that may be absent: `undefined`, or `null` where the source
      folds it into `undefined` (`?.`, `??`). */
  datatype Option<T> = None | Some(value: T) {
    /** `x ?? fallback` */
    function GetOr(fallback: T): T {
      match this
      case Some(v) => v
      case None => fallback
    }
  }

  /** A string result of a JavaScript function that may also be `undefined`
      or `null`; the two stay apart because `===` and `!==` tell them apart. */
  datatype NullableString = UndefinedString | NullString | Text(text: string)

  /** JavaScript truthiness of such a value: only a non-empty string is truthy. */
  predicate TruthyText(v: NullableString) {
    v.Text? && v.text != ""
  }

  /** `v === w`, where `w` is a string or `undefined`: `null` equals neither. */
  predicate StrictEquals(v: NullableString, w: Option<string>)
    ensures StrictEquals(v, w) ==> !v.NullString?
  {
    match v
    case UndefinedString => w.None?
    case NullString => false
    case Text(t) => w == Some(t)
  }

  predicate IsUpper(c: char) {
    'A' <= c <= 'Z'
  }

  /** True when no character of `s` is an ASCII capital letter. */
  predicate NoUpper(s: string) {
    forall i :: 0 <= i < |s| ==> !IsUpper(s[i])
  }

  function LowerChar(c: char): (r: char)
    ensures !IsUpper(r)
    ensures IsUpper(c) ==> r as int == c as int + 32
    ensures !IsUpper(c) ==> r == c
  {
    if IsUpper(c) then (c as int + 32) as char else c
  }

  /** `String.prototype.toLowerCase`, on ASCII letters: the result has the same
      length, holds no capital letter, and every other character is kept. */
  function ToLower(s: string): (r: string)
    ensures |r| == |s| && NoUpper(r)
    ensures forall i :: 0 <= i < |s| && !IsUpper(s[i]) ==> r[i] == s[i]
    ensures forall i :: 0 <= i < |s| && IsUpper(s[i]) ==> r[i] as int == s[i] as int + 32
  {
    seq(|s|, i requires 0 <= i < |s| => LowerChar(s[i]))
  }

  /** `s.endsWith(suffix)` */
  predicate EndsWith(s: string, suffix: string) {
    |suffix| <= |s| && s[|s| - |suffix|..] == suffix
  }

  /** Lowercasing touches letters only, so it neither creates nor removes a
      separator character such as '/' or '?'. */
  lemma ToLowerKeepsNonLetter(s: string, c: char)
    requires !IsUpper(c) && !('a' <= c <= 'z')
    ensures c in ToLower(s) <==> c in s
  {
    var r := ToLower(s);
    if c in s {
      var i :| 0 <= i < |s| && s[i] == c;
      assert r[i] == c;
    }
    if c in r {
      var i :| 0 <= i < |r| && r[i] == c;
      assert s[i] == c;
    }
  }
}
