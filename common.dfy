/** Optional values: JavaScript's `undefined`/`null` versus a present value. */
module Wrappers {

  datatype Option<+T> = None | Some(value: T) {

    /** The value, or `default` when absent. */
    function GetOr(default: T): T {
      match this
      case Some(v) => v
      case None => default
    }
  }
}

/** The HTTP vocabulary shared by the server and the browser client. */
module Http {

  /** Request methods. `HEAD` is answered by GET routes; `Other` stands for every method no
      route serves (PATCH and the rest; OPTIONS preflights are answered by `cors()` before any
      route is tried). */
  datatype Verb = GET | HEAD | POST | PUT | DELETE | Other

  /** A response as the handlers write it: a status code and a JSON body of type B. */
  datatype Response<B> = Response(status: int, body: B)
}

/**
 * The JavaScript String built-ins the application relies on, over strings of
 * characters. A Dafny `char` is a Unicode scalar value, so a character outside the
 * Basic Multilingual Plane is one `char` here but two UTF-16 code units in JavaScript.
 */
module JsString {

  /** The characters of the regular-expression class `\s`, which are also the ones `trim` strips
      (WhiteSpace and LineTerminator of ECMAScript, with every Zs character of Unicode). */
  predicate IsSpace(c: char) {
    c == '\t' || c == '\n' || c == '\U{000B}' || c == '\U{000C}' || c == '\r' || c == ' '
    || c == '\U{00A0}' || c == '\U{1680}' || ('\U{2000}' <= c <= '\U{200A}')
    || c == '\U{2028}' || c == '\U{2029}' || c == '\U{202F}' || c == '\U{205F}'
    || c == '\U{3000}' || c == '\U{FEFF}'
  }

  /** The characters the regular-expression `.` does not match (no `s` flag). */
  predicate IsLineTerminator(c: char) {
    c == '\n' || c == '\r' || c == '\U{2028}' || c == '\U{2029}'
  }

  function LowerChar(c: char): char {
    if 'A' <= c <= 'Z' then (c as int + 32) as char else c
  }

  /** `toLowerCase`, on the ASCII letters. */
  function ToLower(s: string): (r: string)
    ensures |r| == |s|
    ensures forall i :: 0 <= i < |s| ==> r[i] == LowerChar(s[i])
  {
    seq(|s|, i requires 0 <= i < |s| => LowerChar(s[i]))
  }

  lemma ToLowerIdempotent(s: string)
    ensures ToLower(ToLower(s)) == ToLower(s)
  {
  }

  function TrimStart(s: string): (r: string)
    ensures |r| <= |s| && r == s[|s| - |r|..]
    ensures r == [] || !IsSpace(r[0])
    ensures forall i :: 0 <= i < |s| - |r| ==> IsSpace(s[i])
  {
    if |s| > 0 && IsSpace(s[0]) then TrimStart(s[1..]) else s
  }

  function TrimEnd(s: string): (r: string)
    ensures |r| <= |s| && r == s[..|r|]
    ensures r == [] || !IsSpace(r[|r| - 1])
    ensures forall i :: |r| <= i < |s| ==> IsSpace(s[i])
  {
    if |s| > 0 && IsSpace(s[|s| - 1]) then TrimEnd(s[..|s| - 1]) else s
  }

  /** `trim`: strips leading and trailing `\s` characters. */
  function Trim(s: string): string {
    TrimEnd(TrimStart(s))
  }

  predicate StartsWith(s: string, prefix: string) {
    |prefix| <= |s| && s[..|prefix|] == prefix
  }

  /** The first index of `c` in `s`. */
  function IndexOf(s: string, c: char): (i: nat)
    requires c in s
    ensures i < |s| && s[i] == c && c !in s[..i]
  {
    if s[0] == c then 0 else 1 + IndexOf(s[1..], c)
  }

  /** `s.split(sep)` for a one-character separator: the pieces between successive separators,
      empty pieces included; the result is never empty. */
  function Split(s: string, sep: char): (r: seq<string>)
    ensures |r| >= 1
    ensures |r[0]| <= |s| && r[0] == s[..|r[0]|] && sep !in r[0]
    ensures |r[0]| == |s| || s[|r[0]|] == sep
    decreases |s|
  {
    if sep !in s then [s]
    else
      var i := IndexOf(s, sep);
      [s[..i]] + Split(s[i + 1..], sep)
  }

  /** Splitting a string that starts with a separator-free piece and a separator. */
  lemma SplitCons(piece: string, sep: char, rest: string)
    requires sep !in piece
    ensures Split(piece + [sep] + rest, sep) == [piece] + Split(rest, sep)
  {
    var s := piece + [sep] + rest;
    assert s[|piece|] == sep;
    assert s[..|piece|] == piece;
    var i := IndexOf(s, sep);
    assert i == |piece|;
    assert s[i + 1..] == rest;
  }

  function Clamp(x: int, len: nat): (r: nat)
    ensures r <= len
  {
    if x < 0 then 0 else if x > len then len else x
  }

  /** `s.substring(a, b)`: both indices are clamped to [0, |s|] and swapped when out of order. */
  function Substring(s: string, a: int, b: int): (r: string)
    ensures 0 <= a <= b <= |s| ==> r == s[a..b]
    ensures |r| <= |s|
  {
    var x, y := Clamp(a, |s|), Clamp(b, |s|);
    if x <= y then s[x..y] else s[y..x]
  }
}

/** The message of a Mongoose validation error raised by failed `required` validators. */
module Validation {

  /** `<Model> validation failed: ` followed by one item per failed path, in schema order. */
  function ValidationMessage(model: string, paths: seq<string>): string {
    model + " validation failed: " + RequiredList(paths)
  }

  function RequiredList(paths: seq<string>): string {
    if paths == [] then ""
    else
      var item := paths[0] + ": Path `" + paths[0] + "` is required.";
      if |paths| == 1 then item else item + ", " + RequiredList(paths[1..])
  }
}
