/** The JavaScript value semantics the application relies on: possibly-undefined
    values, settled promises, string truthiness, `String.prototype.trim`,
    a leftmost pattern search, `Array.prototype.indexOf` and `split` with a
    one-character separator. */
module JsString {

  /** A value that may be `undefined` (or `null`). */
  datatype Option<+T> = None | Some(value: T) {
    function GetOr(default: T): T {
      match this
      case Some(v) => v
      case None => default
    }
  }

  /** A settled promise: resolved with a value, or rejected with an error's message. */
  datatype Settled<+T> = Resolved(value: T) | Rejected(message: string)

  /** Truthiness of a string: only the empty string is falsy. */
  predicate Truthy(s: string) {
    s != ""
  }

  /** Truthiness of a string that may be missing (`if (image)`, `deployedUrl && …`). */
  predicate TruthyOpt(o: Option<string>) {
    o.Some? && o.value != ""
  }

  /** How a template literal `${x}` renders a possibly-undefined string. */
  function Show(o: Option<string>): string {
    match o
    case Some(s) => s
    case None => "undefined"
  }

  /** Array indexing `xs[i]`, which yields `undefined` past the end. */
  function Element<T>(xs: seq<T>, i: nat): Option<T> {
    if i < |xs| then Some(xs[i]) else None
  }

  // ---------------------------------------------------------------------------
  // trim

  /** The characters `trim` removes: ECMAScript WhiteSpace (tab, vertical tab,
      form feed, ZWNBSP and the Unicode category Zs) and LineTerminator. */
  predicate IsSpace(c: char) {
    || c == '\t' || c == '\n' || c == '\U{000B}' || c == '\U{000C}' || c == '\r'
    || c == ' ' || c == '\U{00A0}' || c == '\U{1680}'
    || ('\U{2000}' <= c <= '\U{200A}')
    || c == '\U{2028}' || c == '\U{2029}' || c == '\U{202F}' || c == '\U{205F}'
    || c == '\U{3000}' || c == '\U{FEFF}'
  }

  predicate AllSpace(s: string) {
    forall i :: 0 <= i < |s| ==> IsSpace(s[i])
  }

  /** Neither end of `s` is a space character. */
  predicate IsTrimmed(s: string) {
    s == [] || (!IsSpace(s[0]) && !IsSpace(s[|s| - 1]))
  }

  /** Drops the leading space characters: what is dropped is all space and what
      is kept does not start with one. */
  function TrimStart(s: string): (r: string)
    ensures |r| <= |s| && r == s[|s| - |r|..]
    ensures AllSpace(s[..|s| - |r|])
    ensures r == [] || !IsSpace(r[0])
  {
    if s != [] && IsSpace(s[0]) then TrimStart(s[1..]) else s
  }

  /** Drops the trailing space characters. */
  function TrimEnd(s: string): (r: string)
    ensures |r| <= |s| && r == s[..|r|]
    ensures AllSpace(s[|r|..])
    ensures r == [] || !IsSpace(r[|r| - 1])
  {
    if s != [] && IsSpace(s[|s| - 1]) then TrimEnd(s[..|s| - 1]) else s
  }

  /** `r` is `s` with the space-only prefix `s[..i]` and suffix `s[j..]` cut. */
  predicate Margins(s: string, r: string, i: int, j: int) {
    0 <= i <= j <= |s| && r == s[i..j] && AllSpace(s[..i]) && AllSpace(s[j..])
  }

  lemma MarginsOf(s: string, a: string, b: string)
    requires |a| <= |s| && a == s[|s| - |a|..] && AllSpace(s[..|s| - |a|])
    requires |b| <= |a| && b == a[..|b|] && AllSpace(a[|b|..])
    ensures Margins(s, b, |s| - |a|, |s| - |a| + |b|)
  {
    var i := |s| - |a|;
    assert s[i + |b|..] == a[|b|..];
  }

  /** `s.trim()`: the slice of `s` left once both space-only margins are cut. */
  function Trim(s: string): (r: string)
    ensures IsTrimmed(r)
    ensures |r| <= |s|
    ensures AllSpace(s) <==> r == []
    ensures exists i, j :: Margins(s, r, i, j)
  {
    var a := TrimStart(s);
    var b := TrimEnd(a);
    MarginsOf(s, a, b);
    assert b != [] ==> b[0] == a[0];
    assert a == [] ==> AllSpace(s) by {
      if a == [] {
        assert s[..|s|] == s;
      }
    }
    b
  }

  lemma {:induction false} TrimStartPadded(a: string, y: string)
    requires AllSpace(a)
    ensures TrimStart(a + y) == TrimStart(y)
    decreases |a|
  {
    if a != [] {
      assert (a + y)[1..] == a[1..] + y;
      TrimStartPadded(a[1..], y);
    } else {
      assert a + y == y;
    }
  }

  lemma {:induction false} TrimEndPadded(y: string, b: string)
    requires AllSpace(b)
    ensures TrimEnd(y + b) == TrimEnd(y)
    decreases |b|
  {
    if b != [] {
      assert (y + b)[..|y + b| - 1] == y + b[..|b| - 1];
      TrimEndPadded(y, b[..|b| - 1]);
    } else {
      assert y + b == y;
    }
  }

  /** An all-space string trims to nothing at the front. */
  lemma TrimStartAllSpace(s: string)
    requires AllSpace(s)
    ensures TrimStart(s) == []
  {
  }

  /** Trimming the front of `x + b` with `b` all space: either `x` holds a
      non-space character and `b` survives untouched, or everything goes. */
  lemma TrimStartAppend(x: string, b: string)
    requires AllSpace(b)
    ensures !AllSpace(x) ==> TrimStart(x + b) == TrimStart(x) + b
    ensures AllSpace(x) ==> TrimStart(x + b) == [] && TrimStart(x) == []
  {
    if AllSpace(x) {
      TrimStartAllSpace(x);
      assert AllSpace(x + b);
      TrimStartAllSpace(x + b);
    } else {
      TrimStartKeeps(x, b);
    }
  }

  /** Once the front of `x` is trimmed, what remains starts with a
      non-space character, so appending to it moves nothing. */
  lemma TrimStartKeeps(x: string, b: string)
    requires !AllSpace(x)
    ensures TrimStart(x + b) == TrimStart(x) + b
  {
    var r := TrimStart(x);
    var k := |x| - |r|;
    var pad := x[..k];
    assert AllSpace(pad);
    assert x == pad + r;
    assert x + b == pad + (r + b);
    TrimStartPadded(pad, r + b);
    assert (r + b)[0] == r[0];
  }

  /** `trim` ignores space-only padding on either side. */
  lemma TrimPadded(a: string, x: string, b: string)
    requires AllSpace(a) && AllSpace(b)
    ensures Trim(a + x + b) == Trim(x)
  {
    assert a + x + b == a + (x + b);
    TrimStartPadded(a, x + b);
    TrimStartAppend(x, b);
    if !AllSpace(x) {
      TrimEndPadded(TrimStart(x), b);
    }
  }

  // ---------------------------------------------------------------------------
  // Searching for a pattern

  /** `pat` occurs in `s` starting at index `k`. */
  predicate OccursAt(s: string, pat: string, k: int) {
    0 <= k && k + |pat| <= |s| && s[k..k + |pat|] == pat
  }

  /** The leftmost occurrence of `pat` at or after `from`, as the regular
      expression's scan for a fence looks for it (services/geminiService.ts:56).
      Unlike `String.prototype.indexOf`, a start past the end is not clamped. */
  function IndexOf(s: string, pat: string, from: nat): (r: Option<nat>)
    ensures r.Some? ==> from <= r.value && OccursAt(s, pat, r.value)
    ensures r.Some? ==> forall k :: from <= k < r.value ==> !OccursAt(s, pat, k)
    ensures r.None? ==> forall k :: from <= k ==> !OccursAt(s, pat, k)
    decreases |s| - from
  {
    if from + |pat| > |s| then None
    else if s[from..from + |pat|] == pat then Some(from)
    else IndexOf(s, pat, from + 1)
  }

  // ---------------------------------------------------------------------------
  // split

  /** `parts.join(sep)` for a non-empty array of strings. */
  function Join(parts: seq<string>, sep: char): string
    requires |parts| >= 1
  {
    if |parts| == 1 then parts[0] else parts[0] + [sep] + Join(parts[1..], sep)
  }

  /** `s.split(sep)` for a one-character separator: the pieces between
      separators, never containing one, and joining back to `s`. */
  function Split(s: string, sep: char): (parts: seq<string>)
    ensures |parts| >= 1
    ensures forall i :: 0 <= i < |parts| ==> sep !in parts[i]
    ensures Join(parts, sep) == s
    ensures sep !in s <==> |parts| == 1
    decreases |s|
  {
    if s == [] then [[]]
    else
      var rest := Split(s[1..], sep);
      if s[0] == sep then
        assert s == [sep] + s[1..];
        [[]] + rest
      else
        var parts := [[s[0]] + rest[0]] + rest[1..];
        JoinConsChar(s[0], rest, sep);
        assert s == [s[0]] + s[1..];
        assert sep in s ==> sep in s[1..];
        parts
  }

  lemma JoinConsChar(c: char, rest: seq<string>, sep: char)
    requires |rest| >= 1
    ensures Join([[c] + rest[0]] + rest[1..], sep) == [c] + Join(rest, sep)
  {
    var parts := [[c] + rest[0]] + rest[1..];
    if |rest| > 1 {
      assert parts[1..] == rest[1..];
    }
  }

  /** Splitting a join of separator-free pieces gives the pieces back. */
  lemma {:induction false} SplitJoin(parts: seq<string>, sep: char)
    requires |parts| >= 1
    requires forall i :: 0 <= i < |parts| ==> sep !in parts[i]
    ensures Split(Join(parts, sep), sep) == parts
    decreases |parts|, |parts[0]|, 1
  {
    if |parts| == 1 {
      SplitFree(parts[0], sep);
    } else if parts[0] == [] {
      SplitJoinGap(parts, sep);
    } else {
      SplitJoinChar(parts, sep);
    }
  }

  /** The first piece is empty: the join starts with a separator. */
  lemma {:induction false} SplitJoinGap(parts: seq<string>, sep: char)
    requires |parts| > 1 && parts[0] == []
    requires forall i :: 0 <= i < |parts| ==> sep !in parts[i]
    ensures Split(Join(parts, sep), sep) == parts
    decreases |parts|, |parts[0]|, 0
  {
    var tail := Join(parts[1..], sep);
    assert Join(parts, sep) == [sep] + tail;
    SplitJoin(parts[1..], sep);
    assert ([sep] + tail)[1..] == tail;
    assert [[]] + parts[1..] == parts;
  }

  /** The first piece starts with a character other than the separator. */
  lemma {:induction false} SplitJoinChar(parts: seq<string>, sep: char)
    requires |parts| >= 1 && parts[0] != []
    requires forall i :: 0 <= i < |parts| ==> sep !in parts[i]
    ensures Split(Join(parts, sep), sep) == parts
    decreases |parts|, |parts[0]|, 0
  {
    var c := parts[0][0];
    var shorter := [parts[0][1..]] + parts[1..];
    assert shorter[1..] == parts[1..];
    assert parts[0] == [c] + parts[0][1..];
    JoinConsChar(c, shorter, sep);
    assert [[c] + shorter[0]] + shorter[1..] == parts;
    assert Join(parts, sep) == [c] + Join(shorter, sep);
    assert sep !in parts[0][1..];
    SplitJoin(shorter, sep);
    assert ([c] + Join(shorter, sep))[1..] == Join(shorter, sep);
  }

  /** A separator-free string splits into itself. */
  lemma {:induction false} SplitFree(s: string, sep: char)
    requires sep !in s
    ensures Split(s, sep) == [s]
  {
    var parts := Split(s, sep);
    assert |parts| == 1;
  }

  /** Splitting at the first separator: the piece before it, then the
      pieces of the rest. */
  lemma SplitAt(a: string, b: string, sep: char)
    requires sep !in a
    ensures Split(a + [sep] + b, sep) == [a] + Split(b, sep)
  {
    var parts := [a] + Split(b, sep);
    assert parts[1..] == Split(b, sep);
    assert Join(parts, sep) == a + [sep] + b;
    SplitJoin(parts, sep);
  }

  /** `xs.indexOf(x)` on an array: the first position of `x`, or -1. */
  function ArrayIndexOf<T(==)>(xs: seq<T>, x: T): (i: int)
    ensures -1 <= i < |xs|
    ensures i >= 0 ==> xs[i] == x && forall k :: 0 <= k < i ==> xs[k] != x
    ensures i == -1 <==> x !in xs
    decreases |xs|
  {
    if xs == [] then -1
    else if xs[0] == x then 0
    else
      var j := ArrayIndexOf(xs[1..], x);
      assert x in xs ==> x in xs[1..];
      if j == -1 then -1 else j + 1
  }
}
