/** Searching and splitting strings on a separator character. */
module Text {
  import opened Wrappers

  /** The first index of `c` in `s`, if any. */
  function IndexOf(s: string, c: char): (r: Option<nat>)
    ensures r.Some? ==> r.value < |s| && s[r.value] == c && c !in s[..r.value]
    ensures r.None? <==> c !in s
  {
    if s == [] then None
    else if s[0] == c then Some(0)
    else match IndexOf(s[1..], c)
      case None => None
      case Some(i) =>
        assert s[1..][..i] == s[1..i + 1];
        assert s[..i + 1] == [s[0]] + s[1..i + 1];
        Some(i + 1)
  }

  /** Splits `s` at the first `c`: the part before it and, when `c` occurs,
      the part after it. */
  function CutAt(s: string, c: char): (r: (string, Option<string>))
    ensures c !in r.0
    ensures r.1.None? ==> r.0 == s
    ensures r.1.Some? ==> s == r.0 + [c] + r.1.value
  {
    match IndexOf(s, c)
    case None => (s, None)
    case Some(i) =>
      assert s == s[..i] + [c] + s[i + 1..];
      (s[..i], Some(s[i + 1..]))
  }

  /** The pieces of `s` between occurrences of `sep`; there is always at
      least one piece, and no piece contains `sep`. */
  function Split(s: string, sep: char): (parts: seq<string>)
    ensures |parts| >= 1
    ensures forall k :: 0 <= k < |parts| ==> sep !in parts[k]
    decreases |s|
  {
    var (head, tail) := CutAt(s, sep);
    match tail
    case None => [head]
    case Some(rest) => [head] + Split(rest, sep)
  }

  /** Joins pieces with `sep` between them: the inverse of `Split`. */
  function Join(parts: seq<string>, sep: char): string
    requires |parts| >= 1
  {
    if |parts| == 1 then parts[0] else parts[0] + [sep] + Join(parts[1..], sep)
  }

  /** Cutting `x + [c] + y` at `c` gives `x` and `y` when `x` has no `c`. */
  lemma CutAtFirst(x: string, c: char, y: string)
    requires c !in x
    ensures CutAt(x + [c] + y, c) == (x, Some(y))
  {
    var s := x + [c] + y;
    assert s[..|x|] == x;
    assert s[|x|] == c;
    var i := IndexOf(s, c).value;
    assert i == |x|;
    assert s[i + 1..] == y;
  }

  /** A string without `sep` is one piece. */
  lemma SplitNone(s: string, sep: char)
    requires sep !in s
    ensures Split(s, sep) == [s]
  {
  }

  /** A piece without `sep` followed by `sep` is split off first. */
  lemma SplitCons(x: string, sep: char, y: string)
    requires sep !in x
    ensures Split(x + [sep] + y, sep) == [x] + Split(y, sep)
  {
    CutAtFirst(x, sep, y);
  }

  /** Joining the pieces of a split gives the string back. */
  lemma {:induction false} JoinSplit(s: string, sep: char)
    ensures Join(Split(s, sep), sep) == s
    decreases |s|
  {
    var (head, tail) := CutAt(s, sep);
    match tail
    case None =>
    case Some(rest) =>
      JoinSplit(rest, sep);
      assert Split(s, sep)[1..] == Split(rest, sep);
  }

  /** A character other than the separator that occurs in none of the
      pieces does not occur in the string. */
  lemma {:induction false} NotInPieces(s: string, sep: char, ch: char)
    requires ch != sep
    requires forall k :: 0 <= k < |Split(s, sep)| ==> ch !in Split(s, sep)[k]
    ensures ch !in s
    decreases |s|
  {
    var parts := Split(s, sep);
    var (head, tail) := CutAt(s, sep);
    assert ch !in parts[0];
    match tail
    case None =>
    case Some(rest) =>
      var tailParts := Split(rest, sep);
      assert parts == [head] + tailParts;
      forall k | 0 <= k < |tailParts|
        ensures ch !in tailParts[k]
      {
        assert tailParts[k] == parts[k + 1];
      }
      NotInPieces(rest, sep, ch);
  }
}
