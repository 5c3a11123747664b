/** Small string and sequence utilities that the maintenance back end relies on:
    Python's `in` on strings, ASCII `str.lower`, `str.join` and the first-match
    search that both the distro detector and the package-manager selection
    perform. `Split` is not used by the back end; it is here only to state that
    a joined summary splits back into its lines. */
module Text {

  datatype Option<+T> = None | Some(value: T)

  // ---------------------------------------------------------------------------
  // First match in a priority list
  // ---------------------------------------------------------------------------

  /** `k` is the position of the first element of `xs` that satisfies `p`. */
  ghost predicate IsFirst<T>(xs: seq<T>, p: T -> bool, k: nat)
  {
    k < |xs| && p(xs[k]) && forall j :: 0 <= j < k ==> !p(xs[j])
  }

  /** The index of the first element of `xs` satisfying `p`, the shape of a
      `for x in xs: if p(x): return x` loop with an early return. */
  function FirstIndex<T>(xs: seq<T>, p: T -> bool): (r: Option<nat>)
    ensures r.Some? ==> IsFirst(xs, p, r.value)
    ensures r.None? <==> forall j :: 0 <= j < |xs| ==> !p(xs[j])
  {
    if |xs| == 0 then None
    else if p(xs[0]) then Some(0)
    else
      match FirstIndex(xs[1..], p)
      case None => None
      case Some(k) =>
        assert forall j :: 1 <= j <= k ==> xs[j] == xs[1..][j - 1];
        Some(k + 1)
  }

  // ---------------------------------------------------------------------------
  // Substring test (Python `pat in s`)
  // ---------------------------------------------------------------------------

  /** `pat` occurs in `s` starting at index `i`. */
  ghost predicate OccursAt(s: string, pat: string, i: int)
  {
    0 <= i && i + |pat| <= |s| && s[i..i + |pat|] == pat
  }

  /** Python's `pat in s` for strings: true exactly when `pat` occurs
      somewhere in `s`. */
  function Contains(s: string, pat: string): (r: bool)
    ensures r <==> exists i :: OccursAt(s, pat, i)
  {
    if |pat| <= |s| && s[..|pat|] == pat then
      assert OccursAt(s, pat, 0);
      true
    else if |s| == 0 then false
    else
      var r := Contains(s[1..], pat);
      assert forall i :: OccursAt(s[1..], pat, i) ==> OccursAt(s, pat, i + 1) by {
        forall i | OccursAt(s[1..], pat, i) ensures OccursAt(s, pat, i + 1) {
          assert s[1..][i..i + |pat|] == s[i + 1..i + 1 + |pat|];
        }
      }
      assert forall i :: OccursAt(s, pat, i) ==> i > 0 && OccursAt(s[1..], pat, i - 1) by {
        forall i | OccursAt(s, pat, i) ensures i > 0 && OccursAt(s[1..], pat, i - 1) {
          if i > 0 {
            assert s[1..][i - 1..i - 1 + |pat|] == s[i..i + |pat|];
          }
        }
      }
      r
  }

  // ---------------------------------------------------------------------------
  // ASCII lower-casing (Python `str.lower` restricted to ASCII)
  // ---------------------------------------------------------------------------

  predicate IsUpper(ch: char)
  {
    'A' <= ch <= 'Z'
  }

  function LowerChar(ch: char): (r: char)
    ensures !IsUpper(r)
    ensures !IsUpper(ch) ==> r == ch
    ensures IsUpper(ch) ==> r as int - ch as int == 'a' as int - 'A' as int
  {
    if IsUpper(ch) then (ch as int - 'A' as int + 'a' as int) as char else ch
  }

  function Lower(s: string): (r: string)
    ensures |r| == |s|
    ensures forall i :: 0 <= i < |r| ==> !IsUpper(r[i])
    ensures forall i :: 0 <= i < |s| && !IsUpper(s[i]) ==> r[i] == s[i]
    ensures forall i :: 0 <= i < |s| && IsUpper(s[i]) ==> r[i] as int == s[i] as int + ('a' as int - 'A' as int)
  {
    seq(|s|, i requires 0 <= i < |s| => LowerChar(s[i]))
  }

  /** Lower-casing twice is lower-casing once. */
  lemma LowerIdempotent(s: string)
    ensures Lower(Lower(s)) == Lower(s)
  {
  }

  // ---------------------------------------------------------------------------
  // Python `sep.join(parts)` and its inverse `s.split(c)`
  // ---------------------------------------------------------------------------

  /** The total length of `parts`. */
  function TotalLength(parts: seq<string>): nat
  {
    if |parts| == 0 then 0 else |parts[0]| + TotalLength(parts[1..])
  }

  /** Python's `sep.join(parts)`: the parts with exactly one separator between
      each two neighbours. */
  function Join(sep: string, parts: seq<string>): (r: string)
    ensures |parts| > 0 ==> |r| == TotalLength(parts) + (|parts| - 1) * |sep|
    ensures |parts| == 0 ==> r == ""
  {
    if |parts| == 0 then ""
    else if |parts| == 1 then parts[0]
    else parts[0] + sep + Join(sep, parts[1..])
  }

  /** A join begins with its first part and ends with its last. */
  lemma {:induction false} JoinEnds(sep: string, parts: seq<string>)
    requires |parts| > 0
    ensures |parts[0]| <= |Join(sep, parts)| && Join(sep, parts)[..|parts[0]|] == parts[0]
    ensures |parts[|parts| - 1]| <= |Join(sep, parts)|
    ensures Join(sep, parts)[|Join(sep, parts)| - |parts[|parts| - 1]|..] == parts[|parts| - 1]
  {
    if |parts| > 1 {
      JoinEnds(sep, parts[1..]);
      var rest := Join(sep, parts[1..]);
      var last := parts[|parts| - 1];
      assert parts[1..][|parts[1..]| - 1] == last;
      assert (parts[0] + sep + rest)[|parts[0] + sep + rest| - |last|..] == rest[|rest| - |last|..];
    }
  }

  /** Python's `s.split(c)` for a one-character separator: never empty. */
  function Split(s: string, c: char): (r: seq<string>)
    ensures |r| >= 1
  {
    if |s| == 0 then [""]
    else if s[0] == c then [""] + Split(s[1..], c)
    else
      var rest := Split(s[1..], c);
      [[s[0]] + rest[0]] + rest[1..]
  }

  /** A piece without the separator splits to itself, and what follows a
      separator is split on its own. */
  lemma {:induction false} SplitPiece(p: string, c: char, tail: Option<string>)
    requires c !in p
    ensures tail.None? ==> Split(p, c) == [p]
    ensures tail.Some? ==> Split(p + [c] + tail.value, c) == [p] + Split(tail.value, c)
  {
    if |p| == 0 {
      if tail.Some? {
        assert p + [c] + tail.value == [c] + tail.value;
        assert ([c] + tail.value)[1..] == tail.value;
      }
    } else {
      SplitPiece(p[1..], c, tail);
      if tail.Some? {
        var s := p + [c] + tail.value;
        assert s[0] == p[0];
        assert s[1..] == p[1..] + [c] + tail.value;
        assert [p[0]] + p[1..] == p;
      } else {
        assert [p[0]] + p[1..] == p;
      }
    }
  }

  /** Splitting a join on its separator gives back the parts, provided no part
      contains the separator (for the empty list Python gives `[""]`). */
  lemma {:induction false} SplitJoin(parts: seq<string>, c: char)
    requires forall i :: 0 <= i < |parts| ==> c !in parts[i]
    ensures Split(Join([c], parts), c) == if |parts| == 0 then [""] else parts
  {
    if |parts| == 1 {
      SplitPiece(parts[0], c, None);
    } else if |parts| > 1 {
      SplitJoin(parts[1..], c);
      SplitPiece(parts[0], c, Some(Join([c], parts[1..])));
      assert [parts[0]] + parts[1..] == parts;
    }
  }
}
