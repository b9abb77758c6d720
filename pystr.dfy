/** The few Python `str` operations that monitor.py relies on, with their
    Python semantics written out: `startswith`, `find`, slicing with a
    possibly negative end, `count`, ASCII `lower`, `'\n'.join` and
    `splitlines`. */
module PyStr {

  /** `s.startswith(p)` */
  predicate StartsWith(s: string, p: string) {
    |p| <= |s| && s[..|p|] == p
  }

  /** `s.find(c)` for a one-character needle: the first index of `c`, or -1. */
  function Find(s: string, c: char): (k: int)
    ensures -1 <= k < |s|
    ensures k == -1 <==> c !in s
    ensures 0 <= k ==> s[k] == c && c !in s[..k]
  {
    if s == [] then -1
    else if s[0] == c then 0
    else
      var k := Find(s[1..], c);
      if k == -1 then -1 else k + 1
  }

  /** `s[:k]`: a negative end counts from the back and is clamped at 0. */
  function SliceTo(s: string, k: int): (r: string)
    ensures |r| <= |s| && r == s[..|r|]
    ensures |r| == if k >= 0 then (if k <= |s| then k else |s|) else (if -k <= |s| then |s| + k else 0)
  {
    if k >= 0 then s[..if k <= |s| then k else |s|]
    else s[..if -k <= |s| then |s| + k else 0]
  }

  /** ASCII lower-casing of one character; every other character is kept. */
  function LowerChar(c: char): char {
    if 'A' <= c <= 'Z' then (c as int + 32) as char else c
  }

  /** `s.lower()`, restricted to the ASCII letters. */
  function Lower(s: string): string {
    seq(|s|, i requires 0 <= i < |s| => LowerChar(s[i]))
  }

  /** `p` occurs in `s` at index `j`. */
  predicate MatchesAt(s: string, p: string, j: int) {
    0 <= j && j + |p| <= |s| && s[j..j + |p|] == p
  }

  /** `s.count(p)`: leftmost non-overlapping occurrences; an empty pattern
      is found between every pair of characters and at both ends. */
  function Count(s: string, p: string): (n: nat)
    ensures p == [] ==> n == |s| + 1
    ensures p != [] ==> n * |p| <= |s|
  {
    if p == [] then |s| + 1 else Scan(s, p, 0)
  }

  /** The scan behind `count`, resumed at index `i`. */
  function Scan(s: string, p: string, i: nat): (n: nat)
    requires p != [] && i <= |s|
    ensures n * |p| <= |s| - i
    decreases |s| - i
  {
    if |s| - i < |p| then 0
    else if MatchesAt(s, p, i) then 1 + Scan(s, p, i + |p|)
    else Scan(s, p, i + 1)
  }

  /** The scan finds something exactly when the pattern occurs at or after `i`. */
  lemma {:induction false} ScanFindsOccurrence(s: string, p: string, i: nat)
    requires p != [] && i <= |s|
    ensures Scan(s, p, i) > 0 <==> exists j :: i <= j && MatchesAt(s, p, j)
    decreases |s| - i
  {
    if |s| - i < |p| {
    } else if MatchesAt(s, p, i) {
    } else {
      ScanFindsOccurrence(s, p, i + 1);
      assert forall j :: i <= j && MatchesAt(s, p, j) ==> i + 1 <= j;
    }
  }

  /** `pos` lists occurrences of `p` in `s`, at or after `i`, in increasing
      order and without overlap. */
  predicate Spaced(s: string, p: string, pos: seq<int>, i: int) {
    (forall k :: 0 <= k < |pos| ==> MatchesAt(s, p, pos[k]))
    && (pos != [] ==> i <= pos[0])
    && (forall k :: 0 <= k < |pos| - 1 ==> pos[k] + |p| <= pos[k + 1])
  }

  /** The positions at which the scan counts an occurrence. */
  function ScanPositions(s: string, p: string, i: nat): (pos: seq<int>)
    requires p != [] && i <= |s|
    ensures Spaced(s, p, pos, i)
    ensures |pos| == Scan(s, p, i)
    decreases |s| - i
  {
    if |s| - i < |p| then []
    else if MatchesAt(s, p, i) then [i] + ScanPositions(s, p, i + |p|)
    else ScanPositions(s, p, i + 1)
  }

  /** No list of non-overlapping occurrences at or after `i` is longer than
      what the scan counts. */
  lemma {:induction false} ScanMaximal(s: string, p: string, pos: seq<int>, i: nat)
    requires p != [] && i <= |s|
    requires Spaced(s, p, pos, i)
    ensures |pos| <= Scan(s, p, i)
    decreases |s| - i
  {
    if pos != [] {
      assert MatchesAt(s, p, pos[0]);
      if MatchesAt(s, p, i) {
        if |pos| > 1 {
          assert Spaced(s, p, pos[1..], i + |p|) by {
            assert forall k :: 0 <= k < |pos| - 1 ==> pos[1..][k] == pos[k + 1];
          }
          ScanMaximal(s, p, pos[1..], i + |p|);
        }
      } else {
        ScanMaximal(s, p, pos, i + 1);
      }
    }
  }

  /** For a non-empty pattern, `count` is the largest number of
      non-overlapping occurrences: the scan's own positions are such a list,
      and no such list is longer. */
  lemma CountMaximal(s: string, p: string, pos: seq<int>)
    requires p != []
    ensures Spaced(s, p, ScanPositions(s, p, 0), 0) && |ScanPositions(s, p, 0)| == Count(s, p)
    ensures Spaced(s, p, pos, 0) ==> |pos| <= Count(s, p)
  {
    if Spaced(s, p, pos, 0) {
      ScanMaximal(s, p, pos, 0);
    }
  }

  /** A non-empty pattern is counted at least once exactly when it occurs. */
  lemma CountPositive(s: string, p: string)
    requires p != []
    ensures Count(s, p) > 0 <==> exists j :: MatchesAt(s, p, j)
  {
    ScanFindsOccurrence(s, p, 0);
  }

  /** When every occurrence of `p` in `s` is an occurrence of `q` in `t`, and
      the scan of `t` starts no later than that of `s`, the scan of `t`
      counts at least as much: the greedy scan finds the most
      non-overlapping occurrences. */
  lemma {:induction false} ScanDominated(s: string, t: string, p: string, q: string, a: nat, b: nat)
    requires p != [] && |p| == |q| && |s| == |t|
    requires b <= a <= |s|
    requires forall j :: MatchesAt(s, p, j) ==> MatchesAt(t, q, j)
    ensures Scan(s, p, a) <= Scan(t, q, b)
    decreases (|s| - a) + (|t| - b)
  {
    if |s| - a < |p| {
    } else if MatchesAt(s, p, a) {
      if MatchesAt(t, q, b) {
        ScanDominated(s, t, p, q, a + |p|, b + |p|);
      } else {
        ScanDominated(s, t, p, q, a, b + 1);
      }
    } else {
      ScanDominated(s, t, p, q, a + 1, b);
    }
  }

  lemma LowerSlice(s: string, i: nat, j: nat)
    requires i <= j <= |s|
    ensures Lower(s)[i..j] == Lower(s[i..j])
  {
  }

  /** The case-sensitive count of `w` in `t` never exceeds the count of the
      lowered word in the lowered text. */
  lemma CountCaseFold(t: string, w: string)
    ensures Count(t, w) <= Count(Lower(t), Lower(w))
  {
    if w != [] {
      forall j | MatchesAt(t, w, j)
        ensures MatchesAt(Lower(t), Lower(w), j)
      {
        LowerSlice(t, j, j + |w|);
      }
      ScanDominated(t, Lower(t), w, Lower(w), 0, 0);
    }
  }

  /** The line boundaries of Python's `str.splitlines`: `\n`, `\v`, `\f`,
      `\r` (10 to 13), the file, group and record separators (28 to 30),
      NEL (0x85) and the line and paragraph separators (0x2028, 0x2029). */
  predicate IsLineBreak(c: char) {
    var n := c as int;
    (10 <= n <= 13) || (28 <= n <= 30) || n == 0x85 || n == 0x2028 || n == 0x2029
  }

  predicate NoBreak(s: string) {
    forall j :: 0 <= j < |s| ==> !IsLineBreak(s[j])
  }

  /** `NoBreak` stated over the characters of `s`, the form Dafny checks
      directly on a literal. */
  lemma CharsNoBreak(s: string)
    requires forall c :: c in s ==> !IsLineBreak(c)
    ensures NoBreak(s)
  {
  }

  /** Index of the first line boundary in `s`, or `|s|` when there is none. */
  function FirstBreak(s: string): (i: nat)
    ensures i <= |s|
    ensures forall j :: 0 <= j < i ==> !IsLineBreak(s[j])
    ensures i < |s| ==> IsLineBreak(s[i])
  {
    if s == [] then 0
    else if IsLineBreak(s[0]) then 0
    else 1 + FirstBreak(s[1..])
  }

  /** `s.splitlines()`: split at every boundary, `\r\n` counting as one, and
      no empty last line for a trailing boundary. */
  function SplitLines(s: string): seq<string>
    decreases |s|
  {
    if s == [] then []
    else
      var i := FirstBreak(s);
      if i == |s| then [s]
      else
        var next := if s[i] == '\r' && i + 1 < |s| && s[i + 1] == '\n' then i + 2 else i + 1;
        [s[..i]] + SplitLines(s[next..])
  }

  /** `'\n'.join(xs)` */
  function Join(xs: seq<string>): string {
    if xs == [] then ""
    else if |xs| == 1 then xs[0]
    else xs[0] + "\n" + Join(xs[1..])
  }

  /** Every line followed by `'\n'`. */
  function Unlines(xs: seq<string>): string {
    if xs == [] then "" else xs[0] + "\n" + Unlines(xs[1..])
  }

  function Elems(xs: seq<string>): set<string> {
    set x | x in xs
  }

  lemma {:induction false} UnlinesAppend(a: seq<string>, b: seq<string>)
    ensures Unlines(a + b) == Unlines(a) + Unlines(b)
  {
    if a == [] {
      assert a + b == b;
    } else {
      assert (a + b)[1..] == a[1..] + b;
      UnlinesAppend(a[1..], b);
    }
  }

  /** Joining a non-empty list and adding a final newline ends every line. */
  lemma {:induction false} JoinThenNewline(xs: seq<string>)
    requires xs != []
    ensures Join(xs) + "\n" == Unlines(xs)
  {
    if |xs| > 1 {
      JoinThenNewline(xs[1..]);
    }
  }

  /** The first boundary of `x + [c] + rest` is `c` when `x` has none. */
  lemma FirstBreakAfter(x: string, c: char, rest: string)
    requires NoBreak(x) && IsLineBreak(c)
    ensures FirstBreak(x + [c] + rest) == |x|
  {
    var s := x + [c] + rest;
    assert s[|x|] == c;
  }

  /** Reading back a line ended by `'\n'` gives that line before the rest. */
  lemma SplitLinesStep(x: string, rest: string)
    requires NoBreak(x)
    ensures SplitLines(x + "\n" + rest) == [x] + SplitLines(rest)
  {
    var s := x + "\n" + rest;
    FirstBreakAfter(x, '\n', rest);
    assert s[..|x|] == x;
    assert s[|x| + 1..] == rest;
  }

  /** Reading back lines that each end with `'\n'` gives the lines. */
  lemma {:induction false} SplitUnlines(xs: seq<string>)
    requires forall k :: 0 <= k < |xs| ==> NoBreak(xs[k])
    ensures SplitLines(Unlines(xs)) == xs
  {
    if xs != [] {
      SplitLinesStep(xs[0], Unlines(xs[1..]));
      SplitUnlines(xs[1..]);
      assert xs == [xs[0]] + xs[1..];
    }
  }

  /** `splitlines` undoes `'\n'.join` when no element holds a line boundary
      and the last one is not empty (an empty last element would be lost). */
  lemma {:induction false} SplitJoin(xs: seq<string>)
    requires forall k :: 0 <= k < |xs| ==> NoBreak(xs[k])
    requires xs != [] ==> xs[|xs| - 1] != ""
    ensures SplitLines(Join(xs)) == xs
  {
    if |xs| == 1 {
    } else if |xs| > 1 {
      SplitLinesStep(xs[0], Join(xs[1..]));
      SplitJoin(xs[1..]);
      assert xs == [xs[0]] + xs[1..];
    }
  }
}
