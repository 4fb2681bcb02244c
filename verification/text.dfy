/** The few Python string operations the evaluators rely on: `str.isspace`,
    `str.strip()`, `str.lower()`, `str.split()`, `' '.join`, the substring
    test `t in s` and `s.split('[')[0]`. Strings are sequences of code points. */
module Text {

  /** The characters Python's `str.isspace` (and so `strip()` and `split()`) treats as whitespace. */
  predicate IsSpace(c: char) {
    c as int in SpaceCodes
  }

  /** The code points Python's `str.isspace` accepts: tab to carriage return, the four
      separators 28 to 31, space, next line, no-break space, Ogham space mark, the
      spaces U+2000 to U+200A, line and paragraph separators, narrow no-break space,
      medium mathematical space and ideographic space. */
  const SpaceCodes: set<int> :=
    {9, 10, 11, 12, 13, 28, 29, 30, 31, 32, 0x85, 0xA0, 0x1680,
     0x2000, 0x2001, 0x2002, 0x2003, 0x2004, 0x2005, 0x2006, 0x2007, 0x2008, 0x2009, 0x200A,
     0x2028, 0x2029, 0x202F, 0x205F, 0x3000}

  /** A word: no whitespace anywhere. */
  predicate IsWord(w: string) {
    forall k :: 0 <= k < |w| ==> !IsSpace(w[k])
  }

  /** No whitespace at either end: what `strip()` returns. */
  predicate IsTrimmed(s: string) {
    s == [] || (!IsSpace(s[0]) && !IsSpace(s[|s| - 1]))
  }

  // ---------------------------------------------------------------- strip()

  /** Length of the run of whitespace that starts `s`: the first non-whitespace position. */
  function LeadingSpaces(s: string): (n: nat)
    ensures n <= |s|
    ensures n < |s| ==> !IsSpace(s[n])
  {
    if s == [] || !IsSpace(s[0]) then 0 else 1 + LeadingSpaces(s[1..])
  }

  /** Everything before the first non-whitespace position is whitespace. */
  lemma {:induction false} LeadingSpacesAreSpaces(s: string)
    ensures forall k :: 0 <= k < LeadingSpaces(s) ==> IsSpace(s[k])
  {
    if s != [] && IsSpace(s[0]) {
      LeadingSpacesAreSpaces(s[1..]);
      forall k | 1 <= k < LeadingSpaces(s) ensures IsSpace(s[k]) {
        assert s[k] == s[1..][k - 1];
      }
    }
  }

  /** Length of the run of whitespace that ends `s`. */
  function TrailingSpaces(s: string): (n: nat)
    ensures n <= |s|
    ensures n < |s| ==> !IsSpace(s[|s| - 1 - n])
  {
    if s == [] || !IsSpace(s[|s| - 1]) then 0 else 1 + TrailingSpaces(s[..|s| - 1])
  }

  /** Everything after the last non-whitespace position is whitespace. */
  lemma {:induction false} TrailingSpacesAreSpaces(s: string)
    ensures forall k :: |s| - TrailingSpaces(s) <= k < |s| ==> IsSpace(s[k])
  {
    if s != [] && IsSpace(s[|s| - 1]) {
      var init := s[..|s| - 1];
      TrailingSpacesAreSpaces(init);
      forall k | |s| - TrailingSpaces(s) <= k < |s| - 1 ensures IsSpace(s[k]) {
        assert s[k] == init[k];
      }
    }
  }

  /** Python's `s.strip()`: drop leading and trailing whitespace. */
  function Strip(s: string): (r: string)
    ensures IsTrimmed(r)
    ensures IsTrimmed(s) ==> r == s
    ensures forall c :: c in r ==> c in s
    ensures OccursAt(s, r, LeadingSpaces(s))
  {
    var i := LeadingSpaces(s);
    var j := |s| - TrailingSpaces(s[i..]);
    StripBounds(s, i, j);
    SliceOccurs(s, i, j);
    TrimmedRuns(s);
    s[i..j]
  }

  /** The slice between the two runs of whitespace starts and ends with non-whitespace. */
  lemma StripBounds(s: string, i: nat, j: int)
    requires i == LeadingSpaces(s) && j == |s| - TrailingSpaces(s[i..])
    ensures i <= j <= |s|
    ensures IsTrimmed(s[i..j])
  {
    var rest := s[i..];
    var t := TrailingSpaces(rest);
    if i < j {
      assert s[j - 1] == rest[|rest| - 1 - t];
      TrimmedSlice(s, i, j);
    }
  }

  lemma TrimmedSlice(s: string, i: nat, j: nat)
    requires i < j <= |s| && !IsSpace(s[i]) && !IsSpace(s[j - 1])
    ensures IsTrimmed(s[i..j])
  {
    assert s[i..j][0] == s[i];
    assert s[i..j][j - i - 1] == s[j - 1];
  }

  /** A trimmed string has no whitespace run at either end. */
  lemma TrimmedRuns(s: string)
    ensures IsTrimmed(s) ==> LeadingSpaces(s) == 0 && TrailingSpaces(s[0..]) == 0
  {
    assert s[0..] == s;
  }

  /** A slice occurs in its string where it was taken, and uses only its characters. */
  lemma SliceOccurs(s: string, i: nat, j: nat)
    requires i <= j <= |s|
    ensures OccursAt(s, s[i..j], i)
    ensures forall c :: c in s[i..j] ==> c in s
  {
    forall c | c in s[i..j] ensures c in s {
      var k :| 0 <= k < j - i && s[i..j][k] == c;
      assert s[i + k] == c;
    }
  }

  /** `strip()` returns exactly the trimmed middle between two runs of whitespace. */
  lemma StripExact(s: string, i: nat, j: nat)
    requires i < j <= |s|
    requires forall k :: 0 <= k < i ==> IsSpace(s[k])
    requires forall k :: j <= k < |s| ==> IsSpace(s[k])
    requires !IsSpace(s[i]) && !IsSpace(s[j - 1])
    ensures Strip(s) == s[i..j]
  {
    LeadingSpacesAreSpaces(s);
    assert LeadingSpaces(s) == i;
    var rest := s[i..];
    TrailingSpacesAreSpaces(rest);
    var t := TrailingSpaces(rest);
    assert rest[j - 1 - i] == s[j - 1];
    assert t == |s| - j;
    assert rest[..|rest| - t] == s[i..j];
  }

  // ---------------------------------------------------------------- lower()

  predicate IsUpper(c: char) {
    'A' <= c <= 'Z'
  }

  /** Lower-cases the ASCII capitals; every other character is kept. */
  function LowerChar(c: char): (d: char)
    ensures !IsUpper(d)
    ensures IsUpper(c) ==> d as int == c as int + 32
    ensures !IsUpper(c) ==> d == c
    ensures IsSpace(d) <==> IsSpace(c)
  {
    if IsUpper(c) then (c as int + 32) as char else c
  }

  /** Python's `s.lower()`, for ASCII letters: every capital becomes its small
      letter, one for one, and nothing else changes. */
  function Lower(s: string): (r: string)
    ensures |r| == |s|
    ensures forall k :: 0 <= k < |r| ==> !IsUpper(r[k])
    ensures forall k :: 0 <= k < |s| && IsUpper(s[k]) ==> r[k] as int == s[k] as int + 32
    ensures forall k :: 0 <= k < |s| && !IsUpper(s[k]) ==> r[k] == s[k]
  {
    seq(|s|, k requires 0 <= k < |s| => LowerChar(s[k]))
  }

  /** Lower-casing twice is lower-casing once. */
  lemma LowerIdempotent(s: string)
    ensures Lower(Lower(s)) == Lower(s)
  {
    var r := Lower(s);
    assert forall k :: 0 <= k < |r| ==> Lower(r)[k] == r[k];
  }

  // ---------------------------------------------------------------- split()

  /** Length of the word that starts `s`. */
  function WordLength(s: string): (n: nat)
    ensures n <= |s|
    ensures forall k :: 0 <= k < n ==> !IsSpace(s[k])
    ensures n < |s| ==> IsSpace(s[n])
  {
    if s == [] || IsSpace(s[0]) then 0 else 1 + WordLength(s[1..])
  }

  /** Python's `s.split()` with no separator: the maximal runs of non-whitespace. */
  function Split(s: string): (ws: seq<string>)
    decreases |s|
    ensures forall i :: 0 <= i < |ws| ==> ws[i] != [] && IsWord(ws[i])
  {
    if s == [] then []
    else if IsSpace(s[0]) then Split(s[1..])
    else
      var n := WordLength(s);
      [s[..n]] + Split(s[n..])
  }

  /** The characters of `s` that are not whitespace, in order. */
  function NonSpace(s: string): string {
    if s == [] then [] else (if IsSpace(s[0]) then [] else [s[0]]) + NonSpace(s[1..])
  }

  /** The words laid end to end. */
  function Concat(ws: seq<string>): string {
    if ws == [] then [] else ws[0] + Concat(ws[1..])
  }

  lemma {:induction false} NonSpaceAppend(a: string, b: string)
    ensures NonSpace(a + b) == NonSpace(a) + NonSpace(b)
  {
    if a == [] {
      assert a + b == b;
    } else {
      assert (a + b)[1..] == a[1..] + b;
      NonSpaceAppend(a[1..], b);
    }
  }

  lemma {:induction false} NonSpaceOfWord(w: string)
    requires IsWord(w)
    ensures NonSpace(w) == w
  {
    if w != [] {
      NonSpaceOfWord(w[1..]);
    }
  }

  /** `split()` loses exactly the whitespace: its words, laid end to end,
      are the non-whitespace characters of `s` in their original order. */
  lemma {:induction false} SplitKeepsNonSpace(s: string)
    ensures Concat(Split(s)) == NonSpace(s)
    decreases |s|
  {
    if s == [] {
    } else if IsSpace(s[0]) {
      SplitKeepsNonSpace(s[1..]);
    } else {
      var n := WordLength(s);
      assert s == s[..n] + s[n..];
      NonSpaceAppend(s[..n], s[n..]);
      NonSpaceOfWord(s[..n]);
      SplitKeepsNonSpace(s[n..]);
      assert ([s[..n]] + Split(s[n..]))[1..] == Split(s[n..]);
    }
  }

  /** A whitespace character always separates words: splitting at it splits the word lists. */
  lemma {:induction false} SplitAtSpace(a: string, c: char, b: string)
    requires IsSpace(c)
    ensures Split(a + [c] + b) == Split(a) + Split(b)
    decreases |a|
  {
    var s := a + [c] + b;
    if a == [] {
      assert s[1..] == b;
    } else if IsSpace(a[0]) {
      assert s[1..] == a[1..] + [c] + b;
      SplitAtSpace(a[1..], c, b);
    } else {
      var m := WordLength(a);
      WordLengthBeforeSpace(a, c, b);
      assert s[..m] == a[..m];
      assert s[m..] == a[m..] + [c] + b;
      SplitAtSpace(a[m..], c, b);
    }
  }

  /** A word that starts `a` ends where it ends in `a` followed by whitespace. */
  lemma WordLengthBeforeSpace(a: string, c: char, b: string)
    requires IsSpace(c)
    ensures WordLength(a + [c] + b) == WordLength(a)
  {
    var s := a + [c] + b;
    var m := WordLength(a);
    assert forall k :: 0 <= k < m ==> s[k] == a[k];
    if m < |a| { assert s[m] == a[m]; } else { assert s[m] == c; }
    WordLengthUnique(s, m);
  }

  /** `WordLength` is the first whitespace position. */
  lemma {:induction false} WordLengthUnique(s: string, m: nat)
    requires m <= |s|
    requires forall k :: 0 <= k < m ==> !IsSpace(s[k])
    requires m < |s| ==> IsSpace(s[m])
    ensures WordLength(s) == m
  {
    if m > 0 {
      assert forall k :: 0 <= k < m - 1 ==> s[1..][k] == s[k + 1];
      WordLengthUnique(s[1..], m - 1);
    }
  }

  /** A non-empty run of non-whitespace is a single word. */
  lemma SplitOfWord(w: string)
    requires w != [] && IsWord(w)
    ensures Split(w) == [w]
  {
    WordLengthUnique(w, |w|);
    assert w[..|w|] == w && w[|w|..] == [];
  }

  /** Python's `' '.join(ws)`. */
  function Join(ws: seq<string>): string {
    if ws == [] then [] else if |ws| == 1 then ws[0] else ws[0] + " " + Join(ws[1..])
  }

  /** Joining words with single spaces and splitting again gives the words back. */
  lemma {:induction false} SplitJoin(ws: seq<string>)
    requires forall i :: 0 <= i < |ws| ==> ws[i] != [] && IsWord(ws[i])
    ensures Split(Join(ws)) == ws
  {
    if |ws| == 1 {
      SplitOfWord(ws[0]);
    } else if |ws| > 1 {
      SplitJoin(ws[1..]);
      SplitAtSpace(ws[0], ' ', Join(ws[1..]));
      SplitOfWord(ws[0]);
      assert ws == [ws[0]] + ws[1..];
    }
  }

  /** Each word lower-cased. */
  function LowerAll(ws: seq<string>): (r: seq<string>)
    ensures |r| == |ws|
  {
    seq(|ws|, i requires 0 <= i < |ws| => Lower(ws[i]))
  }

  /** Lower-casing works character by character, so it distributes over concatenation. */
  lemma LowerAppend(x: string, y: string)
    ensures Lower(x + y) == Lower(x) + Lower(y)
  {
  }

  /** Lower-casing a space-joined text lower-cases each word. */
  lemma {:induction false} LowerJoin(ws: seq<string>)
    ensures Lower(Join(ws)) == Join(LowerAll(ws))
  {
    if |ws| > 1 {
      LowerJoin(ws[1..]);
      LowerAppend(ws[0] + " ", Join(ws[1..]));
      LowerAppend(ws[0], " ");
      assert Lower(" ") == " ";
      assert LowerAll(ws)[1..] == LowerAll(ws[1..]);
    }
  }

  /** Lower-casing keeps the first word's end. */
  lemma LowerWord(s: string)
    ensures var n := WordLength(s);
      && WordLength(Lower(s)) == n
      && Lower(s)[..n] == Lower(s[..n])
      && Lower(s)[n..] == Lower(s[n..])
  {
    var t := Lower(s);
    WordLengthUnique(t, WordLength(s));
  }

  /** Lower-casing keeps every word boundary: the words of the lower-cased
      string are the lower-cased words. */
  lemma {:induction false} SplitLower(s: string)
    ensures Split(Lower(s)) == LowerAll(Split(s))
    decreases |s|
  {
    if s == [] {
    } else if IsSpace(s[0]) {
      LowerTail(s);
      SplitLower(s[1..]);
    } else {
      var n := WordLength(s);
      LowerWord(s);
      SplitLower(s[n..]);
      LowerAllCons(s[..n], Split(s[n..]));
    }
  }

  lemma LowerTail(s: string)
    requires s != []
    ensures IsSpace(Lower(s)[0]) <==> IsSpace(s[0])
    ensures Lower(s)[1..] == Lower(s[1..])
  {
  }

  lemma LowerAllCons(w: string, ws: seq<string>)
    ensures LowerAll([w] + ws) == [Lower(w)] + LowerAll(ws)
  {
  }

  // ---------------------------------------------------------------- substring

  /** `t` occurs in `s` starting at position `i`. */
  predicate OccursAt(s: string, t: string, i: int) {
    0 <= i && i + |t| <= |s| && s[i..i + |t|] == t
  }

  lemma OccursAtShift(s: string, t: string)
    requires s != [] && !(t <= s)
    ensures (exists i :: OccursAt(s, t, i)) <==> (exists i :: OccursAt(s[1..], t, i))
  {
    if i :| OccursAt(s, t, i) {
      assert i != 0;
      assert s[1..][i - 1..i - 1 + |t|] == s[i..i + |t|];
      assert OccursAt(s[1..], t, i - 1);
    }
    if i :| OccursAt(s[1..], t, i) {
      assert s[1..][i..i + |t|] == s[i + 1..i + 1 + |t|];
      assert OccursAt(s, t, i + 1);
    }
  }

  /** Python's `t in s` on strings: `t` occurs in `s` at some position. */
  function Contains(s: string, t: string): (b: bool)
    decreases |s|
    ensures b <==> exists i :: OccursAt(s, t, i)
  {
    if t <= s then
      assert OccursAt(s, t, 0);
      true
    else if s == [] then false
    else
      OccursAtShift(s, t);
      Contains(s[1..], t)
  }

  // ---------------------------------------------------------------- split('[')[0]

  /** The part before the first `[` is the prefix up to that bracket. */
  lemma {:induction false} BeforeBracketAt(s: string, n: nat)
    requires n < |s| && s[n] == '['
    requires forall k :: 0 <= k < n ==> s[k] != '['
    ensures BeforeBracket(s) == s[..n]
  {
    if n > 0 {
      BeforeBracketAt(s[1..], n - 1);
      assert s[..n] == [s[0]] + s[1..][..n - 1];
    }
  }

  /** Python's `s.split('[')[0]`: the longest prefix of `s` without a `[`. */
  function BeforeBracket(s: string): (r: string)
    ensures r <= s
    ensures '[' !in r
    ensures |r| < |s| ==> s[|r|] == '['
  {
    if s == [] || s[0] == '[' then [] else [s[0]] + BeforeBracket(s[1..])
  }
}
