/** The JavaScript string and array operations the generator relies on,
    stated over `seq<char>`. */
module JsText {

  /** `s.indexOf(c)` for a one-character needle: the first index of `c`, or -1. */
  function IndexOf(s: string, c: char): (r: int)
    ensures -1 <= r < |s|
    ensures r == -1 <==> c !in s
    ensures 0 <= r ==> s[r] == c && c !in s[..r]
  {
    if |s| == 0 then -1
    else if s[0] == c then 0
    else
      var k := IndexOf(s[1..], c);
      if k == -1 then -1
      else
        assert s[..k + 1] == [s[0]] + s[1..][..k];
        k + 1
  }

  /** The first occurrence is where `c` sits with no `c` before it. */
  lemma IndexOfAt(s: string, c: char, n: nat)
    requires n < |s| && s[n] == c && c !in s[..n]
    ensures IndexOf(s, c) == n
  {
    assert forall j :: 0 <= j < n ==> s[..n][j] == s[j];
    var k := IndexOf(s, c);
    assert k >= 0 && s[k] == c && c !in s[..k];
    assert k <= n;
  }

  /** `s.lastIndexOf(c)`: the last index of `c`, or -1. */
  function LastIndexOf(s: string, c: char): (r: int)
    ensures -1 <= r < |s|
    ensures r == -1 <==> c !in s
    ensures 0 <= r ==> s[r] == c && c !in s[r + 1..]
  {
    if |s| == 0 then -1
    else if s[|s| - 1] == c then |s| - 1
    else
      var k := LastIndexOf(s[..|s| - 1], c);
      LastIndexOfDrop(s, c, k);
      k
  }

  /** The last `c` of a string whose final character is not `c` is the last `c` of
      the string without that character. */
  lemma LastIndexOfDrop(s: string, c: char, k: int)
    requires |s| > 0 && s[|s| - 1] != c
    requires -1 <= k < |s| - 1
    requires k == -1 <==> c !in s[..|s| - 1]
    requires 0 <= k ==> s[..|s| - 1][k] == c && c !in s[..|s| - 1][k + 1..]
    ensures k == -1 <==> c !in s
    ensures 0 <= k ==> s[k] == c && c !in s[k + 1..]
  {
    var t := s[..|s| - 1];
    assert s == t + [s[|s| - 1]];
    if k >= 0 {
      assert s[k + 1..] == t[k + 1..] + [s[|s| - 1]];
    }
  }

  /** `pat` occurs in `s` starting at index `i`. */
  predicate OccursAt(s: string, pat: string, i: nat) {
    i <= |s| && pat <= s[i..]
  }

  /** `s.indexOf(pat)` for a string needle: the first occurrence at or after `from`, or -1. */
  function FindFrom(s: string, pat: string, from: nat): (r: int)
    requires from <= |s|
    ensures r == -1 || from <= r <= |s|
    ensures r >= 0 ==> OccursAt(s, pat, r)
    ensures r >= 0 ==> forall j :: from <= j < r ==> !OccursAt(s, pat, j)
    ensures r == -1 ==> forall j :: from <= j <= |s| ==> !OccursAt(s, pat, j)
    decreases |s| - from
  {
    if pat <= s[from..] then from
    else if from == |s| then -1
    else FindFrom(s, pat, from + 1)
  }

  /** `s.indexOf(pat)`: the first index at which `pat` occurs, or -1. */
  function IndexOfSub(s: string, pat: string): (r: int)
    ensures r == -1 || 0 <= r <= |s|
    ensures r >= 0 ==> OccursAt(s, pat, r) && forall j :: 0 <= j < r ==> !OccursAt(s, pat, j)
    ensures r == -1 ==> forall j :: 0 <= j <= |s| ==> !OccursAt(s, pat, j)
  {
    FindFrom(s, pat, 0)
  }

  /** `s.replace(pat, rep)` with a string pattern: only the FIRST occurrence is replaced. */
  function ReplaceFirst(s: string, pat: string, rep: string): string
  {
    var i := IndexOfSub(s, pat);
    if i < 0 then s else s[..i] + rep + s[i + |pat|..]
  }

  /** Replacing with the empty string removes a leading occurrence and nothing else. */
  lemma ReplaceFirstLeading(s: string, pat: string)
    requires pat <= s
    ensures ReplaceFirst(s, pat, "") == s[|pat|..]
  {
    assert OccursAt(s, pat, 0);
  }

  /** Replacing with the empty string leaves a string without the pattern unchanged,
      and otherwise removes exactly one occurrence, the first. */
  lemma ReplaceFirstRemovesOne(s: string, pat: string)
    ensures IndexOfSub(s, pat) == -1 ==> ReplaceFirst(s, pat, "") == s
    ensures IndexOfSub(s, pat) >= 0 ==> |ReplaceFirst(s, pat, "")| == |s| - |pat|
    ensures IndexOfSub(s, pat) >= 0 ==>
              s == ReplaceFirst(s, pat, "")[..IndexOfSub(s, pat)] + pat
                   + ReplaceFirst(s, pat, "")[IndexOfSub(s, pat)..]
  {
    var i := IndexOfSub(s, pat);
    if i >= 0 {
      var r := ReplaceFirst(s, pat, "");
      assert r == s[..i] + s[i + |pat|..];
      assert r[..i] == s[..i];
      assert r[i..] == s[i + |pat|..];
      assert s[i..i + |pat|] == pat;
      assert s == s[..i] + s[i..i + |pat|] + s[i + |pat|..];
    }
  }

  /** `s.split(c)`: the maximal pieces of `s` between occurrences of `c`. */
  function Split(s: string, c: char): (parts: seq<string>)
    ensures |parts| >= 1
    decreases |s|
  {
    var k := IndexOf(s, c);
    if k == -1 then [s] else [s[..k]] + Split(s[k + 1..], c)
  }

  /** No piece of a split holds the separator. */
  lemma {:induction false} SplitPiecesFree(s: string, c: char)
    ensures forall i :: 0 <= i < |Split(s, c)| ==> c !in Split(s, c)[i]
    decreases |s|
  {
    var k := IndexOf(s, c);
    if k != -1 {
      SplitPiecesFree(s[k + 1..], c);
      assert Split(s, c) == [s[..k]] + Split(s[k + 1..], c);
    }
  }

  /** A string without the separator is a single piece. */
  lemma SplitNoSeparator(s: string, c: char)
    requires c !in s
    ensures Split(s, c) == [s]
  {
  }

  /** The first piece ends at the first separator. */
  lemma SplitAtFirst(s: string, c: char)
    requires c in s
    ensures Split(s, c) == [s[..IndexOf(s, c)]] + Split(s[IndexOf(s, c) + 1..], c)
  {
    var k := IndexOf(s, c);
    var rest := Split(s[k + 1..], c);
    assert k != -1;
    assert Split(s, c) == [s[..k]] + rest;
  }

  /** A string with more than one piece is its first piece, the separator, and a rest
      whose pieces are the remaining ones. */
  lemma SplitHead(s: string, c: char)
    requires |Split(s, c)| > 1
    ensures 0 <= IndexOf(s, c)
    ensures s == Split(s, c)[0] + [c] + s[IndexOf(s, c) + 1..]
    ensures Split(s, c)[1..] == Split(s[IndexOf(s, c) + 1..], c)
  {
    SplitHeadIndex(s, c);
    SplitAtFirst(s, c);
    AroundFirst(s, c);
  }

  lemma SplitHeadIndex(s: string, c: char)
    requires |Split(s, c)| > 1
    ensures c in s
  {
  }

  /** A string is what precedes its first `c`, then `c`, then what follows. */
  lemma AroundFirst(s: string, c: char)
    requires c in s
    ensures s == s[..IndexOf(s, c)] + [c] + s[IndexOf(s, c) + 1..]
  {
    Around(s, IndexOf(s, c));
  }

  /** A string is what precedes position `k`, the character there, and what follows. */
  lemma Around(s: string, k: nat)
    requires k < |s|
    ensures s == s[..k] + [s[k]] + s[k + 1..]
  {
    assert s[..k] + [s[k]] + s[k + 1..] == s[..k] + s[k..k + 1] + s[k + 1..];
  }

  /** `parts.join(sep)`. */
  function Join(parts: seq<string>, sep: string): string
  {
    if |parts| == 0 then ""
    else if |parts| == 1 then parts[0]
    else parts[0] + sep + Join(parts[1..], sep)
  }

  /** Joining the pieces of a split with the same separator gives back the string. */
  lemma {:induction false} JoinSplit(s: string, c: char)
    ensures Join(Split(s, c), [c]) == s
    decreases |s|
  {
    if c in s {
      SplitAtFirst(s, c);
      var k := IndexOf(s, c);
      var rest := s[k + 1..];
      JoinSplit(rest, c);
      JoinCons(s[..k], Split(rest, c), [c]);
      AroundFirst(s, c);
    } else {
      SplitNoSeparator(s, c);
    }
  }

  /** Joining a list with a head: the head, the separator, then the join of the rest. */
  lemma JoinCons(a: string, ps: seq<string>, sep: string)
    requires |ps| >= 1
    ensures Join([a] + ps, sep) == a + sep + Join(ps, sep)
  {
    assert ([a] + ps)[1..] == ps;
  }

  /** A separator after the first one makes at least three pieces. */
  lemma ThreePieces(s: string, c: char)
    requires c in s && c in s[IndexOf(s, c) + 1..]
    ensures |Split(s, c)| > 2
  {
    SplitAtFirst(s, c);
    SplitAtFirst(s[IndexOf(s, c) + 1..], c);
  }

  /** `s.split(c).splice(1).join(c)` with more than one piece: what follows the first separator. */
  lemma DropFirstPiece(s: string, c: char)
    requires |Split(s, c)| > 1
    ensures 0 <= IndexOf(s, c)
    ensures Join(Split(s, c)[1..], [c]) == s[IndexOf(s, c) + 1..]
  {
    SplitHead(s, c);
    JoinSplit(s[IndexOf(s, c) + 1..], c);
  }

  /** Splitting a join of separator-free pieces gives back the pieces. */
  lemma {:induction false} SplitJoin(parts: seq<string>, c: char)
    requires |parts| >= 1
    requires forall i :: 0 <= i < |parts| ==> c !in parts[i]
    ensures Split(Join(parts, [c]), c) == parts
  {
    if |parts| > 1 {
      var rest := Join(parts[1..], [c]);
      var s := parts[0] + [c] + rest;
      assert Join(parts, [c]) == s;
      IndexOfAt(s, c, |parts[0]|);
      var k := IndexOf(s, c);
      assert s[..k] == parts[0];
      assert s[k + 1..] == rest;
      SplitJoin(parts[1..], c);
    }
  }

  /** With more than `n` pieces, dropping the first `n` pieces of a split
      (`s.split(c).splice(n).join(c)`) removes exactly the first `n` pieces and their separators. */
  lemma {:induction false} DropPieces(s: string, c: char, n: nat)
    requires |Split(s, c)| > n
    ensures s == Join(Split(s, c)[..n] + [Join(Split(s, c)[n..], [c])], [c])
  {
    JoinSplit(s, c);
    JoinAppendTail(Split(s, c), [c], n);
  }

  /** Joining is associative with respect to splitting the list of pieces. */
  lemma {:induction false} JoinAppendTail(parts: seq<string>, sep: string, n: nat)
    requires n < |parts|
    ensures Join(parts, sep) == Join(parts[..n] + [Join(parts[n..], sep)], sep)
    decreases n
  {
    if n > 0 {
      JoinAppendTail(parts[1..], sep, n - 1);
      assert parts[1..][..n - 1] == parts[..n][1..];
      assert parts[1..][n - 1..] == parts[n..];
      var q := parts[..n] + [Join(parts[n..], sep)];
      assert q[1..] == parts[1..][..n - 1] + [Join(parts[1..][n - 1..], sep)];
    }
  }

  /** `s.endsWith(suffix)`. */
  predicate EndsWith(s: string, suffix: string) {
    |suffix| <= |s| && s[|s| - |suffix|..] == suffix
  }

  /** `String.prototype.toUpperCase` restricted to the ASCII letters. */
  function UpperChar(c: char): char {
    if 'a' <= c <= 'z' then (c as int - 32) as char else c
  }

  /** `String.prototype.toLowerCase` restricted to the ASCII letters. */
  function LowerChar(c: char): char {
    if 'A' <= c <= 'Z' then (c as int + 32) as char else c
  }

  function ToUpper(s: string): (r: string)
    ensures |r| == |s|
    ensures forall i :: 0 <= i < |s| ==> r[i] == UpperChar(s[i])
  {
    seq(|s|, i requires 0 <= i < |s| => UpperChar(s[i]))
  }

  function ToLower(s: string): (r: string)
    ensures |r| == |s|
    ensures forall i :: 0 <= i < |s| ==> r[i] == LowerChar(s[i])
  {
    seq(|s|, i requires 0 <= i < |s| => LowerChar(s[i]))
  }

  /** JavaScript `a < b` on strings: lexicographic on characters, a proper prefix is smaller. */
  predicate LexLess(a: string, b: string)
    decreases |a|
  {
    |b| > 0 && (|a| == 0 || a[0] < b[0] || (a[0] == b[0] && LexLess(a[1..], b[1..])))
  }

  lemma {:induction false} LexLessIrreflexive(a: string)
    ensures !LexLess(a, a)
    decreases |a|
  {
    if |a| > 0 {
      LexLessIrreflexive(a[1..]);
    }
  }

  lemma {:induction false} LexLessTransitive(a: string, b: string, c: string)
    requires LexLess(a, b) && LexLess(b, c)
    ensures LexLess(a, c)
    decreases |a|
  {
    if |a| > 0 && a[0] == b[0] && b[0] == c[0] {
      LexLessTransitive(a[1..], b[1..], c[1..]);
    }
  }

  /** Any two strings are equal or ordered one way or the other. */
  lemma {:induction false} LexLessTotal(a: string, b: string)
    ensures a == b || LexLess(a, b) || LexLess(b, a)
    decreases |a|
  {
    if |a| > 0 && |b| > 0 && a[0] == b[0] {
      LexLessTotal(a[1..], b[1..]);
      if a[1..] == b[1..] {
        assert a == [a[0]] + a[1..] && b == [b[0]] + b[1..];
      }
    }
  }

  /** The characters `/[ \n\r]/` matches. */
  predicate Blank(c: char) {
    c == ' ' || c == '\n' || c == '\r'
  }

  /** `s.replace(/[ \n\r]/g, '-')`. */
  function Dashify(s: string): (r: string)
    ensures |r| == |s|
    ensures forall i :: 0 <= i < |r| ==> !Blank(r[i])
    ensures forall i :: 0 <= i < |s| ==> (Blank(s[i]) ==> r[i] == '-') && (!Blank(s[i]) ==> r[i] == s[i])
  {
    seq(|s|, i requires 0 <= i < |s| => if Blank(s[i]) then '-' else s[i])
  }
}
