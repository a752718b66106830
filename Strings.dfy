/**
 * The JavaScript string operations the pages rely on: `toLowerCase`/`toUpperCase` (ASCII letters only),
 * `includes`, `replace` with a string pattern (first occurrence only), `split`/`join`, decimal
 * `toString` and `padStart`.
 */
module Strings {
  import opened Wrappers
  import opened Seqs

  function LowerChar(c: char): char {
    if 'A' <= c <= 'Z' then (c as int + 32) as char else c
  }

  function UpperChar(c: char): char {
    if 'a' <= c <= 'z' then (c as int - 32) as char else c
  }

  /** `s.toLowerCase()`, restricted to ASCII letters. */
  function Lower(s: string): string {
    seq(|s|, i requires 0 <= i < |s| => LowerChar(s[i]))
  }

  /** `s.toUpperCase()`, restricted to ASCII letters. */
  function Upper(s: string): string {
    seq(|s|, i requires 0 <= i < |s| => UpperChar(s[i]))
  }

  predicate OccursAt(s: string, pat: string, i: int) {
    0 <= i <= |s| - |pat| && s[i..i + |pat|] == pat
  }

  /** `s.includes(pat)`. */
  predicate Contains(s: string, pat: string) {
    exists i | 0 <= i <= |s| - |pat| :: OccursAt(s, pat, i)
  }

  /** Every string contains the empty string. */
  lemma ContainsEmpty(s: string)
    ensures Contains(s, "")
  {
    assert OccursAt(s, "", 0);
  }

  /** `s.indexOf(pat, from)`: the first position at or after `from` where `pat` occurs. */
  function FindFrom(s: string, pat: string, from: nat): (r: Option<nat>)
    ensures r.Some? ==> from <= r.value && OccursAt(s, pat, r.value)
    decreases |s| - from
  {
    if from + |pat| > |s| then None
    else if s[from..from + |pat|] == pat then Some(from)
    else FindFrom(s, pat, from + 1)
  }

  /** The position found is the first one: `pat` occurs nowhere before it, and nowhere at all when none is found. */
  lemma {:induction false} FindFromFirst(s: string, pat: string, from: nat)
    ensures FindFrom(s, pat, from).Some? ==> forall j :: from <= j < FindFrom(s, pat, from).value ==> !OccursAt(s, pat, j)
    ensures FindFrom(s, pat, from).None? ==> forall j :: from <= j ==> !OccursAt(s, pat, j)
    decreases |s| - from
  {
    if from + |pat| <= |s| && s[from..from + |pat|] != pat {
      FindFromFirst(s, pat, from + 1);
    }
  }

  /** `s.replace(pat, rep)` with a string pattern: only the first occurrence is replaced. */
  function ReplaceFirst(s: string, pat: string, rep: string): (r: string)
    ensures !Contains(s, pat) ==> r == s
    ensures Contains(s, pat) ==> exists k :: OccursAt(s, pat, k) && r == s[..k] + rep + s[k + |pat|..]
  {
    FindFromFirst(s, pat, 0);
    match FindFrom(s, pat, 0)
    case None => s
    case Some(k) => s[..k] + rep + s[k + |pat|..]
  }

  /** With a one-character pattern, `ReplaceFirst` rewrites exactly the leftmost occurrence of the character. */
  lemma ReplaceFirstChar(s: string, c: char, rep: string, k: nat)
    requires k < |s| && s[k] == c && c !in s[..k]
    ensures ReplaceFirst(s, [c], rep) == s[..k] + rep + s[k + 1..]
  {
    forall j | 0 <= j < k ensures s[j] != c {
      assert s[..k][j] == s[j];
    }
    FindFromChar(s, c, 0, k);
  }

  /** With a one-character pattern that does not occur, `ReplaceFirst` changes nothing. */
  lemma ReplaceFirstCharAbsent(s: string, c: char, rep: string)
    requires c !in s
    ensures ReplaceFirst(s, [c], rep) == s
  {
    FindFromCharAbsent(s, c, 0);
  }

  /** `parts.join(sep)`. */
  function Join(parts: seq<string>, sep: string): string {
    if |parts| == 0 then ""
    else if |parts| == 1 then parts[0]
    else parts[0] + sep + Join(parts[1..], sep)
  }

  lemma OccursInSlice(s: string, lo: nat, hi: nat, pat: string, j: int)
    requires lo <= hi <= |s| && OccursAt(s[lo..hi], pat, j)
    ensures OccursAt(s, pat, lo + j)
  {
    var a, b := s[lo..hi][j..j + |pat|], s[lo + j..lo + j + |pat|];
    forall i | 0 <= i < |pat| ensures a[i] == b[i] { }
    assert a == b;
  }

  /** A one-character pattern occurs exactly where that character stands. */
  lemma OccursAtChar(s: string, c: char, j: int)
    ensures OccursAt(s, [c], j) <==> 0 <= j < |s| && s[j] == c
  {
    if 0 <= j < |s| {
      assert s[j..j + 1][0] == s[j];
    }
  }

  lemma OccursAtCharAll(s: string, c: char)
    ensures forall j :: OccursAt(s, [c], j) <==> 0 <= j < |s| && s[j] == c
  {
    forall j ensures OccursAt(s, [c], j) <==> 0 <= j < |s| && s[j] == c {
      OccursAtChar(s, c, j);
    }
  }

  /** The pieces between the occurrences of `sep` in `s[from..]`. */
  function SplitFrom(s: string, sep: string, from: nat): (parts: seq<string>)
    requires |sep| > 0 && from <= |s|
    ensures |parts| >= 1
    decreases |s| - from
  {
    match FindFrom(s, sep, from)
    case None => [s[from..]]
    case Some(k) => [s[from..k]] + SplitFrom(s, sep, k + |sep|)
  }

  /** Joining the pieces with the separator gives back the text they were cut from. */
  lemma {:induction false} SplitFromJoinsBack(s: string, sep: string, from: nat)
    requires |sep| > 0 && from <= |s|
    ensures Join(SplitFrom(s, sep, from), sep) == s[from..]
    decreases |s| - from
  {
    match FindFrom(s, sep, from)
    case None =>
    case Some(k) =>
      SplitFromJoinsBack(s, sep, k + |sep|);
      var rest := SplitFrom(s, sep, k + |sep|);
      assert SplitFrom(s, sep, from) == [s[from..k]] + rest;
      JoinCons(s[from..k], rest, sep);
      SliceAround(s, from, k, sep);
  }

  /** Joining a piece in front of at least one more piece puts the separator between them. */
  lemma JoinCons(p0: string, rest: seq<string>, sep: string)
    requires |rest| >= 1
    ensures Join([p0] + rest, sep) == p0 + sep + Join(rest, sep)
  {
    ConsTail(p0, rest);
  }

  /** The text from `from` on is the part before an occurrence at `k`, the occurrence, and the rest. */
  lemma SliceAround(s: string, from: nat, k: nat, sep: string)
    requires from <= k && k + |sep| <= |s| && s[k..k + |sep|] == sep
    ensures s[from..] == s[from..k] + sep + s[k + |sep|..]
  {
    assert s[from..] == s[from..k] + s[k..];
    assert s[k..] == s[k..k + |sep|] + s[k + |sep|..];
    ConcatAssoc(s[from..k], sep, s[k + |sep|..]);
  }

  /** No piece produced by `SplitFrom` contains the separator. */
  lemma {:induction false} SplitFromPiecesFree(s: string, sep: string, from: nat)
    requires |sep| > 0 && from <= |s|
    ensures forall i :: 0 <= i < |SplitFrom(s, sep, from)| ==> !Contains(SplitFrom(s, sep, from)[i], sep)
    decreases |s| - from
  {
    FindFromFirst(s, sep, from);
    match FindFrom(s, sep, from)
    case None =>
      assert s[from..] == s[from..|s|];
      forall j | OccursAt(s[from..|s|], sep, j) ensures false {
        OccursInSlice(s, from, |s|, sep, j);
      }
    case Some(k) =>
      forall j | OccursAt(s[from..k], sep, j) ensures false {
        OccursInSlice(s, from, k, sep, j);
      }
      SplitFromPiecesFree(s, sep, k + |sep|);
      var rest := SplitFrom(s, sep, k + |sep|);
      assert SplitFrom(s, sep, from) == [s[from..k]] + rest;
      forall i | 1 <= i < |rest| + 1 ensures !Contains(SplitFrom(s, sep, from)[i], sep) {
        assert SplitFrom(s, sep, from)[i] == rest[i - 1];
      }
  }

  /** `s.split(sep)` for a non-empty separator. */
  function Split(s: string, sep: string): (parts: seq<string>)
    requires |sep| > 0
    ensures |parts| >= 1
    ensures Join(parts, sep) == s
  {
    assert s[0..] == s;
    SplitFromJoinsBack(s, sep, 0);
    SplitFrom(s, sep, 0)
  }

  /** No piece of `s.split(sep)` contains `sep`. */
  lemma SplitPiecesFree(s: string, sep: string)
    requires |sep| > 0
    ensures forall i :: 0 <= i < |Split(s, sep)| ==> !Contains(Split(s, sep)[i], sep)
  {
    SplitFromPiecesFree(s, sep, 0);
  }

  /** Searching for one character finds its first position at or after `from`. */
  lemma FindFromChar(s: string, c: char, from: nat, k: nat)
    requires from <= k < |s| && s[k] == c
    requires forall j :: from <= j < k ==> s[j] != c
    ensures FindFrom(s, [c], from) == Some(k)
  {
    FindFromFirst(s, [c], from);
    OccursAtCharAll(s, c);
  }

  /** Searching for a character that does not occur after `from` finds nothing. */
  lemma FindFromCharAbsent(s: string, c: char, from: nat)
    requires forall j :: from <= j < |s| ==> s[j] != c
    ensures FindFrom(s, [c], from) == None
  {
    FindFromFirst(s, [c], from);
    OccursAtCharAll(s, c);
  }

  /** One step of `SplitFrom`: the piece up to the next separator, then the rest. */
  lemma SplitFromStep(s: string, c: char, from: nat, k: nat)
    requires from <= k < |s| && s[k] == c
    requires forall j :: from <= j < k ==> s[j] != c
    ensures SplitFrom(s, [c], from) == [s[from..k]] + SplitFrom(s, [c], k + 1)
  {
    FindFromChar(s, c, from, k);
  }

  /** The last step of `SplitFrom`: no separator is left. */
  lemma SplitFromLast(s: string, c: char, from: nat)
    requires from <= |s|
    requires forall j :: from <= j < |s| ==> s[j] != c
    ensures SplitFrom(s, [c], from) == [s[from..]]
  {
    FindFromCharAbsent(s, c, from);
  }

  /** Splitting on a one-character separator that occurs in no part undoes `Join`. */
  lemma {:induction false} SplitFromJoin(s: string, from: nat, parts: seq<string>, c: char)
    requires from <= |s| && |parts| >= 1
    requires forall i :: 0 <= i < |parts| ==> c !in parts[i]
    requires s[from..] == Join(parts, [c])
    ensures SplitFrom(s, [c], from) == parts
    decreases |parts|
  {
    if |parts| == 1 {
      SplitLastPiece(s, from, parts[0], c);
    } else {
      var p0, tail := parts[0], parts[1..];
      var rest := Join(tail, [c]);
      var next := from + |p0| + 1;
      assert s[from..] == p0 + [c] + rest by {
        assert parts == [p0] + tail;
        JoinCons(p0, tail, [c]);
      }
      SplitFirstPiece(s, from, p0, rest, c);
      assert SplitFrom(s, [c], next) == tail by {
        forall i | 0 <= i < |tail| ensures c !in tail[i] {
          assert tail[i] == parts[i + 1];
        }
        SplitFromJoin(s, next, tail, c);
      }
      assert [p0] + tail == parts;
    }
  }

  /** The last piece: no separator is left after `from`. */
  lemma SplitLastPiece(s: string, from: nat, p0: string, c: char)
    requires from <= |s| && s[from..] == p0 && c !in p0
    ensures SplitFrom(s, [c], from) == [p0]
  {
    forall j | from <= j < |s| ensures s[j] != c {
      assert s[j] == s[from..][j - from];
    }
    SplitFromLast(s, c, from);
  }

  /** A piece followed by the separator: the piece, then the split of what follows. */
  lemma SplitFirstPiece(s: string, from: nat, p0: string, rest: string, c: char)
    requires from <= |s| && s[from..] == p0 + [c] + rest && c !in p0
    ensures from + |p0| + 1 <= |s| && s[from + |p0| + 1..] == rest
    ensures SplitFrom(s, [c], from) == [p0] + SplitFrom(s, [c], from + |p0| + 1)
  {
    var k := from + |p0|;
    var joined := p0 + [c] + rest;
    forall j | from <= j < k ensures s[j] != c {
      assert s[j] == joined[j - from];
    }
    assert s[k] == joined[|p0|];
    SplitFromStep(s, c, from, k);
    assert joined[..|p0|] == p0 && joined[|p0| + 1..] == rest;
    assert s[from..k] == joined[..|p0|];
    assert s[k + 1..] == joined[|p0| + 1..];
  }

  /** `Split` is the inverse of `Join` for a one-character separator that occurs in no part. */
  lemma SplitJoin(parts: seq<string>, c: char)
    requires |parts| >= 1
    requires forall i :: 0 <= i < |parts| ==> c !in parts[i]
    ensures Split(Join(parts, [c]), [c]) == parts
  {
    var s := Join(parts, [c]);
    assert s[0..] == s;
    SplitFromJoin(s, 0, parts, c);
  }

  /** Joining two non-empty lists with separators equals joining their concatenation. */
  lemma {:induction false} JoinAppend(a: seq<string>, b: seq<string>, sep: string)
    requires |a| >= 1 && |b| >= 1
    ensures Join(a, sep) + sep + Join(b, sep) == Join(a + b, sep)
  {
    if |a| == 1 {
      assert (a + b)[1..] == b;
    } else {
      JoinAppend(a[1..], b, sep);
      assert (a + b)[1..] == a[1..] + b;
    }
  }

  /** A character in no part and not in the separator is not in the joined string. */
  lemma {:induction false} JoinAvoids(parts: seq<string>, sep: string, c: char)
    requires forall i :: 0 <= i < |parts| ==> c !in parts[i]
    requires c !in sep
    ensures c !in Join(parts, sep)
  {
    if |parts| > 1 {
      JoinAvoids(parts[1..], sep, c);
      assert c !in parts[0];
    } else if |parts| == 1 {
      assert c !in parts[0];
    }
  }

  /** Each list of `ms` joined on its own. */
  function JoinEach(ms: seq<seq<string>>, sep: string): (r: seq<string>)
    ensures |r| == |ms| && forall i :: 0 <= i < |ms| ==> r[i] == Join(ms[i], sep)
  {
    seq(|ms|, i requires 0 <= i < |ms| => Join(ms[i], sep))
  }

  /** Joining the joined lists is joining all their parts, when no list is empty. */
  lemma {:induction false} JoinFlatten(ms: seq<seq<string>>, sep: string)
    requires |ms| >= 1 && forall i :: 0 <= i < |ms| ==> |ms[i]| >= 1
    ensures Join(JoinEach(ms, sep), sep) == Join(Flatten(ms), sep)
  {
    if |ms| > 1 {
      var rest := ms[1..];
      JoinFlatten(rest, sep);
      assert JoinEach(ms, sep)[1..] == JoinEach(rest, sep);
      assert |Flatten(rest)| >= 1 by {
        assert |rest[0]| >= 1;
      }
      JoinAppend(ms[0], Flatten(rest), sep);
    } else {
      assert ms[1..] == [];
      assert Flatten(ms) == ms[0] + [];
      assert ms[0] + [] == ms[0];
      assert JoinEach(ms, sep) == [Join(ms[0], sep)];
    }
  }

  predicate IsDigit(c: char) {
    '0' <= c <= '9'
  }

  predicate AllDigits(s: string) {
    forall i :: 0 <= i < |s| ==> IsDigit(s[i])
  }

  function DigitChar(d: nat): (c: char)
    requires d < 10
    ensures IsDigit(c)
  {
    ('0' as int + d) as char
  }

  /** `n.toString()` for a non-negative integer: decimal digits without leading zeros. */
  function Decimal(n: nat): (r: string)
    ensures |r| >= 1 && AllDigits(r)
    ensures n > 0 ==> r[0] != '0'
    ensures n < 10 <==> |r| == 1
  {
    if n < 10 then [DigitChar(n)] else Decimal(n / 10) + [DigitChar(n % 10)]
  }

  /** The value of a string of decimal digits. */
  function DecimalValue(s: string): nat
    requires AllDigits(s)
  {
    if |s| == 0 then 0 else DecimalValue(s[..|s| - 1]) * 10 + (s[|s| - 1] as int - '0' as int)
  }

  /** Reading the decimal form back gives the number. */
  lemma {:induction false} DecimalRoundTrip(n: nat)
    ensures DecimalValue(Decimal(n)) == n
  {
    if n >= 10 {
      DecimalRoundTrip(n / 10);
      var d := Decimal(n);
      assert d[..|d| - 1] == Decimal(n / 10);
    } else {
      assert Decimal(n)[..0] == [];
    }
  }

  /**
   * JavaScript's `length`: the number of UTF-16 code units, two for each code point above
   * U+FFFF (a surrogate pair) and one for every other.
   */
  function Utf16Length(s: string): (n: nat)
    ensures |s| <= n <= 2 * |s|
  {
    if s == [] then 0 else (if s[0] as int >= 0x1_0000 then 2 else 1) + Utf16Length(s[1..])
  }

  /** A string of Basic Multilingual Plane characters is as long in code units as in characters. */
  lemma {:induction false} Utf16LengthBmp(s: string)
    requires forall i :: 0 <= i < |s| ==> (s[i] as int) < 0x1_0000
    ensures Utf16Length(s) == |s|
  {
    if s != [] {
      Utf16LengthBmp(s[1..]);
    }
  }

  /** `str.padStart(2, '0')`. */
  function PadStart2(str: string): (r: string)
    ensures |r| == if |str| < 2 then 2 else |str|
    ensures r[|r| - |str|..] == str
  {
    if |str| == 0 then "00" else if |str| == 1 then "0" + str else str
  }
}
