/**
 * The handful of Python string operations the log reader relies on:
 * substring test (`pat in s`), `str.split(sep)` with a one-character separator,
 * and slicing with Python's clamping and negative-index rules.
 */
module Text {

  /** `pat` occurs in `s` starting at index `i`. */
  predicate OccursAt(s: string, pat: string, i: nat)
  {
    i + |pat| <= |s| && s[i..i + |pat|] == pat
  }

  /** `pat in s` */
  predicate Contains(s: string, pat: string)
  {
    exists i: nat :: i <= |s| && OccursAt(s, pat, i)
  }

  /** Number of occurrences of `c` in `s`. */
  function Occurrences(s: string, c: char): nat
  {
    if |s| == 0 then 0 else (if s[0] == c then 1 else 0) + Occurrences(s[1..], c)
  }

  /**
   * `s.split(sep)`: the pieces between consecutive separators, so a string with
   * n separators gives n + 1 pieces (empty pieces included).
   */
  function Split(s: string, sep: char): (parts: seq<string>)
    ensures |parts| == Occurrences(s, sep) + 1
  {
    if |s| == 0 then [""]
    else
      var rest := Split(s[1..], sep);
      if s[0] == sep then [""] + rest
      else [[s[0]] + rest[0]] + rest[1..]
  }

  /** `sep.join(parts)` */
  function Join(parts: seq<string>, sep: char): string
  {
    if |parts| == 0 then ""
    else if |parts| == 1 then parts[0]
    else parts[0] + [sep] + Join(parts[1..], sep)
  }

  /** Splitting loses nothing: joining the pieces back gives the original line. */
  lemma {:induction false} SplitJoin(s: string, sep: char)
    ensures Join(Split(s, sep), sep) == s
  {
    if |s| > 0 {
      var rest := Split(s[1..], sep);
      SplitJoin(s[1..], sep);
      if s[0] == sep {
        assert Split(s, sep) == [""] + rest;
      } else {
        var parts := Split(s, sep);
        assert parts[1..] == rest[1..];
        if |rest| == 1 {
          assert Join(parts, sep) == [s[0]] + rest[0];
        } else {
          assert Join(parts, sep) == [s[0]] + rest[0] + [sep] + Join(rest[1..], sep);
        }
        assert [s[0]] + s[1..] == s;
      }
    }
  }

  /** No piece of a split contains the separator. */
  lemma {:induction false} SplitPiecesFree(s: string, sep: char)
    ensures forall k :: 0 <= k < |Split(s, sep)| ==> sep !in Split(s, sep)[k]
  {
    if |s| > 0 {
      SplitPiecesFree(s[1..], sep);
    }
  }

  /** A Python slice bound: negative counts from the end, then clamped to 0..n. */
  function SliceBound(i: int, n: nat): (k: nat)
    ensures k <= n
    ensures 0 <= i <= n ==> k == i
    ensures -(n as int) <= i < 0 ==> k as int == n as int + i
  {
    if i < 0 then (if i + n < 0 then 0 else i + n)
    else if i > n then n
    else i
  }

  /** `s[lo:hi]` with Python semantics (never fails; an empty range gives `[]`). */
  function PySlice<T>(s: seq<T>, lo: int, hi: int): (r: seq<T>)
    ensures |r| <= |s|
  {
    var a, b := SliceBound(lo, |s|), SliceBound(hi, |s|);
    if a < b then s[a..b] else []
  }

  /** `line[5:-1]`: everything from index 5 up to, not including, the last character. */
  lemma SliceDropsHeadAndLast(line: string)
    ensures |line| >= 6 ==> PySlice(line, 5, -1) == line[5..|line| - 1]
    ensures |line| <= 6 ==> PySlice(line, 5, -1) == []
  {
  }

  /** `line[6:8] == "GP"` holds exactly when the line has the two characters there. */
  lemma TwoCharWindow(line: string, code: string)
    requires |code| == 2
    ensures PySlice(line, 6, 8) == code <==> |line| >= 8 && line[6] == code[0] && line[7] == code[1]
  {
    if |line| >= 8 && line[6] == code[0] && line[7] == code[1] {
      assert PySlice(line, 6, 8) == [code[0], code[1]] == code;
    }
  }
}
