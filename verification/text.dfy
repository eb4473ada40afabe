/**
 * The string operations the connector applies to its configuration: Python's
 * `str.split(sep)` with an explicit one-character separator and `str.strip()`.
 */
module Text {

  /** `s.split(sep)`: the pieces between separators, in order; never empty ("".split(",") == [""]). */
  function Split(s: string, sep: char): (parts: seq<string>)
    ensures |parts| >= 1
    decreases |s|
  {
    if s == [] then [""]
    else
      var rest := Split(s[1..], sep);
      if s[0] == sep then [""] + rest
      else [[s[0]] + rest[0]] + rest[1..]
  }

  /** No piece contains the separator. */
  lemma {:induction false} SplitPiecesLackSeparator(s: string, sep: char)
    ensures forall i :: 0 <= i < |Split(s, sep)| ==> sep !in Split(s, sep)[i]
    decreases |s|
  {
    if s != [] {
      SplitPiecesLackSeparator(s[1..], sep);
      var rest := Split(s[1..], sep);
      if s[0] != sep {
        assert sep !in [s[0]] + rest[0];
        assert Split(s, sep)[1..] == rest[1..];
      }
    }
  }

  /** `sep.join(parts)`. */
  function Join(parts: seq<string>, sep: char): string
    requires |parts| >= 1
    decreases |parts|
  {
    if |parts| == 1 then parts[0] else parts[0] + [sep] + Join(parts[1..], sep)
  }

  /** How many times `c` occurs in `s`. */
  function Occurrences(s: string, c: char): nat
    decreases |s|
  {
    if s == [] then 0 else (if s[0] == c then 1 else 0) + Occurrences(s[1..], c)
  }

  /** Splitting loses nothing: joining the pieces with the separator gives the string back. */
  lemma {:induction false} JoinSplit(s: string, sep: char)
    ensures Join(Split(s, sep), sep) == s
    decreases |s|
  {
    if s != [] {
      var rest := Split(s[1..], sep);
      JoinSplit(s[1..], sep);
      if s[0] == sep {
        assert Split(s, sep)[1..] == rest;
      } else {
        var parts := Split(s, sep);
        if |rest| == 1 {
          assert parts == [[s[0]] + rest[0]];
        } else {
          assert parts[1..] == rest[1..];
          assert Join(rest, sep) == rest[0] + [sep] + Join(rest[1..], sep);
        }
      }
    }
  }

  /** Splitting the join of separator-free pieces gives the pieces back. */
  lemma {:induction false} SplitJoin(parts: seq<string>, sep: char)
    requires |parts| >= 1
    requires forall i :: 0 <= i < |parts| ==> sep !in parts[i]
    ensures Split(Join(parts, sep), sep) == parts
    decreases |parts|, |parts[0]|
  {
    var head := parts[0];
    if head != [] {
      var shorter := [head[1..]] + parts[1..];
      assert Join(parts, sep) == [head[0]] + Join(shorter, sep) by {
        if |parts| > 1 {
          assert Join(shorter, sep) == head[1..] + [sep] + Join(parts[1..], sep) by {
            assert shorter[1..] == parts[1..];
          }
        }
      }
      assert sep !in head[1..] by {
        assert forall c :: c in head[1..] ==> c in head;
      }
      SplitJoin(shorter, sep);
      assert (Join(parts, sep))[1..] == Join(shorter, sep);
      assert head == [head[0]] + head[1..];
    } else if |parts| > 1 {
      SplitJoin(parts[1..], sep);
      assert Join(parts, sep)[1..] == Join(parts[1..], sep);
      assert parts == [""] + parts[1..];
    }
  }

  /** There is one more piece than there are separators. */
  lemma {:induction false} SplitCount(s: string, sep: char)
    ensures |Split(s, sep)| == Occurrences(s, sep) + 1
    decreases |s|
  {
    if s != [] {
      SplitCount(s[1..], sep);
    }
  }

  /** A string without the separator is a single piece. */
  lemma {:induction false} SplitWithoutSeparator(s: string, sep: char)
    requires sep !in s
    ensures Split(s, sep) == [s]
    decreases |s|
  {
    if s != [] {
      assert sep !in s[1..] by {
        assert forall c :: c in s[1..] ==> c in s;
      }
      SplitWithoutSeparator(s[1..], sep);
      assert [s[0]] + s[1..] == s;
    }
  }

  /** `s.split(sep)[-1]`: what follows the last separator, or all of `s` when there is none. */
  function LastPiece(s: string, sep: char): string {
    var parts := Split(s, sep);
    parts[|parts| - 1]
  }

  /**
   * The last piece is the suffix of the string after its last separator: a suffix, and,
   * unless it is the whole string, one that starts right after a separator.
   */
  lemma {:induction false} LastPieceIsSuffix(s: string, sep: char)
    ensures |LastPiece(s, sep)| <= |s|
    ensures forall k :: 0 <= k < |LastPiece(s, sep)| ==> LastPiece(s, sep)[k] == s[|s| - |LastPiece(s, sep)| + k]
    ensures |LastPiece(s, sep)| < |s| ==> s[|s| - |LastPiece(s, sep)| - 1] == sep
    decreases |s|
  {
    if s != [] {
      var parts := Split(s, sep);
      var rest := Split(s[1..], sep);
      var last := LastPiece(s[1..], sep);
      if s[0] != sep && |rest| == 1 {
        assert parts == [[s[0]] + last];
        JoinSplit(s[1..], sep);
        assert LastPiece(s, sep) == s;
      } else {
        assert LastPiece(s, sep) == last by {
          if s[0] == sep {
            assert parts == [""] + rest;
          } else {
            assert parts == [[s[0]] + rest[0]] + rest[1..];
          }
        }
        LastPieceIsSuffix(s[1..], sep);
        forall k | 0 <= k < |last|
          ensures last[k] == s[|s| - |last| + k]
        {
          assert last[k] == s[1..][|s| - 1 - |last| + k];
        }
        if s[0] != sep {
          assert |last| < |s| - 1 by {
            SplitCount(s[1..], sep);
            OccurrencesPositive(s[1..], sep);
            SplitPiecesLackSeparator(s[1..], sep);
            assert sep in s[1..];
            assert sep !in last;
            assert last != s[1..];
          }
        }
        if |last| < |s| - 1 {
          assert s[1..][|s| - 1 - |last| - 1] == sep;
        }
      }
    }
  }

  /** The characters Python's `str.isspace` accepts, which `str.strip()` removes: ASCII and Unicode whitespace. */
  const WHITESPACE: string :=
    "\t\n\U{0b}\U{0c}\r\U{1c}\U{1d}\U{1e}\U{1f} \U{85}\U{a0}\U{1680}\U{2000}\U{2001}\U{2002}\U{2003}\U{2004}\U{2005}"
    + "\U{2006}\U{2007}\U{2008}\U{2009}\U{200a}\U{2028}\U{2029}\U{202f}\U{205f}\U{3000}"

  predicate IsSpace(c: char) {
    Occurrences(WHITESPACE, c) > 0
  }

  /** A character occurs in a string exactly when it is counted there at least once. */
  lemma {:induction false} OccurrencesPositive(s: string, c: char)
    ensures Occurrences(s, c) > 0 <==> c in s
    decreases |s|
  {
    if s != [] {
      OccurrencesPositive(s[1..], c);
      assert s == [s[0]] + s[1..];
    }
  }

  predicate AllSpace(s: string) {
    forall i :: 0 <= i < |s| ==> IsSpace(s[i])
  }

  /** `s.lstrip()`: the suffix left after dropping leading whitespace. */
  function TrimStart(s: string): (r: string)
    ensures |r| <= |s|
    decreases |s|
  {
    if s != [] && IsSpace(s[0]) then TrimStart(s[1..]) else s
  }

  /** `s.rstrip()`: the prefix left after dropping trailing whitespace. */
  function TrimEnd(s: string): (r: string)
    ensures |r| <= |s|
    decreases |s|
  {
    if s != [] && IsSpace(s[|s| - 1]) then TrimEnd(s[..|s| - 1]) else s
  }

  /** `s.strip()`: `s` without its leading and trailing whitespace. */
  function Strip(s: string): (r: string)
    ensures |r| <= |s|
  {
    TrimEnd(TrimStart(s))
  }

  /** `lstrip` keeps a suffix of the string. */
  lemma {:induction false} TrimStartSuffix(s: string)
    ensures forall k :: 0 <= k < |TrimStart(s)| ==> TrimStart(s)[k] == s[|s| - |TrimStart(s)| + k]
    decreases |s|
  {
    if s != [] && IsSpace(s[0]) {
      TrimStartSuffix(s[1..]);
      var r := TrimStart(s[1..]);
      assert TrimStart(s) == r;
      forall k | 0 <= k < |r|
        ensures r[k] == s[|s| - |r| + k]
      {
        assert s[1..][|s| - 1 - |r| + k] == s[|s| - |r| + k];
      }
    }
  }

  /** What `lstrip` drops is whitespace. */
  lemma {:induction false} TrimStartDropsSpace(s: string)
    ensures forall k :: 0 <= k < |s| - |TrimStart(s)| ==> IsSpace(s[k])
    decreases |s|
  {
    if s != [] && IsSpace(s[0]) {
      TrimStartDropsSpace(s[1..]);
      var r := TrimStart(s[1..]);
      assert TrimStart(s) == r;
      forall k | 1 <= k < |s| - |r|
        ensures IsSpace(s[k])
      {
        assert s[1..][k - 1] == s[k];
      }
    }
  }

  /** What `lstrip` keeps is empty or starts with a non-space. */
  lemma {:induction false} TrimStartFirst(s: string)
    ensures TrimStart(s) == [] || !IsSpace(TrimStart(s)[0])
    decreases |s|
  {
    if s != [] && IsSpace(s[0]) {
      TrimStartFirst(s[1..]);
    }
  }

  /** `lstrip` of whitespace alone leaves nothing. */
  lemma {:induction false} TrimStartAllSpace(s: string)
    requires AllSpace(s)
    ensures TrimStart(s) == []
    decreases |s|
  {
    if s != [] {
      assert IsSpace(s[0]);
      assert AllSpace(s[1..]) by {
        forall k | 0 <= k < |s| - 1
          ensures IsSpace(s[1..][k])
        {
          assert s[1..][k] == s[k + 1];
        }
      }
      TrimStartAllSpace(s[1..]);
    }
  }

  /** `rstrip` keeps a prefix of the string. */
  lemma {:induction false} TrimEndPrefix(s: string)
    ensures forall k :: 0 <= k < |TrimEnd(s)| ==> TrimEnd(s)[k] == s[k]
    decreases |s|
  {
    if s != [] && IsSpace(s[|s| - 1]) {
      TrimEndPrefix(s[..|s| - 1]);
      var r := TrimEnd(s[..|s| - 1]);
      assert TrimEnd(s) == r;
      forall k | 0 <= k < |r|
        ensures r[k] == s[k]
      {
        assert s[..|s| - 1][k] == s[k];
      }
    }
  }

  /** What `rstrip` drops is whitespace. */
  lemma {:induction false} TrimEndDropsSpace(s: string)
    ensures forall k :: |TrimEnd(s)| <= k < |s| ==> IsSpace(s[k])
    decreases |s|
  {
    if s != [] && IsSpace(s[|s| - 1]) {
      TrimEndDropsSpace(s[..|s| - 1]);
      var r := TrimEnd(s[..|s| - 1]);
      assert TrimEnd(s) == r;
      forall k | |r| <= k < |s| - 1
        ensures IsSpace(s[k])
      {
        assert s[..|s| - 1][k] == s[k];
      }
    }
  }

  /** What `rstrip` keeps is empty or ends with a non-space. */
  lemma {:induction false} TrimEndLast(s: string)
    ensures TrimEnd(s) == [] || !IsSpace(TrimEnd(s)[|TrimEnd(s)| - 1])
    decreases |s|
  {
    if s != [] && IsSpace(s[|s| - 1]) {
      TrimEndLast(s[..|s| - 1]);
    }
  }

  /** Stripping keeps the inner characters in place: `s` is whitespace, then `Strip(s)`, then whitespace. */
  lemma StripIsInfix(s: string)
    ensures var i, r := |s| - |TrimStart(s)|, Strip(s);
      i + |r| <= |s| && forall k :: 0 <= k < |r| ==> r[k] == s[i + k]
  {
    var t := TrimStart(s);
    var r := TrimEnd(t);
    TrimStartSuffix(s);
    TrimEndPrefix(t);
    forall k | 0 <= k < |r|
      ensures r[k] == s[|s| - |t| + k]
    {
      assert r[k] == t[k];
    }
  }

  /** What stripping removes, before and after what it keeps, is whitespace. */
  lemma StripRemovesSpace(s: string)
    ensures var i, r := |s| - |TrimStart(s)|, Strip(s);
      i + |r| <= |s|
      && (forall k :: 0 <= k < i ==> IsSpace(s[k]))
      && (forall k :: i + |r| <= k < |s| ==> IsSpace(s[k]))
  {
    var t := TrimStart(s);
    var i := |s| - |t|;
    var r := TrimEnd(t);
    TrimStartDropsSpace(s);
    TrimStartSuffix(s);
    TrimEndDropsSpace(t);
    forall k | i + |r| <= k < |s|
      ensures IsSpace(s[k])
    {
      assert IsSpace(t[k - i]);
      assert t[k - i] == s[k];
    }
  }

  /** What stripping keeps is empty or starts and ends with a non-space. */
  lemma StripEnds(s: string)
    ensures var r := Strip(s);
      r == [] || (!IsSpace(r[0]) && !IsSpace(r[|r| - 1]))
  {
    var t := TrimStart(s);
    var r := TrimEnd(t);
    TrimStartFirst(s);
    TrimEndLast(t);
    TrimEndPrefix(t);
    if r != [] {
      assert r[0] == t[0];
    }
  }

  /** Stripping twice is stripping once. */
  lemma StripIdempotent(s: string)
    ensures Strip(Strip(s)) == Strip(s)
  {
    var r := Strip(s);
    StripEnds(s);
    if r != [] {
      assert TrimStart(r) == r;
      assert TrimEnd(r) == r;
    }
  }

  /** A string of whitespace strips to nothing. */
  lemma StripAllSpace(s: string)
    requires AllSpace(s)
    ensures Strip(s) == ""
  {
    TrimStartAllSpace(s);
  }

  /**
   * `segment` is `kept` with whitespace around it, the leading whitespace being exactly
   * what `lstrip` drops.
   */
  predicate Padded(segment: string, kept: string) {
    var p := |segment| - |TrimStart(segment)|;
    p + |kept| <= |segment| && segment[p..p + |kept|] == kept
    && AllSpace(segment[..p]) && AllSpace(segment[p + |kept|..])
  }

  /** A segment is its stripped form padded with whitespace, and that form has no whitespace at either end. */
  lemma StripPadded(segment: string)
    ensures Padded(segment, Strip(segment))
    ensures Strip(segment) == [] || (!IsSpace(Strip(segment)[0]) && !IsSpace(Strip(segment)[|Strip(segment)| - 1]))
  {
    var p := |segment| - |TrimStart(segment)|;
    var r := Strip(segment);
    StripIsInfix(segment);
    StripRemovesSpace(segment);
    StripEnds(segment);
    assert segment[p..p + |r|] == r;
    var front, back := segment[..p], segment[p + |r|..];
    assert AllSpace(front) by {
      forall k | 0 <= k < |front|
        ensures IsSpace(front[k])
      {
        assert front[k] == segment[k];
      }
    }
    assert AllSpace(back) by {
      forall k | 0 <= k < |back|
        ensures IsSpace(back[k])
      {
        assert back[k] == segment[p + |r| + k];
      }
    }
  }
}
