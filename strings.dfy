/**
 * The JavaScript string primitives the application leans on:
 * `Array.prototype.join`, `String.prototype.split` with a one-character
 * separator, and `String.prototype.trim`.
 */
module Strings {

  /** `parts.join(sep)`: the parts with `sep` between neighbours; `[].join(sep)` is "". */
  function Join(parts: seq<string>, sep: string): string
  {
    if |parts| == 0 then ""
    else if |parts| == 1 then parts[0]
    else parts[0] + sep + Join(parts[1..], sep)
  }

  /**
   * `s.split(c)` for a one-character separator: the maximal separator-free
   * pieces of `s`, in order. There is always at least one piece.
   */
  function Split(s: string, c: char): (r: seq<string>)
    ensures |r| >= 1
    ensures forall i :: 0 <= i < |r| ==> c !in r[i]
    decreases |s|
  {
    if |s| == 0 then [""]
    else
      var rest := Split(s[1..], c);
      if s[0] == c then [""] + rest
      else [[s[0]] + rest[0]] + rest[1..]
  }

  /** The last element of a non-empty sequence. */
  function Last<T>(xs: seq<T>): T
    requires |xs| > 0
  {
    xs[|xs| - 1]
  }

  /** Joining the pieces of a split with the separator gives back the string. */
  lemma {:induction false} JoinSplit(s: string, c: char)
    ensures Join(Split(s, c), [c]) == s
    decreases |s|
  {
    if |s| > 0 {
      var rest := Split(s[1..], c);
      JoinSplit(s[1..], c);
      if s[0] == c {
        assert Split(s, c) == [""] + rest;
        assert ([""] + rest)[1..] == rest;
      } else if |rest| == 1 {
        assert Split(s, c) == [[s[0]] + rest[0]];
        assert s == [s[0]] + s[1..];
      } else {
        assert Split(s, c) == [[s[0]] + rest[0]] + rest[1..];
        assert ([[s[0]] + rest[0]] + rest[1..])[1..] == rest[1..];
        assert Join(rest, [c]) == rest[0] + [c] + Join(rest[1..], [c]);
        assert s == [s[0]] + s[1..];
      }
    }
  }

  /** A string without the separator splits into itself. */
  lemma {:induction false} SplitWithoutSeparator(s: string, c: char)
    requires c !in s
    ensures Split(s, c) == [s]
    decreases |s|
  {
    if |s| > 0 {
      SplitWithoutSeparator(s[1..], c);
      assert s == [s[0]] + s[1..];
    }
  }

  /** A separator-free prefix followed by the separator is the first piece. */
  lemma {:induction false} SplitAfterPrefix(a: string, c: char, t: string)
    requires c !in a
    ensures Split(a + [c] + t, c) == [a] + Split(t, c)
    decreases |a|
  {
    if |a| == 0 {
      assert a + [c] + t == [c] + t;
      assert ([c] + t)[1..] == t;
    } else {
      SplitAfterPrefix(a[1..], c, t);
      assert (a + [c] + t)[1..] == a[1..] + [c] + t;
      assert a == [a[0]] + a[1..];
    }
  }

  /** Splitting a join of separator-free parts gives back the parts. */
  lemma {:induction false} SplitJoin(parts: seq<string>, c: char)
    requires |parts| >= 1
    requires forall i :: 0 <= i < |parts| ==> c !in parts[i]
    ensures Split(Join(parts, [c]), c) == parts
    decreases |parts|
  {
    if |parts| == 1 {
      SplitWithoutSeparator(parts[0], c);
    } else {
      SplitJoin(parts[1..], c);
      SplitAfterPrefix(parts[0], c, Join(parts[1..], [c]));
      assert parts == [parts[0]] + parts[1..];
    }
  }

  /**
   * The last piece of a split is the suffix after the last separator: it is a
   * suffix of `s` without the separator, and it is either all of `s` or
   * preceded by the separator.
   */
  lemma {:induction false} LastPieceIsSuffix(s: string, c: char)
    ensures var r := Last(Split(s, c));
            |r| <= |s| && s[|s| - |r|..] == r && c !in r &&
            (|r| == |s| || s[|s| - |r| - 1] == c)
    decreases |s|
  {
    if |s| > 0 {
      LastPieceIsSuffix(s[1..], c);
      var r' := Last(Split(s[1..], c));
      if s[0] != c && |Split(s[1..], c)| == 1 {
        SplitFirstPieceIsWhole(s, c);
      } else {
        if s[0] == c {
          SplitAfterLeadingSeparator(s, c);
        } else {
          SplitLastOfLongerTail(s, c);
        }
        assert Last(Split(s, c)) == r';
        assert s[|s| - |r'|..] == s[1..][|s| - 1 - |r'|..];
      }
    }
  }

  /** A leading separator adds an empty first piece and leaves the last piece alone. */
  lemma SplitAfterLeadingSeparator(s: string, c: char)
    requires |s| > 0 && s[0] == c
    ensures Last(Split(s, c)) == Last(Split(s[1..], c))
  {
    assert Split(s, c) == [""] + Split(s[1..], c);
  }

  /** When the rest of the string splits into one piece, a non-separator head gives one piece: the string. */
  lemma SplitFirstPieceIsWhole(s: string, c: char)
    requires |s| > 0 && s[0] != c && |Split(s[1..], c)| == 1
    ensures Split(s, c) == [s]
  {
    var rest := Split(s[1..], c);
    JoinSplit(s[1..], c);
    assert rest[0] == s[1..];
    assert s == [s[0]] + s[1..];
  }

  /**
   * When the rest of the string splits into several pieces, a non-separator
   * head joins the first piece and the last piece is strictly shorter than
   * the rest.
   */
  lemma SplitLastOfLongerTail(s: string, c: char)
    requires |s| > 0 && s[0] != c && |Split(s[1..], c)| > 1
    ensures Last(Split(s, c)) == Last(Split(s[1..], c))
    ensures |Last(Split(s[1..], c))| < |s| - 1
  {
    var rest := Split(s[1..], c);
    assert Split(s, c) == [[s[0]] + rest[0]] + rest[1..];
    JoinSplit(s[1..], c);
    assert Join(rest, [c]) == rest[0] + [c] + Join(rest[1..], [c]);
    LastPieceWithinJoin(rest[1..], [c]);
  }

  /** The last part of a join is no longer than the join. */
  lemma {:induction false} LastPieceWithinJoin(parts: seq<string>, sep: string)
    requires |parts| >= 1
    ensures |Last(parts)| <= |Join(parts, sep)|
    decreases |parts|
  {
    if |parts| > 1 {
      LastPieceWithinJoin(parts[1..], sep);
    }
  }

  /** The pieces of `s` with no separator inside are `s` alone exactly when `s` has no separator. */
  lemma SplitSingleIff(s: string, c: char)
    ensures |Split(s, c)| == 1 <==> c !in s
  {
    if c !in s {
      SplitWithoutSeparator(s, c);
    } else {
      JoinSplit(s, c);
    }
  }

  /** Whitespace and line terminators as `String.prototype.trim` strips them. */
  predicate IsJsSpace(ch: char)
  {
    || ch == '\t' || ch == '\n' || ch == '\U{000B}' || ch == '\U{000C}' || ch == '\r'
    || ch == ' ' || ch == '\U{00A0}' || ch == '\U{1680}'
    || ('\U{2000}' <= ch <= '\U{200A}')
    || ch == '\U{2028}' || ch == '\U{2029}' || ch == '\U{202F}' || ch == '\U{205F}'
    || ch == '\U{3000}' || ch == '\U{FEFF}'
  }

  /** `s` with leading whitespace removed: the suffix that starts at the first non-space character. */
  function TrimStart(s: string): (r: string)
    ensures |r| <= |s| && r == s[|s| - |r|..]
    ensures r == [] || !IsJsSpace(r[0])
    ensures forall i :: 0 <= i < |s| - |r| ==> IsJsSpace(s[i])
    decreases |s|
  {
    if |s| > 0 && IsJsSpace(s[0]) then TrimStart(s[1..]) else s
  }

  /** `s` with trailing whitespace removed: the prefix that ends at the last non-space character. */
  function TrimEnd(s: string): (r: string)
    ensures |r| <= |s| && r == s[..|r|]
    ensures r == [] || !IsJsSpace(r[|r| - 1])
    ensures forall i :: |r| <= i < |s| ==> IsJsSpace(s[i])
    decreases |s|
  {
    if |s| > 0 && IsJsSpace(s[|s| - 1]) then TrimEnd(s[..|s| - 1]) else s
  }

  /** `s.trim()`. */
  function Trim(s: string): string
  {
    TrimEnd(TrimStart(s))
  }

  /** A string is already trimmed when it is empty or starts and ends with a non-space. */
  predicate IsTrimmed(s: string)
  {
    s == [] || (!IsJsSpace(s[0]) && !IsJsSpace(s[|s| - 1]))
  }

  /** Trimming leaves a trimmed string alone, and its result is always trimmed. */
  lemma TrimFixesTrimmed(s: string)
    ensures IsTrimmed(s) ==> Trim(s) == s
    ensures IsTrimmed(Trim(s))
  {
    if IsTrimmed(s) && s != [] {
      assert TrimStart(s) == s;
      assert TrimEnd(s) == s;
    }
    var t := TrimStart(s);
    var r := TrimEnd(t);
    assert Trim(s) == r;
    if r != [] {
      assert t != [] && r == t[..|r|];
      assert r[0] == t[0];
      assert !IsJsSpace(r[0]) && !IsJsSpace(r[|r| - 1]);
    }
  }
}
