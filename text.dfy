/**
 * The two JavaScript string operations the trainer relies on:
 * `String.prototype.split` with the one-character separator "\n", and
 * `String.prototype.trim`.  Strings are sequences of Unicode scalar values.
 */
module Text {

  /** The code points `trim` removes: ECMAScript's WhiteSpace (TAB, VT, FF,
      SPACE, NO-BREAK SPACE, ZERO WIDTH NO-BREAK SPACE and the other members of
      the Unicode category Zs) and LineTerminator (LF, CR, LINE SEPARATOR,
      PARAGRAPH SEPARATOR), as listed in sections 12.2 and 12.3 of ECMA-262
      (ECMAScript 2023). */
  predicate IsWhitespace(c: char)
  {
    var n := c as int;
    n == 0x0009 || n == 0x000A || n == 0x000B || n == 0x000C || n == 0x000D ||
    n == 0x0020 || n == 0x00A0 || n == 0x1680 ||
    (0x2000 <= n && n <= 0x200A) ||
    n == 0x2028 || n == 0x2029 || n == 0x202F || n == 0x205F ||
    n == 0x3000 || n == 0xFEFF
  }

  /** `s` with its leading whitespace removed. */
  function TrimStart(s: string): string
  {
    if |s| > 0 && IsWhitespace(s[0]) then TrimStart(s[1..]) else s
  }

  /** What remains after the leading whitespace is a suffix of `s`, it follows
      a run of whitespace only, and it does not itself begin with
      whitespace. */
  lemma {:induction false} TrimStartSuffix(s: string)
    ensures |TrimStart(s)| <= |s| && TrimStart(s) == s[|s| - |TrimStart(s)|..]
    ensures forall k :: 0 <= k < |s| - |TrimStart(s)| ==> IsWhitespace(s[k])
    ensures TrimStart(s) != [] ==> !IsWhitespace(TrimStart(s)[0])
  {
    if |s| > 0 && IsWhitespace(s[0]) {
      TrimStartSuffix(s[1..]);
      forall k | 1 <= k < |s| - |TrimStart(s)|
        ensures IsWhitespace(s[k])
      {
        assert s[k] == s[1..][k - 1];
      }
    }
  }

  /** `s` with its trailing whitespace removed. */
  function TrimEnd(s: string): string
  {
    if |s| > 0 && IsWhitespace(s[|s| - 1]) then TrimEnd(s[..|s| - 1]) else s
  }

  /** What remains after the trailing whitespace is a prefix of `s`, it is
      followed by whitespace only, and it does not itself end with
      whitespace. */
  lemma {:induction false} TrimEndPrefix(s: string)
    ensures |TrimEnd(s)| <= |s| && TrimEnd(s) == s[..|TrimEnd(s)|]
    ensures forall k :: |TrimEnd(s)| <= k < |s| ==> IsWhitespace(s[k])
    ensures TrimEnd(s) != [] ==> !IsWhitespace(TrimEnd(s)[|TrimEnd(s)| - 1])
  {
    if |s| > 0 && IsWhitespace(s[|s| - 1]) {
      var t := s[..|s| - 1];
      TrimEndPrefix(t);
      assert TrimEnd(s) == TrimEnd(t);
      assert t[..|TrimEnd(t)|] == s[..|TrimEnd(t)|];
      forall k | |TrimEnd(s)| <= k < |s| - 1
        ensures IsWhitespace(s[k])
      {
        assert s[k] == t[k];
      }
    }
  }

  /** The number of whitespace characters at the start of `s`. */
  function LeadingLength(s: string): nat
  {
    TrimStartSuffix(s);
    |s| - |TrimStart(s)|
  }

  /** `String.prototype.trim`: the slice of `s` left once the whitespace at
      both ends is removed.  The result neither begins nor ends with
      whitespace. */
  function Trim(s: string): (r: string)
    ensures LeadingLength(s) + |r| <= |s|
    ensures r == s[LeadingLength(s)..LeadingLength(s) + |r|]
    ensures forall k :: 0 <= k < LeadingLength(s) ==> IsWhitespace(s[k])
    ensures forall k :: LeadingLength(s) + |r| <= k < |s| ==> IsWhitespace(s[k])
    ensures r != [] ==> !IsWhitespace(r[0]) && !IsWhitespace(r[|r| - 1])
  {
    var t := TrimStart(s);
    TrimStartSuffix(s);
    TrimEndPrefix(t);
    var r := TrimEnd(t);
    var i := |s| - |t|;
    assert s[i..][..|r|] == s[i..i + |r|];
    forall k | i + |r| <= k < |s|
      ensures IsWhitespace(s[k])
    {
      assert s[k] == t[k - i];
    }
    r
  }

  /** Trimming removes characters and adds none. */
  lemma {:induction false} TrimKeepsAbsent(s: string, c: char)
    requires c !in s
    ensures c !in Trim(s)
  {
    var r, i := Trim(s), LeadingLength(s);
    forall k | 0 <= k < |r|
      ensures r[k] != c
    {
      assert r[k] == s[i + k];
    }
  }

  /** A string that neither begins nor ends with whitespace is its own trim. */
  lemma TrimOfTrimmed(s: string)
    requires s != [] ==> !IsWhitespace(s[0]) && !IsWhitespace(s[|s| - 1])
    ensures Trim(s) == s
  {
  }

  /** Trimming is idempotent. */
  lemma {:induction false} TrimIdempotent(s: string)
    ensures Trim(Trim(s)) == Trim(s)
  {
    TrimOfTrimmed(Trim(s));
  }

  /** Appending a whitespace character does not change the trim; in
      particular the '\r' that CRLF input leaves at the end of a line is
      removed. */
  lemma {:induction false} TrimAppendWhitespace(s: string, c: char)
    requires IsWhitespace(c)
    ensures Trim(s + [c]) == Trim(s)
  {
    TrimStartAppend(s, c);
    var t := TrimStart(s);
    if t != [] {
      assert (t + [c])[..|t + [c]| - 1] == t;
    }
  }

  /** Trimming the start of `s + [c]` keeps `c` unless `s` was all
      whitespace. */
  lemma {:induction false} TrimStartAppend(s: string, c: char)
    requires IsWhitespace(c)
    ensures TrimStart(s + [c]) == if TrimStart(s) == [] then [] else TrimStart(s) + [c]
  {
    if s == [] {
      assert [c][1..] == [];
    } else if IsWhitespace(s[0]) {
      assert (s + [c])[1..] == s[1..] + [c];
      TrimStartAppend(s[1..], c);
    } else {
      assert (s + [c])[0] == s[0];
    }
  }

  /** Carriage return is whitespace to `trim`, so a CRLF line loses its '\r'. */
  lemma TrimDropsCarriageReturn(s: string)
    ensures Trim(s + "\r") == Trim(s)
  {
    TrimAppendWhitespace(s, '\r');
  }

  /** Number of occurrences of `c` in `s`. */
  function Occurrences(s: string, c: char): nat
  {
    if s == [] then 0 else (if s[0] == c then 1 else 0) + Occurrences(s[1..], c)
  }

  lemma {:induction false} OccurrencesZero(s: string, c: char)
    ensures Occurrences(s, c) == 0 <==> c !in s
  {
    if s != [] {
      OccurrencesZero(s[1..], c);
      assert s == [s[0]] + s[1..];
    }
  }

  /** `s.split("\n")`: the pieces of `s` between consecutive '\n'
      characters, including empty pieces; the empty string gives `[""]`. */
  function Split(s: string): (r: seq<string>)
    ensures |r| >= 1
  {
    if s == [] then [""]
    else
      var rest := Split(s[1..]);
      if s[0] == '\n' then [""] + rest
      else [[s[0]] + rest[0]] + rest[1..]
  }

  /** `pieces.join("\n")`. */
  function Join(pieces: seq<string>): string
  {
    if |pieces| == 0 then ""
    else if |pieces| == 1 then pieces[0]
    else pieces[0] + "\n" + Join(pieces[1..])
  }

  /** Splitting yields one more piece than there are separators. */
  lemma {:induction false} SplitCount(s: string)
    ensures |Split(s)| == Occurrences(s, '\n') + 1
  {
    if s != [] {
      SplitCount(s[1..]);
    }
  }

  /** No piece contains the separator. */
  lemma {:induction false} SplitPiecesHaveNoNewline(s: string)
    ensures forall i :: 0 <= i < |Split(s)| ==> '\n' !in Split(s)[i]
  {
    if s != [] {
      SplitPiecesHaveNoNewline(s[1..]);
      var rest := Split(s[1..]);
      if s[0] != '\n' {
        assert '\n' !in rest[0];
        assert forall i :: 1 <= i < |Split(s)| ==> Split(s)[i] == rest[i];
      }
    }
  }

  /** Joining the pieces with "\n" gives back the input. */
  lemma {:induction false} JoinSplit(s: string)
    ensures Join(Split(s)) == s
  {
    if s != [] {
      JoinSplit(s[1..]);
      var rest := Split(s[1..]);
      if s[0] == '\n' {
        assert Split(s) == [""] + rest;
        assert ([""] + rest)[1..] == rest;
      } else {
        var head := [s[0]] + rest[0];
        assert Split(s) == [head] + rest[1..];
        if |rest| == 1 {
          assert s == [s[0]] + s[1..];
        } else {
          assert ([head] + rest[1..])[1..] == rest[1..];
          assert Join(rest) == rest[0] + "\n" + Join(rest[1..]);
          assert s == [s[0]] + s[1..];
        }
      }
    }
  }

  /** Splitting `p + t`, where `p` has no separator, glues `p` onto the first
      piece of `t`. */
  lemma {:induction false} SplitPrefix(p: string, t: string)
    requires '\n' !in p
    ensures Split(p + t) == [p + Split(t)[0]] + Split(t)[1..]
  {
    if p == [] {
      assert p + t == t;
      assert p + Split(t)[0] == Split(t)[0];
      assert Split(t) == [Split(t)[0]] + Split(t)[1..];
    } else {
      assert (p + t)[1..] == p[1..] + t;
      SplitPrefix(p[1..], t);
      assert [p[0]] + (p[1..] + Split(t)[0]) == p + Split(t)[0];
    }
  }

  /** A string without the separator splits into itself alone, and only such
      a string gives a single piece. */
  lemma SplitSingle(s: string)
    ensures |Split(s)| == 1 <==> '\n' !in s
    ensures '\n' !in s ==> Split(s) == [s]
  {
    SplitCount(s);
    OccurrencesZero(s, '\n');
    if '\n' !in s {
      SplitPrefix(s, "");
      assert s + "" == s;
    }
  }

  /** The other round trip: any non-empty list of separator-free pieces is
      recovered from its join. */
  lemma {:induction false} SplitJoin(pieces: seq<string>)
    requires |pieces| >= 1
    requires forall i :: 0 <= i < |pieces| ==> '\n' !in pieces[i]
    ensures Split(Join(pieces)) == pieces
  {
    if |pieces| == 1 {
      SplitSingle(pieces[0]);
    } else {
      var p, tail := pieces[0], pieces[1..];
      SplitJoin(tail);
      var t := "\n" + Join(tail);
      assert t[1..] == Join(tail);
      assert Split(t) == [""] + Split(Join(tail));
      SplitPrefix(p, t);
      assert p + "" == p;
      assert p + t == Join(pieces);
      assert tail == pieces[1..];
    }
  }
}
