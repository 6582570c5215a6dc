// The `str` operations the basic-http crate builds its messages with:
// `split` on a separator, `replace`, and the blank test behind `trim`.
module HttpText {
  import opened Wrappers

  const CRLF: string := "\r\n"
  /** The blank line that ends a message head. */
  const BlankLine: string := "\r\n\r\n"

  /** `sep` occurs in `s` starting at index `j`. */
  predicate OccursAt(s: string, sep: string, j: nat)
  {
    j + |sep| <= |s| && s[j..j + |sep|] == sep
  }

  /** The index of the leftmost occurrence of `sep` in `s`. */
  function Find(s: string, sep: string): (r: Option<nat>)
    requires sep != []
    ensures r.Some? ==> OccursAt(s, sep, r.value)
    ensures r.Some? ==> forall j: nat :: j < r.value ==> !OccursAt(s, sep, j)
    ensures r.None? ==> forall j: nat :: !OccursAt(s, sep, j)
    decreases |s|
  {
    if |s| < |sep| then None
    else if s[..|sep|] == sep then Some(0)
    else
      var t := s[1..];
      assert !OccursAt(s, sep, 0) by { assert s[0..|sep|] == s[..|sep|]; }
      match Find(t, sep)
      case None =>
        assert forall j: nat :: !OccursAt(s, sep, j) by {
          forall j: nat
            ensures !OccursAt(s, sep, j)
          {
            if j > 0 { OccursShifted(s, sep, 1, j - 1); }
          }
        }
        None
      case Some(i) =>
        assert OccursAt(s, sep, i + 1) by { OccursShifted(s, sep, 1, i); }
        assert forall j: nat :: j < i + 1 ==> !OccursAt(s, sep, j) by {
          forall j: nat | j < i + 1
            ensures !OccursAt(s, sep, j)
          {
            if j > 0 { OccursShifted(s, sep, 1, j - 1); }
          }
        }
        Some(i + 1)
  }

  /** The leftmost occurrence is the one with no occurrence before it. */
  lemma FindIs(s: string, sep: string, i: nat)
    requires sep != []
    requires OccursAt(s, sep, i)
    requires forall j: nat :: j < i ==> !OccursAt(s, sep, j)
    ensures Find(s, sep) == Some(i)
  {
  }

  /** `str::split`: the pieces between non-overlapping occurrences, left to right. */
  function Split(s: string, sep: string): (parts: seq<string>)
    requires sep != []
    ensures |parts| >= 1
    decreases |s|
  {
    match Find(s, sep)
    case None => [s]
    case Some(i) => [s[..i]] + Split(s[i + |sep|..], sep)
  }

  /** Splitting at a found occurrence: the piece before it, then the split of what follows. */
  lemma SplitAtFound(s: string, sep: string, i: nat)
    requires sep != [] && Find(s, sep) == Some(i)
    ensures Split(s, sep) == [s[..i]] + Split(s[i + |sep|..], sep)
  {
  }

  /** Replacing a separator that occurs only at the very end of a text. */
  lemma ReplaceAtEnd(h: string, sep: string, to: string)
    requires sep != [] && Find(h + sep, sep) == Some(|h|)
    ensures Replace(h + sep, sep, to) == h + to
  {
    var t := h + sep;
    SplitAtFound(t, sep, |h|);
    assert t[..|h|] == h && t[|h| + |sep|..] == [];
    assert Split([], sep) == [[]];
    assert Split(t, sep) == [h, []];
    assert [h, []][1..] == [[]];
    assert Join([[]], to) == [];
    assert Join([h, []], to) == h + to + [];
  }

  /** Gluing pieces back together with `sep` between them. */
  function Join(parts: seq<string>, sep: string): string
  {
    if |parts| == 0 then ""
    else if |parts| == 1 then parts[0]
    else parts[0] + sep + Join(parts[1..], sep)
  }

  /** `str::replace`: every occurrence found by a left-to-right scan is replaced. */
  function Replace(s: string, from: string, to: string): string
    requires from != []
  {
    Join(Split(s, from), to)
  }

  lemma JoinCons(x: string, parts: seq<string>, sep: string)
    requires |parts| >= 1
    ensures Join([x] + parts, sep) == x + sep + Join(parts, sep)
  {
    assert ([x] + parts)[1..] == parts;
  }

  /** Splitting loses nothing: the pieces joined with the separator are the input. */
  lemma {:induction false} SplitJoin(s: string, sep: string)
    requires sep != []
    ensures Join(Split(s, sep), sep) == s
    decreases |s|
  {
    var f := Find(s, sep);
    if f.Some? {
      var i := f.value;
      var rest := s[i + |sep|..];
      var ps := Split(rest, sep);
      assert Split(s, sep) == [s[..i]] + ps;
      SplitJoin(rest, sep);
      assert Join(ps, sep) == rest;
      JoinCons(s[..i], ps, sep);
      assert Join(Split(s, sep), sep) == s[..i] + sep + rest;
      assert s == s[..i] + sep + rest;
    }
  }
  /** No piece of a split contains the separator. */
  lemma {:induction false} SplitPiecesHaveNoSeparator(s: string, sep: string, k: nat)
    requires sep != [] && k < |Split(s, sep)|
    ensures Find(Split(s, sep)[k], sep).None?
    decreases |s|
  {
    match Find(s, sep)
    case None =>
    case Some(i) =>
      var rest := s[i + |sep|..];
      if k == 0 {
        var p := s[..i];
        forall j: nat
          ensures !OccursAt(p, sep, j)
        {
          if OccursAt(p, sep, j) {
            assert s[j..j + |sep|] == p[j..j + |sep|];
            assert OccursAt(s, sep, j);
          }
        }
      } else {
        SplitPiecesHaveNoSeparator(rest, sep, k - 1);
      }
  }

  /** `c` does not appear in `s`. */
  predicate Free(s: string, c: char)
  {
    forall i :: 0 <= i < |s| ==> s[i] != c
  }

  /** A text without the separator's first character holds no occurrence of it. */
  lemma FreeHasNoOccurrence(a: string, sep: string)
    requires sep != [] && Free(a, sep[0])
    ensures Find(a, sep).None?
  {
  }

  /** After a piece free of the separator's first character, the first occurrence is the separator that follows it. */
  lemma FindAfterFree(a: string, sep: string, b: string)
    requires sep != [] && Free(a, sep[0])
    ensures Find(a + sep + b, sep) == Some(|a|)
  {
    var s := a + sep + b;
    assert s[|a|..|a| + |sep|] == sep;
    FindIs(s, sep, |a|);
  }

  /** Splitting `a + sep + b` with `a` free of the separator's first character. */
  lemma SplitAfterFree(a: string, sep: string, b: string)
    requires sep != [] && Free(a, sep[0])
    ensures Split(a + sep + b, sep) == [a] + Split(b, sep)
  {
    FindAfterFree(a, sep, b);
    var s := a + sep + b;
    assert s[..|a|] == a && s[|a| + |sep|..] == b;
  }

  /**
   * Joining pieces, all but the last free of the separator's first character
   * and the last free of the separator, then splitting gives the pieces back.
   */
  lemma {:induction false} SplitOfJoin(parts: seq<string>, sep: string)
    requires sep != [] && |parts| >= 1
    requires forall i :: 0 <= i < |parts| - 1 ==> Free(parts[i], sep[0])
    requires Find(parts[|parts| - 1], sep).None?
    ensures Split(Join(parts, sep), sep) == parts
  {
    if |parts| > 1 {
      SplitOfJoin(parts[1..], sep);
      SplitAfterFree(parts[0], sep, Join(parts[1..], sep));
    }
  }

  /** Joining a joined prefix again is joining the pieces together. */
  lemma {:induction false} JoinAppend(p: seq<string>, x: seq<string>, sep: string)
    requires |p| >= 1
    ensures Join([Join(p, sep)] + x, sep) == Join(p + x, sep)
    decreases |p|
  {
    if x == [] {
      assert [Join(p, sep)] + x == [Join(p, sep)];
      assert p + x == p;
    } else if |p| == 1 {
      assert p + x == [p[0]] + x;
    } else {
      JoinAppend(p[1..], x, sep);
      assert (p + x)[1..] == p[1..] + x;
      assert ([Join(p[1..], sep)] + x)[1..] == x;
      assert ([Join(p, sep)] + x)[1..] == x;
    }
  }

  /** Every piece of a split is free of a character the input is free of. */
  lemma {:induction false} SplitPiecesFree(s: string, sep: string, c: char)
    requires sep != [] && Free(s, c)
    ensures forall k :: 0 <= k < |Split(s, sep)| ==> Free(Split(s, sep)[k], c)
    decreases |s|
  {
    match Find(s, sep)
    case None =>
    case Some(i) =>
      var rest := s[i + |sep|..];
      SplitPiecesFree(rest, sep, c);
      assert Split(s, sep) == [s[..i]] + Split(rest, sep);
  }

  lemma {:induction false} JoinFree(parts: seq<string>, sep: string, c: char)
    requires Free(sep, c)
    requires forall k :: 0 <= k < |parts| ==> Free(parts[k], c)
    ensures Free(Join(parts, sep), c)
    decreases |parts|
  {
    if |parts| > 1 {
      JoinFree(parts[1..], sep, c);
    }
  }

  /** Replacing with text free of `c` keeps a text free of `c`. */
  lemma FreeReplace(s: string, from: string, to: string, c: char)
    requires from != [] && Free(s, c) && Free(to, c)
    ensures Free(Replace(s, from, to), c)
  {
    SplitPiecesFree(s, from, c);
    JoinFree(Split(s, from), to, c);
  }

  // -------------------------------------------------------------------
  // The blank line after a head made of CRLF-separated lines
  // -------------------------------------------------------------------

  /** Shifting by `k` characters moves every occurrence by `k`. */
  lemma OccursShifted(s: string, sep: string, k: nat, j: nat)
    requires k <= |s|
    ensures OccursAt(s, sep, k + j) <==> OccursAt(s[k..], sep, j)
  {
    if k + j + |sep| <= |s| {
      assert s[k + j..k + j + |sep|] == s[k..][j..j + |sep|];
    }
  }

  /**
   * Prefixing a line free of carriage returns and CRLF to a text that does
   * not start with a carriage return adds no blank line before the shifted
   * first `n` positions.
   */
  lemma NoBlankLineAcrossFirst(l: string, t: string, n: nat)
    requires Free(l, '\r') && |t| > 0 && t[0] != '\r' && n + 4 <= |t|
    requires forall j: nat :: j < n ==> !OccursAt(t, BlankLine, j)
    ensures forall j: nat :: j < |l| + 2 + n ==> !OccursAt(l + CRLF + t, BlankLine, j)
  {
    var s := l + CRLF + t;
    var k := |l| + 2;
    assert s[k..] == t;
    forall j: nat | j < k + n
      ensures !OccursAt(s, BlankLine, j)
    {
      if j < |l| {
        assert s[j] == l[j] != '\r';
        assert s[j..j + 4][0] == s[j];
      } else if j == |l| {
        assert s[j + 2] == t[0];
        assert s[j..j + 4][2] == s[j + 2];
      } else if j == |l| + 1 {
        assert s[j..j + 4][0] == s[j] == '\n';
      } else {
        OccursShifted(s, BlankLine, k, j - k);
      }
    }
  }

  /**
   * A head of non-empty lines without carriage returns, joined by CRLF and
   * followed by a blank line: the first blank line is the one after the head.
   */
  lemma {:induction false} BlankLineAfterHead(lines: seq<string>, b: string)
    requires |lines| >= 1
    requires forall i :: 0 <= i < |lines| ==> lines[i] != [] && Free(lines[i], '\r')
    ensures Find(Join(lines, CRLF) + BlankLine + b, BlankLine) == Some(|Join(lines, CRLF)|)
  {
    var h := Join(lines, CRLF);
    if |lines| == 1 {
      FindAfterFree(lines[0], BlankLine, b);
    } else {
      var l := lines[0];
      var h' := Join(lines[1..], CRLF);
      var t := h' + BlankLine + b;
      var s := h + BlankLine + b;
      assert s == l + CRLF + t;
      BlankLineAfterHead(lines[1..], b);
      assert h' == Join(lines[1..], CRLF);
      var k := |l| + 2;
      assert s[k..] == t;
      assert OccursAt(s, BlankLine, |h|) by {
        OccursShifted(s, BlankLine, k, |h'|);
      }
      assert lines[1..][0] == lines[1];
      assert h'[0] == lines[1][0] by {
        if |lines| > 2 {
          assert h' == lines[1] + CRLF + Join(lines[2..], CRLF);
        }
      }
      NoBlankLineAcrossFirst(l, t, |h'|);
      FindIs(s, BlankLine, |h|);
    }
  }

  // -------------------------------------------------------------------
  // trim
  // -------------------------------------------------------------------

  /** The ASCII characters `char::is_whitespace` accepts. */
  predicate IsWhitespace(c: char)
  {
    c == ' ' || c == '\t' || c == '\n' || c == '\r' || c == '\U{B}' || c == '\U{C}'
  }

  /** `trim().len() == 0`: nothing but whitespace. */
  predicate Blank(s: string)
  {
    forall i :: 0 <= i < |s| ==> IsWhitespace(s[i])
  }
}
