/**
 The JavaScript string operations the pipeline relies on, over `seq<char>`:
 `trim`, `split('\n')`, `join('\n')`, `toLowerCase`, `includes` and
 `startsWith`. Each comes with the lemmas the sanitizer and templating proofs
 need (round trips, infix closure, trimming bounds).
 */
module Text {
  import opened Basics

  /** ECMAScript WhiteSpace and LineTerminator code points: the set `String.prototype.trim` removes. */
  predicate IsWhitespace(c: char) {
    || c == '\t' || c == '\n' || c == '\U{B}' || c == '\U{C}' || c == '\r' || c == ' '
    || c == '\U{A0}' || c == '\U{1680}' || ('\U{2000}' <= c <= '\U{200A}')
    || c == '\U{2028}' || c == '\U{2029}' || c == '\U{202F}' || c == '\U{205F}'
    || c == '\U{3000}' || c == '\U{FEFF}'
  }

  predicate StartsWith(s: string, p: string) {
    |p| <= |s| && s[..|p|] == p
  }

  predicate EndsWith(s: string, p: string) {
    |p| <= |s| && s[|s| - |p|..] == p
  }

  /** `p` occurs in `s` starting at index `i`. */
  predicate OccursAt(s: string, p: string, i: int) {
    0 <= i && i + |p| <= |s| && s[i..i + |p|] == p
  }

  /** `s.includes(p)`. */
  predicate Contains(s: string, p: string) {
    exists i :: 0 <= i <= |s| && OccursAt(s, p, i)
  }

  lemma ContainsSlice(s: string, i: int, j: int)
    requires 0 <= i <= j <= |s|
    ensures Contains(s, s[i..j])
  {
    assert OccursAt(s, s[i..j], i);
  }

  lemma ContainsPrefix(s: string, p: string)
    requires StartsWith(s, p)
    ensures Contains(s, p)
  {
    assert OccursAt(s, p, 0);
  }

  /** An occurrence inside an occurrence is an occurrence. */
  lemma ContainsTransitive(s: string, t: string, p: string)
    requires Contains(s, t) && Contains(t, p)
    ensures Contains(s, p)
  {
    var i :| 0 <= i <= |s| && OccursAt(s, t, i);
    var j :| 0 <= j <= |t| && OccursAt(t, p, j);
    assert t == s[i..i + |t|];
    forall k | 0 <= k < |p| ensures s[i + j + k] == p[k] {
      assert p[k] == t[j + k];
    }
    assert s[i + j..i + j + |p|] == p;
    assert OccursAt(s, p, i + j);
  }

  lemma ContainsAppendLeft(a: string, b: string, p: string)
    requires Contains(b, p)
    ensures Contains(a + b, p)
  {
    var i :| 0 <= i <= |b| && OccursAt(b, p, i);
    assert (a + b)[|a| + i..|a| + i + |p|] == b[i..i + |p|];
    assert OccursAt(a + b, p, |a| + i);
  }

  lemma ContainsAppendRight(a: string, b: string, p: string)
    requires Contains(a, p)
    ensures Contains(a + b, p)
  {
    var i :| 0 <= i <= |a| && OccursAt(a, p, i);
    assert (a + b)[i..i + |p|] == a[i..i + |p|];
    assert OccursAt(a + b, p, i);
  }

  /** A pattern without a line break that occurs in `a + "\n" + b` occurs in `a` or in `b`. */
  lemma ContainsAcrossBreak(a: string, b: string, p: string)
    requires '\n' !in p
    requires Contains(a + "\n" + b, p)
    ensures Contains(a, p) || Contains(b, p)
  {
    var s := a + "\n" + b;
    var i :| 0 <= i <= |s| && OccursAt(s, p, i);
    assert s[|a|] == '\n';
    assert forall k :: i <= k < i + |p| ==> s[k] == p[k - i];
    if i + |p| <= |a| {
      assert s[i..i + |p|] == a[i..i + |p|];
      assert OccursAt(a, p, i);
    } else if i > |a| {
      var j := i - |a| - 1;
      forall k | 0 <= k < |p| ensures b[j + k] == p[k] {
        assert s[i + k] == p[k];
      }
      assert b[j..j + |p|] == p;
      assert OccursAt(b, p, j);
    }
  }

  /** Every character of an included pattern appears in the text. */
  lemma ContainsChar(s: string, p: string, c: char)
    requires Contains(s, p) && c in p
    ensures c in s
  {
    var i :| 0 <= i <= |s| && OccursAt(s, p, i);
    var k :| 0 <= k < |p| && p[k] == c;
    assert s[i + k] == s[i..i + |p|][k];
  }

  /** `toLowerCase`, restricted to ASCII letters. */
  function LowerChar(c: char): char {
    if 'A' <= c <= 'Z' then (c as int + 32) as char else c
  }

  function Lower(s: string): (r: string)
    ensures |r| == |s|
    ensures forall i :: 0 <= i < |s| ==> r[i] == LowerChar(s[i])
  {
    seq(|s|, i requires 0 <= i < |s| => LowerChar(s[i]))
  }

  /** Lower-casing is pointwise, so it maps occurrences to occurrences. */
  lemma LowerContains(s: string, t: string)
    requires Contains(s, t)
    ensures Contains(Lower(s), Lower(t))
  {
    var i :| 0 <= i <= |s| && OccursAt(s, t, i);
    assert Lower(s)[i..i + |t|] == Lower(t);
    assert OccursAt(Lower(s), Lower(t), i);
  }

  lemma LowerAppend(a: string, b: string)
    ensures Lower(a + b) == Lower(a) + Lower(b)
  {
  }

  /** The concatenation of `pieces`, in order. */
  function Concat(pieces: seq<string>): string
    decreases |pieces|
  {
    if |pieces| == 0 then "" else pieces[0] + Concat(pieces[1..])
  }

  /** Lower-casing piece by piece. */
  lemma {:induction false} LowerConcat(pieces: seq<string>, lowered: seq<string>)
    requires |pieces| == |lowered|
    requires forall k :: 0 <= k < |pieces| ==> Lower(pieces[k]) == lowered[k]
    ensures Lower(Concat(pieces)) == Concat(lowered)
    decreases |pieces|
  {
    if |pieces| > 0 {
      LowerConcat(pieces[1..], lowered[1..]);
      LowerAppend(pieces[0], Concat(pieces[1..]));
    }
  }

  /** Texts that begin with pieces disagreeing at one of two positions differ. */
  lemma DivergingPrefixes(s1: string, s2: string, p1: string, p2: string, i: nat, j: nat)
    requires StartsWith(s1, p1) && StartsWith(s2, p2)
    requires i < |p1| && i < |p2| && j < |p1| && j < |p2|
    requires p1[i] != p2[i] || p1[j] != p2[j]
    ensures s1 != s2
  {
    assert s1[i] == p1[i] && s2[i] == p2[i];
    assert s1[j] == p1[j] && s2[j] == p2[j];
  }

  /** A concatenation begins with its first piece, however the rest is grouped. */
  lemma NestedPrefix(a: string, b: string, c: string, d: string)
    ensures StartsWith((a + b) + c + d, a)
  {
    assert ((a + b) + c + d)[..|a|] == a;
  }

  /** No position of `s` holds `x` immediately followed by `y`. */
  predicate NoPair(s: string, x: char, y: char) {
    forall i :: 0 <= i < |s| - 1 ==> s[i] != x || s[i + 1] != y
  }

  lemma NoPairNotContains(s: string, x: char, y: char)
    requires NoPair(s, x, y)
    ensures !Contains(s, [x, y])
  {
    forall i | 0 <= i <= |s| ensures !OccursAt(s, [x, y], i) {
      if i + 2 <= |s| {
        assert s[i..i + 2] == [s[i], s[i + 1]];
      }
    }
  }

  /**
   A two-character pattern is absent from a concatenation of non-empty pieces
   when every piece lacks one of its characters and no two neighbouring pieces
   supply it across their boundary.
   */
  lemma PairAbsent(pieces: seq<string>, x: char, y: char)
    requires forall k :: 0 <= k < |pieces| ==> pieces[k] != []
    requires forall k :: 0 <= k < |pieces| ==> x !in pieces[k] || y !in pieces[k]
    requires forall k :: 0 <= k < |pieces| - 1 ==>
      pieces[k][|pieces[k]| - 1] != x || pieces[k + 1][0] != y
    ensures !Contains(Concat(pieces), [x, y])
  {
    PairAbsentEverywhere(pieces, x, y);
    NoPairNotContains(Concat(pieces), x, y);
  }

  lemma {:induction false} PairAbsentEverywhere(pieces: seq<string>, x: char, y: char)
    requires forall k :: 0 <= k < |pieces| ==> pieces[k] != []
    requires forall k :: 0 <= k < |pieces| ==> x !in pieces[k] || y !in pieces[k]
    requires forall k :: 0 <= k < |pieces| - 1 ==>
      pieces[k][|pieces[k]| - 1] != x || pieces[k + 1][0] != y
    ensures NoPair(Concat(pieces), x, y)
    decreases |pieces|
  {
    if |pieces| > 0 {
      var a, b := pieces[0], Concat(pieces[1..]);
      PairAbsentEverywhere(pieces[1..], x, y);
      forall i | 0 <= i < |a + b| - 1 ensures (a + b)[i] != x || (a + b)[i + 1] != y {
        if i + 1 < |a| {
          assert (a + b)[i] == a[i] && (a + b)[i + 1] == a[i + 1];
        } else if i >= |a| {
          assert (a + b)[i] == b[i - |a|] && (a + b)[i + 1] == b[i + 1 - |a|];
        } else {
          assert b == pieces[1] + Concat(pieces[2..]);
          assert (a + b)[i] == pieces[0][|pieces[0]| - 1] && (a + b)[i + 1] == pieces[1][0];
        }
      }
    }
  }

  /** Several two-character patterns at once, each absent by `PairAbsentEverywhere`. */
  lemma PairsAbsentEverywhere(pieces: seq<string>, xs: string, ys: string)
    requires |xs| == |ys|
    requires forall k :: 0 <= k < |pieces| ==> pieces[k] != []
    requires forall j, k :: 0 <= j < |xs| && 0 <= k < |pieces| ==> xs[j] !in pieces[k] || ys[j] !in pieces[k]
    requires forall j, k :: 0 <= j < |xs| && 0 <= k < |pieces| - 1 ==>
      pieces[k][|pieces[k]| - 1] != xs[j] || pieces[k + 1][0] != ys[j]
    ensures forall j :: 0 <= j < |xs| ==> NoPair(Concat(pieces), xs[j], ys[j])
  {
    forall j | 0 <= j < |xs| ensures NoPair(Concat(pieces), xs[j], ys[j]) {
      PairAbsentEverywhere(pieces, xs[j], ys[j]);
    }
  }

  /** A character absent from every piece is absent from their concatenation. */
  lemma {:induction false} CharAbsentConcat(pieces: seq<string>, c: char)
    requires forall k :: 0 <= k < |pieces| ==> c !in pieces[k]
    ensures c !in Concat(pieces)
    decreases |pieces|
  {
    if |pieces| > 0 {
      CharAbsentConcat(pieces[1..], c);
    }
  }

  /** A concatenation of non-empty pieces starts with the first piece's first character and ends with the last piece's last character. */
  lemma {:induction false} ConcatEnds(pieces: seq<string>)
    requires |pieces| > 0
    requires forall k :: 0 <= k < |pieces| ==> pieces[k] != []
    ensures Concat(pieces) != []
    ensures Concat(pieces)[0] == pieces[0][0]
    ensures Concat(pieces)[|Concat(pieces)| - 1] == pieces[|pieces| - 1][|pieces[|pieces| - 1]| - 1]
    decreases |pieces|
  {
    if |pieces| > 1 {
      ConcatEnds(pieces[1..]);
    }
  }

  /** `trimStart`: drops the longest whitespace prefix. */
  function TrimStart(s: string): (r: string)
    ensures |r| <= |s| && r == s[|s| - |r|..]
    ensures forall k :: 0 <= k < |s| - |r| ==> IsWhitespace(s[k])
    ensures r != [] ==> !IsWhitespace(r[0])
    decreases |s|
  {
    if |s| > 0 && IsWhitespace(s[0]) then TrimStart(s[1..]) else s
  }

  /** `trimEnd`: drops the longest whitespace suffix. */
  function TrimEnd(s: string): (r: string)
    ensures |r| <= |s| && r == s[..|r|]
    ensures forall k :: |r| <= k < |s| ==> IsWhitespace(s[k])
    ensures r != [] ==> !IsWhitespace(r[|r| - 1])
    decreases |s|
  {
    if |s| > 0 && IsWhitespace(s[|s| - 1]) then TrimEnd(s[..|s| - 1]) else s
  }

  /** `trim`: the text between the longest whitespace prefix and the longest whitespace suffix. */
  function Trim(s: string): (r: string)
    ensures r == [] || (!IsWhitespace(r[0]) && !IsWhitespace(r[|r| - 1]))
    ensures Contains(s, r)
    ensures r == [] <==> forall k :: 0 <= k < |s| ==> IsWhitespace(s[k])
  {
    MiddleSlice(s, TrimStart(s), TrimEnd(TrimStart(s)));
    TrimEmptyIff(s, TrimStart(s), TrimEnd(TrimStart(s)));
    TrimEnd(TrimStart(s))
  }

  lemma TrimEmptyIff(s: string, t: string, r: string)
    requires t == TrimStart(s) && r == TrimEnd(t)
    ensures r == [] <==> forall k :: 0 <= k < |s| ==> IsWhitespace(s[k])
  {
    if r == [] {
      EmptyTrimIsAllWhitespace(s, t, r);
    }
  }

  /** A prefix of a suffix is a slice, and so occurs in the whole. */
  lemma MiddleSlice(s: string, t: string, r: string)
    requires |t| <= |s| && t == s[|s| - |t|..] && |r| <= |t| && r == t[..|r|]
    ensures r == s[|s| - |t|..|s| - |t| + |r|]
    ensures Contains(s, r)
  {
    ContainsSlice(s, |s| - |t|, |s| - |t| + |r|);
  }

  lemma EmptyTrimIsAllWhitespace(s: string, t: string, r: string)
    requires t == TrimStart(s) && r == TrimEnd(t) && r == []
    ensures forall k :: 0 <= k < |s| ==> IsWhitespace(s[k])
  {
    assert |t| == 0;
  }

  /** Trimming keeps exactly a contiguous middle part, with only whitespace cut on either side. */
  lemma TrimBounds(s: string) returns (i: nat, j: nat)
    ensures i <= j <= |s| && Trim(s) == s[i..j]
    ensures forall k :: 0 <= k < i ==> IsWhitespace(s[k])
    ensures forall k :: j <= k < |s| ==> IsWhitespace(s[k])
  {
    var t := TrimStart(s);
    var r := TrimEnd(t);
    assert Trim(s) == r;
    i, j := |s| - |t|, |s| - |t| + |r|;
    MiddleSlice(s, t, r);
    WhitespaceTail(s, t, r);
  }

  lemma WhitespaceTail(s: string, t: string, r: string)
    requires |t| <= |s| && t == s[|s| - |t|..] && |r| <= |t|
    requires forall k :: |r| <= k < |t| ==> IsWhitespace(t[k])
    ensures forall k :: |s| - |t| + |r| <= k < |s| ==> IsWhitespace(s[k])
  {
    forall k | |s| - |t| + |r| <= k < |s| ensures IsWhitespace(s[k]) {
      assert s[k] == t[k - (|s| - |t|)];
    }
  }

  /** Text that is empty or has non-whitespace at both ends is unchanged by trimming. */
  lemma TrimFixedPoint(s: string)
    requires s == [] || (!IsWhitespace(s[0]) && !IsWhitespace(s[|s| - 1]))
    ensures Trim(s) == s
  {
    var i, j := TrimBounds(s);
  }

  lemma TrimIdempotent(s: string)
    ensures Trim(Trim(s)) == Trim(s)
  {
    TrimFixedPoint(Trim(s));
  }

  /** A prefix whose first and last characters are not whitespace survives trimming. */
  lemma TrimKeepsPrefix(s: string, m: string)
    requires StartsWith(s, m) && m != []
    requires !IsWhitespace(m[0]) && !IsWhitespace(m[|m| - 1])
    ensures StartsWith(Trim(s), m)
  {
    var i, j := TrimBounds(s);
    assert Trim(s)[..|m|] == s[..|m|];
  }

  /** `s.split('\n')`: the maximal line-break-free pieces, always at least one. */
  function Split(s: string): (lines: seq<string>)
    ensures |lines| >= 1
    ensures forall k :: 0 <= k < |lines| ==> '\n' !in lines[k]
    decreases |s|
  {
    if |s| == 0 then [""]
    else
      var rest := Split(s[1..]);
      if s[0] == '\n' then [""] + rest
      else [[s[0]] + rest[0]] + rest[1..]
  }

  /** `lines.join('\n')`. */
  function Join(lines: seq<string>): string
    decreases |lines|
  {
    if |lines| == 0 then ""
    else if |lines| == 1 then lines[0]
    else lines[0] + "\n" + Join(lines[1..])
  }

  /** Joining the pieces of a split restores the text. */
  lemma {:induction false} JoinSplit(s: string)
    ensures Join(Split(s)) == s
    decreases |s|
  {
    if |s| > 0 {
      var rest := Split(s[1..]);
      JoinSplit(s[1..]);
      if s[0] == '\n' {
        assert Join([""] + rest) == "" + "\n" + Join(rest) by {
          assert ([""] + rest)[1..] == rest;
        }
      } else {
        var lines := [[s[0]] + rest[0]] + rest[1..];
        assert lines[1..] == rest[1..];
        if |rest| == 1 {
          assert Join(lines) == [s[0]] + rest[0];
        } else {
          assert Join(lines) == [s[0]] + (rest[0] + "\n" + Join(rest[1..]));
        }
      }
    }
  }

  /** Splitting text that starts with a line-break-free `a` extends the first piece by `a`. */
  lemma {:induction false} SplitPrefix(a: string, t: string)
    requires '\n' !in a
    ensures Split(a + t) == [a + Split(t)[0]] + Split(t)[1..]
    decreases |a|
  {
    if |a| > 0 {
      var st := Split(t);
      assert (a + t)[1..] == a[1..] + t;
      SplitPrefix(a[1..], t);
      var rest := Split(a[1..] + t);
      assert rest == [a[1..] + st[0]] + st[1..];
      assert Split(a + t) == [[a[0]] + rest[0]] + rest[1..];
      assert [a[0]] + (a[1..] + st[0]) == a + st[0];
    } else {
      assert a + t == t;
      assert a + Split(t)[0] == Split(t)[0];
      assert Split(t) == [Split(t)[0]] + Split(t)[1..];
    }
  }

  /** Splitting joined lines gives the lines back, provided they contain no line break. */
  lemma {:induction false} SplitJoin(lines: seq<string>)
    requires |lines| >= 1
    requires forall k :: 0 <= k < |lines| ==> '\n' !in lines[k]
    ensures Split(Join(lines)) == lines
    decreases |lines|
  {
    if |lines| == 1 {
      SplitPrefix(lines[0], "");
      assert lines[0] + "" == lines[0];
    } else {
      var tail := Join(lines[1..]);
      SplitJoin(lines[1..]);
      assert ("\n" + tail)[1..] == tail;
      assert Split("\n" + tail) == [""] + lines[1..];
      var l0, u := lines[0], "\n" + tail;
      assert Join(lines) == l0 + u;
      SplitPrefix(l0, u);
      assert Split(u)[0] == "" && Split(u)[1..] == lines[1..];
      assert l0 + "" == l0;
      assert lines == [l0] + lines[1..];
    }
  }

  /** Joined text begins with its first line. */
  lemma JoinStartsWithHead(lines: seq<string>)
    requires |lines| >= 1
    ensures StartsWith(Join(lines), lines[0])
  {
    if |lines| > 1 {
      assert Join(lines)[..|lines[0]|] == lines[0];
    }
  }

  /** Every line is a piece of the joined text. */
  lemma {:induction false} JoinContainsLines(lines: seq<string>, k: int)
    requires 0 <= k < |lines|
    ensures Contains(Join(lines), lines[k])
    decreases |lines|
  {
    if k == 0 {
      JoinStartsWithHead(lines);
      ContainsPrefix(Join(lines), lines[0]);
    } else {
      JoinContainsLines(lines[1..], k - 1);
      ContainsAppendLeft(lines[0] + "\n", Join(lines[1..]), lines[k]);
    }
  }

  /**
   When no line contains a line break, `Join(lines)` begins with a
   line-break-free `m` only if the first line does.
   */
  lemma JoinPrefixInHead(lines: seq<string>, m: string)
    requires |lines| >= 1 && '\n' !in m && '\n' !in lines[0]
    requires StartsWith(Join(lines), m)
    ensures StartsWith(lines[0], m)
  {
    var s := Join(lines);
    assert forall k :: 0 <= k < |m| ==> m[k] == s[k];
    assert |lines| > 1 ==> s[|lines[0]|] == '\n';
    assert |m| <= |lines[0]|;
    assert s[..|m|] == lines[0][..|m|];
  }

  /** The inverse of wrapping `x` as `pre + x + suf`. */
  function Unwrap(s: string, pre: string, suf: string): (r: Option<string>)
    ensures r.Some? ==> s == pre + r.value + suf
  {
    if |pre| + |suf| <= |s| && StartsWith(s, pre) && EndsWith(s, suf)
    then
      var x := s[|pre|..|s| - |suf|];
      assert s == s[..|pre|] + x + s[|s| - |suf|..];
      Some(x)
    else None
  }

  lemma UnwrapWrap(pre: string, x: string, suf: string)
    ensures Unwrap(pre + x + suf, pre, suf) == Some(x)
  {
    var s := pre + x + suf;
    assert s[..|pre|] == pre;
    assert s[|s| - |suf|..] == suf;
    assert s[|pre|..|s| - |suf|] == x;
  }
}
