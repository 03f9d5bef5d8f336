/**
 The clean-up the editor applies to a model's answer before it replaces the
 user's prompt: lines that sound like chat preamble or sign-off are dropped,
 everything before the first markdown line is cut, and the rest is rejoined
 and trimmed.
 */
module Sanitizer {
  import opened Basics
  import opened Text

  /** Lower-case phrases that mark a line as conversational filler. */
  const Blocklist: seq<string> := [
    "here's", "here is", "based on your", "ready for you", "please find",
    "i've created", "i have created", "draft", "customize", "specific details",
    "hope this helps", "let me know", "feel free to"
  ]

  /** The line, lower-cased, includes one of the phrases. */
  predicate Mentions(line: string, phrases: seq<string>) {
    exists k :: 0 <= k < |phrases| && Contains(Lower(line), phrases[k])
  }

  /** Phrases that are non-empty and lie within one line. */
  predicate SingleLine(phrases: seq<string>) {
    forall k :: 0 <= k < |phrases| ==> phrases[k] != [] && '\n' !in phrases[k]
  }

  predicate MentionsBlocked(line: string) {
    Mentions(line, Blocklist)
  }

  predicate Clean(line: string) {
    !MentionsBlocked(line)
  }

  /** The prefixes that make a line the start of markdown content. */
  const Markers: seq<string> := ["#", "-", "*", "1.", ">"]

  predicate IsMarker(line: string) {
    exists k :: 0 <= k < |Markers| && StartsWith(line, Markers[k])
  }

  lemma BlocklistShape()
    ensures SingleLine(Blocklist)
  {
  }

  lemma MarkerShape()
    ensures forall k :: 0 <= k < |Markers| ==>
      Markers[k] != [] && '\n' !in Markers[k]
      && !IsWhitespace(Markers[k][0]) && !IsWhitespace(Markers[k][|Markers[k]| - 1])
  {
  }

  /** The `filter` step: the lines that mention no blocklisted phrase, in their original order. */
  function KeepLines(lines: seq<string>): (r: seq<string>)
    ensures forall k :: 0 <= k < |r| ==> Clean(r[k])
    ensures forall line :: multiset(r)[line] == if Clean(line) then multiset(lines)[line] else 0
  {
    Filter(lines, Clean)
  }

  /** `findIndex` with the markdown test: the position of the first markdown line, if any. */
  function FindMarker(lines: seq<string>): (r: Option<nat>)
    ensures r.Some? ==> r.value < |lines| && IsMarker(lines[r.value])
    ensures r.Some? ==> forall k :: 0 <= k < r.value ==> !IsMarker(lines[k])
    ensures r.None? <==> forall k :: 0 <= k < |lines| ==> !IsMarker(lines[k])
    decreases |lines|
  {
    if |lines| == 0 then None
    else if IsMarker(lines[0]) then Some(0)
    else
      match FindMarker(lines[1..])
      case Some(i) => Some(i + 1)
      case None => None
  }

  /** The `slice` step: the lines from the first markdown line on, or all lines when there is none. */
  function DropPreamble(lines: seq<string>): (r: seq<string>)
    ensures |r| <= |lines| && r == lines[|lines| - |r|..]
    ensures forall k :: 0 <= k < |lines| - |r| ==> !IsMarker(lines[k])
    ensures (exists k :: 0 <= k < |lines| && IsMarker(lines[k])) ==> r != [] && IsMarker(r[0])
    ensures (forall k :: 0 <= k < |lines| ==> !IsMarker(lines[k])) ==> r == lines
  {
    match FindMarker(lines)
    case Some(i) => lines[i..]
    case None => lines
  }

  /** The lines that survive the blocklist. */
  function Kept(raw: string): seq<string> {
    KeepLines(Split(raw))
  }

  /** The whole clean-up of one model answer. */
  function Sanitize(raw: string): (r: string)
    ensures Trim(r) == r
    ensures Clean(r)
    ensures Contains(Join(Kept(raw)), r)
  {
    CleanedTail(Kept(raw), DropPreamble(Kept(raw)));
    Trim(Join(DropPreamble(Kept(raw))))
  }

  lemma CleanedTail(kept: seq<string>, body: seq<string>)
    requires forall k :: 0 <= k < |kept| ==> Clean(kept[k])
    requires |body| <= |kept| && body == kept[|kept| - |body|..]
    ensures Trim(Trim(Join(body))) == Trim(Join(body))
    ensures Clean(Trim(Join(body)))
    ensures Contains(Join(kept), Trim(Join(body)))
  {
    TrimIdempotent(Join(body));
    BlocklistShape();
    TailClean(kept, body, Blocklist);
    TailContained(kept, body);
  }

  /** The trimmed join of a suffix of clean lines is clean. */
  lemma TailClean(kept: seq<string>, body: seq<string>, phrases: seq<string>)
    requires SingleLine(phrases)
    requires forall k :: 0 <= k < |kept| ==> !Mentions(kept[k], phrases)
    requires |body| <= |kept| && body == kept[|kept| - |body|..]
    ensures !Mentions(Trim(Join(body)), phrases)
  {
    assert forall k :: 0 <= k < |body| ==> body[k] == kept[|kept| - |body| + k];
    JoinClean(body, phrases);
    InfixClean(Join(body), Trim(Join(body)), phrases);
  }

  /** The trimmed join of a suffix of the lines is found in the join of all of them. */
  lemma TailContained(kept: seq<string>, body: seq<string>)
    requires |body| <= |kept| && body == kept[|kept| - |body|..]
    ensures Contains(Join(kept), Trim(Join(body)))
  {
    JoinSuffixContained(kept, |kept| - |body|);
    ContainsTransitive(Join(kept), Join(body), Trim(Join(body)));
  }

  /** When a surviving line is markdown, the result begins with a marker: the preamble before it is gone. */
  lemma SanitizeStartsAtMarker(raw: string)
    requires exists k :: 0 <= k < |Kept(raw)| && IsMarker(Kept(raw)[k])
    ensures IsMarker(Sanitize(raw))
  {
    MarkerSurvives(DropPreamble(Kept(raw)));
  }

  /** When no surviving line is markdown, the result is all surviving lines, trimmed. */
  lemma SanitizeWithoutMarker(raw: string)
    requires forall k :: 0 <= k < |Kept(raw)| ==> !IsMarker(Kept(raw)[k])
    ensures Sanitize(raw) == Trim(Join(Kept(raw)))
  {
  }

  /** Text cut out of clean text is clean. */
  lemma InfixClean(s: string, t: string, phrases: seq<string>)
    requires Contains(s, t) && !Mentions(s, phrases)
    ensures !Mentions(t, phrases)
  {
    forall k | 0 <= k < |phrases| ensures !Contains(Lower(t), phrases[k]) {
      LowerContains(s, t);
      if Contains(Lower(t), phrases[k]) {
        ContainsTransitive(Lower(s), Lower(t), phrases[k]);
      }
    }
  }

  /** No phrase spans a line break, so joining lines that mention no phrase gives text that mentions none. */
  lemma {:induction false} JoinClean(lines: seq<string>, phrases: seq<string>)
    requires SingleLine(phrases)
    requires forall k :: 0 <= k < |lines| ==> !Mentions(lines[k], phrases)
    ensures !Mentions(Join(lines), phrases)
    decreases |lines|
  {
    if |lines| == 0 {
      assert Lower(Join(lines)) == "";
    } else if |lines| > 1 {
      var a, b := lines[0], Join(lines[1..]);
      JoinClean(lines[1..], phrases);
      LowerAppend(a + "\n", b);
      LowerAppend(a, "\n");
      assert Lower(Join(lines)) == Lower(a) + "\n" + Lower(b);
      forall k | 0 <= k < |phrases| ensures !Contains(Lower(Join(lines)), phrases[k]) {
        if Contains(Lower(Join(lines)), phrases[k]) {
          ContainsAcrossBreak(Lower(a), Lower(b), phrases[k]);
        }
      }
    }
  }

  /** The text joined from a tail of the lines is a piece of the text joined from all of them. */
  lemma {:induction false} JoinSuffixContained(lines: seq<string>, i: int)
    requires 0 <= i <= |lines|
    ensures Contains(Join(lines), Join(lines[i..]))
    decreases |lines|
  {
    if i == 0 {
      assert lines[i..] == lines;
      ContainsSlice(Join(lines), 0, |Join(lines)|);
      assert Join(lines)[0..|Join(lines)|] == Join(lines);
    } else if |lines| == 1 {
      assert lines[i..] == [];
      assert OccursAt(Join(lines), "", 0);
    } else {
      JoinSuffixContained(lines[1..], i - 1);
      assert lines[1..][i - 1..] == lines[i..];
      ContainsAppendLeft(lines[0] + "\n", Join(lines[1..]), Join(lines[i..]));
    }
  }

  /** When the kept lines start with a markdown line, trimming their join keeps the marker in front. */
  lemma MarkerSurvives(body: seq<string>)
    requires body != [] && IsMarker(body[0])
    ensures IsMarker(Trim(Join(body)))
  {
    var k :| 0 <= k < |Markers| && StartsWith(body[0], Markers[k]);
    MarkerShape();
    HeadSurvives(body, Markers[k]);
  }

  /** A first line beginning with text that has non-whitespace at both ends keeps that beginning through join and trim. */
  lemma HeadSurvives(body: seq<string>, m: string)
    requires body != [] && StartsWith(body[0], m)
    requires m != [] && !IsWhitespace(m[0]) && !IsWhitespace(m[|m| - 1])
    ensures StartsWith(Trim(Join(body)), m)
  {
    JoinStartsWithHead(body);
    assert Join(body)[..|m|] == body[0][..|m|];
    TrimKeepsPrefix(Join(body), m);
  }

  /** A line after the first that begins with `m` puts a line break followed by `m` into the joined text. */
  lemma {:induction false} JoinLineAfterBreak(lines: seq<string>, j: int, m: string)
    requires 1 <= j < |lines| && StartsWith(lines[j], m)
    ensures Contains(Join(lines), "\n" + m)
    decreases |lines|
  {
    var a, b := lines[0], Join(lines[1..]);
    assert Join(lines) == a + "\n" + b;
    if j == 1 {
      JoinStartsWithHead(lines[1..]);
      assert b[..|m|] == m;
      assert (a + "\n" + b)[|a|..|a| + 1 + |m|] == "\n" + m;
      assert OccursAt(Join(lines), "\n" + m, |a|);
    } else {
      JoinLineAfterBreak(lines[1..], j - 1, m);
      ContainsAppendLeft(a + "\n", b, "\n" + m);
    }
  }

  lemma BreakAtHead(a: string, b: string, m: string)
    requires OccursAt(a + "\n" + b, "\n" + m, |a|)
    ensures StartsWith(b, m)
  {
    var s := a + "\n" + b;
    assert forall k :: 0 <= k < |m| ==> s[|a| + 1 + k] == b[k];
    assert forall k :: 0 <= k < |m| ==> s[|a| + 1 + k] == m[k];
  }

  lemma BreakInTail(a: string, b: string, p: string, i: int)
    requires |a| < i && OccursAt(a + "\n" + b, p, i)
    ensures Contains(b, p)
  {
    var s := a + "\n" + b;
    var j := i - |a| - 1;
    assert s[i..i + |p|] == b[j..j + |p|];
    assert OccursAt(b, p, j);
  }

  /**
   In text joined from line-break-free lines, a line break followed by `m`
   means some line after the first begins with `m`.
   */
  lemma {:induction false} BreakMarkerLine(lines: seq<string>, m: string)
    requires forall k :: 0 <= k < |lines| ==> '\n' !in lines[k]
    requires '\n' !in m
    requires Contains(Join(lines), "\n" + m)
    ensures exists k :: 1 <= k < |lines| && StartsWith(lines[k], m)
    decreases |lines|
  {
    ContainsChar(Join(lines), "\n" + m, '\n');
    if |lines| > 1 {
      var a, b := lines[0], Join(lines[1..]);
      var s := a + "\n" + b;
      assert Join(lines) == s;
      var i :| 0 <= i <= |s| && OccursAt(s, "\n" + m, i);
      assert s[i] == (s[i..i + 1 + |m|])[0] == '\n';
      assert forall k :: 0 <= k < |a| ==> s[k] == a[k] && a[k] in a;
      assert i >= |a|;
      if i == |a| {
        BreakAtHead(a, b, m);
        JoinPrefixInHead(lines[1..], m);
        assert StartsWith(lines[1], m);
      } else {
        BreakInTail(a, b, "\n" + m, i);
        BreakMarkerLine(lines[1..], m);
        var k :| 1 <= k < |lines[1..]| && StartsWith(lines[1..][k], m);
        assert lines[k + 1] == lines[1..][k];
      }
    }
  }

  /** Each surviving line is one of the answer's lines, so none holds a line break. */
  lemma KeptUnbroken(raw: string)
    ensures forall k :: 0 <= k < |Kept(raw)| ==> '\n' !in Kept(raw)[k]
  {
    forall k | 0 <= k < |Kept(raw)| ensures '\n' !in Kept(raw)[k] {
      FilterSubset(Split(raw), Clean, k);
    }
  }

  /** Lines of which the first is markdown, or none is, lose nothing to the preamble cut. */
  lemma DropPreambleKeepsAll(lines: seq<string>)
    requires |lines| >= 1
    requires IsMarker(lines[0]) || forall j :: 1 <= j < |lines| ==> !IsMarker(lines[j])
    ensures DropPreamble(lines) == lines
  {
  }

  /** Clean-up is idempotent: a cleaned answer passes through a second clean-up unchanged. */
  lemma SanitizeIdempotent(raw: string)
    ensures Sanitize(Sanitize(raw)) == Sanitize(raw)
  {
    var y := Sanitize(raw);
    var lines := Split(y);
    JoinSplit(y);
    forall k | 0 <= k < |lines| ensures Clean(lines[k]) {
      JoinContainsLines(lines, k);
      InfixClean(y, lines[k], Blocklist);
    }
    FilterIdentity(lines, Clean);
    assert Kept(y) == lines;
    MarkerShape();
    if exists k :: 0 <= k < |Kept(raw)| && IsMarker(Kept(raw)[k]) {
      SanitizeStartsAtMarker(raw);
      var k :| 0 <= k < |Markers| && StartsWith(y, Markers[k]);
      JoinPrefixInHead(lines, Markers[k]);
      assert IsMarker(lines[0]);
    } else {
      forall j | 1 <= j < |lines| ensures !IsMarker(lines[j]) {
        if IsMarker(lines[j]) {
          var k :| 0 <= k < |Markers| && StartsWith(lines[j], Markers[k]);
          JoinLineAfterBreak(lines, j, Markers[k]);
          ContainsTransitive(Join(Kept(raw)), y, "\n" + Markers[k]);
          KeptUnbroken(raw);
          BreakMarkerLine(Kept(raw), Markers[k]);
        }
      }
    }
    DropPreambleKeepsAll(lines);
    assert Sanitize(y) == Trim(Join(lines));
  }

  /** Text that is already trimmed, clean line by line and starting with markdown comes through unchanged. */
  lemma SanitizeKeepsCleanMarkdown(raw: string)
    requires Trim(raw) == raw
    requires forall k :: 0 <= k < |Split(raw)| ==> Clean(Split(raw)[k])
    requires IsMarker(Split(raw)[0])
    ensures Sanitize(raw) == raw
  {
    FilterIdentity(Split(raw), Clean);
    assert Kept(raw) == Split(raw);
    JoinSplit(raw);
  }

  /** An answer whose every line is filler cleans up to the empty string. */
  lemma SanitizeAllBlocked(raw: string)
    requires forall k :: 0 <= k < |Split(raw)| ==> MentionsBlocked(Split(raw)[k])
    ensures Sanitize(raw) == ""
  {
    if Kept(raw) != [] {
      FilterSubset(Split(raw), Clean, 0);
    }
    assert Kept(raw) == [];
  }

  /** A line mentions none of the phrases when, for each phrase, it lacks some character of that phrase. */
  lemma CleanByAbsentChars(line: string, phrases: seq<string>, absent: string)
    requires |absent| == |phrases|
    requires forall k :: 0 <= k < |absent| ==> absent[k] in phrases[k] && absent[k] !in Lower(line)
    ensures !Mentions(line, phrases)
  {
    forall k | 0 <= k < |phrases| ensures !Contains(Lower(line), phrases[k]) {
      if Contains(Lower(line), phrases[k]) {
        ContainsChar(Lower(line), phrases[k], absent[k]);
      }
    }
  }

  /** `xs[k]` followed by `ys[k]` occurs in phrase `k`, at position `at[k]`. */
  predicate PairsOf(phrases: seq<string>, xs: string, ys: string, at: seq<nat>) {
    && |xs| == |ys| == |at| == |phrases|
    && forall k :: 0 <= k < |phrases| ==>
      at[k] + 1 < |phrases[k]| && phrases[k][at[k]] == xs[k] && phrases[k][at[k] + 1] == ys[k]
  }

  /** A line mentions none of the phrases when, for each phrase, it lacks some two-character piece of that phrase. */
  lemma CleanByAbsentPairs(line: string, phrases: seq<string>, xs: string, ys: string, at: seq<nat>)
    requires PairsOf(phrases, xs, ys, at)
    requires forall k :: 0 <= k < |xs| ==> NoPair(Lower(line), xs[k], ys[k])
    ensures !Mentions(line, phrases)
  {
    forall k | 0 <= k < |phrases| ensures !Contains(Lower(line), phrases[k]) {
      NoPairNotContains(Lower(line), xs[k], ys[k]);
      assert phrases[k][at[k]..at[k] + 2] == [xs[k], ys[k]];
      assert OccursAt(phrases[k], [xs[k], ys[k]], at[k]);
      if Contains(Lower(line), phrases[k]) {
        ContainsTransitive(Lower(line), phrases[k], [xs[k], ys[k]]);
      }
    }
  }

  /** A single clean, trimmed line that is not markdown is left exactly as it is. */
  lemma SanitizeKeepsLine(line: string)
    requires '\n' !in line && Clean(line) && Trim(line) == line && !IsMarker(line)
    ensures Sanitize(line) == line
  {
    SplitJoin([line]);
    assert Split(line) == [line];
    FilterStep([line], 0, Clean);
    assert [line][1..] == [];
    assert Kept(line) == [line];
    assert DropPreamble([line]) == [line];
  }

  /** A chat preamble and a closing pleasantry around a markdown draft are removed; the draft is kept as it is. */
  lemma SanitizeExample()
    ensures Sanitize("Sure, here's your draft!" + "\n" + "# Quarterly Update" + "\n" + "- point one" + "\n" + "Hope this helps!") ==
      "# Quarterly Update" + "\n" + "- point one"
  {
    var lines := ["Sure, here's your draft!", "# Quarterly Update", "- point one", "Hope this helps!"];
    var body := ["# Quarterly Update", "- point one"];
    ExampleJoined();
    ExampleSplit();
    ExampleKept();
    ExampleMarker();
    assert Sanitize(Join(lines)) == Trim(Join(body));
    ExampleTrimmed();
  }

  lemma ExampleJoined()
    ensures Join(["Sure, here's your draft!", "# Quarterly Update", "- point one", "Hope this helps!"]) ==
      "Sure, here's your draft!" + "\n" + "# Quarterly Update" + "\n" + "- point one" + "\n" + "Hope this helps!"
    ensures Join(["# Quarterly Update", "- point one"]) == "# Quarterly Update" + "\n" + "- point one"
  {
    var lines := ["Sure, here's your draft!", "# Quarterly Update", "- point one", "Hope this helps!"];
    assert lines[1..][1..] == ["- point one", "Hope this helps!"];
    assert lines[1..][1..][1..] == ["Hope this helps!"];
  }

  lemma ExampleTrimmed()
    ensures Trim(Join(["# Quarterly Update", "- point one"])) == Join(["# Quarterly Update", "- point one"])
  {
    var out := Join(["# Quarterly Update", "- point one"]);
    assert out == "# Quarterly Update" + "\n" + "- point one";
    TrimFixedPoint(out);
  }

  lemma ExampleKept()
    ensures KeepLines(["Sure, here's your draft!", "# Quarterly Update", "- point one", "Hope this helps!"]) ==
      ["# Quarterly Update", "- point one"]
  {
    var lines := ["Sure, here's your draft!", "# Quarterly Update", "- point one", "Hope this helps!"];
    ExampleClean();
    ExampleBlocked();
    FilterStep(lines, 0, Clean);
    FilterStep(lines, 1, Clean);
    FilterStep(lines, 2, Clean);
    FilterStep(lines, 3, Clean);
    assert lines[0..] == lines;
  }

  lemma ExampleSplit()
    ensures Split(Join(["Sure, here's your draft!", "# Quarterly Update", "- point one", "Hope this helps!"])) ==
      ["Sure, here's your draft!", "# Quarterly Update", "- point one", "Hope this helps!"]
  {
    SplitJoin(["Sure, here's your draft!", "# Quarterly Update", "- point one", "Hope this helps!"]);
  }

  lemma FilterStep<T(!new)>(xs: seq<T>, i: int, keep: T -> bool)
    requires 0 <= i < |xs|
    ensures Filter(xs[i..], keep) == (if keep(xs[i]) then [xs[i]] else []) + Filter(xs[i + 1..], keep)
  {
    assert xs[i..][1..] == xs[i + 1..];
  }

  lemma ExampleClean()
    ensures Clean("# Quarterly Update") && Clean("- point one")
  {
    HeadingClean();
    BulletClean();
  }

  lemma HeadingClean()
    ensures Clean("# Quarterly Update")
  {
    CharsOfPhrases("hhbffiifcshmf");
    HeadingLacks();
    CleanByAbsentChars("# Quarterly Update", Blocklist, "hhbffiifcshmf");
  }

  lemma HeadingLacks()
    ensures forall k :: 0 <= k < 13 ==> "hhbffiifcshmf"[k] !in Lower("# Quarterly Update")
  {
    assert Lower("# Quarterly Update") == "# quarterly update";
  }

  lemma BulletClean()
    ensures Clean("- point one")
  {
    CharsOfPhrases("hhbrlvhdcshlf");
    BulletLacks();
    CleanByAbsentChars("- point one", Blocklist, "hhbrlvhdcshlf");
  }

  lemma BulletLacks()
    ensures forall k :: 0 <= k < 13 ==> "hhbrlvhdcshlf"[k] !in Lower("- point one")
  {
    assert Lower("- point one") == "- point one";
  }

  lemma CharsOfPhrases(absent: string)
    requires absent == "hhbffiifcshmf" || absent == "hhbrlvhdcshlf"
    ensures |absent| == |Blocklist| && forall k :: 0 <= k < |absent| ==> absent[k] in Blocklist[k]
  {
  }

  lemma ExampleBlocked()
    ensures !Clean("Sure, here's your draft!") && !Clean("Hope this helps!")
  {
    OpenerBlocked();
    CloserBlocked();
  }

  lemma OpenerBlocked()
    ensures !Clean("Sure, here's your draft!")
  {
    var line := "Sure, here's your draft!";
    assert line[6..12] == "here's";
    LowerOccurs(line, Blocklist[0], 6);
    MentionsAt(line, Blocklist, 0, 6);
  }

  lemma CloserBlocked()
    ensures !Clean("Hope this helps!")
  {
    var line := "Hope this helps!";
    assert line[..15] == "Hope this helps";
    LowerOccurs(line, Blocklist[10], 0);
    MentionsAt(line, Blocklist, 10, 0);
  }

  /** Where the line spells the phrase up to case, its lower-cased form holds the phrase. */
  lemma LowerOccurs(line: string, p: string, i: int)
    requires 0 <= i && i + |p| <= |line| && Lower(line[i..i + |p|]) == p
    ensures OccursAt(Lower(line), p, i)
  {
    assert Lower(line)[i..i + |p|] == Lower(line[i..i + |p|]);
  }

  lemma MentionsAt(line: string, phrases: seq<string>, k: int, i: int)
    requires 0 <= k < |phrases| && OccursAt(Lower(line), phrases[k], i)
    ensures Mentions(line, phrases)
  {
  }

  /** A line whose first character begins no marker is not markdown. */
  lemma NotMarkerByHead(line: string)
    requires line != [] && line[0] != '#' && line[0] != '-' && line[0] != '*' && line[0] != '1' && line[0] != '>'
    ensures !IsMarker(line)
  {
    forall k | 0 <= k < |Markers| ensures !StartsWith(line, Markers[k]) {
      assert Markers[k][0] == "#-*1>"[k];
      assert |Markers[k]| <= |line| ==> line[..|Markers[k]|][0] == line[0];
    }
  }

  lemma ExampleMarker()
    ensures DropPreamble(["# Quarterly Update", "- point one"]) == ["# Quarterly Update", "- point one"]
  {
    assert StartsWith("# Quarterly Update", Markers[0]);
  }
}
