/** Printing hunks and parsing them again: what a diff that was printed from hunks can
    do to a file. */
module DiffPrinting {
  import opened Plans
  import opened Hunks
  import opened HunkLists

  function BodyLines(body: seq<string>): seq<DiffLine> {
    if body == [] then [] else BodyLines(body[..|body| - 1]) + [Text(body[|body| - 1])]
  }

  function PrintHunk(h: Hunk): seq<DiffLine> {
    [if h.header.Some? then At(h.header.value) else BadAt(true)] + BodyLines(h.body)
  }

  function PrintHunks(hunks: seq<Hunk>): seq<DiffLine> {
    if hunks == [] then [] else PrintHunks(hunks[..|hunks| - 1]) + PrintHunk(hunks[|hunks| - 1])
  }

  /** The two file headers and the hunks. */
  function Print(file: string, hunks: seq<Hunk>): seq<DiffLine> {
    [Text("--- a/" + file), Text("+++ b/" + file)] + PrintHunks(hunks)
  }

  /** The body lines that survive parsing: those that do not read as a file header. */
  function Kept(body: seq<string>): seq<string> {
    if body == [] then []
    else
      var last := body[|body| - 1];
      Kept(body[..|body| - 1]) + if FileHeader(last) then [] else [last]
  }

  function KeptAll(hunks: seq<Hunk>): seq<Hunk> {
    seq(|hunks|, i requires 0 <= i < |hunks| => hunks[i].(body := Kept(hunks[i].body)))
  }

  lemma SplitLast(lines: seq<DiffLine>, line: DiffLine)
    ensures Split(lines + [line]) == SplitStep(Split(lines), line)
  {
    assert (lines + [line])[..|lines|] == lines;
  }

  lemma {:induction false} SplitBody(lines: seq<DiffLine>, front: seq<Hunk>, header: Option<Header>, body: seq<string>)
    requires Split(lines) == front + [Hunk(header, [])]
    ensures Split(lines + BodyLines(body)) == front + [Hunk(header, Kept(body))]
  {
    if body == [] {
      assert lines + [] == lines;
    } else {
      var before, last := body[..|body| - 1], body[|body| - 1];
      SplitBody(lines, front, header, before);
      SplitLast(lines + BodyLines(before), Text(last));
      assert lines + BodyLines(body) == (lines + BodyLines(before)) + [Text(last)];
      assert Kept(before) + [] == Kept(before);
    }
  }

  lemma SplitOneHunk(lines: seq<DiffLine>, h: Hunk)
    ensures Split(lines + PrintHunk(h)) == Split(lines) + [Hunk(h.header, Kept(h.body))]
  {
    var head := if h.header.Some? then At(h.header.value) else BadAt(true);
    SplitLast(lines, head);
    SplitBody(lines + [head], Split(lines), h.header, h.body);
    assert lines + PrintHunk(h) == (lines + [head]) + BodyLines(h.body);
  }

  lemma PrintLast(lines: seq<DiffLine>, hunks: seq<Hunk>)
    requires hunks != []
    ensures lines + PrintHunks(hunks) == (lines + PrintHunks(hunks[..|hunks| - 1])) + PrintHunk(hunks[|hunks| - 1])
  {
    hide PrintHunk;
    Associate(lines, PrintHunks(hunks[..|hunks| - 1]), PrintHunk(hunks[|hunks| - 1]));
  }

  /** Parsing a printed hunk list gives it back without the lines that read as headers. */
  lemma {:induction false} SplitPrinted(lines: seq<DiffLine>, hunks: seq<Hunk>)
    requires Split(lines) == []
    ensures Split(lines + PrintHunks(hunks)) == KeptAll(hunks)
  {
    if hunks == [] {
      assert lines + [] == lines;
    } else {
      hide Split, PrintHunk, PrintHunks, Kept, KeptAll;
      var front, last := hunks[..|hunks| - 1], hunks[|hunks| - 1];
      assert hunks == front + [last];
      SplitPrinted(lines, front);
      SplitOneHunk(lines + PrintHunks(front), last);
      PrintLast(lines, hunks);
      KeptLast(front, last);
    }
  }

  lemma KeptLast(front: seq<Hunk>, last: Hunk)
    ensures KeptAll(front + [last]) == KeptAll(front) + [Hunk(last.header, Kept(last.body))]
  {
  }

  lemma ParsePrint(file: string, hunks: seq<Hunk>)
    ensures Split(Print(file, hunks)) == KeptAll(hunks)
  {
    var a, b := Text("--- a/" + file), Text("+++ b/" + file);
    assert FileHeader("--- a/" + file) && FileHeader("+++ b/" + file);
    SplitLast([], a);
    SplitLast([a], b);
    assert [] + [a] == [a] && [a] + [b] == [a, b];
    SplitPrinted([a, b], hunks);
  }

  /** No body line reads as a file header. */
  ghost predicate Clean(body: seq<string>) {
    forall l :: l in body ==> !FileHeader(l)
  }

  /** Dropping a line changes a count the header has already fixed. */
  lemma {:induction false} KeptCounts(body: seq<string>)
    ensures OldCount(Kept(body)) <= OldCount(body) && NewCount(Kept(body)) <= NewCount(body)
    ensures Clean(body) ==> Kept(body) == body
    ensures !Clean(body) ==> OldCount(Kept(body)) < OldCount(body) || NewCount(Kept(body)) < NewCount(body)
  {
    if body != [] {
      var front, last := body[..|body| - 1], body[|body| - 1];
      assert body == front + [last];
      KeptCounts(front);
      assert Clean(body) <==> Clean(front) && !FileHeader(last);
      if FileHeader(last) {
        assert IsDeletion(last) || IsAddition(last);
        assert Kept(body) == Kept(front);
      } else {
        KeptOne(Kept(front), last);
      }
    }
  }

  lemma KeptOne(kept: seq<string>, last: string)
    ensures OldCount(kept + [last]) == OldCount(kept) + if IsContext(last) || IsDeletion(last) then 1 else 0
    ensures NewCount(kept + [last]) == NewCount(kept) + if IsContext(last) || IsAddition(last) then 1 else 0
  {
    assert (kept + [last])[..|kept|] == kept;
  }

  ghost predicate AllClean(hunks: seq<Hunk>) {
    forall h :: h in hunks ==> Clean(h.body)
  }

  ghost predicate AllCountsRight(hunks: seq<Hunk>) {
    forall h :: h in hunks ==> CountsRight(h)
  }

  lemma {:induction false} DroppedIsRefused(lines: seq<Line>, hunks: seq<Hunk>, k: nat)
    requires AllCountsRight(hunks) && k < |hunks| && !Clean(hunks[k].body)
    ensures ApplyAll(lines, KeptAll(hunks)).None?
  {
    hide Kept, OldSide, WellFormedBody;
    var front := hunks[..|hunks| - 1];
    assert KeptAll(hunks)[..|front|] == KeptAll(front);
    if k < |front| {
      DroppedIsRefused(lines, front, k);
    } else {
      KeptCounts(hunks[k].body);
      assert hunks[k] in hunks;
    }
  }

  /** A printed diff never edits silently: with clean bodies it applies exactly like the
      hunks it was printed from, and with a body line that reads as a file header the
      count check refuses it. */
  lemma PrintedDiffIsSafe(file: string, lines: seq<Line>, hunks: seq<Hunk>)
    requires AllCountsRight(hunks)
    ensures AllClean(hunks) ==> Split(Print(file, hunks)) == hunks
    ensures ApplyAll(lines, Split(Print(file, hunks))) == if AllClean(hunks) then ApplyAll(lines, hunks) else None
  {
    ParsePrint(file, hunks);
    if AllClean(hunks) {
      forall i | 0 <= i < |hunks|
        ensures KeptAll(hunks)[i] == hunks[i]
      {
        assert hunks[i] in hunks;
        KeptCounts(hunks[i].body);
      }
      assert KeptAll(hunks) == hunks;
    } else {
      var h :| h in hunks && !Clean(h.body);
      var k :| 0 <= k < |hunks| && hunks[k] == h;
      DroppedIsRefused(lines, hunks, k);
    }
  }

  // ----- The whole-file diff -----

  function Prefixed(c: char, texts: seq<string>): (r: seq<string>)
    ensures |r| == |texts|
  {
    seq(|texts|, i requires 0 <= i < |texts| => [c] + texts[i])
  }

  /** The single hunk of `_propose_bugfix`: delete every old line, add every new one. */
  function WholeFile(before: seq<string>, after: seq<string>): Hunk {
    Hunk(Some(Header(1, |before|, 1, |after|)), Prefixed('-', before) + Prefixed('+', after))
  }

  lemma {:induction false} DeletionsOnly(body: seq<string>, texts: seq<string>)
    requires body == Prefixed('-', texts)
    ensures OldCount(body) == |texts| && NewCount(body) == 0 && OldSide(body) == texts
  {
    if texts != [] {
      var n := |texts| - 1;
      assert body[..n] == Prefixed('-', texts[..n]);
      DeletionsOnly(body[..n], texts[..n]);
      assert body[n][1..] == texts[n];
      assert texts == texts[..n] + [texts[n]];
    }
  }

  ghost function Terminated(texts: seq<string>): seq<Line> {
    seq(|texts|, i requires 0 <= i < |texts| => Line(texts[i], "\n"))
  }

  /** One more addition at the end of a body. */
  lemma OneAddition(front: seq<string>, text: string)
    requires WellFormedBody(front)
    ensures var body := front + [['+'] + text];
            && OldCount(body) == OldCount(front) && NewCount(body) == NewCount(front) + 1
            && OldSide(body) == OldSide(front)
            && WellFormedBody(body)
            && forall window: seq<Line> :: |window| == OldCount(front) ==>
                 NewSide(window, body) == NewSide(window, front) + [Line(text, "\n")]
  {
    var line := ['+'] + text;
    assert (front + [line])[..|front|] == front && line[1..] == text;
    WellFormedAppend(front, line);
  }

  lemma {:induction false} ThenAdditions(before: seq<string>, after: seq<string>)
    ensures var body := Prefixed('-', before) + Prefixed('+', after);
            && OldCount(body) == |before| && NewCount(body) == |after| && OldSide(body) == before
            && WellFormedBody(body)
            && forall window: seq<Line> :: |window| == |before| ==> NewSide(window, body) == Terminated(after)
  {
    var body := Prefixed('-', before) + Prefixed('+', after);
    if after == [] {
      assert body == Prefixed('-', before);
      DeletionsOnly(body, before);
      forall window: seq<Line> | |window| == |before|
        ensures NewSide(window, body) == []
      {
      }
    } else {
      hide OldSide, OldCount, NewCount, NewSide, WellFormedBody;
      var n := |after| - 1;
      ThenAdditions(before, after[..n]);
      var front := Prefixed('-', before) + Prefixed('+', after[..n]);
      assert body == front + [['+'] + after[n]];
      OneAddition(front, after[n]);
      assert Terminated(after) == Terminated(after[..n]) + [Line(after[n], "\n")];
    }
  }

  /** The two line texts that a whole-file diff cannot carry. */
  ghost predicate Carries(before: seq<string>, after: seq<string>) {
    && (forall t :: t in before ==> !FileHeader(['-'] + t))
    && (forall t :: t in after ==> !FileHeader(['+'] + t))
  }

  lemma WholeFileClean(before: seq<string>, after: seq<string>)
    ensures Clean(WholeFile(before, after).body) <==> Carries(before, after)
  {
    var body := WholeFile(before, after).body;
    forall i | 0 <= i < |before|
      ensures (['-'] + before[i]) in body
    {
      assert body[i] == ['-'] + before[i];
    }
    forall i | 0 <= i < |after|
      ensures (['+'] + after[i]) in body
    {
      assert body[|before| + i] == ['+'] + after[i];
    }
  }

  /** The text of an unterminated last line runs on into the first added line. */
  predicate Glues(lines: seq<Line>, after: seq<string>) {
    lines != [] && lines[|lines| - 1].eol == "" && after != []
  }

  /** The old lines of a diff as they are printed when the last one runs on. */
  ghost function RunOn(lines: seq<Line>, after: seq<string>): (r: seq<string>)
    requires Glues(lines, after)
    ensures |r| == |lines|
  {
    var n := |lines| - 1;
    Texts(lines)[..n] + [Texts(lines)[n] + ['+'] + after[0]]
  }

  /** The hunk that the joined text of the whole-file diff holds. */
  ghost function WholeFileHunk(lines: seq<Line>, after: seq<string>): Hunk {
    if Glues(lines, after)
    then Hunk(Some(Header(1, |lines|, 1, |after|)), Prefixed('-', RunOn(lines, after)) + Prefixed('+', after[1..]))
    else WholeFile(Texts(lines), after)
  }

  /** A hunk that lacks a line its header counts is refused, whatever else is dropped. */
  lemma ShortHunkIsRefused(file: string, lines: seq<Line>, h: Hunk)
    requires h.header.Some? && NewCount(h.body) < h.header.value.newCount
    ensures ApplyAll(lines, Split(Print(file, [h]))).None?
  {
    ParsePrint(file, [h]);
    KeptCounts(h.body);
    assert KeptAll([h]) == [h.(body := Kept(h.body))];
    assert [h.(body := Kept(h.body))][..0] == [];
  }

  /** The whole-file diff yields exactly the new lines, or is refused; it is refused exactly
      when an old line starts with `-- `, a new one with `++ `, or new lines follow an old
      file that does not end in a line terminator. */
  lemma WholeFileDiff(file: string, lines: seq<Line>, after: seq<string>)
    ensures var diff := Print(file, [WholeFileHunk(lines, after)]);
            ApplyAll(lines, Split(diff))
            == if Carries(Texts(lines), after) && !Glues(lines, after) then Some(Terminated(after)) else None
  {
    hide Fits, Replaced, ApplyAll, Split, Print, NewSide, OldSide, Clean;
    var h := WholeFileHunk(lines, after);
    if Glues(lines, after) {
      ThenAdditions(RunOn(lines, after), after[1..]);
      ShortHunkIsRefused(file, lines, h);
    } else {
      WholeFileFits(lines, after);
      WholeFileClean(Texts(lines), after);
      PrintedDiffIsSafe(file, lines, [h]);
      SingleHunk(lines, h);
    }
  }

  lemma WholeFileFits(lines: seq<Line>, after: seq<string>)
    ensures var h := WholeFile(Texts(lines), after);
            CountsRight(h) && Fits(lines, h) && Replaced(lines, h) == Terminated(after)
  {
    ThenAdditions(Texts(lines), after);
    assert lines[0..|lines|] == lines;
    assert lines[..0] == [] && lines[|lines|..] == [];
  }

  /** Additions alone go in before the line their header names, counted from one, a start of
      zero meaning the front like one; they fit exactly if that is not past the end. */
  lemma PureInsertion(lines: seq<Line>, after: seq<string>, start: nat, newStart: nat)
    ensures var h := Hunk(Some(Header(start, 0, newStart, |after|)), Prefixed('+', after)); var p := Max(start - 1, 0);
            && (Fits(lines, h) <==> p <= |lines|)
            && (Fits(lines, h) ==> Replaced(lines, h) == lines[..p] + Terminated(after) + lines[p..])
  {
    hide NewSide, OldSide, OldCount, NewCount, WellFormedBody;
    ThenAdditions([], after);
    assert Prefixed('-', []) + Prefixed('+', after) == Prefixed('+', after);
    var p := Max(start - 1, 0);
    if p <= |lines| { assert Texts(lines[p..p]) == []; }
  }

  // ----- The appending diff -----

  /** The single hunk of `_propose_readme` for a file that has lines: all of them as
      context, then the new ones, under a header that starts at the last line. */
  function AppendHunk(before: seq<string>, after: seq<string>): Hunk {
    Hunk(Some(Header(|before|, |before|, |before|, |before| + |after|)), Prefixed(' ', before) + Prefixed('+', after))
  }

  /** All lines as context: what such a body says. */
  ghost predicate Unchanged(window: seq<Line>) {
    var body := Prefixed(' ', Texts(window));
    && OldCount(body) == |window| && NewCount(body) == |window| && OldSide(body) == Texts(window)
    && WellFormedBody(body) && NewSide(window, body) == window
  }

  lemma OneMoreContext(front: seq<Line>, last: Line)
    requires Unchanged(front)
    ensures Unchanged(front + [last])
  {
    hide NewSide, OldSide, WellFormedBody, OldCount;
    var line, body := [' '] + last.text, Prefixed(' ', Texts(front));
    assert Texts(front + [last]) == Texts(front) + [last.text];
    assert Prefixed(' ', Texts(front + [last])) == body + [line] && line[1..] == last.text;
    assert (body + [line])[..|body|] == body;
    OldSideAppend(body, line);
    NewSideAppend(front, body, last, line);
    WellFormedAppend(body, line);
  }

  lemma {:induction false} ContextOnly(window: seq<Line>)
    ensures Unchanged(window)
  {
    if window != [] {
      hide Unchanged;
      var n := |window| - 1;
      ContextOnly(window[..n]);
      OneMoreContext(window[..n], window[n]);
      assert window == window[..n] + [window[n]];
    }
  }

  /** All lines as context, then additions: what such a body says. */
  ghost predicate Appends(window: seq<Line>, after: seq<string>) {
    var body := Prefixed(' ', Texts(window)) + Prefixed('+', after);
    && OldCount(body) == |window| && NewCount(body) == |window| + |after| && OldSide(body) == Texts(window)
    && WellFormedBody(body) && NewSide(window, body) == window + Terminated(after)
  }

  lemma AppendsNothing(window: seq<Line>)
    ensures Appends(window, [])
  {
    ContextOnly(window);
    assert Prefixed(' ', Texts(window)) + [] == Prefixed(' ', Texts(window)) && window + [] == window;
  }

  lemma AppendsOneMore(window: seq<Line>, after: seq<string>, text: string)
    requires Appends(window, after)
    ensures Appends(window, after + [text])
  {
    hide OldSide, OldCount, NewCount, NewSide, WellFormedBody;
    var context, line := Prefixed(' ', Texts(window)), ['+'] + text;
    assert Prefixed('+', after + [text]) == Prefixed('+', after) + [line];
    Associate(context, Prefixed('+', after), [line]);
    OneAddition(context + Prefixed('+', after), text);
    assert Terminated(after + [text]) == Terminated(after) + [Line(text, "\n")];
    Associate(window, Terminated(after), [Line(text, "\n")]);
  }

  lemma {:induction false} ContextThenAdditions(window: seq<Line>, after: seq<string>)
    ensures Appends(window, after)
  {
    hide Appends;
    if after == [] {
      AppendsNothing(window);
    } else {
      var n := |after| - 1;
      ContextThenAdditions(window, after[..n]);
      AppendsOneMore(window, after[..n], after[n]);
      assert after == after[..n] + [after[n]];
    }
  }

  /** The hunk that the joined text of the appending diff holds. */
  ghost function AppendingHunk(lines: seq<Line>, after: seq<string>): Hunk {
    if Glues(lines, after)
    then Hunk(Some(Header(|lines|, |lines|, |lines|, |lines| + |after|)),
              Prefixed(' ', RunOn(lines, after)) + Prefixed('+', after[1..]))
    else AppendHunk(Texts(lines), after)
  }

  lemma AppendHunkClean(before: seq<string>, after: seq<string>)
    ensures Clean(AppendHunk(before, after).body) <==> forall t :: t in after ==> !FileHeader(['+'] + t)
  {
    var body := AppendHunk(before, after).body;
    forall i | 0 <= i < |after|
      ensures (['+'] + after[i]) in body
    {
      assert body[|before| + i] == ['+'] + after[i];
    }
  }

  lemma AppendHunkFits(lines: seq<Line>, after: seq<string>)
    requires lines != []
    ensures var h := AppendHunk(Texts(lines), after);
            && CountsRight(h) && (Fits(lines, h) <==> |lines| == 1)
            && (Fits(lines, h) ==> Replaced(lines, h) == lines + Terminated(after))
  {
    ContextThenAdditions(lines, after);
    assert |lines| == 1 ==> lines[0..1] == lines && lines[..0] == [] && lines[1..] == [];
    assert |lines| == 1 ==> [] + (lines + Terminated(after)) + [] == lines + Terminated(after);
  }

  lemma RunOnCounts(lines: seq<Line>, after: seq<string>)
    requires Glues(lines, after)
    ensures NewCount(AppendingHunk(lines, after).body) < |lines| + |after|
  {
    var texts := RunOn(lines, after);
    var window := Terminated(texts);
    assert Texts(window) == texts;
    ContextThenAdditions(window, after[1..]);
  }

  lemma SingleHunk(lines: seq<Line>, h: Hunk)
    ensures ApplyAll(lines, [h]) == if Fits(lines, h) then Some(Replaced(lines, h)) else None
  {
    assert [h][..0] == [];
  }

  /** The appending diff of a file with lines is accepted exactly if the file is one
      terminated line and no added line starts with `++ `, and then appends. */
  lemma AppendDiffFitsOneLineOnly(file: string, lines: seq<Line>, after: seq<string>)
    requires lines != []
    ensures var diff := Print(file, [AppendingHunk(lines, after)]);
            ApplyAll(lines, Split(diff))
            == if |lines| == 1 && !Glues(lines, after) && (forall t :: t in after ==> !FileHeader(['+'] + t))
               then Some(lines + Terminated(after)) else None
  {
    hide Fits, Replaced, ApplyAll, Split, Print, NewCount, OldCount, Clean;
    var h := AppendingHunk(lines, after);
    if Glues(lines, after) {
      RunOnCounts(lines, after);
      ShortHunkIsRefused(file, lines, h);
    } else {
      AppendHunkFits(lines, after);
      AppendHunkClean(Texts(lines), after);
      PrintedDiffIsSafe(file, lines, [h]);
      SingleHunk(lines, h);
    }
  }
}
