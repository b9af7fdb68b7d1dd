/** Whole diffs: hunk lists applied in turn, taken back in reverse, and printed and
    parsed again. */
module HunkLists {
  import opened Plans
  import opened Hunks

  /** Hunks applied one after another, each to the list the previous one left. */
  ghost function ApplyAll(lines: seq<Line>, hunks: seq<Hunk>): Option<seq<Line>> {
    if hunks == [] then Some(lines)
    else
      match ApplyAll(lines, hunks[..|hunks| - 1])
      case None => None
      case Some(m) =>
        var last := hunks[|hunks| - 1];
        if Fits(m, last) then Some(Replaced(m, last)) else None
  }

  /** `_apply_diff_to_file`. */
  method ApplyDiff(lines: seq<Line>, diff: seq<DiffLine>) returns (r: Option<seq<Line>>)
    ensures r == ApplyAll(lines, Split(diff))
  {
    var hunks := SplitHunks(diff);
    var current := lines;
    for i := 0 to |hunks|
      invariant ApplyAll(lines, hunks[..i]) == Some(current)
    {
      assert hunks[..i + 1][..i] == hunks[..i];
      var next := ApplyHunk(current, hunks[i]);
      if next.None? {
        FailureStays(lines, hunks, i + 1);
        return None;
      }
      current := next.value;
    }
    assert hunks[..|hunks|] == hunks;
    r := Some(current);
  }

  lemma {:induction false} FailureStays(lines: seq<Line>, hunks: seq<Hunk>, i: nat)
    requires i <= |hunks| && ApplyAll(lines, hunks[..i]).None?
    ensures ApplyAll(lines, hunks).None?
    decreases |hunks|
  {
    if i < |hunks| {
      var front := hunks[..|hunks| - 1];
      assert front[..i] == hunks[..i];
      FailureStays(lines, front, i);
    } else {
      assert hunks[..i] == hunks;
    }
  }

  lemma {:induction false} ApplyFirst(lines: seq<Line>, h: Hunk, rest: seq<Hunk>)
    ensures ApplyAll(lines, [h] + rest) == if Fits(lines, h) then ApplyAll(Replaced(lines, h), rest) else None
  {
    var all := [h] + rest;
    if rest == [] {
      assert all[..0] == [] && all == [h];
    } else {
      assert all[..|all| - 1] == [h] + rest[..|rest| - 1];
      ApplyFirst(lines, h, rest[..|rest| - 1]);
    }
  }

  function Delta(hunks: seq<Hunk>): int {
    if hunks == [] then 0
    else Delta(hunks[..|hunks| - 1]) + NewCount(hunks[|hunks| - 1].body) - OldCount(hunks[|hunks| - 1].body)
  }

  /** Over a hunk list the length changes by the sum of the deltas. */
  lemma {:induction false} LengthChange(lines: seq<Line>, hunks: seq<Hunk>)
    requires ApplyAll(lines, hunks).Some?
    ensures |ApplyAll(lines, hunks).value| == |lines| + Delta(hunks)
  {
    if hunks != [] {
      LengthChange(lines, hunks[..|hunks| - 1]);
    }
  }

  // ----- Taking hunks back -----

  function Flip(line: string): string {
    if IsAddition(line) then "-" + line[1..] else if IsDeletion(line) then "+" + line[1..] else line
  }

  function FlipBody(body: seq<string>): (r: seq<string>)
    ensures |r| == |body|
  {
    if body == [] then [] else FlipBody(body[..|body| - 1]) + [Flip(body[|body| - 1])]
  }

  /** The swapped hunk: old and new side exchanged, at the position where the hunk was
      applied, which is where its new side stands. */
  function Reverse(h: Hunk): Hunk {
    Hunk(if h.header.None? then None
         else Some(Header(h.header.value.oldStart, h.header.value.newCount,
                          h.header.value.newStart, h.header.value.oldCount)),
         FlipBody(h.body))
  }

  function ReverseAll(hunks: seq<Hunk>): seq<Hunk> {
    if hunks == [] then [] else [Reverse(hunks[|hunks| - 1])] + ReverseAll(hunks[..|hunks| - 1])
  }

  lemma {:induction false} FlipCounts(body: seq<string>)
    requires WellFormedBody(body)
    ensures OldCount(FlipBody(body)) == NewCount(body) && NewCount(FlipBody(body)) == OldCount(body)
    ensures WellFormedBody(FlipBody(body))
  {
    if body != [] {
      var front, last := body[..|body| - 1], body[|body| - 1];
      assert body == front + [last];
      FlipCounts(front);
      assert FlipBody(body)[..|front|] == FlipBody(front);
    }
  }

  /** The old side as the swapped hunk rewrites it: deleted lines come back with a
      plain newline. */
  ghost function Restored(window: seq<Line>, body: seq<string>): (r: seq<Line>)
    requires |window| == OldCount(body)
    ensures |r| == |window|
  {
    if body == [] then []
    else
      var front, last, n := body[..|body| - 1], body[|body| - 1], |window|;
      if IsContext(last) then Restored(window[..n - 1], front) + [window[n - 1]]
      else if IsDeletion(last) then Restored(window[..n - 1], front) + [Line(last[1..], "\n")]
      else Restored(window, front)
  }

  lemma {:induction false} FlippedSides(window: seq<Line>, body: seq<string>)
    requires WellFormedBody(body) && |window| == OldCount(body) && Texts(window) == OldSide(body)
    ensures OldCount(FlipBody(body)) == NewCount(body)
    ensures Texts(NewSide(window, body)) == OldSide(FlipBody(body))
    ensures NewSide(NewSide(window, body), FlipBody(body)) == Restored(window, body)
  {
    FlipCounts(body);
    if body != [] {
      var front, last := body[..|body| - 1], body[|body| - 1];
      assert body == front + [last];
      assert WellFormedBody(front);
      assert FlipBody(body)[..|front|] == FlipBody(front);
      FlipCounts(front);
      if IsAddition(last) {
        FlippedSides(window, front);
        FlippedAddition(window, front, last);
      } else {
        var w, l := window[..|window| - 1], window[|window| - 1];
        assert window == w + [l];
        TextsSplit(w, l, front, last);
        FlippedSides(w, front);
        if IsContext(last) { FlippedContext(w, l, front, last); } else { FlippedDeletion(w, l, front, last); }
      }
    }
  }

  lemma TextsSplit(w: seq<Line>, l: Line, front: seq<string>, last: string)
    requires IsContext(last) || IsDeletion(last)
    requires Texts(w + [l]) == OldSide(front + [last]) && |w| == OldCount(front)
    ensures Texts(w) == OldSide(front) && l.text == last[1..]
  {
    OldSideAppend(front, last);
    assert Texts(w + [l])[..|w|] == Texts(w);
    assert (OldSide(front) + [last[1..]])[..|w|] == OldSide(front);
    assert Texts(w + [l])[|w|] == l.text;
  }

  lemma FlipAppend(front: seq<string>, last: string)
    ensures FlipBody(front + [last]) == FlipBody(front) + [Flip(last)]
  {
    assert (front + [last])[..|front|] == front;
  }

  lemma FlippedAddition(window: seq<Line>, front: seq<string>, last: string)
    requires IsAddition(last) && |window| == OldCount(front) && OldCount(FlipBody(front)) == NewCount(front)
    requires Texts(NewSide(window, front)) == OldSide(FlipBody(front))
    requires NewSide(NewSide(window, front), FlipBody(front)) == Restored(window, front)
    ensures var body := front + [last];
            && OldCount(body) == |window| && OldCount(FlipBody(body)) == NewCount(body)
            && Texts(NewSide(window, body)) == OldSide(FlipBody(body))
            && NewSide(NewSide(window, body), FlipBody(body)) == Restored(window, body)
  {
    var body, added := front + [last], Line(last[1..], "\n");
    AdditionSides(window, front, last);
    FlipAppend(front, last);
    FlipOfAddition(last);
    OldSideAppend(FlipBody(front), Flip(last));
    NewSideAppend(NewSide(window, front), FlipBody(front), added, Flip(last));
    assert Texts(NewSide(window, front) + [added]) == Texts(NewSide(window, front)) + [last[1..]];
    assert NewSide(NewSide(window, front), FlipBody(front)) + [] == Restored(window, front);
  }

  lemma FlipOfAddition(line: string)
    requires IsAddition(line)
    ensures IsDeletion(Flip(line)) && !IsContext(Flip(line)) && Flip(line)[1..] == line[1..]
  {
  }

  lemma AdditionSides(window: seq<Line>, front: seq<string>, last: string)
    requires IsAddition(last) && |window| == OldCount(front)
    ensures var body := front + [last];
            && OldCount(body) == |window| && NewCount(body) == NewCount(front) + 1
            && NewSide(window, body) == NewSide(window, front) + [Line(last[1..], "\n")]
            && Restored(window, body) == Restored(window, front)
  {
    assert (front + [last])[..|front|] == front;
  }

  lemma OldLineSides(w: seq<Line>, l: Line, front: seq<string>, last: string)
    requires (IsContext(last) || IsDeletion(last)) && |w| == OldCount(front)
    ensures OldCount(front + [last]) == |w| + 1
    ensures NewCount(front + [last]) == NewCount(front) + if IsContext(last) then 1 else 0
    ensures Restored(w + [l], front + [last])
            == Restored(w, front) + [if IsContext(last) then l else Line(last[1..], "\n")]
  {
    assert (front + [last])[..|front|] == front && (w + [l])[..|w|] == w;
  }

  lemma FlippedContext(w: seq<Line>, l: Line, front: seq<string>, last: string)
    requires IsContext(last) && l.text == last[1..]
    requires |w| == OldCount(front) && OldCount(FlipBody(front)) == NewCount(front)
    requires Texts(NewSide(w, front)) == OldSide(FlipBody(front))
    requires NewSide(NewSide(w, front), FlipBody(front)) == Restored(w, front)
    ensures var window, body := w + [l], front + [last];
            && OldCount(body) == |window| && OldCount(FlipBody(body)) == NewCount(body)
            && Texts(NewSide(window, body)) == OldSide(FlipBody(body))
            && NewSide(NewSide(window, body), FlipBody(body)) == Restored(window, body)
  {
    hide WellFormedBody, Restored, NewSide;
    OldLineSides(w, l, front, last);
    FlipAppend(front, last);
    NewSideAppend(w, front, l, last);
    OldSideAppend(FlipBody(front), last);
    NewSideAppend(NewSide(w, front), FlipBody(front), l, last);
    assert Texts(NewSide(w, front) + [l]) == Texts(NewSide(w, front)) + [l.text];
  }

  lemma FlippedDeletion(w: seq<Line>, l: Line, front: seq<string>, last: string)
    requires IsDeletion(last)
    requires |w| == OldCount(front) && OldCount(FlipBody(front)) == NewCount(front)
    requires Texts(NewSide(w, front)) == OldSide(FlipBody(front))
    requires NewSide(NewSide(w, front), FlipBody(front)) == Restored(w, front)
    ensures var window, body := w + [l], front + [last];
            && OldCount(body) == |window| && OldCount(FlipBody(body)) == NewCount(body)
            && Texts(NewSide(window, body)) == OldSide(FlipBody(body))
            && NewSide(NewSide(window, body), FlipBody(body)) == Restored(window, body)
  {
    OldLineSides(w, l, front, last);
    FlipAppend(front, last);
    NewSideAppend(w, front, l, last);
    var flip := Flip(last);
    assert IsAddition(flip) && flip[1..] == last[1..];
    assert (FlipBody(front) + [flip])[..|front|] == FlipBody(front);
    assert NewSide(w, front) + [] == NewSide(w, front);
  }

  lemma UndoFits(lines: seq<Line>, h: Hunk)
    requires Fits(lines, h)
    ensures Fits(Replaced(lines, h), Reverse(h))
    ensures var at, n := Position(h.header.value.oldStart), OldCount(h.body);
            Replaced(Replaced(lines, h), Reverse(h))
            == lines[..at] + Restored(lines[at..at + n], h.body) + lines[at + n..]
  {
    hide NewSide, OldSide, OldCount, NewCount;
    var at, n := Position(h.header.value.oldStart), OldCount(h.body);
    var window, r, back := lines[at..at + n], Replaced(lines, h), Reverse(h);
    FlipCounts(h.body);
    FlippedSides(window, h.body);
    Sandwich(lines[..at], NewSide(window, h.body), lines[at + n..]);
    assert Position(back.header.value.oldStart) == at && OldCount(back.body) == NewCount(h.body);
    assert r[at..at + OldCount(back.body)] == NewSide(window, h.body);
    assert r[..at] == lines[..at] && r[at + OldCount(back.body)..] == lines[at + n..];
  }

  lemma Sandwich(a: seq<Line>, b: seq<Line>, c: seq<Line>)
    ensures (a + b + c)[|a|..|a| + |b|] == b && (a + b + c)[..|a|] == a && (a + b + c)[|a| + |b|..] == c
  {
  }

  lemma Refill(lines: seq<Line>, a: nat, b: nat, window: seq<Line>)
    requires a <= b <= |lines| && |window| == b - a
    ensures lines[..a] + window + lines[b..] == lines <==> window == lines[a..b]
  {
    Sandwich(lines[..a], window, lines[b..]);
    assert lines == lines[..a] + lines[a..b] + lines[b..];
  }

  /** Every deleted line of the window ends in a plain newline. */
  ghost predicate DeletedPlain(window: seq<Line>, body: seq<string>)
    requires |window| == OldCount(body)
  {
    body == []
    || (var front, last, n := body[..|body| - 1], body[|body| - 1], |window|;
        if IsDeletion(last) then window[n - 1].eol == "\n" && DeletedPlain(window[..n - 1], front)
        else if IsContext(last) then DeletedPlain(window[..n - 1], front)
        else DeletedPlain(window, front))
  }

  lemma {:induction false} RestoredIffPlain(window: seq<Line>, body: seq<string>)
    requires |window| == OldCount(body) && Texts(window) == OldSide(body)
    ensures Restored(window, body) == window <==> DeletedPlain(window, body)
  {
    if body != [] {
      var front, last := body[..|body| - 1], body[|body| - 1];
      assert body == front + [last];
      if IsContext(last) || IsDeletion(last) {
        var w, l := window[..|window| - 1], window[|window| - 1];
        assert window == w + [l];
        TextsSplit(w, l, front, last);
        RestoredIffPlain(w, front);
        OldLineSides(w, l, front, last);
        LastLine(Restored(w, front), if IsContext(last) then l else Line(last[1..], "\n"), w, l);
      } else {
        RestoredIffPlain(window, front);
      }
    }
  }

  lemma LastLine(a: seq<Line>, x: Line, b: seq<Line>, y: Line)
    requires |a| == |b|
    ensures a + [x] == b + [y] <==> a == b && x == y
  {
    assert (a + [x])[..|a|] == a && (b + [y])[..|b|] == b;
    assert (a + [x])[|a|] == x && (b + [y])[|b|] == y;
  }

  /** The swapped hunk always applies to the result, and gives the original lines back
      exactly when every deleted line ended in a plain newline. */
  lemma UndoHunk(lines: seq<Line>, h: Hunk)
    requires Fits(lines, h)
    ensures Fits(Replaced(lines, h), Reverse(h))
    ensures var at, n := Position(h.header.value.oldStart), OldCount(h.body);
            Replaced(Replaced(lines, h), Reverse(h)) == lines <==> DeletedPlain(lines[at..at + n], h.body)
  {
    var at, n := Position(h.header.value.oldStart), OldCount(h.body);
    var window := lines[at..at + n];
    UndoFits(lines, h);
    Refill(lines, at, at + n, Restored(window, h.body));
    RestoredIffPlain(window, h.body);
  }

  /** The lines that end in anything but a plain newline. */
  ghost function Odd(lines: seq<Line>): nat {
    if lines == [] then 0 else Odd(lines[..|lines| - 1]) + if lines[|lines| - 1].eol == "\n" then 0 else 1
  }

  lemma {:induction false} OddConcat(a: seq<Line>, b: seq<Line>)
    ensures Odd(a + b) == Odd(a) + Odd(b)
  {
    if b == [] {
      assert a + b == a;
    } else {
      OddConcat(a, b[..|b| - 1]);
      assert (a + b)[..|a + b| - 1] == a + b[..|b| - 1];
    }
  }

  lemma OddOne(front: seq<Line>, last: Line)
    ensures Odd(front + [last]) == Odd(front) + if last.eol == "\n" then 0 else 1
  {
    assert (front + [last])[..|front|] == front;
  }

  /** A hunk writes plain newlines only, and loses the terminators of what it deletes. */
  lemma {:induction false} OddNewSide(window: seq<Line>, body: seq<string>)
    requires |window| == OldCount(body)
    ensures Odd(NewSide(window, body)) <= Odd(window)
    ensures Odd(NewSide(window, body)) == Odd(window) <==> DeletedPlain(window, body)
  {
    if body != [] {
      hide OldSide, WellFormedBody;
      var front, last := body[..|body| - 1], body[|body| - 1];
      assert body == front + [last];
      if IsContext(last) || IsDeletion(last) {
        var w, l := window[..|window| - 1], window[|window| - 1];
        assert window == w + [l];
        OddNewSide(w, front);
        if IsContext(last) { OddOne(NewSide(w, front), l); }
      } else {
        OddNewSide(window, front);
        OddOne(NewSide(window, front), Line(if last == [] then last else last[1..], "\n"));
      }
    }
  }

  lemma OddReplaced(lines: seq<Line>, h: Hunk)
    requires Fits(lines, h)
    ensures Odd(Replaced(lines, h)) <= Odd(lines) && Fits(Replaced(lines, h), Reverse(h))
    ensures Odd(Replaced(lines, h)) == Odd(lines) <==> Replaced(Replaced(lines, h), Reverse(h)) == lines
  {
    hide OldSide, NewSide, DeletedPlain, WellFormedBody, Odd;
    var at, n := Position(h.header.value.oldStart), OldCount(h.body);
    var window := lines[at..at + n];
    UndoHunk(lines, h);
    OddNewSide(window, h.body);
    OddAround(lines[..at], window, lines[at + n..]);
    OddAround(lines[..at], NewSide(window, h.body), lines[at + n..]);
    assert lines == lines[..at] + window + lines[at + n..];
  }

  lemma OddAround(a: seq<Line>, b: seq<Line>, c: seq<Line>)
    ensures Odd(a + b + c) == Odd(a) + Odd(b) + Odd(c)
  {
    OddConcat(a, b);
    OddConcat(a + b, c);
  }

  lemma {:induction false} OddNeverRises(lines: seq<Line>, hunks: seq<Hunk>)
    requires ApplyAll(lines, hunks).Some?
    ensures Odd(ApplyAll(lines, hunks).value) <= Odd(lines)
  {
    if hunks != [] {
      hide Fits, Replaced, Odd;
      OddNeverRises(lines, hunks[..|hunks| - 1]);
      OddReplaced(ApplyAll(lines, hunks[..|hunks| - 1]).value, hunks[|hunks| - 1]);
    }
  }

  lemma {:induction false} UndoneWhole(lines: seq<Line>, hunks: seq<Hunk>)
    requires ApplyAll(lines, hunks).Some? && Odd(ApplyAll(lines, hunks).value) == Odd(lines)
    ensures ApplyAll(ApplyAll(lines, hunks).value, ReverseAll(hunks)) == Some(lines)
  {
    if hunks != [] {
      hide Fits, Replaced, Reverse, Odd;
      var front, last := hunks[..|hunks| - 1], hunks[|hunks| - 1];
      assert hunks == front + [last];
      var m := ApplyAll(lines, front).value;
      OddNeverRises(lines, front);
      OddReplaced(m, last);
      UndoneWhole(lines, front);
      UndoHunk(m, last);
      ApplyFirst(Replaced(m, last), Reverse(last), ReverseAll(front));
    }
  }

  /** Applying the swapped hunks in reverse order restores the original lines exactly when
      as many lines as before end in something other than a plain newline: when no hunk
      deleted such a line. */
  lemma UndoAll(lines: seq<Line>, hunks: seq<Hunk>)
    requires ApplyAll(lines, hunks).Some?
    ensures var made := ApplyAll(lines, hunks).value;
            ApplyAll(made, ReverseAll(hunks)) == Some(lines) <==> Odd(made) == Odd(lines)
  {
    var made := ApplyAll(lines, hunks).value;
    OddNeverRises(lines, hunks);
    if ApplyAll(made, ReverseAll(hunks)) == Some(lines) {
      OddNeverRises(made, ReverseAll(hunks));
    } else if Odd(made) == Odd(lines) {
      UndoneWhole(lines, hunks);
    }
  }

  /** A file whose lines all end in plain newlines. */
  ghost predicate Plain(lines: seq<Line>) {
    forall i :: 0 <= i < |lines| ==> lines[i].eol == "\n"
  }

  /** Such a file stays one, and is always restored. */
  lemma UndoAllPlain(lines: seq<Line>, hunks: seq<Hunk>)
    requires Plain(lines) && ApplyAll(lines, hunks).Some?
    ensures Plain(ApplyAll(lines, hunks).value)
    ensures ApplyAll(ApplyAll(lines, hunks).value, ReverseAll(hunks)) == Some(lines)
  {
    PlainIsNotOdd(lines);
    PlainIsNotOdd(ApplyAll(lines, hunks).value);
    OddNeverRises(lines, hunks);
    UndoAll(lines, hunks);
  }

  lemma {:induction false} PlainIsNotOdd(lines: seq<Line>)
    ensures Odd(lines) == 0 <==> Plain(lines)
  {
    if lines != [] {
      PlainIsNotOdd(lines[..|lines| - 1]);
    }
  }

  // ----- Texts come back whatever the terminators -----

  lemma {:induction false} NewSideTextsOnly(a: seq<Line>, b: seq<Line>, body: seq<string>)
    requires |a| == |b| == OldCount(body) && Texts(a) == Texts(b)
    ensures Texts(NewSide(a, body)) == Texts(NewSide(b, body))
  {
    if body != [] {
      var front, last, n := body[..|body| - 1], body[|body| - 1], |a|;
      if IsContext(last) || IsDeletion(last) {
        assert Texts(a)[..n - 1] == Texts(a[..n - 1]) && Texts(b)[..n - 1] == Texts(b[..n - 1]);
        assert Texts(a)[n - 1] == a[n - 1].text && Texts(b)[n - 1] == b[n - 1].text;
        NewSideTextsOnly(a[..n - 1], b[..n - 1], front);
        TextsAppend(NewSide(a[..n - 1], front), a[n - 1]);
        TextsAppend(NewSide(b[..n - 1], front), b[n - 1]);
      } else {
        NewSideTextsOnly(a, b, front);
        TextsAppend(NewSide(a, front), Line(if last == [] then last else last[1..], "\n"));
        TextsAppend(NewSide(b, front), Line(if last == [] then last else last[1..], "\n"));
      }
    }
  }

  lemma TextsAppend(lines: seq<Line>, l: Line)
    ensures Texts(lines + [l]) == Texts(lines) + [l.text]
  {
  }

  lemma TextsConcat(a: seq<Line>, b: seq<Line>, c: seq<Line>)
    ensures Texts(a + b + c) == Texts(a) + Texts(b) + Texts(c)
  {
  }

  lemma TextsSlice(lines: seq<Line>, a: nat, b: nat)
    requires a <= b <= |lines|
    ensures Texts(lines[a..b]) == Texts(lines)[a..b]
  {
  }

  /** Whether a hunk fits, and the texts it leaves, depend on texts alone. */
  lemma TextsDecide(a: seq<Line>, b: seq<Line>, h: Hunk)
    requires Texts(a) == Texts(b) && Fits(a, h)
    ensures Fits(b, h) && Texts(Replaced(a, h)) == Texts(Replaced(b, h))
  {
    hide OldSide, NewSide;
    var at, n := Position(h.header.value.oldStart), OldCount(h.body);
    assert |Texts(a)| == |a| == |b|;
    TextsSlice(a, at, at + n);
    TextsSlice(b, at, at + n);
    NewSideTextsOnly(a[at..at + n], b[at..at + n], h.body);
    TextsSlice(a, 0, at);
    TextsSlice(b, 0, at);
    TextsSlice(a, at + n, |a|);
    TextsSlice(b, at + n, |b|);
    assert a[0..at] == a[..at] && b[0..at] == b[..at] && a[at + n..|a|] == a[at + n..] && b[at + n..|b|] == b[at + n..];
    TextsConcat(a[..at], NewSide(a[at..at + n], h.body), a[at + n..]);
    TextsConcat(b[..at], NewSide(b[at..at + n], h.body), b[at + n..]);
  }

  lemma {:induction false} TextsDecideAll(a: seq<Line>, b: seq<Line>, hunks: seq<Hunk>)
    requires Texts(a) == Texts(b) && ApplyAll(a, hunks).Some?
    ensures ApplyAll(b, hunks).Some? && Texts(ApplyAll(a, hunks).value) == Texts(ApplyAll(b, hunks).value)
  {
    if hunks != [] {
      hide Fits, Replaced;
      var front := hunks[..|hunks| - 1];
      TextsDecideAll(a, b, front);
      TextsDecide(ApplyAll(a, front).value, ApplyAll(b, front).value, hunks[|hunks| - 1]);
    }
  }

  lemma {:induction false} RestoredTexts(window: seq<Line>, body: seq<string>)
    requires |window| == OldCount(body) && Texts(window) == OldSide(body)
    ensures Texts(Restored(window, body)) == Texts(window)
  {
    if body != [] {
      var front, last := body[..|body| - 1], body[|body| - 1];
      assert body == front + [last];
      if IsContext(last) || IsDeletion(last) {
        var w, l := window[..|window| - 1], window[|window| - 1];
        assert window == w + [l];
        TextsSplit(w, l, front, last);
        RestoredTexts(w, front);
        OldLineSides(w, l, front, last);
        TextsAppend(w, l);
        TextsAppend(Restored(w, front), if IsContext(last) then l else Line(last[1..], "\n"));
      } else {
        RestoredTexts(window, front);
      }
    }
  }

  lemma UndoHunkTexts(lines: seq<Line>, h: Hunk)
    requires Fits(lines, h)
    ensures Fits(Replaced(lines, h), Reverse(h)) && Texts(Replaced(Replaced(lines, h), Reverse(h))) == Texts(lines)
  {
    hide NewSide, OldSide, Restored, Reverse;
    var at, n := Position(h.header.value.oldStart), OldCount(h.body);
    UndoFits(lines, h);
    RestoredTexts(lines[at..at + n], h.body);
    TextsConcat(lines[..at], Restored(lines[at..at + n], h.body), lines[at + n..]);
    TextsConcat(lines[..at], lines[at..at + n], lines[at + n..]);
    assert lines == lines[..at] + lines[at..at + n] + lines[at + n..];
  }

  /** For any terminators: the swapped hunks in reverse order apply, and bring every line's
      text back. */
  lemma {:induction false} UndoAllTexts(lines: seq<Line>, hunks: seq<Hunk>)
    requires ApplyAll(lines, hunks).Some?
    ensures var back := ApplyAll(ApplyAll(lines, hunks).value, ReverseAll(hunks));
            back.Some? && Texts(back.value) == Texts(lines)
  {
    if hunks != [] {
      hide Fits, Replaced, Reverse;
      var front, last := hunks[..|hunks| - 1], hunks[|hunks| - 1];
      assert hunks == front + [last];
      var m := ApplyAll(lines, front).value;
      UndoAllTexts(lines, front);
      UndoHunkTexts(m, last);
      ApplyFirst(Replaced(m, last), Reverse(last), ReverseAll(front));
      TextsDecideAll(m, Replaced(Replaced(m, last), Reverse(last)), ReverseAll(front));
    }
  }

  /** A carriage return is lost by undoing a deletion: the swapped hunk writes a plain newline. */
  lemma CarriageReturnIsLost(h: Hunk, l: Line)
    requires h == Hunk(Some(Header(1, 1, 1, 0)), ["-" + l.text]) && l.eol == "\r\n"
    ensures Fits([l], h) && Replaced([l], h) == []
    ensures Fits([], Reverse(h)) && Replaced([], Reverse(h)) == [Line(l.text, "\n")]
  {
    var none: seq<string> := [];
    assert h.body[..0] == none && h.body[0][1..] == l.text;
    assert [l][0..1] == [l] && [l][1..] == [] && [l][..0] == [];
    assert OldCount(h.body) == 1 && NewCount(h.body) == 0 && WellFormedBody(h.body);
    assert OldSide(h.body) == OldSide(none) + [l.text] && OldSide(none) == [];
    assert Texts([l]) == [l.text];
    assert Fits([l], h);
    UndoFits([l], h);
    assert Restored([l], h.body) == Restored([], none) + [Line(l.text, "\n")];
  }

  // ----- What no file accepts -----

  /** A line that cannot stand in a hunk: a malformed header, or a text that is neither
      context nor addition nor deletion. */
  predicate Strange(line: DiffLine) {
    line.BadAt? || (line.Text? && (line.text == "" || line.text[0] !in {' ', '+', '-'}))
  }

  ghost predicate Spoiled(h: Hunk) {
    h.header.None? || !WellFormedBody(h.body)
  }

  lemma {:induction false} SpoiledIsRefused(lines: seq<Line>, hunks: seq<Hunk>, k: nat)
    requires k < |hunks| && Spoiled(hunks[k])
    ensures ApplyAll(lines, hunks).None?
  {
    var n := |hunks| - 1;
    if k < n { SpoiledIsRefused(lines, hunks[..n], k); }
  }

  lemma SpoiledStays(hunks: seq<Hunk>, line: DiffLine, k: nat)
    requires k < |hunks| && Spoiled(hunks[k])
    ensures k < |SplitStep(hunks, line)| && Spoiled(SplitStep(hunks, line)[k])
  {
    if line.Text? && !FileHeader(line.text) && k == |hunks| - 1 {
      var body := hunks[k].body;
      assert forall l :: l in body ==> l in body + [line.text];
    }
  }

  lemma {:induction false} SplitSpoiled(diff: seq<DiffLine>, i: nat) returns (k: nat)
    requires i < |diff| && Strange(diff[i]) && (diff[i].Text? ==> exists j :: 0 <= j < i && !diff[j].Text?)
    ensures k < |Split(diff)| && Spoiled(Split(diff)[k])
  {
    var n := |diff| - 1;
    if i < n {
      k := SplitSpoiled(diff[..n], i);
      SpoiledStays(Split(diff[..n]), diff[n], k);
    } else {
      HeaderOpens(diff);
      k := |Split(diff)| - 1;
      if diff[n].Text? {
        var j :| 0 <= j < n && !diff[j].Text?;
        HeaderOpens(diff[..n]);
        assert !diff[..n][j].Text?;
        var last := Split(diff[..n])[k];
        assert diff[n].text in last.body + [diff[n].text];
      }
    }
  }

  /** After the first hunk header there is a hunk. */
  lemma {:induction false} HeaderOpens(diff: seq<DiffLine>)
    ensures Split(diff) == [] <==> forall j :: 0 <= j < |diff| ==> diff[j].Text?
  {
    if diff != [] {
      HeaderOpens(diff[..|diff| - 1]);
    }
  }

  /** A diff with a malformed hunk header, or with a strange line after a header, is refused
      by every file; one without any hunk header leaves every file as it is. */
  lemma StrangeLinesAreRefused(lines: seq<Line>, diff: seq<DiffLine>)
    ensures (exists i :: 0 <= i < |diff| && Strange(diff[i])
                         && (diff[i].Text? ==> exists j :: 0 <= j < i && !diff[j].Text?)) ==>
              ApplyAll(lines, Split(diff)).None?
    ensures (forall i :: 0 <= i < |diff| ==> diff[i].Text?) ==> ApplyAll(lines, Split(diff)) == Some(lines)
  {
    hide Split, Strange;
    HeaderOpens(diff);
    if i :| 0 <= i < |diff| && Strange(diff[i]) && (diff[i].Text? ==> exists j :: 0 <= j < i && !diff[j].Text?) {
      var k := SplitSpoiled(diff, i);
      SpoiledIsRefused(lines, Split(diff), k);
    }
  }
}
