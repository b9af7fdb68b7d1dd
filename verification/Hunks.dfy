/** Unified-diff hunks: splitting a diff into hunks and applying them to a list of
    lines, one after another, each in the coordinates of the list so far. */
module Hunks {
  import opened Plans

  /** A file line: its text and its terminator. */
  datatype Line = Line(text: string, eol: string)

  datatype Header = Header(oldStart: nat, oldCount: nat, newStart: nat, newCount: nat)

  /** A line of a diff: a well-formed hunk header, another line that starts with `@@`
      (followed by a space or not), or anything else. */
  datatype DiffLine = At(header: Header) | BadAt(spaced: bool) | Text(text: string)

  datatype Hunk = Hunk(header: Option<Header>, body: seq<string>)

  predicate Starts(text: string, c: char) { |text| > 0 && text[0] == c }
  predicate IsContext(text: string) { Starts(text, ' ') }
  predicate IsAddition(text: string) { Starts(text, '+') }
  predicate IsDeletion(text: string) { Starts(text, '-') }

  predicate MinusHeader(text: string) {
    |text| >= 4 && text[0] == '-' && text[1] == '-' && text[2] == '-' && text[3] == ' '
  }

  predicate PlusHeader(text: string) {
    |text| >= 4 && text[0] == '+' && text[1] == '+' && text[2] == '+' && text[3] == ' '
  }

  /** Lines that read as a file header. */
  predicate FileHeader(text: string): (r: bool)
    ensures r <==> "--- " <= text || "+++ " <= text
  {
    MinusHeader(text) || PlusHeader(text)
  }

  // ----- Splitting -----

  /** One more diff line, given the hunks so far. */
  function SplitStep(hunks: seq<Hunk>, line: DiffLine): seq<Hunk> {
    match line
    case At(header) => hunks + [Hunk(Some(header), [])]
    case BadAt(_) => hunks + [Hunk(None, [])]
    case Text(text) =>
      if FileHeader(text) || hunks == [] then hunks
      else
        var last := hunks[|hunks| - 1];
        hunks[|hunks| - 1 := last.(body := last.body + [text])]
  }

  function Split(lines: seq<DiffLine>): seq<Hunk> {
    if lines == [] then [] else SplitStep(Split(lines[..|lines| - 1]), lines[|lines| - 1])
  }

  /** The splitting loop of `_apply_diff_to_file`, with its open hunk. */
  method SplitHunks(lines: seq<DiffLine>) returns (hunks: seq<Hunk>)
    ensures hunks == Split(lines)
  {
    hunks := [];
    var current: Option<Hunk> := None;
    for i := 0 to |lines|
      invariant Split(lines[..i]) == if current.None? then [] else hunks + [current.value]
      invariant current.None? ==> hunks == []
    {
      assert lines[..i + 1][..i] == lines[..i];
      match lines[i]
      case At(header) =>
        if current.Some? { hunks := hunks + [current.value]; }
        current := Some(Hunk(Some(header), []));
      case BadAt(_) =>
        if current.Some? { hunks := hunks + [current.value]; }
        current := Some(Hunk(None, []));
      case Text(text) =>
        if !FileHeader(text) && current.Some? {
          current := Some(current.value.(body := current.value.body + [text]));
        }
    }
    assert lines[..|lines|] == lines;
    if current.Some? { hunks := hunks + [current.value]; }
  }

  // ----- One hunk -----

  function OldCount(body: seq<string>): nat {
    if body == [] then 0
    else OldCount(body[..|body| - 1]) + if IsContext(body[|body| - 1]) || IsDeletion(body[|body| - 1]) then 1 else 0
  }

  function NewCount(body: seq<string>): nat {
    if body == [] then 0
    else NewCount(body[..|body| - 1]) + if IsContext(body[|body| - 1]) || IsAddition(body[|body| - 1]) then 1 else 0
  }

  /** The 0-based position a stated start means to the applier. */
  function Position(start: nat): nat {
    if start == 0 then 0 else start - 1
  }

  ghost predicate WellFormedBody(body: seq<string>) {
    forall l :: l in body ==> IsContext(l) || IsAddition(l) || IsDeletion(l)
  }

  ghost predicate CountsRight(h: Hunk) {
    h.header.Some? && h.header.value.oldCount == OldCount(h.body) && h.header.value.newCount == NewCount(h.body)
  }

  /** What the body says the old lines are. */
  ghost function OldSide(body: seq<string>): (r: seq<string>)
    ensures |r| == OldCount(body)
  {
    if body == [] then []
    else
      var last := body[|body| - 1];
      OldSide(body[..|body| - 1]) + if IsContext(last) || IsDeletion(last) then [last[1..]] else []
  }

  ghost function Texts(lines: seq<Line>): seq<string> {
    seq(|lines|, i requires 0 <= i < |lines| => lines[i].text)
  }

  /** What replaces the old lines: context lines stay as they are in the file. */
  ghost function NewSide(window: seq<Line>, body: seq<string>): (r: seq<Line>)
    requires |window| == OldCount(body)
    ensures |r| == NewCount(body)
  {
    if body == [] then []
    else
      var front, last, n := body[..|body| - 1], body[|body| - 1], |window|;
      if IsContext(last) then NewSide(window[..n - 1], front) + [window[n - 1]]
      else if IsAddition(last) then NewSide(window, front) + [Line(last[1..], "\n")]
      else if IsDeletion(last) then NewSide(window[..n - 1], front)
      else NewSide(window, front)
  }

  /** When a hunk applies to a list of lines. */
  ghost predicate Fits(lines: seq<Line>, h: Hunk) {
    && CountsRight(h) && WellFormedBody(h.body)
    && var at, n := Position(h.header.value.oldStart), OldCount(h.body);
       at + n <= |lines| && Texts(lines[at..at + n]) == OldSide(h.body)
  }

  /** The result of applying a fitting hunk: prefix, new side, suffix. */
  ghost function Replaced(lines: seq<Line>, h: Hunk): seq<Line>
    requires Fits(lines, h)
  {
    var at, n := Position(h.header.value.oldStart), OldCount(h.body);
    lines[..at] + NewSide(lines[at..at + n], h.body) + lines[at + n..]
  }

  /** `_apply_hunk`: succeeds exactly when the hunk fits, and then replaces exactly the
      old side at the stated position. */
  method ApplyHunk(lines: seq<Line>, h: Hunk) returns (r: Option<seq<Line>>)
    ensures r.Some? <==> Fits(lines, h)
    ensures r.Some? ==> r.value == Replaced(lines, h)
  {
    if h.header.None? { return None; }
    var header := h.header.value;
    if OldCount(h.body) != header.oldCount || NewCount(h.body) != header.newCount { return None; }
    var at := Position(header.oldStart);
    if at > |lines| || at + header.oldCount > |lines| { return None; }
    var result := lines[..at];
    var idx: nat := at;
    for i := 0 to |h.body|
      invariant Walked(lines, at, idx, h.body[..i], result)
    {
      PrefixStep(h.body, i);
      var ok: bool;
      ok, idx, result := WalkLine(lines, at, idx, h.body[..i], result, h.body[i]);
      if !ok {
        NoFit(lines, h, i);
        return None;
      }
    }
    assert h.body[..|h.body|] == h.body;
    WalkFits(lines, h, idx, result);
    r := Some(result + lines[idx..]);
  }

  lemma Associate<T>(a: seq<T>, b: seq<T>, c: seq<T>)
    ensures a + (b + c) == (a + b) + c
  {
  }

  lemma PrefixStep(body: seq<string>, i: nat)
    requires i < |body|
    ensures body[..i + 1] == body[..i] + [body[i]] && body[..i + 1][..i] == body[..i]
  {
  }

  /** The walk through a hunk body: the part matched so far and the part produced. */
  ghost predicate Walked(lines: seq<Line>, at: nat, idx: nat, body: seq<string>, result: seq<Line>) {
    && at <= idx <= |lines| && idx == at + OldCount(body) && WellFormedBody(body)
    && Texts(lines[at..idx]) == OldSide(body)
    && result == lines[..at] + NewSide(lines[at..idx], body)
  }

  lemma WalkFits(lines: seq<Line>, h: Hunk, idx: nat, result: seq<Line>)
    requires CountsRight(h) && Walked(lines, Position(h.header.value.oldStart), idx, h.body, result)
    ensures Fits(lines, h) && result + lines[idx..] == Replaced(lines, h)
  {
  }

  lemma WalkAddition(lines: seq<Line>, at: nat, idx: nat, body: seq<string>, result: seq<Line>, line: string)
    requires Walked(lines, at, idx, body, result) && IsAddition(line)
    ensures Walked(lines, at, idx, body + [line], result + [Line(line[1..], "\n")])
  {
    assert (body + [line])[..|body|] == body;
  }

  lemma WalkOldLine(lines: seq<Line>, at: nat, idx: nat, body: seq<string>, result: seq<Line>, line: string)
    requires Walked(lines, at, idx, body, result) && (IsContext(line) || IsDeletion(line))
    requires idx < |lines| && lines[idx].text == line[1..]
    ensures Walked(lines, at, idx + 1, body + [line], if IsContext(line) then result + [lines[idx]] else result)
  {
    OldSideAppend(body, line);
    NewSideAppend(lines[at..idx], body, lines[idx], line);
    WindowAppend(lines, at, idx);
    WellFormedAppend(body, line);
    var kept := if IsContext(line) then [lines[idx]] else [];
    assert result + kept == lines[..at] + (NewSide(lines[at..idx], body) + kept);
    assert result + [] == result;
  }

  lemma WindowAppend(lines: seq<Line>, at: nat, idx: nat)
    requires at <= idx < |lines|
    ensures lines[at..idx + 1] == lines[at..idx] + [lines[idx]]
    ensures Texts(lines[at..idx + 1]) == Texts(lines[at..idx]) + [lines[idx].text]
  {
  }

  lemma WellFormedAppend(body: seq<string>, line: string)
    requires WellFormedBody(body) && (IsContext(line) || IsAddition(line) || IsDeletion(line))
    ensures WellFormedBody(body + [line])
  {
  }

  lemma OldSideAppend(body: seq<string>, line: string)
    requires IsContext(line) || IsDeletion(line)
    ensures OldCount(body + [line]) == OldCount(body) + 1
    ensures OldSide(body + [line]) == OldSide(body) + [line[1..]]
  {
    assert (body + [line])[..|body|] == body;
  }

  lemma NewSideAppend(window: seq<Line>, body: seq<string>, next: Line, line: string)
    requires |window| == OldCount(body) && (IsContext(line) || IsDeletion(line))
    ensures OldCount(body + [line]) == |window| + 1
    ensures NewSide(window + [next], body + [line]) == NewSide(window, body) + if IsContext(line) then [next] else []
  {
    assert (body + [line])[..|body|] == body;
    assert (window + [next])[..|window|] == window;
  }

  /** The lines at which the applier raises. */
  predicate Blocked(lines: seq<Line>, idx: nat, line: string) {
    !IsAddition(line) && (idx >= |lines| || !(IsContext(line) || IsDeletion(line)) || lines[idx].text != line[1..])
  }

  method WalkLine(lines: seq<Line>, ghost at: nat, idx0: nat, ghost body: seq<string>, result0: seq<Line>, line: string)
    returns (ok: bool, idx: nat, result: seq<Line>)
    requires Walked(lines, at, idx0, body, result0)
    ensures ok ==> Walked(lines, at, idx, body + [line], result)
    ensures !ok ==> Blocked(lines, idx0, line)
  {
    ok, idx, result := !Blocked(lines, idx0, line), idx0, result0;
    if IsAddition(line) {
      WalkAddition(lines, at, idx, body, result, line);
      result := result + [Line(line[1..], "\n")];
    } else if ok {
      WalkOldLine(lines, at, idx, body, result, line);
      if IsContext(line) {
        result := result + [lines[idx]];
      }
      idx := idx + 1;
    }
  }

  /** A body line the applier stops at keeps the whole hunk from fitting. */
  lemma NoFit(lines: seq<Line>, h: Hunk, i: nat)
    requires CountsRight(h) && i < |h.body|
    requires Blocked(lines, Position(h.header.value.oldStart) + OldCount(h.body[..i]), h.body[i])
    ensures !Fits(lines, h)
  {
    var at := Position(h.header.value.oldStart);
    var idx := at + OldCount(h.body[..i]);
    assert h.body[i] in h.body;
    if IsContext(h.body[i]) || IsDeletion(h.body[i]) {
      OldSideAt(h.body, i);
      if at + OldCount(h.body) <= |lines| {
        assert Texts(lines[at..at + OldCount(h.body)])[idx - at] == lines[idx].text;
      }
    }
  }

  lemma {:induction false} OldSideAt(body: seq<string>, i: nat)
    requires i < |body| && (IsContext(body[i]) || IsDeletion(body[i]))
    ensures OldCount(body[..i]) < OldCount(body)
    ensures OldSide(body)[OldCount(body[..i])] == body[i][1..]
  {
    if i < |body| - 1 {
      var front := body[..|body| - 1];
      assert front[..i] == body[..i];
      OldSideAt(front, i);
    }
  }
}
