/** `relocate_single_file_hunks`: moving hunk headers to the one place their old side
    matches, and what applying the relocated diff then does. */
module Relocation {
  import opened Plans
  import opened Hunks

  // ----- The search for a unique match -----

  ghost predicate MatchAt(source: seq<string>, expected: seq<string>, s: nat) {
    s + |expected| <= |source| && source[s..s + |expected|] == expected
  }

  /** `s` is the only match at or after `from`. */
  ghost predicate OnlyMatch(source: seq<string>, expected: seq<string>, from: nat, s: nat) {
    && from <= s && MatchAt(source, expected, s)
    && forall t: nat {:trigger MatchAt(source, expected, t)} :: from <= t && MatchAt(source, expected, t) ==> t == s
  }

  ghost function FindOnly(source: seq<string>, expected: seq<string>, from: nat): (r: Option<nat>)
    ensures r.Some? ==> from <= r.value && MatchAt(source, expected, r.value)
  {
    if s: nat :| OnlyMatch(source, expected, from, s) then Some(s) else None
  }

  /** The candidate list of the source: all matches at or after `from`; the search
      succeeds when there is exactly one. */
  method Search(source: seq<string>, expected: seq<string>, from: nat) returns (r: Option<nat>)
    ensures r == FindOnly(source, expected, from)
  {
    var candidates: seq<nat> := [];
    if from + |expected| <= |source| {
      for s := from to |source| - |expected| + 1
        invariant Candidates(source, expected, from, s, candidates)
      {
        if source[s..s + |expected|] == expected {
          NextCandidate(source, expected, from, s, candidates);
          candidates := candidates + [s];
        }
      }
    }
    if |candidates| == 1 {
      assert OnlyMatch(source, expected, from, candidates[0]);
      return Some(candidates[0]);
    }
    assert |candidates| >= 2 ==> MatchAt(source, expected, candidates[0]) && MatchAt(source, expected, candidates[1]);
    r := None;
  }

  /** The matches between `from` and `to`, each once. */
  ghost predicate Candidates(source: seq<string>, expected: seq<string>, from: nat, to: nat, found: seq<nat>) {
    && (forall i :: 0 <= i < |found| ==> from <= found[i] < to && MatchAt(source, expected, found[i]))
    && (forall i, j :: 0 <= i < j < |found| ==> found[i] < found[j])
    && (forall t: nat {:trigger MatchAt(source, expected, t)} :: from <= t < to && MatchAt(source, expected, t) ==>
          t in found)
  }

  lemma NextCandidate(source: seq<string>, expected: seq<string>, from: nat, s: nat, found: seq<nat>)
    requires Candidates(source, expected, from, s, found) && from <= s && MatchAt(source, expected, s)
    ensures Candidates(source, expected, from, s + 1, found + [s])
  {
    forall t: nat | from <= t < s + 1 && MatchAt(source, expected, t)
      ensures t in found + [s]
    {
      if t == s { assert (found + [s])[|found|] == s; }
    }
  }

  // ----- Relocation, on diff lines -----

  /** A hunk body ends before the next `@@ ` or `--- ` line. */
  predicate EndsBody(line: DiffLine) {
    line.At? || line == BadAt(true) || (line.Text? && MinusHeader(line.text))
  }

  /** How many lines the body at the front has. */
  function BodyLength(lines: seq<DiffLine>): (n: nat)
    ensures n <= |lines|
  {
    if lines == [] || EndsBody(lines[0]) then 0 else 1 + BodyLength(lines[1..])
  }

  /** The text of a body line; an `@@` line without a space counts as neither side. */
  function BodyText(line: DiffLine): string {
    if line.Text? then line.text else "@@"
  }

  function BodyTexts(lines: seq<DiffLine>): (r: seq<string>)
    ensures |r| == |lines|
  {
    seq(|lines|, i requires 0 <= i < |lines| => BodyText(lines[i]))
  }

  /** The size change a header announces. */
  function Growth(h: Header): int { h.newCount - h.oldCount }

  /** The relocated header of a hunk found at `s`, after a size change of `delta`. */
  function Reheader(h: Header, s: nat, delta: int): Header
    requires s + delta >= 0
  {
    var start := if h.oldCount > 0 then s + 1 else s;
    Header(start, h.oldCount, start + delta, h.newCount)
  }

  /** Where the hunk whose body starts `rest` belongs: its old lines must be as many as
      the header says, and must occur exactly once at or after `from`. */
  ghost function Place(h: Header, rest: seq<DiffLine>, from: nat, source: seq<string>): (r: Option<nat>)
    ensures r.Some? ==> r.value >= from
  {
    var body := BodyTexts(rest[..BodyLength(rest)]);
    if OldCount(body) != h.oldCount then None else FindOnly(source, OldSide(body), from)
  }

  method PlaceHunk(h: Header, rest: seq<DiffLine>, from: nat, source: seq<string>) returns (r: Option<nat>)
    ensures r == Place(h, rest, from, source)
  {
    var expected := OldTexts(BodyTexts(rest[..BodyLength(rest)]));
    if |expected| != h.oldCount { return None; }
    r := Search(source, expected, from);
  }

  /** The relocation of the remaining lines: `delta` is the size change so far and `from`
      the end of the last window, both in lines of the old file. */
  ghost function Relocate(lines: seq<DiffLine>, delta: int, from: nat, source: seq<string>): Option<seq<DiffLine>>
    requires from + delta >= 0
    decreases |lines|
  {
    if lines == [] then Some([])
    else if !lines[0].At? then Prepend([lines[0]], Relocate(lines[1..], delta, from, source))
    else
      var h, rest := lines[0].header, lines[1..];
      match Place(h, rest, from, source)
      case None => None
      case Some(s) =>
        var n := BodyLength(rest);
        Prepend([At(Reheader(h, s, delta))] + rest[..n],
                Relocate(rest[n..], delta + Growth(h), s + h.oldCount, source))
  }

  ghost function Prepend(output: seq<DiffLine>, rest: Option<seq<DiffLine>>): Option<seq<DiffLine>> {
    match rest
    case None => None
    case Some(lines) => Some(output + lines)
  }

  method OldTexts(body: seq<string>) returns (r: seq<string>)
    ensures r == OldSide(body)
  {
    r := [];
    for i := 0 to |body|
      invariant r == OldSide(body[..i])
    {
      assert body[..i + 1][..i] == body[..i];
      if IsContext(body[i]) || IsDeletion(body[i]) {
        r := r + [body[i][1..]];
      }
    }
    assert body[..|body|] == body;
  }

  /** The loop of the source over diff lines, hunk by hunk. */
  method RelocateHunks(lines: seq<DiffLine>, source: seq<string>) returns (r: Option<seq<DiffLine>>)
    ensures r == Relocate(lines, 0, 0, source)
  {
    hide Place, FindOnly, BodyTexts, BodyText, OldSide, OldCount, Prepend;
    var output: seq<DiffLine> := [];
    var index: nat, delta: int, previousEnd: nat := 0, 0, 0;
    NothingYet(lines, 0, 0, source);
    while index < |lines|
      invariant index <= |lines| && previousEnd + delta >= 0
      invariant Relocate(lines, 0, 0, source) == Prepend(output, Relocate(lines[index..], delta, previousEnd, source))
    {
      var line, rest := lines[index], lines[index + 1..];
      assert lines[index..][0] == line && lines[index..][1..] == rest;
      var copied: seq<DiffLine> := [line];
      if line.At? {
        var n, h := BodyLength(rest), line.header;
        var found := PlaceHunk(h, rest, previousEnd, source);
        if found.None? {
          NothingFollows(output);
          return None;
        }
        copied := [At(Reheader(h, found.value, delta))] + rest[..n];
        index := index + n;
        delta, previousEnd := delta + Growth(h), found.value + h.oldCount;
        assert rest[n..] == lines[index + 1..];
      }
      index := index + 1;
      Reassociate(output, copied, Relocate(lines[index..], delta, previousEnd, source));
      output := output + copied;
    }
    NothingLeft(lines, delta, previousEnd, source, output);
    r := Some(output);
  }

  lemma NothingYet(lines: seq<DiffLine>, delta: int, from: nat, source: seq<string>)
    requires from + delta >= 0
    ensures Relocate(lines, delta, from, source) == Prepend([], Relocate(lines[0..], delta, from, source))
  {
    assert lines[0..] == lines;
    var r := Relocate(lines, delta, from, source);
    assert r.Some? ==> [] + r.value == r.value;
  }

  lemma NothingFollows(output: seq<DiffLine>)
    ensures Prepend(output, None) == None
  {
  }

  lemma NothingLeft(lines: seq<DiffLine>, delta: int, from: nat, source: seq<string>, output: seq<DiffLine>)
    requires from + delta >= 0
    ensures Prepend(output, Relocate(lines[|lines|..], delta, from, source)) == Some(output)
  {
    assert output + [] == output;
  }

  lemma Reassociate(output: seq<DiffLine>, more: seq<DiffLine>, rest: Option<seq<DiffLine>>)
    ensures Prepend(output, Prepend(more, rest)) == Prepend(output + more, rest)
  {
    if rest.Some? {
      assert output + (more + rest.value) == (output + more) + rest.value;
    }
  }

  // ----- What is not relocated -----

  /** Whether a line starts with `@@ ` or `--- `. */
  ghost predicate OpensAnother(line: DiffLine) {
    match line
    case At(_) => true
    case BadAt(spaced) => spaced
    case Text(text) => "--- " <= text
  }

  /** A body reaches to the next line that opens another part of the diff, and no further. */
  lemma {:induction false} BodyReaches(lines: seq<DiffLine>)
    ensures var n := BodyLength(lines);
            && (n < |lines| ==> OpensAnother(lines[n]))
            && forall i :: 0 <= i < n ==> !OpensAnother(lines[i])
  {
    if lines != [] && !EndsBody(lines[0]) {
      BodyReaches(lines[1..]);
    }
  }

  /** A hunk with fewer or more old lines than its header says is never relocated, nor is
      one whose old lines occur nowhere or more than once after the last window. */
  lemma MiscountedIsRefused(h: Header, body: seq<DiffLine>, rest: seq<DiffLine>, delta: int, from: nat,
                            source: seq<string>)
    requires from + delta >= 0 && BodyLength(body + rest) == |body|
    ensures var expected := OldSide(BodyTexts(body));
            |expected| != h.oldCount || !(exists s: nat :: OnlyMatch(source, expected, from, s)) ==>
              Relocate([At(h)] + (body + rest), delta, from, source).None?
  {
    var lines := [At(h)] + (body + rest);
    assert lines[0] == At(h) && lines[1..] == body + rest && (body + rest)[..|body|] == body;
    assert FindOnly(source, OldSide(BodyTexts(body)), from).Some? ==>
             exists s: nat :: OnlyMatch(source, OldSide(BodyTexts(body)), from, s);
  }
}
