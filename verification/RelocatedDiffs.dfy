/** What applying a relocated diff does to the file it was relocated against. */
module RelocatedDiffs {
  import opened Plans
  import opened Hunks
  import opened HunkLists
  import opened DiffPrinting
  import opened Relocation

  // ----- Relocation of a hunk list -----

  /** Where the hunks belong, each at or after the end of the one before it. */
  ghost function Places(hunks: seq<Hunk>, from: nat, source: seq<string>): (r: Option<seq<nat>>)
    requires forall h :: h in hunks ==> h.header.Some?
    ensures r.Some? ==> |r.value| == |hunks|
  {
    if hunks == [] then Some([])
    else
      var h, n := hunks[0], OldCount(hunks[0].body);
      if n != h.header.value.oldCount then None
      else
        match FindOnly(source, OldSide(h.body), from)
        case None => None
        case Some(s) =>
          match Places(hunks[1..], s + n, source)
          case None => None
          case Some(rest) => Some([s] + rest)
  }

  /** The hunks with their relocated headers; `delta` is the size change before them. */
  ghost function Moved(hunks: seq<Hunk>, starts: seq<nat>, delta: int): (r: seq<Hunk>)
    requires |starts| == |hunks| && forall h :: h in hunks ==> h.header.Some?
    requires Rising(hunks, starts, delta)
    ensures |r| == |hunks| && forall i :: 0 <= i < |r| ==> r[i].body == hunks[i].body && r[i].header.Some?
  {
    if hunks == [] then []
    else
      var h := hunks[0].header.value;
      [MovedHunk(hunks[0], starts[0], delta)] + Moved(hunks[1..], starts[1..], delta + Growth(h))
  }

  /** No window starts before the beginning of the patched file. */
  ghost predicate Rising(hunks: seq<Hunk>, starts: seq<nat>, delta: int)
    requires |starts| == |hunks| && forall h :: h in hunks ==> h.header.Some?
  {
    hunks == []
    || (starts[0] + delta >= 0
        && Rising(hunks[1..], starts[1..], delta + Growth(hunks[0].header.value)))
  }

  /** Hunks with a header, none of whose lines reads as a file header. */
  ghost predicate Printable(hunks: seq<Hunk>) {
    forall h :: h in hunks ==> h.header.Some? && Clean(h.body)
  }

  lemma {:induction false} PlacesRise(hunks: seq<Hunk>, from: nat, source: seq<string>, delta: int)
    requires forall h :: h in hunks ==> h.header.Some?
    requires from + delta >= 0 && Places(hunks, from, source).Some?
    ensures Rising(hunks, Places(hunks, from, source).value, delta)
  {
    if hunks != [] {
      var h, s := hunks[0].header.value, Places(hunks, from, source).value[0];
      PlacesRise(hunks[1..], s + h.oldCount, source, delta + Growth(h));
    }
  }

  lemma {:induction false} PrintFirst(h: Hunk, rest: seq<Hunk>)
    ensures PrintHunks([h] + rest) == PrintHunk(h) + PrintHunks(rest)
  {
    hide PrintHunk;
    if rest == [] {
      assert [h] + rest == [h] && [h][..0] == [];
      assert PrintHunks([]) + PrintHunk(h) == PrintHunk(h) + PrintHunks([]);
    } else {
      var front, last := rest[..|rest| - 1], rest[|rest| - 1];
      assert ([h] + rest)[..|rest|] == [h] + front;
      PrintFirst(h, front);
      Associate(PrintHunk(h), PrintHunks(front), PrintHunk(last));
    }
  }

  lemma {:induction false} BodyLinesAt(body: seq<string>)
    ensures |BodyLines(body)| == |body|
    ensures forall i :: 0 <= i < |body| ==> BodyLines(body)[i] == Text(body[i])
  {
    if body != [] {
      BodyLinesAt(body[..|body| - 1]);
    }
  }

  lemma {:induction false} BodyEnds(lines: seq<DiffLine>, n: nat)
    requires n <= |lines| && forall i :: 0 <= i < n ==> !EndsBody(lines[i])
    requires n < |lines| ==> EndsBody(lines[n])
    ensures BodyLength(lines) == n
  {
    if n > 0 {
      BodyEnds(lines[1..], n - 1);
    }
  }

  /** The body the relocator collects behind a printed header is the hunk's own. */
  lemma PrintedBody(h: Hunk, rest: seq<DiffLine>)
    requires Clean(h.body) && (rest == [] || rest[0].At?)
    ensures var lines := BodyLines(h.body) + rest;
            && BodyLength(lines) == |h.body| && lines[..|h.body|] == BodyLines(h.body) && lines[|h.body|..] == rest
            && BodyTexts(lines[..|h.body|]) == h.body
  {
    BodyLinesAt(h.body);
    var lines := BodyLines(h.body) + rest;
    forall i | 0 <= i < |h.body|
      ensures !EndsBody(lines[i])
    {
      assert h.body[i] in h.body;
    }
    BodyEnds(lines, |h.body|);
  }

  lemma FirstLine(hunks: seq<Hunk>)
    requires forall h :: h in hunks ==> h.header.Some?
    ensures var lines := PrintHunks(hunks); lines == [] || lines[0].At?
  {
    if hunks != [] {
      assert hunks == [hunks[0]] + hunks[1..];
      PrintFirst(hunks[0], hunks[1..]);
    }
  }

  /** Where one hunk belongs. */
  ghost function PlaceOf(h: Hunk, from: nat, source: seq<string>): (r: Option<nat>)
    requires h.header.Some?
    ensures r.Some? ==> from <= r.value
  {
    if OldCount(h.body) != h.header.value.oldCount then None else FindOnly(source, OldSide(h.body), from)
  }

  function MovedHunk(h: Hunk, s: nat, delta: int): Hunk
    requires h.header.Some? && s + delta >= 0
  {
    h.(header := Some(Reheader(h.header.value, s, delta)))
  }

  /** One printed hunk in front of the remaining lines. */
  lemma RelocateFirst(h: Hunk, rest: seq<DiffLine>, delta: int, from: nat, source: seq<string>)
    requires h.header.Some? && Clean(h.body) && (rest == [] || rest[0].At?) && from + delta >= 0
    ensures Place(h.header.value, BodyLines(h.body) + rest, from, source) == PlaceOf(h, from, source)
    ensures Relocate(PrintHunk(h) + rest, delta, from, source)
            == match PlaceOf(h, from, source)
               case None => None
               case Some(s) =>
                 Prepend(PrintHunk(MovedHunk(h, s, delta)),
                         Relocate(rest, delta + Growth(h.header.value), s + h.header.value.oldCount, source))
  {
    hide Relocate, BodyLines, BodyLength;
    var lines := BodyLines(h.body) + rest;
    PrintedBody(h, rest);
    RelocateHead(h.header.value, lines, PrintHunk(h) + rest, delta, from, source);
  }

  lemma RelocateHead(header: Header, rest: seq<DiffLine>, lines: seq<DiffLine>, delta: int, from: nat,
                     source: seq<string>)
    requires lines == [At(header)] + rest && from + delta >= 0
    ensures Relocate(lines, delta, from, source)
            == match Place(header, rest, from, source)
               case None => None
               case Some(s) =>
                 Prepend([At(Reheader(header, s, delta))] + rest[..BodyLength(rest)],
                         Relocate(rest[BodyLength(rest)..], delta + Growth(header), s + header.oldCount, source))
  {
    assert lines[1..] == rest;
  }

  ghost function Cons(s: nat, rest: Option<seq<nat>>): Option<seq<nat>> {
    if rest.None? then None else Some([s] + rest.value)
  }

  lemma PlacesFirst(h: Hunk, rest: seq<Hunk>, from: nat, source: seq<string>)
    requires h.header.Some? && forall h' :: h' in rest ==> h'.header.Some?
    ensures Places([h] + rest, from, source)
            == match PlaceOf(h, from, source)
               case None => None
               case Some(s) => Cons(s, Places(rest, s + h.header.value.oldCount, source))
  {
    assert ([h] + rest)[1..] == rest;
  }

  /** The print of the hunks under their relocated headers, if all can be placed. */
  ghost predicate RelocatesTo(r: Option<seq<DiffLine>>, hunks: seq<Hunk>, places: Option<seq<nat>>, delta: int)
    requires forall h :: h in hunks ==> h.header.Some?
    requires places.Some? ==> |places.value| == |hunks|
  {
    if places.None? then r.None?
    else Rising(hunks, places.value, delta) && r == Some(PrintHunks(Moved(hunks, places.value, delta)))
  }

  lemma MovedCons(h: Hunk, s: nat, delta: int, rest: seq<Hunk>, starts: seq<nat>)
    requires h.header.Some? && (forall h' :: h' in rest ==> h'.header.Some?) && s + delta >= 0 && |starts| == |rest|
    requires Rising(rest, starts, delta + Growth(h.header.value))
    ensures Rising([h] + rest, [s] + starts, delta)
    ensures Moved([h] + rest, [s] + starts, delta)
            == [MovedHunk(h, s, delta)] + Moved(rest, starts, delta + Growth(h.header.value))
  {
    hide MovedHunk;
    assert ([h] + rest)[1..] == rest && ([s] + starts)[1..] == starts;
  }

  lemma RelocatesFirst(h: Hunk, s: nat, delta: int, r: Option<seq<DiffLine>>, rest: seq<Hunk>, places: Option<seq<nat>>)
    requires h.header.Some? && (forall h' :: h' in rest ==> h'.header.Some?) && s + delta >= 0
    requires places.Some? ==> |places.value| == |rest|
    requires RelocatesTo(r, rest, places, delta + Growth(h.header.value))
    ensures RelocatesTo(Prepend(PrintHunk(MovedHunk(h, s, delta)), r), [h] + rest, Cons(s, places), delta)
  {
    hide Moved, Rising, PrintHunk, PrintHunks, MovedHunk;
    if places.Some? {
      MovedCons(h, s, delta, rest, places.value);
      PrintFirst(MovedHunk(h, s, delta), Moved(rest, places.value, delta + Growth(h.header.value)));
    }
  }

  /** Relocating the print of the hunks moves their headers and changes nothing else. */
  ghost predicate Relocates(hunks: seq<Hunk>, delta: int, from: nat, source: seq<string>)
    requires from + delta >= 0 && forall h :: h in hunks ==> h.header.Some?
  {
    RelocatesTo(Relocate(PrintHunks(hunks), delta, from, source), hunks, Places(hunks, from, source), delta)
  }

  lemma RelocateNext(h: Hunk, rest: seq<Hunk>, s: nat, delta: int, from: nat, source: seq<string>)
    requires h.header.Some? && Clean(h.body) && forall h' :: h' in rest ==> h'.header.Some?
    requires from + delta >= 0 && PlaceOf(h, from, source) == Some(s)
    ensures Relocate(PrintHunks([h] + rest), delta, from, source)
            == Prepend(PrintHunk(MovedHunk(h, s, delta)),
                       Relocate(PrintHunks(rest), delta + Growth(h.header.value), s + h.header.value.oldCount, source))
  {
    hide Relocate, PlaceOf;
    FirstLine(rest);
    PrintFirst(h, rest);
    RelocateFirst(h, PrintHunks(rest), delta, from, source);
  }

  lemma RelocateStep(h: Hunk, rest: seq<Hunk>, s: nat, delta: int, from: nat, source: seq<string>)
    requires h.header.Some? && Clean(h.body) && forall h' :: h' in rest ==> h'.header.Some?
    requires from + delta >= 0 && PlaceOf(h, from, source) == Some(s)
    requires Relocates(rest, delta + Growth(h.header.value), s + h.header.value.oldCount, source)
    ensures Relocates([h] + rest, delta, from, source)
  {
    hide Relocate, Places, PrintHunks, PrintHunk, RelocatesTo;
    PlacesFirst(h, rest, from, source);
    RelocateNext(h, rest, s, delta, from, source);
    var end := s + h.header.value.oldCount;
    RelocatesFirst(h, s, delta, Relocate(PrintHunks(rest), delta + Growth(h.header.value), end, source), rest,
                   Places(rest, end, source));
  }

  lemma RelocateStuck(h: Hunk, rest: seq<Hunk>, delta: int, from: nat, source: seq<string>)
    requires h.header.Some? && Clean(h.body) && forall h' :: h' in rest ==> h'.header.Some?
    requires from + delta >= 0 && PlaceOf(h, from, source).None?
    ensures Relocates([h] + rest, delta, from, source)
  {
    FirstLine(rest);
    PrintFirst(h, rest);
    PlacesFirst(h, rest, from, source);
    RelocateFirst(h, PrintHunks(rest), delta, from, source);
  }

  lemma {:induction false} RelocateHunkLines(hunks: seq<Hunk>, delta: int, from: nat, source: seq<string>)
    requires Printable(hunks) && from + delta >= 0
    ensures Relocates(hunks, delta, from, source)
    decreases |hunks|
  {
    if hunks != [] {
      var h, rest := hunks[0], hunks[1..];
      assert hunks == [h] + rest;
      var found := PlaceOf(h, from, source);
      if found.Some? {
        RelocateHunkLines(rest, delta + Growth(h.header.value), found.value + h.header.value.oldCount, source);
        RelocateStep(h, rest, found.value, delta, from, source);
      } else {
        RelocateStuck(h, rest, delta, from, source);
      }
    }
  }

  /** A printed diff is relocated hunk by hunk: the result is the print of the same
      bodies under new headers. */
  lemma RelocatePrinted(file: string, hunks: seq<Hunk>, source: seq<string>)
    requires Printable(hunks)
    ensures var places := Places(hunks, 0, source);
            && (places.Some? ==> Rising(hunks, places.value, 0))
            && Relocate(Print(file, hunks), 0, 0, source)
               == if places.None? then None else Some(Print(file, Moved(hunks, places.value, 0)))
  {
    hide PrintHunks, Places, Moved, Rising, Place;
    var a, b := Text("--- a/" + file), Text("+++ b/" + file);
    RelocateHunkLines(hunks, 0, 0, source);
    assert Print(file, hunks)[1..] == [b] + PrintHunks(hunks);
    assert Print(file, hunks)[1..][1..] == PrintHunks(hunks);
    var places := Places(hunks, 0, source);
    if places.Some? {
      var moved := PrintHunks(Moved(hunks, places.value, 0));
      assert [a] + ([b] + moved) == [a, b] + moved;
    }
  }

  // ----- Simultaneous replacement -----

  /** Disjoint windows in order, from `from` on, each holding its hunk's old side. */
  ghost predicate Windows(lines: seq<Line>, from: nat, hunks: seq<Hunk>, starts: seq<nat>)
    decreases |hunks|
  {
    && |starts| == |hunks| && from <= |lines|
    && (hunks == []
        || (var s, n := starts[0], OldCount(hunks[0].body);
            && from <= s && s + n <= |lines| && Texts(lines[s..s + n]) == OldSide(hunks[0].body)
            && CountsRight(hunks[0]) && WellFormedBody(hunks[0].body)
            && Windows(lines, s + n, hunks[1..], starts[1..])))
  }

  /** The lines from `from` on with every window replaced at once. */
  ghost function Splice(lines: seq<Line>, from: nat, hunks: seq<Hunk>, starts: seq<nat>): seq<Line>
    requires Windows(lines, from, hunks, starts)
    decreases |hunks|
  {
    if hunks == [] then lines[from..]
    else
      var s, n := starts[0], OldCount(hunks[0].body);
      lines[from..s] + NewSide(lines[s..s + n], hunks[0].body) + Splice(lines, s + n, hunks[1..], starts[1..])
  }

  /** What the hunk list must be like for relocation to speak about windows. */
  ghost predicate Sound(hunks: seq<Hunk>) {
    forall h :: h in hunks ==> CountsRight(h) && WellFormedBody(h.body)
  }

  lemma TextsOfSlice(lines: seq<Line>, a: nat, b: nat)
    requires a <= b <= |lines|
    ensures Texts(lines)[a..b] == Texts(lines[a..b])
  {
  }

  lemma {:induction false} PlacesAreWindows(lines: seq<Line>, hunks: seq<Hunk>, from: nat)
    requires Sound(hunks) && from <= |lines| && Places(hunks, from, Texts(lines)).Some?
    ensures Windows(lines, from, hunks, Places(hunks, from, Texts(lines)).value)
  {
    hide OldSide, FindOnly;
    if hunks != [] {
      var s, n := Places(hunks, from, Texts(lines)).value[0], OldCount(hunks[0].body);
      assert MatchAt(Texts(lines), OldSide(hunks[0].body), s);
      TextsOfSlice(lines, s, s + n);
      PlacesAreWindows(lines, hunks[1..], s + n);
    }
  }

  ghost function ShiftedHunk(h: Hunk, s: nat, delta: int): Hunk
    requires h.header.Some? && s + delta >= 0
  {
    var start := s + delta + 1;
    h.(header := Some(Header(start, h.header.value.oldCount, start, h.header.value.newCount)))
  }

  /** The hunk headers a patch should carry: the old start counted in the file so far. */
  ghost function Shifted(hunks: seq<Hunk>, starts: seq<nat>, delta: int): (r: seq<Hunk>)
    requires |starts| == |hunks| && forall h :: h in hunks ==> h.header.Some?
    requires Rising(hunks, starts, delta)
    ensures |r| == |hunks|
  {
    if hunks == [] then []
    else
      var h := hunks[0].header.value;
      [ShiftedHunk(hunks[0], starts[0], delta)] + Shifted(hunks[1..], starts[1..], delta + Growth(h))
  }

  lemma HunkAtWindow(lines: seq<Line>, done: seq<Line>, from: nat, s: nat, h: Hunk, delta: int)
    requires |done| == from + delta && from <= s && s + OldCount(h.body) <= |lines|
    requires CountsRight(h) && WellFormedBody(h.body) && Position(h.header.value.oldStart) == s + delta
    requires Texts(lines[s..s + OldCount(h.body)]) == OldSide(h.body)
    ensures var m, n := done + lines[from..], OldCount(h.body);
            && Fits(m, h)
            && Replaced(m, h) == (done + lines[from..s] + NewSide(lines[s..s + n], h.body)) + lines[s + n..]
  {
    var m, n, at := done + lines[from..], OldCount(h.body), s + delta;
    assert m[..at] == done + lines[from..s];
    assert m[at..at + n] == lines[s..s + n];
    assert m[at + n..] == lines[s + n..];
  }

  lemma SpliceSplit(lines: seq<Line>, from: nat, hunks: seq<Hunk>, starts: seq<nat>)
    requires Windows(lines, from, hunks, starts) && hunks != []
    ensures var s, n := starts[0], OldCount(hunks[0].body);
            Splice(lines, from, hunks, starts)
            == (lines[from..s] + NewSide(lines[s..s + n], hunks[0].body))
               + Splice(lines, s + n, hunks[1..], starts[1..])
  {
    hide NewSide;
  }

  lemma SpliceFirst(lines: seq<Line>, done: seq<Line>, from: nat, hunks: seq<Hunk>, starts: seq<nat>)
    requires Windows(lines, from, hunks, starts) && hunks != []
    ensures var s, n := starts[0], OldCount(hunks[0].body);
            (done + lines[from..s] + NewSide(lines[s..s + n], hunks[0].body))
            + Splice(lines, s + n, hunks[1..], starts[1..])
            == done + Splice(lines, from, hunks, starts)
  {
    hide NewSide, Splice;
    var s, n := starts[0], OldCount(hunks[0].body);
    var kept, inserted := lines[from..s], NewSide(lines[s..s + n], hunks[0].body);
    SpliceSplit(lines, from, hunks, starts);
    Associate(done, kept, inserted);
    Associate(done, kept + inserted, Splice(lines, s + n, hunks[1..], starts[1..]));
  }

  /** Applied to the file so far, the hunks from here on replace their windows. */
  ghost predicate ReplacesAll(lines: seq<Line>, done: seq<Line>, from: nat, hunks: seq<Hunk>, starts: seq<nat>,
                              delta: int)
    requires Windows(lines, from, hunks, starts)
    requires (forall h :: h in hunks ==> h.header.Some?) && Rising(hunks, starts, delta)
  {
    ApplyAll(done + lines[from..], Shifted(hunks, starts, delta)) == Some(done + Splice(lines, from, hunks, starts))
  }

  lemma ReplacesFirst(lines: seq<Line>, done: seq<Line>, from: nat, hunks: seq<Hunk>, starts: seq<nat>, delta: int)
    requires Windows(lines, from, hunks, starts) && |done| == from + delta && hunks != []
    requires (forall h :: h in hunks ==> h.header.Some?) && Rising(hunks, starts, delta)
    requires var s, n := starts[0], OldCount(hunks[0].body);
             ReplacesAll(lines, done + lines[from..s] + NewSide(lines[s..s + n], hunks[0].body), s + n, hunks[1..],
                         starts[1..], delta + Growth(hunks[0].header.value))
    ensures ReplacesAll(lines, done, from, hunks, starts, delta)
  {
    hide NewSide, Fits, ApplyAll, Replaced, Splice;
    var first := ShiftedHunk(hunks[0], starts[0], delta);
    HunkAtWindow(lines, done, from, starts[0], first, delta);
    ApplyFirst(done + lines[from..], first, Shifted(hunks[1..], starts[1..], delta + Growth(hunks[0].header.value)));
    SpliceFirst(lines, done, from, hunks, starts);
  }

  lemma ReplacesNone(lines: seq<Line>, done: seq<Line>, from: nat, starts: seq<nat>, delta: int)
    requires Windows(lines, from, [], starts)
    ensures ReplacesAll(lines, done, from, [], starts, delta)
  {
  }

  /** Headers that count in the file so far replace all windows, whatever the sizes. */
  lemma {:induction false} ShiftedApplies(lines: seq<Line>, done: seq<Line>, from: nat, hunks: seq<Hunk>,
                                          starts: seq<nat>, delta: int)
    requires Windows(lines, from, hunks, starts) && |done| == from + delta
    requires (forall h :: h in hunks ==> h.header.Some?) && Rising(hunks, starts, delta)
    ensures ReplacesAll(lines, done, from, hunks, starts, delta)
    decreases |hunks|
  {
    hide NewSide, ReplacesAll, NewCount;
    if hunks != [] {
      var s, n := starts[0], OldCount(hunks[0].body);
      var next := done + lines[from..s] + NewSide(lines[s..s + n], hunks[0].body);
      ShiftedApplies(lines, next, s + n, hunks[1..], starts[1..], delta + Growth(hunks[0].header.value));
      ReplacesFirst(lines, done, from, hunks, starts, delta);
    } else {
      ReplacesNone(lines, done, from, starts, delta);
    }
  }

  // ----- When a relocated diff applies -----

  /** Every hunk replaces something, and all but the last keep the length. */
  ghost predicate Level(hunks: seq<Hunk>) {
    forall i :: 0 <= i < |hunks| - 1 ==> OldCount(hunks[i].body) == NewCount(hunks[i].body)
  }

  ghost predicate Replacing(hunks: seq<Hunk>) {
    forall h :: h in hunks ==> OldCount(h.body) > 0
  }

  lemma {:induction false} LevelNeedsNoShift(hunks: seq<Hunk>, starts: seq<nat>)
    requires Sound(hunks) && Replacing(hunks) && Level(hunks) && |starts| == |hunks| && Rising(hunks, starts, 0)
    ensures Moved(hunks, starts, 0) == Shifted(hunks, starts, 0)
  {
    if |hunks| > 1 {
      assert CountsRight(hunks[0]) && OldCount(hunks[0].body) == NewCount(hunks[0].body);
      forall i | 0 <= i < |hunks[1..]| - 1
        ensures OldCount(hunks[1..][i].body) == NewCount(hunks[1..][i].body)
      {
        assert hunks[1..][i] == hunks[i + 1];
      }
      LevelNeedsNoShift(hunks[1..], starts[1..]);
    } else if |hunks| == 1 {
      assert hunks[0] in hunks;
    }
  }

  /** Hunks whose old sides were found apply at the places found for them. */
  lemma MovedApplies(lines: seq<Line>, hunks: seq<Hunk>)
    requires Sound(hunks) && Replacing(hunks) && Level(hunks) && Places(hunks, 0, Texts(lines)).Some?
    ensures var starts := Places(hunks, 0, Texts(lines)).value;
            && Windows(lines, 0, hunks, starts) && Rising(hunks, starts, 0)
            && ApplyAll(lines, Moved(hunks, starts, 0)) == Some(Splice(lines, 0, hunks, starts))
  {
    var starts := Places(hunks, 0, Texts(lines)).value;
    PlacesAreWindows(lines, hunks, 0);
    PlacesRise(hunks, 0, Texts(lines), 0);
    LevelNeedsNoShift(hunks, starts);
    assert [] + lines[0..] == lines;
    ShiftedApplies(lines, [], 0, hunks, starts, 0);
    assert [] + Splice(lines, 0, hunks, starts) == Splice(lines, 0, hunks, starts);
  }

  /** The main result: an accepted relocation of a printed diff applies, and amounts to
      replacing all windows of the file at once. */
  lemma RelocatedDiffApplies(file: string, hunks: seq<Hunk>, lines: seq<Line>)
    requires Printable(hunks) && Sound(hunks) && Replacing(hunks) && Level(hunks)
    requires Relocate(Print(file, hunks), 0, 0, Texts(lines)).Some?
    ensures var places := Places(hunks, 0, Texts(lines));
            && places.Some? && Windows(lines, 0, hunks, places.value)
            && ApplyAll(lines, Split(Relocate(Print(file, hunks), 0, 0, Texts(lines)).value))
               == Some(Splice(lines, 0, hunks, places.value))
  {
    RelocatePrinted(file, hunks, Texts(lines));
    MovedApplies(lines, hunks);
    ParseMoved(file, hunks, Moved(hunks, Places(hunks, 0, Texts(lines)).value, 0));
  }

  lemma ParseMoved(file: string, hunks: seq<Hunk>, moved: seq<Hunk>)
    requires Printable(hunks) && |moved| == |hunks| && forall i :: 0 <= i < |moved| ==> moved[i].body == hunks[i].body
    ensures Split(Print(file, moved)) == moved
  {
    ParsePrint(file, moved);
    forall i | 0 <= i < |moved|
      ensures KeptAll(moved)[i] == moved[i]
    {
      assert hunks[i] in hunks;
      KeptCounts(moved[i].body);
    }
  }

  /** The new side of hunk `i` stands at `at` in what replaces the lines from `from` on. */
  ghost predicate StandsAt(lines: seq<Line>, from: nat, hunks: seq<Hunk>, starts: seq<nat>, i: nat, at: int)
    requires Windows(lines, from, hunks, starts) && i < |hunks|
  {
    var h, result := hunks[i], Splice(lines, from, hunks, starts);
    && OldCount(h.body) + starts[i] <= |lines|
    && 0 <= at && at + NewCount(h.body) <= |result|
    && result[at..at + NewCount(h.body)] == NewSide(lines[starts[i]..starts[i] + OldCount(h.body)], h.body)
  }

  lemma StandsFirst(lines: seq<Line>, from: nat, hunks: seq<Hunk>, starts: seq<nat>)
    requires Windows(lines, from, hunks, starts) && hunks != []
    ensures StandsAt(lines, from, hunks, starts, 0, starts[0] - from)
  {
    var h, s := hunks[0], starts[0];
    var n := OldCount(h.body);
    Sandwich(lines[from..s], NewSide(lines[s..s + n], h.body), Splice(lines, s + n, hunks[1..], starts[1..]));
  }

  lemma StandsLater(lines: seq<Line>, from: nat, hunks: seq<Hunk>, starts: seq<nat>, i: nat, at: int)
    requires Windows(lines, from, hunks, starts) && 0 < i < |hunks|
    requires StandsAt(lines, starts[0] + OldCount(hunks[0].body), hunks[1..], starts[1..], i - 1, at)
    ensures StandsAt(lines, from, hunks, starts, i, at + (starts[0] - from) + NewCount(hunks[0].body))
  {
    var h, s := hunks[0], starts[0];
    var n := OldCount(h.body);
    hide NewSide, Splice;
    SpliceSplit(lines, from, hunks, starts);
    var front := lines[from..s] + NewSide(lines[s..s + n], h.body);
    Behind(front, Splice(lines, s + n, hunks[1..], starts[1..]), at, at + NewCount(hunks[i].body));
  }

  lemma MovedAt(hunks: seq<Hunk>, starts: seq<nat>, delta: int, i: nat)
    requires |starts| == |hunks| && i < |hunks| && forall h :: h in hunks ==> h.header.Some?
    requires Rising(hunks, starts, delta)
    ensures i == 0 ==> Moved(hunks, starts, delta)[i] == MovedHunk(hunks[0], starts[0], delta)
    ensures i > 0 ==> Moved(hunks, starts, delta)[i]
                      == Moved(hunks[1..], starts[1..], delta + Growth(hunks[0].header.value))[i - 1]
  {
  }

  /** The new start of a relocated header is where the new side stands in the patched file. */
  lemma {:induction false} NewStartIsPosition(lines: seq<Line>, from: nat, hunks: seq<Hunk>, starts: seq<nat>,
                                              delta: int, i: nat)
    requires Windows(lines, from, hunks, starts) && Replacing(hunks) && i < |hunks|
    requires (forall h :: h in hunks ==> h.header.Some?) && Rising(hunks, starts, delta)
    ensures StandsAt(lines, from, hunks, starts, i,
                     Moved(hunks, starts, delta)[i].header.value.newStart - 1 - (from + delta))
    decreases |hunks|
  {
    hide StandsAt, Splice, NewSide, Moved, OldSide, WellFormedBody;
    assert hunks[0] in hunks;
    MovedAt(hunks, starts, delta, i);
    if i == 0 {
      StandsFirst(lines, from, hunks, starts);
    } else {
      var s, n, change := starts[0], OldCount(hunks[0].body), delta + Growth(hunks[0].header.value);
      NewStartIsPosition(lines, s + n, hunks[1..], starts[1..], change, i - 1);
      var at := Moved(hunks[1..], starts[1..], change)[i - 1].header.value.newStart - 1 - (s + n + change);
      StandsLater(lines, from, hunks, starts, i, at);
    }
  }

  lemma Behind(front: seq<Line>, tail: seq<Line>, a: nat, b: nat)
    requires a <= b <= |tail|
    ensures (front + tail)[|front| + a..|front| + b] == tail[a..b]
  {
  }

  // ----- Exactly when it applies -----

  /** No size change before any remaining hunk. */
  ghost predicate LevelFrom(hunks: seq<Hunk>, delta: int)
    requires forall h :: h in hunks ==> h.header.Some?
  {
    hunks == [] || (delta == 0 && LevelFrom(hunks[1..], delta + Growth(hunks[0].header.value)))
  }

  /** The first old line of every hunk occurs once in the file and is added by no hunk. */
  ghost predicate Anchored(lines: seq<Line>, hunks: seq<Hunk>, starts: seq<nat>) {
    && |starts| == |hunks|
    && forall i :: 0 <= i < |hunks| ==>
         && starts[i] < |lines|
         && (forall k :: 0 <= k < |lines| && lines[k].text == lines[starts[i]].text ==> k == starts[i])
         && (forall j :: 0 <= j < |hunks| ==> (['+'] + lines[starts[i]].text) !in hunks[j].body)
  }

  lemma {:induction false} NewSideTexts(window: seq<Line>, body: seq<string>, text: string)
    requires |window| == OldCount(body) && (['+'] + text) !in body && Free(window, text)
    ensures Free(NewSide(window, body), text)
  {
    if body != [] {
      var front, last := body[..|body| - 1], body[|body| - 1];
      assert body == front + [last];
      NewSideTexts(if IsContext(last) || IsDeletion(last) then window[..|window| - 1] else window, front, text);
      assert IsAddition(last) ==> last == ['+'] + last[1..];
    }
  }

  lemma AnchoredRest(lines: seq<Line>, hunks: seq<Hunk>, starts: seq<nat>)
    requires Anchored(lines, hunks, starts) && hunks != []
    ensures Anchored(lines, hunks[1..], starts[1..])
  {
    forall i | 0 <= i < |hunks[1..]|
      ensures starts[1..][i] == starts[i + 1]
    {
    }
  }

  /** No anchor of the hunks stands among the lines. */
  ghost predicate Absent(done: seq<Line>, lines: seq<Line>, starts: seq<nat>)
    requires forall i :: 0 <= i < |starts| ==> starts[i] < |lines|
  {
    forall i, k :: 0 <= i < |starts| && 0 <= k < |done| ==> done[k].text != lines[starts[i]].text
  }

  /** Replacing a window brings in no later anchor. */
  lemma AbsentNext(lines: seq<Line>, done: seq<Line>, from: nat, hunks: seq<Hunk>, starts: seq<nat>)
    requires hunks != [] && Windows(lines, from, hunks, starts) && Anchored(lines, hunks, starts)
    requires forall i :: 0 <= i < |starts| ==> starts[i] < |lines|
    requires Absent(done, lines, starts)
    requires forall i :: 1 <= i < |starts| ==> starts[0] + OldCount(hunks[0].body) <= starts[i]
    ensures var s, n := starts[0], OldCount(hunks[0].body);
            Absent(done + lines[from..s] + NewSide(lines[s..s + n], hunks[0].body), lines, starts[1..])
  {
    hide NewSide;
    var s, n := starts[0], OldCount(hunks[0].body);
    var inserted := NewSide(lines[s..s + n], hunks[0].body);
    forall i | 0 <= i < |starts[1..]|
      ensures Free(done, lines[starts[1..][i]].text) && Free(lines[from..s], lines[starts[1..][i]].text)
      ensures Free(inserted, lines[starts[1..][i]].text)
    {
      var text := lines[starts[i + 1]].text;
      assert (['+'] + text) !in hunks[0].body;
      FreeWindow(lines, from, s, starts[i + 1]);
      FreeWindow(lines, s, s + n, starts[i + 1]);
      NewSideTexts(lines[s..s + n], hunks[0].body, text);
    }
  }

  /** The text stands on none of the lines. */
  ghost predicate Free(lines: seq<Line>, text: string) {
    forall k :: 0 <= k < |lines| ==> lines[k].text != text
  }

  lemma FreeWindow(lines: seq<Line>, a: nat, b: nat, s: nat)
    requires a <= b <= s < |lines|
    requires forall k :: 0 <= k < |lines| && lines[k].text == lines[s].text ==> k == s
    ensures Free(lines[a..b], lines[s].text)
  {
    forall k | 0 <= k < b - a
      ensures lines[a..b][k].text != lines[s].text
    {
      assert lines[a..b][k] == lines[a + k];
    }
  }

  lemma {:induction false} WindowsRise(lines: seq<Line>, from: nat, hunks: seq<Hunk>, starts: seq<nat>)
    requires Windows(lines, from, hunks, starts)
    ensures forall i :: 0 <= i < |starts| ==> from <= starts[i]
    ensures forall i :: 1 <= i < |starts| ==> starts[0] + OldCount(hunks[0].body) <= starts[i]
    decreases |hunks|
  {
    if hunks != [] {
      WindowsRise(lines, starts[0] + OldCount(hunks[0].body), hunks[1..], starts[1..]);
      forall i | 1 <= i < |starts|
        ensures starts[0] + OldCount(hunks[0].body) <= starts[i]
      {
        assert starts[i] == starts[1..][i - 1];
      }
    }
  }

  /** A hunk whose anchor was moved away by an earlier size change does not fit. */
  lemma Displaced(lines: seq<Line>, done: seq<Line>, from: nat, h: Hunk, s: nat, delta: int)
    requires h.header.Some? && OldCount(h.body) > 0 && from <= s && s + OldCount(h.body) <= |lines|
    requires h.header.value.oldStart == s + 1 && |done| == from + delta && delta != 0
    requires Texts(lines[s..s + OldCount(h.body)]) == OldSide(h.body)
    requires forall k :: 0 <= k < |lines| && lines[k].text == lines[s].text ==> k == s
    requires forall k :: 0 <= k < |done| ==> done[k].text != lines[s].text
    ensures !Fits(done + lines[from..], h)
  {
    hide OldSide, NewSide, WellFormedBody;
    var m, n := done + lines[from..], OldCount(h.body);
    assert Texts(lines[s..s + n])[0] == lines[s].text;
    if s + n <= |m| {
      assert Texts(m[s..s + n])[0] == m[s].text;
      if s < |done| {
        assert m[s] == done[s];
      } else {
        assert m[s] == lines[s - delta];
      }
      assert Texts(m[s..s + n]) != OldSide(h.body);
    }
  }

  /** The hunks from here on, applied to the file so far, replace their windows or are refused. */
  ghost predicate Outcome(lines: seq<Line>, done: seq<Line>, from: nat, hunks: seq<Hunk>, starts: seq<nat>, delta: int)
    requires Windows(lines, from, hunks, starts)
    requires (forall h :: h in hunks ==> h.header.Some?) && Rising(hunks, starts, delta)
  {
    ApplyAll(done + lines[from..], Moved(hunks, starts, delta))
    == if LevelFrom(hunks, delta) then Some(done + Splice(lines, from, hunks, starts)) else None
  }

  lemma OutcomeFirst(lines: seq<Line>, done: seq<Line>, from: nat, hunks: seq<Hunk>, starts: seq<nat>)
    requires Windows(lines, from, hunks, starts) && hunks != [] && |done| == from && OldCount(hunks[0].body) > 0
    requires (forall h :: h in hunks ==> h.header.Some?) && Rising(hunks, starts, 0)
    requires var s, n := starts[0], OldCount(hunks[0].body);
             Outcome(lines, done + lines[from..s] + NewSide(lines[s..s + n], hunks[0].body), s + n, hunks[1..],
                     starts[1..], 0 + Growth(hunks[0].header.value))
    ensures Outcome(lines, done, from, hunks, starts, 0)
  {
    hide NewSide, Fits, ApplyAll, Replaced, Splice;
    var h, s, n := hunks[0], starts[0], OldCount(hunks[0].body);
    var first := MovedHunk(h, s, 0);
    HunkAtWindow(lines, done, from, s, first, 0);
    ApplyFirst(done + lines[from..], first, Moved(hunks[1..], starts[1..], 0 + Growth(h.header.value)));
    SpliceFirst(lines, done, from, hunks, starts);
  }

  lemma OutcomeDisplaced(lines: seq<Line>, done: seq<Line>, from: nat, hunks: seq<Hunk>, starts: seq<nat>, delta: int)
    requires Windows(lines, from, hunks, starts) && Anchored(lines, hunks, starts) && hunks != []
    requires |done| == from + delta && Absent(done, lines, starts) && delta != 0 && OldCount(hunks[0].body) > 0
    requires (forall h :: h in hunks ==> h.header.Some?) && Rising(hunks, starts, delta)
    ensures Outcome(lines, done, from, hunks, starts, delta)
  {
    hide Fits, ApplyAll, Anchored, Splice;
    var h, s := hunks[0], starts[0];
    NoAnchor(lines, done, hunks, starts);
    Displaced(lines, done, from, MovedHunk(h, s, delta), s, delta);
    ApplyFirst(done + lines[from..], MovedHunk(h, s, delta),
               Moved(hunks[1..], starts[1..], delta + Growth(h.header.value)));
  }

  lemma NoAnchor(lines: seq<Line>, done: seq<Line>, hunks: seq<Hunk>, starts: seq<nat>)
    requires Anchored(lines, hunks, starts) && hunks != [] && Absent(done, lines, starts)
    ensures starts[0] < |lines|
    ensures forall k :: 0 <= k < |lines| && lines[k].text == lines[starts[0]].text ==> k == starts[0]
    ensures forall k :: 0 <= k < |done| ==> done[k].text != lines[starts[0]].text
  {
  }

  lemma {:induction false} AnchoredOutcome(lines: seq<Line>, done: seq<Line>, from: nat, hunks: seq<Hunk>,
                                           starts: seq<nat>, delta: int)
    requires Windows(lines, from, hunks, starts) && Anchored(lines, hunks, starts) && Replacing(hunks)
    requires |done| == from + delta && Absent(done, lines, starts)
    requires (forall h :: h in hunks ==> h.header.Some?) && Rising(hunks, starts, delta)
    ensures Outcome(lines, done, from, hunks, starts, delta)
    decreases |hunks|
  {
    hide ApplyAll, Moved, LevelFrom, NewSide, NewCount;
    if hunks != [] {
      hide Outcome;
      var s, n := starts[0], OldCount(hunks[0].body);
      assert hunks[0] in hunks;
      if delta != 0 {
        OutcomeDisplaced(lines, done, from, hunks, starts, delta);
      } else {
        WindowsRise(lines, from, hunks, starts);
        AbsentNext(lines, done, from, hunks, starts);
        AnchoredRest(lines, hunks, starts);
        var next := done + lines[from..s] + NewSide(lines[s..s + n], hunks[0].body);
        AnchoredOutcome(lines, next, s + n, hunks[1..], starts[1..], 0 + Growth(hunks[0].header.value));
        OutcomeFirst(lines, done, from, hunks, starts);
      }
    } else {
      NoHunksLeft(lines, done, from, starts, delta);
    }
  }

  lemma NoHunksLeft(lines: seq<Line>, done: seq<Line>, from: nat, starts: seq<nat>, delta: int)
    requires Windows(lines, from, [], starts)
    ensures Outcome(lines, done, from, [], starts, delta)
  {
  }

  /** With unique anchors, an accepted relocation applies if and only if every hunk but
      the last keeps the length; it then replaces the windows, and is refused otherwise. */
  lemma RelocationAppliesIff(file: string, hunks: seq<Hunk>, lines: seq<Line>)
    requires Printable(hunks) && Sound(hunks) && Replacing(hunks)
    requires var places := Places(hunks, 0, Texts(lines)); places.Some? && Anchored(lines, hunks, places.value)
    ensures var starts := Places(hunks, 0, Texts(lines)).value;
            && Windows(lines, 0, hunks, starts)
            && Relocate(Print(file, hunks), 0, 0, Texts(lines)).Some?
            && ApplyAll(lines, Split(Relocate(Print(file, hunks), 0, 0, Texts(lines)).value))
               == if Level(hunks) then Some(Splice(lines, 0, hunks, starts)) else None
  {
    hide Relocate, Print, Split, Moved, ApplyAll, Splice, Anchored, Places, Windows, Rising;
    RelocatePrinted(file, hunks, Texts(lines));
    AnchoredMoved(lines, hunks);
    ParseMoved(file, hunks, Moved(hunks, Places(hunks, 0, Texts(lines)).value, 0));
  }

  lemma AnchoredMoved(lines: seq<Line>, hunks: seq<Hunk>)
    requires Sound(hunks) && Replacing(hunks)
    requires var places := Places(hunks, 0, Texts(lines)); places.Some? && Anchored(lines, hunks, places.value)
    ensures var starts := Places(hunks, 0, Texts(lines)).value;
            && Windows(lines, 0, hunks, starts) && Rising(hunks, starts, 0)
            && ApplyAll(lines, Moved(hunks, starts, 0))
               == if Level(hunks) then Some(Splice(lines, 0, hunks, starts)) else None
  {
    hide Moved, ApplyAll, Splice, Places;
    var starts := Places(hunks, 0, Texts(lines)).value;
    PlacesAreWindows(lines, hunks, 0);
    PlacesRise(hunks, 0, Texts(lines), 0);
    assert [] + lines[0..] == lines;
    AnchoredOutcome(lines, [], 0, hunks, starts, 0);
    assert [] + Splice(lines, 0, hunks, starts) == Splice(lines, 0, hunks, starts);
    LevelIsLevelFrom(hunks);
  }

  lemma {:induction false} LevelIsLevelFrom(hunks: seq<Hunk>)
    requires Sound(hunks)
    ensures Level(hunks) <==> LevelFrom(hunks, 0)
  {
    if |hunks| > 1 {
      var h, rest := hunks[0], hunks[1..];
      assert CountsRight(h);
      LevelIsLevelFrom(rest);
      assert forall i :: 0 <= i < |rest| ==> rest[i] == hunks[i + 1];
      assert Level(hunks) <==> OldCount(h.body) == NewCount(h.body) && Level(rest) by {
        if Level(rest) && OldCount(h.body) == NewCount(h.body) {
          forall i | 0 <= i < |hunks| - 1
            ensures OldCount(hunks[i].body) == NewCount(hunks[i].body)
          {
            if i > 0 { assert hunks[i] == rest[i - 1]; }
          }
        }
      }
    }
  }

  // ----- Where it goes wrong -----

  /** One line becomes two, the second of them the text that the next hunk looks for. */
  function GrowHunk(a: string, p: string, x: string): Hunk {
    Hunk(Some(Header(1, 1, 1, 2)), [['-'] + a, ['+'] + p, ['+'] + x])
  }

  function SwapHunk(x: string, y: string): Hunk {
    Hunk(Some(Header(2, 1, 3, 1)), [['-'] + x, ['+'] + y])
  }

  lemma MisplacedPlaces(a: string, x: string, p: string, y: string)
    requires a != x
    ensures var hunks := [GrowHunk(a, p, x), SwapHunk(x, y)];
            && Places(hunks, 0, [a, x]) == Some([0, 1]) && Rising(hunks, [0, 1], 0) && Moved(hunks, [0, 1], 0) == hunks
  {
    var grow, swap := GrowHunk(a, p, x), SwapHunk(x, y);
    Swap3(Line(a, "\n"), a, p, x);
    Swap2(Line(x, "\n"), x, y);
    OnlyAt([a, x], a, 0, 0);
    OnlyAt([a, x], x, 1, 1);
    PlacesFirst(swap, [], 1, [a, x]);
    PlacesFirst(grow, [swap], 0, [a, x]);
    assert PlaceOf(grow, 0, [a, x]) == Some(0) && PlaceOf(swap, 1, [a, x]) == Some(1);
    var none: seq<nat>, one: seq<nat>, both: seq<nat> := [], [1], [0, 1];
    assert [1] + none == one && [0] + one == both;
    assert Places([], 2, [a, x]) == Some(none);
    assert Places([swap], 1, [a, x]) == Some(one);
    assert [grow] + [swap] == [grow, swap] && [swap] + [] == [swap];
    assert [0] + [1] == [0, 1] && [0, 1][1..] == [1] && [1][1..] == [];
    assert Moved([], [], 1) == [] && Moved([swap], [1], 1) == [MovedHunk(swap, 1, 1)] + [];
    assert [grow, swap][1..] == [swap] && [swap][1..] == [];
    assert Rising([swap], [1], 1) && Rising([], [], 1);
    assert Moved([grow, swap], [0, 1], 0) == [MovedHunk(grow, 0, 0)] + Moved([swap], [1], 1);
  }

  lemma MisplacedLines(a: string, x: string, p: string, y: string)
    ensures var l, m := Line(a, "\n"), Line(x, "\n");
            && Sound([GrowHunk(a, p, x), SwapHunk(x, y)])
            && ApplyAll([l, m], [GrowHunk(a, p, x), SwapHunk(x, y)]) == Some([Line(p, "\n"), Line(y, "\n"), m])
  {
    var l, m, grow, swap := Line(a, "\n"), Line(x, "\n"), GrowHunk(a, p, x), SwapHunk(x, y);
    var mid, after := [Line(p, "\n"), m, m], [Line(p, "\n"), Line(y, "\n"), m];
    Swap3(l, a, p, x);
    Swap2(m, x, y);
    SingleFits([], l, [m], grow);
    SingleFits([Line(p, "\n")], m, [m], swap);
    assert [] + [l] + [m] == [l, m] && [Line(p, "\n")] + [m] + [m] == mid;
    assert [] + [Line(p, "\n"), m] + [m] == mid && [Line(p, "\n")] + [Line(y, "\n")] + [m] == after;
    ApplyFirst([l, m], grow, [swap]);
    ApplyFirst(mid, swap, []);
    assert [grow] + [swap] == [grow, swap] && [swap] + [] == [swap];
  }

  lemma SingleFits(front: seq<Line>, l: Line, rest: seq<Line>, h: Hunk)
    requires CountsRight(h) && WellFormedBody(h.body) && OldCount(h.body) == 1 && OldSide(h.body) == [l.text]
    requires Position(h.header.value.oldStart) == |front|
    ensures Fits(front + [l] + rest, h)
    ensures Replaced(front + [l] + rest, h) == front + NewSide([l], h.body) + rest
  {
    Sandwich(front, [l], rest);
    assert Texts([l]) == [l.text];
  }

  /** Without unique anchors, an accepted relocation can be applied at the wrong line:
      the file [a, x] becomes [p, y, x], while the windows ask for [p, x, y]. */
  lemma RelocationCanMisplace(a: string, x: string, p: string, y: string)
    requires a != x && x != y
    ensures var lines, hunks := [Line(a, "\n"), Line(x, "\n")], [GrowHunk(a, p, x), SwapHunk(x, y)];
            && Sound(hunks) && Replacing(hunks)
            && Places(hunks, 0, Texts(lines)) == Some([0, 1]) && Rising(hunks, [0, 1], 0)
            && ApplyAll(lines, Moved(hunks, [0, 1], 0)) == Some([Line(p, "\n"), Line(y, "\n"), Line(x, "\n")])
            && Windows(lines, 0, hunks, [0, 1])
            && Splice(lines, 0, hunks, [0, 1]) == [Line(p, "\n"), Line(x, "\n"), Line(y, "\n")]
  {
    hide ApplyAll, Fits, Replaced, Moved, Places;
    var l, m, grow, swap := Line(a, "\n"), Line(x, "\n"), GrowHunk(a, p, x), SwapHunk(x, y);
    assert Texts([l, m]) == [a, x];
    MisplacedPlaces(a, x, p, y);
    MisplacedLines(a, x, p, y);
    Swap3(l, a, p, x);
    Swap2(m, x, y);
    PlacesAreWindows([l, m], [grow, swap], 0);
    MisplacedSplice(l, m, grow, swap);
  }

  lemma MisplacedSplice(l: Line, m: Line, grow: Hunk, swap: Hunk)
    requires OldCount(grow.body) == 1 == OldCount(swap.body) && Windows([l, m], 0, [grow, swap], [0, 1])
    ensures Splice([l, m], 0, [grow, swap], [0, 1]) == NewSide([l], grow.body) + NewSide([m], swap.body)
  {
    hide NewSide;
    var lines := [l, m];
    assert [grow, swap][1..] == [swap] && [0, 1][1..] == [1] && [swap][1..] == [] && [1][1..] == [];
    assert lines[0..1] == [l] && lines[1..2] == [m] && lines[0..0] == [] && lines[1..1] == [] && lines[2..] == [];
    assert Splice(lines, 1, [swap], [1]) == [] + NewSide([m], swap.body) + [];
    assert Splice(lines, 0, [grow, swap], [0, 1]) == [] + NewSide([l], grow.body) + Splice(lines, 1, [swap], [1]);
  }

  lemma Swap2(l: Line, x: string, y: string)
    requires l.text == x
    ensures var body := [['-'] + x, ['+'] + y];
            && OldCount(body) == 1 && NewCount(body) == 1 && WellFormedBody(body) && OldSide(body) == [x]
            && NewSide([l], body) == [Line(y, "\n")]
  {
    var one, body := [['-'] + x], [['-'] + x, ['+'] + y];
    assert body[..1] == one && one[..0] == [];
    assert one[0][1..] == x && body[1][1..] == y;
    assert [l][..0] == [];
    assert OldCount(one) == 1 && NewCount(one) == 0;
    assert OldSide(one) == [x];
    assert NewSide([l][..0], one[..0]) == [];
    assert NewSide([l], one) == [];
  }

  lemma Swap3(l: Line, x: string, y: string, z: string)
    requires l.text == x
    ensures var body := [['-'] + x, ['+'] + y, ['+'] + z];
            && OldCount(body) == 1 && NewCount(body) == 2 && WellFormedBody(body) && OldSide(body) == [x]
            && NewSide([l], body) == [Line(y, "\n"), Line(z, "\n")]
  {
    var two, body := [['-'] + x, ['+'] + y], [['-'] + x, ['+'] + y, ['+'] + z];
    Swap2(l, x, y);
    assert body[..2] == two && body[2][1..] == z && IsAddition(body[2]);
  }

  lemma OnlyAt(source: seq<string>, text: string, from: nat, s: nat)
    requires from <= s < |source| && source[s] == text
    requires forall t :: from <= t < |source| && t != s ==> source[t] != text
    ensures FindOnly(source, [text], from) == Some(s)
  {
    assert source[s..s + 1] == [text];
    assert MatchAt(source, [text], s);
    forall t: nat | from <= t && MatchAt(source, [text], t)
      ensures t == s
    {
      assert source[t..t + 1][0] == source[t];
    }
    assert OnlyMatch(source, [text], from, s);
  }

  // ----- Insertions -----

  /** Where the last window ends. */
  ghost function EndOf(hunks: seq<Hunk>, starts: seq<nat>, from: nat): nat
    requires |starts| == |hunks|
  {
    if hunks == [] then from else starts[|starts| - 1] + OldCount(hunks[|hunks| - 1].body)
  }

  /** A hunk without old lines has one place only where nothing of the file is left. */
  lemma InsertionPlace(lines: seq<Line>, from: nat, h: Hunk)
    requires CountsRight(h) && OldCount(h.body) == 0 && from <= |lines|
    ensures PlaceOf(h, from, Texts(lines)) == if from == |lines| then Some(|lines|) else None
  {
    var source, n := Texts(lines), |lines|;
    assert OldSide(h.body) == [];
    assert MatchAt(source, [], from) && MatchAt(source, [], n);
    if from == n {
      assert OnlyMatch(source, [], from, n);
    }
  }

  /** With one more hunk behind them, the others keep their places. */
  ghost predicate PlacesExtend(front: seq<Hunk>, h: Hunk, from: nat, source: seq<string>)
    requires h.header.Some? && forall x :: x in front ==> x.header.Some?
  {
    Places(front, from, source).Some? ==>
      var starts := Places(front, from, source).value;
      Places(front + [h], from, source)
      == match PlaceOf(h, EndOf(front, starts, from), source)
         case None => None
         case Some(s) => Some(starts + [s])
  }

  lemma ExtendNone(h: Hunk, from: nat, source: seq<string>)
    requires h.header.Some?
    ensures PlacesExtend([], h, from, source)
  {
    hide PlaceOf;
    assert [] + [h] == [h] + [];
    PlacesFirst(h, [], from, source);
    var none: seq<nat> := [];
    assert Places([], from, source) == Some(none);
    assert forall s: nat :: [s] + none == none + [s];
  }

  lemma ExtendFirst(first: Hunk, rest: seq<Hunk>, h: Hunk, from: nat, source: seq<string>)
    requires h.header.Some? && (forall x :: x in rest ==> x.header.Some?) && CountsRight(first)
    requires PlaceOf(first, from, source).Some? ==>
               PlacesExtend(rest, h, PlaceOf(first, from, source).value + OldCount(first.body), source)
    ensures PlacesExtend([first] + rest, h, from, source)
  {
    hide Places, PlaceOf, OldCount;
    PlacesFirst(first, rest, from, source);
    assert ([first] + rest) + [h] == [first] + (rest + [h]);
    PlacesFirst(first, rest + [h], from, source);
    var found := PlaceOf(first, from, source);
    if found.Some? {
      var end := found.value + OldCount(first.body);
      if Places(rest, end, source).Some? {
        var starts := Places(rest, end, source).value;
        assert ([first] + rest)[1..] == rest;
        ConsAppend(found.value, starts);
        EndOfRest([first] + rest, [found.value] + starts, from, end);
      }
    }
  }

  lemma {:induction false} PlacesAppend(front: seq<Hunk>, h: Hunk, from: nat, source: seq<string>)
    requires h.header.Some? && (forall x :: x in front ==> x.header.Some?)
        && (forall x :: x in front ==> CountsRight(x))
    ensures PlacesExtend(front, h, from, source)
    decreases |front|
  {
    hide PlacesExtend, PlaceOf, OldCount;
    if front == [] {
      ExtendNone(h, from, source);
    } else {
      var first, rest := front[0], front[1..];
      assert front == [first] + rest;
      var found := PlaceOf(first, from, source);
      if found.Some? {
        PlacesAppend(rest, h, found.value + OldCount(first.body), source);
      }
      ExtendFirst(first, rest, h, from, source);
    }
  }

  lemma EndOfRest(front: seq<Hunk>, starts: seq<nat>, from: nat, end: nat)
    requires |starts| == |front| > 0 && end == starts[0] + OldCount(front[0].body)
    ensures EndOf(front, starts, from) == EndOf(front[1..], starts[1..], end)
  {
  }

  lemma ConsAppend(s: nat, starts: seq<nat>)
    ensures ([s] + starts)[1..] == starts
    ensures forall t: nat :: [s] + (starts + [t]) == ([s] + starts) + [t]
  {
  }

  /** The last relocated hunk, and the ones before it. */
  lemma {:induction false} MovedAppend(front: seq<Hunk>, h: Hunk, starts: seq<nat>, s: nat, delta: int)
    returns (total: int)
    requires |starts| == |front| && h.header.Some? && forall x :: x in front ==> x.header.Some?
    requires Rising(front + [h], starts + [s], delta)
    ensures Rising(front, starts, delta) && s + total >= 0
    ensures Moved(front + [h], starts + [s], delta) == Moved(front, starts, delta) + [MovedHunk(h, s, total)]
    decreases |front|
  {
    var all, places := front + [h], starts + [s];
    if front == [] {
      total := delta;
      assert all[1..] == [] && places[1..] == [];
    } else {
      var change := delta + Growth(front[0].header.value);
      assert all[1..] == front[1..] + [h] && places[1..] == starts[1..] + [s];
      total := MovedAppend(front[1..], h, starts[1..], s, change);
    }
  }

  /** Applying one more hunk to what a list of hunks has made. */
  lemma ApplyLast(lines: seq<Line>, front: seq<Hunk>, h: Hunk, made: seq<Line>)
    requires ApplyAll(lines, front) == Some(made)
    ensures ApplyAll(lines, front + [h]) == if Fits(made, h) then Some(Replaced(made, h)) else None
  {
    assert (front + [h])[..|front|] == front;
  }

  lemma InsertionFits(made: seq<Line>, h: Hunk)
    requires CountsRight(h) && WellFormedBody(h.body) && OldCount(h.body) == 0
    ensures var at := Position(h.header.value.oldStart);
            && (Fits(made, h) <==> at <= |made|)
            && (Fits(made, h) ==> Replaced(made, h) == made[..at] + NewSide([], h.body) + made[at..])
  {
    var at := Position(h.header.value.oldStart);
    if at <= |made| {
      assert made[at..at] == [] && Texts(made[at..at]) == [] && OldSide(h.body) == [];
    }
  }

  /** A pure insertion behind other hunks is accepted exactly if the last of them ends the
      file.  It is then put at the number of the file's last line instead of behind it: in
      front of the last line, when the hunks before it keep the length. */
  lemma InsertionLandsEarly(file: string, lines: seq<Line>, front: seq<Hunk>, h: Hunk)
    requires Printable(front + [h]) && Sound(front + [h]) && Replacing(front) && Level(front) && OldCount(h.body) == 0
    requires forall x :: x in front ==> x.header.Some?
    requires Places(front, 0, Texts(lines)).Some?
    ensures var starts := Places(front, 0, Texts(lines)).value;
            var relocated := Relocate(Print(file, front + [h]), 0, 0, Texts(lines));
            && Windows(lines, 0, front, starts)
            && (relocated.Some? <==> EndOf(front, starts, 0) == |lines|)
            && (relocated.Some? ==>
                  var made, at := Splice(lines, 0, front, starts), Position(|lines|);
                  ApplyAll(lines, Split(relocated.value))
                  == if at <= |made| then Some(made[..at] + NewSide([], h.body) + made[at..]) else None)
  {
    hide Relocate, Print, Split, ApplyAll, Moved, Splice, Places, Rising, NewSide, FindOnly;
    var starts := Places(front, 0, Texts(lines)).value;
    assert front + [h] == front + [h] && (front + [h])[|front|] == h;
    SoundFront(front, h);
    MovedApplies(lines, front);
    EndInside(lines, front, starts, 0);
    PlacesAppend(front, h, 0, Texts(lines));
    InsertionPlace(lines, EndOf(front, starts, 0), h);
    RelocatePrinted(file, front + [h], Texts(lines));
    if EndOf(front, starts, 0) == |lines| {
      var total := MovedAppend(front, h, starts, |lines|, 0);
      var last := MovedHunk(h, |lines|, total);
      ParseMoved(file, front + [h], Moved(front + [h], starts + [|lines|], 0));
      ApplyLast(lines, Moved(front, starts, 0), last, Splice(lines, 0, front, starts));
      InsertionFits(Splice(lines, 0, front, starts), last);
    }
  }

  lemma SoundFront(front: seq<Hunk>, h: Hunk)
    requires Sound(front + [h])
    ensures Sound(front) && CountsRight(h) && WellFormedBody(h.body)
    ensures forall x :: x in front ==> CountsRight(x)
  {
    assert forall x :: x in front ==> x in front + [h];
    assert h in front + [h];
  }

  lemma {:induction false} EndInside(lines: seq<Line>, hunks: seq<Hunk>, starts: seq<nat>, from: nat)
    requires Windows(lines, from, hunks, starts)
    ensures EndOf(hunks, starts, from) <= |lines|
    decreases |hunks|
  {
    if hunks != [] {
      hide OldSide, WellFormedBody, CountsRight;
      EndInside(lines, hunks[1..], starts[1..], starts[0] + OldCount(hunks[0].body));
      EndOfRest(hunks, starts, from, starts[0] + OldCount(hunks[0].body));
    }
  }
}
