/** Moving a storage root: copy, verify, switch the configuration, delete - and what a
    crash or a failure at any point leaves behind. */
module Storage {
  import opened Plans

  /** An absolute path, as its components. */
  type Location = seq<string>

  datatype Key = AppInstall | DataRoot | Memory | Workspace | OtherRoot(name: string)

  /** A file's content; `Torn` is one whose writing was cut short. */
  datatype Content = Data(bytes: string) | Config(overrides: map<Key, Location>) | Torn

  type Files = map<Location, Content>

  /** Strictly inside a directory. */
  predicate Under(p: Location, root: Location) {
    |p| > |root| && p[..|root|] == root
  }

  predicate Selectable(key: Key) { key == Memory || key == Workspace }

  /** The place of a file after its root was moved. */
  function Moved(p: Location, from: Location, to: Location): Location
    requires Under(p, from)
  {
    to + p[|from|..]
  }

  datatype Result =
    | NotSelectable | InsideInstall | InUse | NotADirectory | NotEmpty | NestedTarget
    | Migrated | VerificationFailed | Failed

  /** The faults of one migration: the copy that fails, one that comes out wrong without an
      error, a failing save of the new configuration, and files that cannot be deleted. */
  datatype Faults = Faults(failAt: Option<nat>, garbled: Option<nat>, saveFails: bool, stuck: set<Location>)

  // ----- What must hold -----

  /** All files of the root `from` stand, with their contents, in the root `to`. */
  ghost predicate Holds(s: Files, to: Location, original: Files, from: Location) {
    forall p :: p in original && Under(p, from) ==> Moved(p, from, to) in s && s[Moved(p, from, to)] == original[p]
  }

  /** Two disks agree on everything that is not under the root. */
  ghost predicate SameOutside(s: Files, t: Files, root: Location) {
    forall p :: !Under(p, root) ==> (p in s <==> p in t) && (p in s ==> s[p] == t[p])
  }

  ghost predicate Apart(files: Files, a: Location, b: Location) {
    forall p :: p in files && Under(p, a) ==> !Under(p, b)
  }

  class StorageRegistry {
    const dataRoot: Location
    const appInstall: Location
    const config: Location
    var files: Files
    var overrides: map<Key, Location>

    constructor (dataRoot: Location, appInstall: Location, config: Location, files: Files)
      ensures this.dataRoot == dataRoot && this.appInstall == appInstall && this.config == config
      ensures this.files == files && Synced()
    {
      this.dataRoot, this.appInstall, this.config, this.files := dataRoot, appInstall, config, files;
      overrides := if config in files && files[config].Config? then files[config].overrides else map[];
    }

    function Default(key: Key): Location {
      match key
      case AppInstall => appInstall
      case DataRoot => dataRoot
      case Memory => dataRoot + ["runtime", "memory"]
      case Workspace => dataRoot + ["runtime", "workspaces"]
      case OtherRoot(name) => dataRoot + ["runtime", name]
    }

    function Resolve(o: map<Key, Location>, key: Key): Location {
      if key in o then o[key] else Default(key)
    }

    /** What a restart would load from this disk. */
    function Loaded(s: Files): map<Key, Location> {
      if config in s && s[config].Config? then s[config].overrides else map[]
    }

    ghost predicate Synced() reads this {
      Loaded(files) == overrides
    }

    /** After a crash that leaves this disk, the configuration leads to the whole root. */
    ghost predicate Good(s: Files, key: Key, original: Files, from: Location) {
      Holds(s, Resolve(Loaded(s), key), original, from)
    }

    predicate Inside(p: Location, root: Location) { p == root || Under(p, root) }

    /** The refusals before anything is written, in the order of the source. */
    function Refusal(s: Files, key: Key, current: Location, target: Location): Option<Result> {
      if !Selectable(key) then Some(NotSelectable)
      else if Inside(target, appInstall) then Some(InsideInstall)
      else if current == target then Some(InUse)
      else if target in s then Some(NotADirectory)
      else if exists p :: p in s && Under(p, target) then Some(NotEmpty)
      else if Under(target, current) then Some(NestedTarget)
      else None
    }

    /** A target inside the installation, or the directory of it. */
    predicate InInstall(target: Location) {
      target == appInstall || (|target| > |appInstall| && target[..|appInstall|] == appInstall)
    }

    predicate Occupied(s: Files, target: Location) {
      exists p :: p in s && |p| > |target| && p[..|target|] == target
    }

    /** Which obstacle is answered how: the roots first, then the target, then what is there. */
    lemma RefusesExactly(s: Files, key: Key, current: Location, target: Location)
      ensures Refusal(s, key, current, target)
              == if key !in {Memory, Workspace} then Some(NotSelectable)
                 else if InInstall(target) then Some(InsideInstall)
                 else if target == current then Some(InUse)
                 else if target in s then Some(NotADirectory)
                 else if Occupied(s, target) then Some(NotEmpty)
                 else if |target| > |current| && target[..|current|] == current then Some(NestedTarget)
                 else None
    {
    }

    /** What the migration writes to or below: the target never reaches into the old root's files. */
    lemma RootsApart(s: Files, key: Key, current: Location, target: Location)
      requires Refusal(s, key, current, target).None?
      ensures Apart(s, current, target)
      ensures forall p :: p in s && Under(p, current) ==> !Under(Moved(p, current, target), current)
    {
      forall p | p in s && Under(p, current)
        ensures !Under(Moved(p, current, target), current)
      {
        var q := Moved(p, current, target);
        assert !Under(p, target);
        if Under(q, current) { NestedRoots(p, current, target); }
      }
    }

    /** If a moved file fell under its old root, one of the two roots would lie in the other. */
    lemma NestedRoots(p: Location, current: Location, target: Location)
      requires Under(p, current) && Under(Moved(p, current, target), current) && current != target
      ensures Under(target, current) || Under(current, target)
    {
      var q := Moved(p, current, target);
      if |target| > |current| {
        assert q[..|current|] == target[..|current|];
      } else {
        assert q[..|target|] == target;
        assert current[..|target|] == q[..|current|][..|target|] == target;
      }
    }

    // ----- The steps of a migration -----

    /** Every state in the trail differs from the original disk only inside the target. */
    ghost predicate Building(trail: seq<Files>, original: Files, target: Location) {
      forall i :: 0 <= i < |trail| ==> SameOutside(trail[i], original, target)
    }

    ghost predicate AllGood(trail: seq<Files>, key: Key, original: Files, from: Location) {
      forall i :: 0 <= i < |trail| ==> Good(trail[i], key, original, from)
    }

    /** The comparison of the two directory manifests. */
    predicate SameTrees(s: Files, current: Location, target: Location) {
      && (forall p :: p in s && Under(p, current) ==>
            Moved(p, current, target) in s && s[Moved(p, current, target)] == s[p])
      && (forall q :: q in s && Under(q, target) ==> Moved(q, target, current) in s)
    }

    lemma WrittenInside(s: Files, original: Files, target: Location, q: Location, content: Content)
      requires SameOutside(s, original, target) && Under(q, target)
      ensures SameOutside(s[q := content], original, target)
    {
    }

    lemma StillThere(s: Files, original: Files, p: Location, current: Location, target: Location)
      requires SameOutside(s, original, target) && Apart(original, current, target) && p in original
          && Under(p, current)
      ensures p in s && s[p] == original[p] && Under(Moved(p, current, target), target)
    {
    }

    /** Every file that is not to do any more has its copy, and there are no other copies. */
    ghost predicate Copied(s: Files, original: Files, current: Location, target: Location, todo: set<Location>) {
      && (forall p :: p in original && Under(p, current) && p !in todo ==>
            Moved(p, current, target) in s && s[Moved(p, current, target)] == original[p])
      && (forall q :: q in s && Under(q, target) ==> Moved(q, target, current) in original)
    }

    lemma CopiedOne(s: Files, original: Files, current: Location, target: Location, todo: set<Location>, p: Location)
      requires Copied(s, original, current, target, todo + {p}) && p in original && Under(p, current)
      ensures Copied(s[Moved(p, current, target) := Torn][Moved(p, current, target) := original[p]], original, current,
                     target, todo)
    {
      var q := Moved(p, current, target);
      assert Moved(q, target, current) == p by {
        assert q[|target|..] == p[|current|..] && p == p[..|current|] + p[|current|..];
      }
      forall x | Under(x, current) && Moved(x, current, target) == q
        ensures x == p
      {
        assert x == x[..|current|] + x[|current|..] && p == p[..|current|] + p[|current|..];
        assert Moved(x, current, target)[|target|..] == x[|current|..] && q[|target|..] == p[|current|..];
      }
    }

    lemma MovedBack(q: Location, current: Location, target: Location)
      requires Under(q, target)
      ensures var p := Moved(q, target, current); Under(p, current) && Moved(p, current, target) == q
    {
      var p := Moved(q, target, current);
      assert p[..|current|] == current && p[|current|..] == q[|target|..];
      assert q == q[..|target|] + q[|target|..];
    }

    /** A whole copy passes the comparison. */
    lemma CopiedIsSame(s: Files, original: Files, current: Location, target: Location)
      requires Copied(s, original, current, target, {}) && SameOutside(s, original, target)
          && Apart(original, current, target)
      requires forall p :: p in original && Under(p, current) ==> !Under(Moved(p, current, target), current)
      ensures SameTrees(s, current, target)
    {
      forall q | q in s && Under(q, target)
        ensures Moved(q, target, current) in s && !Under(q, current)
      {
        MovedBack(q, current, target);
        assert !Under(Moved(q, target, current), target);
      }
    }

    function FilesOf(s: Files, root: Location): set<Location> {
      set p | p in s && Under(p, root)
    }

    lemma NothingCopied(original: Files, current: Location, target: Location)
      requires forall p :: p in original ==> !Under(p, target)
      ensures Copied(original, original, current, target, FilesOf(original, current))
      ensures SameOutside(original, original, target)
    {
    }

    /** `copytree`: the files in any order, each first cut short and then whole. */
    method CopyTree(current: Location, target: Location, faults: Faults, ghost original: Files)
      returns (ok: bool, ghost trail: seq<Files>)
      requires files == original && Apart(original, current, target) && forall p :: p in files ==> !Under(p, target)
      modifies `files
      ensures ok <==> Copies(faults, original, current)
      ensures ok && faults.garbled.None? ==> Copied(files, original, current, target, {})
      ensures Building(trail, original, target) && SameOutside(files, original, target)
      ensures trail != [] && trail[|trail| - 1] == files
    {
      hide Copied, SameOutside;
      NothingCopied(original, current, target);
      trail := [files];
      var todo := FilesOf(files, current);
      var n: nat := 0;
      while todo != {}
        invariant todo <= original.Keys && forall p :: p in todo ==> Under(p, current)
        invariant n + |todo| == |FilesOf(original, current)| && (faults.failAt.Some? ==> faults.failAt.value >= n)
        invariant Building(trail, original, target) && SameOutside(files, original, target)
        invariant trail != [] && trail[|trail| - 1] == files
        invariant faults.garbled.None? ==> Copied(files, original, current, target, todo)
        decreases |todo|
      {
        var p :| p in todo;
        ghost var was, before := files, todo;
        todo := todo - {p};
        assert todo + {p} == before;
        StillThere(files, original, p, current, target);
        var q, content := Moved(p, current, target), files[p];
        WrittenInside(files, original, target, q, Torn);
        files := files[q := Torn];
        trail := trail + [files];
        if faults.failAt == Some(n) { return false, trail; }
        if faults.garbled != Some(n) {
          WrittenInside(files, original, target, q, content);
          files := files[q := content];
          trail := trail + [files];
          if faults.garbled.None? { CopiedOne(was, original, current, target, todo, p); }
        }
        n := n + 1;
      }
      ok := faults.failAt != Some(n);
    }

    /** `rmtree` with errors ignored: the files in any order, but for those that are stuck. */
    method RemoveTree(root: Location, stuck: set<Location>) returns (ghost trail: seq<Files>)
      modifies `files
      ensures forall i :: 0 <= i < |trail| ==> Pruned(trail[i], old(files), root)
      ensures Pruned(files, old(files), root) && forall p :: p in files && Under(p, root) ==> p in stuck
      ensures files == if trail == [] then old(files) else trail[|trail| - 1]
    {
      trail := [];
      var todo := set p | p in files && Under(p, root) && p !in stuck;
      while todo != {}
        invariant todo == set p | p in files && Under(p, root) && p !in stuck
        invariant files == if trail == [] then old(files) else trail[|trail| - 1]
        invariant Pruned(files, old(files), root) && forall i :: 0 <= i < |trail| ==> Pruned(trail[i], old(files), root)
        decreases |todo|
      {
        var p :| p in todo;
        files, todo := files - {p}, todo - {p};
        trail := trail + [files];
      }
      forall p | p in files && Under(p, root)
        ensures p in stuck
      {
        assert p in todo || p in stuck;
      }
    }

    /** Some files under the root are gone, and nothing else changed. */
    ghost predicate Pruned(s: Files, before: Files, root: Location) {
      && (forall p :: p in s ==> p in before && s[p] == before[p])
      && (forall p :: p in before && !Under(p, root) ==> p in s)
    }

    /** The configuration file is replaced in one step. */
    method Save()
      modifies `files
      ensures files == old(files)[config := Config(overrides)]
    {
      files := files[config := Config(overrides)];
    }

    /** `_restore`: clear the target, and put the old configuration back. */
    method Restore(key: Key, previous: Option<Location>, target: Location, stuck: set<Location>)
      returns (ghost trail: seq<Files>)
      modifies this
      ensures overrides == if previous.Some? then old(overrides)[key := previous.value] else old(overrides) - {key}
      ensures forall i :: 0 <= i < |trail| ==> Pruned(trail[i], old(files), target) || trail[i] == files
      ensures trail != [] && trail[|trail| - 1] == files
      ensures exists cleared: Files ::
                Pruned(cleared, old(files), target) && files == cleared[config := Config(overrides)]
      ensures forall p :: p in files && Under(p, target) ==> p in stuck || p == config
    {
      trail := RemoveTree(target, stuck);
      ghost var cleared := files;
      assert forall p :: p in cleared && Under(p, target) ==> p in stuck;
      overrides := if previous.Some? then overrides[key := previous.value] else overrides - {key};
      Save();
      trail := trail + [files];
      assert Pruned(cleared, old(files), target) && files == cleared[config := Config(overrides)];
    }

    // ----- The migration -----

    /** The configuration file lies outside both roots. */
    predicate ConfigOutside(current: Location, target: Location) {
      !Under(config, current) && !Under(config, target)
    }

    lemma BuildingIsGood(s: Files, original: Files, key: Key, target: Location)
      requires SameOutside(s, original, target) && !Under(config, target)
      requires Apart(original, Resolve(Loaded(original), key), target)
      ensures Good(s, key, original, Resolve(Loaded(original), key))
    {
      var current := Resolve(Loaded(original), key);
      forall p | p in original && Under(p, current)
        ensures Moved(p, current, current) in s && s[Moved(p, current, current)] == original[p]
      {
        assert Moved(p, current, current) == p;
      }
    }

    /** The copy is whole and apart from the old root, and the switched configuration leads to it. */
    ghost predicate Switched(s: Files, key: Key, original: Files, current: Location, target: Location) {
      && config in s && s[config].Config? && key in s[config].overrides && s[config].overrides[key] == target
      && Holds(s, target, original, current)
    }

    lemma SwitchedIsGood(s: Files, key: Key, original: Files, current: Location, target: Location)
      requires Switched(s, key, original, current, target)
      ensures Good(s, key, original, current)
    {
    }

    /** Deleting the old root cannot reach the new copy. */
    lemma PrunedStaysSwitched(s: Files, t: Files, key: Key, original: Files, current: Location, target: Location)
      requires Switched(s, key, original, current, target) && Pruned(t, s, current) && !Under(config, current)
      requires forall p :: p in original && Under(p, current) ==> !Under(Moved(p, current, target), current)
      ensures Switched(t, key, original, current, target)
    {
    }

    /** The verified copy, after the configuration was saved. */
    lemma SavedIsSwitched(s: Files, o: map<Key, Location>, key: Key, original: Files, current: Location,
                          target: Location)
      requires SameTrees(s, current, target) && SameOutside(s, original, target) && Apart(original, current, target)
      requires ConfigOutside(current, target) && key in o && o[key] == target
      ensures Switched(s[config := Config(o)], key, original, current, target)
    {
      forall p | p in original && Under(p, current)
        ensures Moved(p, current, target) in s && Moved(p, current, target) != config
                && s[Moved(p, current, target)] == original[p]
      {
        StillThere(s, original, p, current, target);
      }
    }

    /** After a restore the old configuration leads to the untouched old root. */
    lemma RestoredIsGood(s: Files, cleared: Files, before: Files, original: Files, key: Key, target: Location)
      requires SameOutside(before, original, target) && Pruned(cleared, before, target) && !Under(config, target)
      requires Apart(original, Resolve(Loaded(original), key), target) && !Under(config, Resolve(Loaded(original), key))
      requires s == cleared || s == cleared[config := Config(Loaded(original))]
      ensures Good(s, key, original, Resolve(Loaded(original), key))
    {
      var current := Resolve(Loaded(original), key);
      forall p | p in original && Under(p, current)
        ensures Moved(p, current, current) in s && s[Moved(p, current, current)] == original[p]
      {
        assert Moved(p, current, current) == p;
      }
    }

    /** Nothing changed but the target, which is cleared, and the configuration file. */
    ghost predicate GivenUp(s: Files, original: Files, target: Location, stuck: set<Location>) {
      && (forall p :: p != config && !Under(p, target) ==>
            (p in s <==> p in original) && (p in s ==> s[p] == original[p]))
      && (forall p :: p in s && Under(p, target) ==> p in stuck || p == config)
    }

    /** The old root is deleted, and nothing changed outside the two roots but the configuration file. */
    ghost predicate Finished(s: Files, original: Files, current: Location, target: Location, stuck: set<Location>) {
      && (forall p :: p in s && Under(p, current) ==> p in stuck)
      && (forall p :: p != config && !Under(p, target) && !Under(p, current) ==>
            (p in s <==> p in original) && (p in s ==> s[p] == original[p]))
      && (!Under(config, current) ==> config in s)
    }

    /** A trail that ends in this disk and, if the configuration is outside the roots, is safe throughout. */
    ghost predicate SafeTrail(trail: seq<Files>, s: Files, key: Key, original: Files, current: Location,
                              target: Location) {
      && trail != [] && trail[|trail| - 1] == s
      && (ConfigOutside(current, target) ==> AllGood(trail, key, original, current))
    }

    lemma BuildingIsSafe(trail: seq<Files>, s: Files, key: Key, original: Files, target: Location)
      requires Building(trail, original, target) && trail != [] && trail[|trail| - 1] == s
      requires Apart(original, Resolve(Loaded(original), key), target)
      ensures SafeTrail(trail, s, key, original, Resolve(Loaded(original), key), target)
    {
      var current := Resolve(Loaded(original), key);
      if ConfigOutside(current, target) {
        forall i | 0 <= i < |trail|
          ensures Good(trail[i], key, original, current)
        {
          BuildingIsGood(trail[i], original, key, target);
        }
      }
    }

    lemma LongerTrail(trail: seq<Files>, more: seq<Files>, before: Files, s: Files, key: Key, original: Files,
                      current: Location, target: Location)
      requires SafeTrail(trail, before, key, original, current, target)
      requires if more == [] then s == before else more[|more| - 1] == s
      requires ConfigOutside(current, target) ==> AllGood(more, key, original, current)
      ensures SafeTrail(trail + more, s, key, original, current, target)
    {
    }

    /** Any failure: restore, and end where the migration started. */
    method GiveUp(key: Key, target: Location, previous: Option<Location>, stuck: set<Location>, ghost original: Files,
                  ghost before: seq<Files>)
      returns (ghost trail: seq<Files>)
      requires SameOutside(files, original, target) && Apart(original, Resolve(Loaded(original), key), target)
      requires SafeTrail(before, files, key, original, Resolve(Loaded(original), key), target)
      requires (if previous.Some? then overrides[key := previous.value] else overrides - {key}) == Loaded(original)
      modifies this
      ensures overrides == Loaded(original) && Synced() && GivenUp(files, original, target, stuck)
      ensures SafeTrail(trail, files, key, original, Resolve(Loaded(original), key), target)
    {
      ghost var current := Resolve(Loaded(original), key);
      ghost var built := files;
      ghost var more := Restore(key, previous, target, stuck);
      ghost var cleared: Files :| Pruned(cleared, built, target) && files == cleared[config := Config(overrides)];
      if ConfigOutside(current, target) {
        forall i | 0 <= i < |more|
          ensures Good(more[i], key, original, current)
        {
          RestoredIsGood(more[i], if more[i] == files then cleared else more[i], built, original, key, target);
        }
      }
      LongerTrail(before, more, built, files, key, original, current, target);
      trail := before + more;
    }

    /** The switch and the deletion of the old root. */
    method Finish(key: Key, current: Location, target: Location, stuck: set<Location>, ghost original: Files,
                  ghost before: seq<Files>)
      returns (ghost trail: seq<Files>)
      requires SameOutside(files, original, target) && SameTrees(files, current, target)
          && Apart(original, current, target)
      requires forall p :: p in original && Under(p, current) ==> !Under(Moved(p, current, target), current)
      requires SafeTrail(before, files, key, original, current, target)
      modifies this
      ensures overrides == old(overrides)[key := target] && Finished(files, original, current, target, stuck)
      ensures Loaded(files) == if config in files then overrides else map[]
      ensures SafeTrail(trail, files, key, original, current, target)
    {
      ghost var copied := files;
      overrides := overrides[key := target];
      Save();
      ghost var saved := files;
      if ConfigOutside(current, target) {
        SavedIsSwitched(copied, overrides, key, original, current, target);
      }
      ghost var more := RemoveTree(current, stuck);
      if ConfigOutside(current, target) {
        forall i | 0 <= i < |([saved] + more)|
          ensures Good(([saved] + more)[i], key, original, current)
        {
          PrunedStaysSwitched(saved, ([saved] + more)[i], key, original, current, target);
          SwitchedIsGood(([saved] + more)[i], key, original, current, target);
        }
      }
      LongerTrail(before, [saved] + more, copied, files, key, original, current, target);
      trail := before + ([saved] + more);
    }

    /** `migrate`, with the states the disk went through.  When the configuration file is
        outside both roots, a crash at any of them is safe: a restart finds the whole root.
        A handled failure ends with the old configuration and the old root; a success leads
        to the copy, deletes nothing outside the old root, and is what happens unless the copy
        fails or comes out wrong, or the configuration cannot be saved.  A target inside the
        installation is always refused, with nothing changed. */
    method Migrate(key: Key, target: Location, faults: Faults) returns (r: Result, ghost trail: seq<Files>)
      requires Synced()
      modifies this
      ensures var current := Resolve(old(overrides), key); var refusal := Refusal(old(files), key, current, target);
              if refusal.Some?
              then r == refusal.value && files == old(files) && overrides == old(overrides) && trail == [files]
              else
                && SafeTrail(trail, files, key, old(files), current, target)
                && (r == VerificationFailed || r == Failed ==>
                      Synced() && overrides == old(overrides) && GivenUp(files, old(files), target, faults.stuck))
                && (r != VerificationFailed && r != Failed ==>
                      && r == Migrated && overrides == old(overrides)[key := target]
                      && Loaded(files) == (if config in files then overrides else map[])
                      && Finished(files, old(files), current, target, faults.stuck))
                && (!Copies(faults, old(files), current) ==> r == Failed)
                && (Copies(faults, old(files), current) && !faults.saveFails ==> r != Failed)
                && (Copies(faults, old(files), current) && faults.garbled.None? ==>
                      r == if faults.saveFails then Failed else Migrated)
      ensures r == InsideInstall <==> key in {Memory, Workspace} && InInstall(target)
      ensures r == InsideInstall ==> files == old(files) && overrides == old(overrides)
    {
      hide SafeTrail, GivenUp, Finished, Copies, Refusal, InInstall, Occupied;
      var current := Resolve(overrides, key);
      var refusal := Refusal(files, key, current, target);
      RefusesExactly(files, key, current, target);
      if refusal.Some? {
        trail := [files];
        return refusal.value, trail;
      }
      r, trail := MoveTree(key, current, target, faults);
    }

    /** No copy fails: the failure is set to come after the last file, or not at all. */
    predicate Copies(faults: Faults, s: Files, current: Location) {
      faults.failAt.None? || faults.failAt.value > |FilesOf(s, current)|
    }

    /** The migration proper, once nothing stands in its way. */
    method MoveTree(key: Key, current: Location, target: Location, faults: Faults)
      returns (r: Result, ghost trail: seq<Files>)
      requires Synced() && current == Resolve(overrides, key) && Refusal(files, key, current, target).None?
      modifies this
      ensures SafeTrail(trail, files, key, old(files), current, target)
      ensures r in {VerificationFailed, Failed, Migrated}
      ensures r != Migrated ==>
                Synced() && overrides == old(overrides) && GivenUp(files, old(files), target, faults.stuck)
      ensures r == Migrated ==>
                && overrides == old(overrides)[key := target]
                && Loaded(files) == (if config in files then overrides else map[])
                && Finished(files, old(files), current, target, faults.stuck)
      ensures !Copies(faults, old(files), current) ==> r == Failed
      ensures Copies(faults, old(files), current) && !faults.saveFails ==> r != Failed
      ensures Copies(faults, old(files), current) && faults.garbled.None? ==>
                r == if faults.saveFails then Failed else Migrated
    {
      ghost var original := files;
      var previous := if key in overrides then Some(overrides[key]) else None;
      assert (if previous.Some? then overrides[key := previous.value] else overrides - {key}) == Loaded(original);
      RootsApart(files, key, current, target);
      var ok;
      ok, trail := CopyTree(current, target, faults, files);
      BuildingIsSafe(trail, files, key, original, target);
      if !ok {
        trail := GiveUp(key, target, previous, faults.stuck, original, trail);
        return Failed, trail;
      }
      if faults.garbled.None? {
        CopiedIsSame(files, original, current, target);
      }
      if !SameTrees(files, current, target) {
        trail := GiveUp(key, target, previous, faults.stuck, original, trail);
        return VerificationFailed, trail;
      }
      if faults.saveFails {
        ghost var was := overrides;
        overrides := overrides[key := target];
        assert (if previous.Some? then overrides[key := previous.value] else overrides - {key}) == was;
        trail := GiveUp(key, target, previous, faults.stuck, original, trail);
        return Failed, trail;
      }
      trail := Finish(key, current, target, faults.stuck, original, trail);
      r := Migrated;
    }

    // ----- Where it is not safe -----

    /** After a complete migration a restart finds the new copy exactly if the configuration
        file was not deleted with the old root, or the default is the new place anyway. */
    lemma RestartFindsTheCopyIff(s: Files, original: Files, o: map<Key, Location>, key: Key, current: Location,
                                 target: Location)
      requires Finished(s, original, current, target, {})
      requires Loaded(s) == if config in s then o[key := target] else map[]
      ensures Resolve(Loaded(s), key) == target <==> !Under(config, current) || Default(key) == target
    {
    }

    /** A complete migration keeps another root whole exactly if none of its files lay
        inside the root that moved: a workspace placed in the memory root is lost with it. */
    lemma OtherRootSurvivesIff(s: Files, original: Files, key: Key, current: Location, target: Location,
                               other: Location)
      requires Refusal(original, key, current, target).None? && Finished(s, original, current, target, {})
      requires !Under(config, other)
      ensures (forall p :: p in original && Under(p, other) ==> p in s && s[p] == original[p])
              <==> (forall p :: p in original && Under(p, other) ==> !Under(p, current))
    {
      if forall p :: p in original && Under(p, other) ==> !Under(p, current) {
        forall p | p in original && Under(p, other)
          ensures p in s && s[p] == original[p]
        {
          assert !Under(p, target);
        }
      }
    }
  }

  // ----- Witnesses -----

  const NO_FAULTS := Faults(None, None, false, {})

  /** The memory root is the directory that holds the configuration file.  Moving it loses
      the setting: a restart looks in the default place, where nothing is left. */
  method MoveMemoryWithConfiguration(dataRoot: Location, appInstall: Location, notes: Content)
    returns (registry: StorageRegistry)
    requires appInstall != [] && |dataRoot| > 0 && appInstall[0] != dataRoot[0]
    ensures fresh(registry) && registry.overrides == map[Memory := dataRoot + ["moved"]]
    ensures registry.Resolve(registry.Loaded(registry.files), Memory) == dataRoot + ["runtime", "memory"]
    ensures forall p :: p in registry.files ==> !Under(p, dataRoot + ["runtime"])
  {
    var home, target := dataRoot + ["runtime"], dataRoot + ["moved"];
    var config := home + ["storage.json"];
    var files: Files := map[config := Config(map[Memory := home]), home + ["notes"] := notes];
    registry := new StorageRegistry(dataRoot, appInstall, config, files);
    assert home[|dataRoot|] != target[|dataRoot|];
    assert target[0] == dataRoot[0];
    assert forall p :: p in files ==> p[|dataRoot|] == home[|dataRoot|];
    assert registry.Refusal(files, Memory, home, target).None?;
    var r, _ := registry.Migrate(Memory, target, NO_FAULTS);
    assert Under(config, home);
  }

  /** A workspace root is moved into the memory root, which nothing forbids. */
  method MoveWorkspaceIntoMemory(dataRoot: Location, appInstall: Location, work: Content)
    returns (registry: StorageRegistry)
    requires appInstall != [] && |dataRoot| > 0 && appInstall[0] != dataRoot[0]
    ensures fresh(registry) && registry.dataRoot == dataRoot && registry.appInstall == appInstall
    ensures registry.config == dataRoot + ["runtime", "storage.json"] && registry.Synced()
    ensures registry.overrides == map[Workspace := dataRoot + ["runtime", "memory", "workspace"]]
    ensures dataRoot + ["runtime", "memory", "workspace", "work"] in registry.files
    ensures forall p :: p in registry.files ==> |p| > |dataRoot| && p[|dataRoot|] == "runtime"
  {
    var runtime, n := dataRoot + ["runtime"], |dataRoot|;
    var workspaces, nested, config :=
      runtime + ["workspaces"], runtime + ["memory", "workspace"], runtime + ["storage.json"];
    var files: Files := map[workspaces + ["work"] := work];
    registry := new StorageRegistry(dataRoot, appInstall, config, files);
    assert workspaces == dataRoot + ["runtime", "workspaces"] && config == dataRoot + ["runtime", "storage.json"];
    assert nested == dataRoot + ["runtime", "memory", "workspace"] && nested[0] == dataRoot[0];
    assert workspaces[n + 1] == "workspaces" && nested[n + 1] == "memory" && config[n + 1] == "storage.json";
    assert registry.Refusal(files, Workspace, workspaces, nested).None?;
    var first; ghost var trail;
    first, trail := registry.Migrate(Workspace, nested, NO_FAULTS);
    var there := nested + ["work"];
    assert there == dataRoot + ["runtime", "memory", "workspace", "work"];
    assert Moved(workspaces + ["work"], workspaces, nested) == there;
    assert registry.Good(trail[|trail| - 1], Workspace, files, workspaces);
    assert nested[n] == workspaces[n] == config[n] == "runtime";
  }

  /** Moving the memory root then deletes the workspace: its setting still names the old
      place, where nothing is left. */
  method MoveMemoryAroundWorkspace(dataRoot: Location, appInstall: Location, work: Content)
    returns (registry: StorageRegistry)
    requires appInstall != [] && |dataRoot| > 0 && appInstall[0] != dataRoot[0]
    ensures fresh(registry)
    ensures registry.Resolve(registry.Loaded(registry.files), Workspace)
            == dataRoot + ["runtime", "memory", "workspace"]
    ensures forall p :: p in registry.files ==> !Under(p, dataRoot + ["runtime", "memory", "workspace"])
  {
    var memory, target, n := dataRoot + ["runtime", "memory"], dataRoot + ["moved"], |dataRoot|;
    registry := MoveWorkspaceIntoMemory(dataRoot, appInstall, work);
    assert target[0] == dataRoot[0] && target[n] == "moved" && memory[n] == "runtime";
    assert registry.config[n + 1] == "storage.json" && memory[n + 1] == "memory";
    assert registry.Refusal(registry.files, Memory, memory, target).None?;
    var second, _ := registry.Migrate(Memory, target, NO_FAULTS);
    UnderNested(dataRoot, memory);
  }

  lemma UnderNested(dataRoot: Location, memory: Location)
    requires memory == dataRoot + ["runtime", "memory"]
    ensures forall p :: Under(p, dataRoot + ["runtime", "memory", "workspace"]) ==> Under(p, memory)
  {
    var nested := dataRoot + ["runtime", "memory", "workspace"];
    assert nested[..|memory|] == memory;
    forall p | Under(p, nested)
      ensures Under(p, memory)
    {
      assert p[..|memory|] == p[..|nested|][..|memory|];
    }
  }
}
