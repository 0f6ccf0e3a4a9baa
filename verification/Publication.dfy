/** Publishing a migration: stage, write, synchronise, rename without replacing.
  * Models crates/mads-cli/src/database/publish.rs.
  *
  * The disk is the `migrations` directory. Before each of our calls a rival may
  * make the directory, or create entries in it, under any name but never over an
  * entry that exists; each call may fail, a failing write may leave a file with
  * any contents and a failing removal any part of the directory.
  */
module Publication {
  import opened Wrappers

  datatype Node = PlainFile | Directory(files: map<string, string>)

  datatype Parent = Absent | NotADirectory | Present(entries: map<string, Node>)

  /** `history` lists every state of the directory so far, the current one last. */
  datatype Disk = Disk(parent: Parent, clock: nat, history: seq<Parent>)

  datatype Names = Names(staging: string, final: string)

  /** The world's choices, by the number of the call they meet. */
  datatype World = World(
    fails: nat -> bool,
    leaves: nat -> Option<string>,
    survives: nat -> set<string>,
    makesParent: nat -> bool,
    rival: nat -> map<string, Node>)

  datatype PublishError =
    | BadTimestamp | ParentFailed | StagingFailed | UpFailed | DownFailed | StagingSyncFailed | PrepareFailed
    | RenameFailed
    | DurabilityUncertain

  datatype Step = Step(disk: Disk, ok: bool)

  datatype PublishResult = PublishResult(disk: Disk, result: Result<string, PublishError>)

  // ----- the directory -----

  function Entries(p: Parent): map<string, Node> {
    if p.Present? then p.entries else map[]
  }

  function Complete(up: string, down: string): Node {
    Directory(map["up.sql" := up, "down.sql" := down])
  }

  /** The rival creates what does not exist yet, the directory itself included. */
  function Arrive(p: Parent, makesParent: bool, extra: map<string, Node>): Parent {
    match p
    case Absent => if makesParent || extra != map[] then Present(extra) else Absent
    case NotADirectory => p
    case Present(entries) => Present(extra + entries)
  }

  function Become(d: Disk, p: Parent): Disk {
    d.(parent := p, history := d.history + [p])
  }

  /** The moment before a call. */
  function Tick(d: Disk, w: World): Disk {
    Become(d, Arrive(d.parent, w.makesParent(d.clock), w.rival(d.clock))).(clock := d.clock + 1)
  }

  // ----- specification: the calls -----

  datatype ParentStep = ParentStep(disk: Disk, result: Option<bool>)

  /** `create_dir` on the parent: `Some(true)` when we created it, `Some(false)` when it was there. */
  function MakeParent(d: Disk, w: World): ParentStep {
    var t := Tick(d, w);
    if w.fails(d.clock) then ParentStep(t, None)
    else
      match t.parent
      case Absent => ParentStep(Become(t, Present(map[])), Some(true))
      case NotADirectory => ParentStep(t, None)
      case Present(_) => ParentStep(t, Some(false))
  }

  function MakeStaging(d: Disk, w: World, names: Names): Step {
    var t := Tick(d, w);
    if w.fails(d.clock) || !t.parent.Present? || names.staging in t.parent.entries then Step(t, false)
    else Step(Become(t, Present(t.parent.entries[names.staging := Directory(map[])])), true)
  }

  function WithFile(p: Parent, staging: string, file: string, contents: string): Parent {
    if p.Present? && staging in p.entries && p.entries[staging].Directory?
    then Present(p.entries[staging := Directory(p.entries[staging].files[file := contents])])
    else p
  }

  /** `write_new_file` into the staging directory. */
  function WriteNewFile(d: Disk, w: World, names: Names, file: string, contents: string): Step {
    var t := Tick(d, w);
    var possible := names.staging in Entries(t.parent) && Entries(t.parent)[names.staging].Directory?
                    && file !in Entries(t.parent)[names.staging].files;
    if !possible then Step(t, false)
    else if !w.fails(d.clock) then Step(Become(t, WithFile(t.parent, names.staging, file, contents)), true)
    else if w.leaves(d.clock).Some?
    then Step(Become(t, WithFile(t.parent, names.staging, file, w.leaves(d.clock).value)), false)
    else Step(t, false)
  }

  /** A call without effect on the entries: a synchronisation or the hook before publication. */
  function Quiet(d: Disk, w: World): Step {
    Step(Tick(d, w), !w.fails(d.clock))
  }

  /** `renameat2` with `RENAME_NOREPLACE`. */
  function RenameStaging(d: Disk, w: World, names: Names): Step {
    var t := Tick(d, w);
    var entries := Entries(t.parent);
    if w.fails(d.clock) || names.final in entries || names.staging !in entries then Step(t, false)
    else Step(Become(t, Present((entries - {names.staging})[names.final := entries[names.staging]])), true)
  }

  /** `remove_dir_all` on the staging directory. */
  function RemoveStaging(d: Disk, w: World, names: Names): Disk {
    var t := Tick(d, w);
    var entries := Entries(t.parent);
    if names.staging !in entries then t
    else if !w.fails(d.clock) then Become(t, Present(entries - {names.staging}))
    else if !entries[names.staging].Directory? then t
    else
      var files := entries[names.staging].files;
      Become(t,
             Present(entries[names.staging := Directory(map f | f in files && f in w.survives(d.clock) :: files[f])]))
  }

  /** `remove_dir` on the parent, which refuses to remove anything but an empty directory. */
  function RemoveParent(d: Disk, w: World): Disk {
    var t := Tick(d, w);
    if w.fails(d.clock) || t.parent != Present(map[]) then t else Become(t, Absent)
  }

  // ----- specification: the protocol -----

  datatype Attempt = Attempt(disk: Disk, error: Option<PublishError>)

  /** Both files, their directory synchronised, and the hook before publication. */
  function Prepare(d: Disk, w: World, names: Names, up: string, down: string): Attempt {
    var first := WriteNewFile(d, w, names, "up.sql", up);
    if !first.ok then Attempt(first.disk, Some(UpFailed))
    else
      var second := WriteNewFile(first.disk, w, names, "down.sql", down);
      if !second.ok then Attempt(second.disk, Some(DownFailed))
      else
        var synced := Quiet(second.disk, w);
        if !synced.ok then Attempt(synced.disk, Some(StagingSyncFailed))
        else
          var prepared := Quiet(synced.disk, w);
          Attempt(prepared.disk, if prepared.ok then None else Some(PrepareFailed))
  }

  /** The rename and the synchronisation that makes it last. */
  function RenameAndSync(d: Disk, w: World, names: Names): Attempt {
    var renamed := RenameStaging(d, w, names);
    if !renamed.ok then Attempt(renamed.disk, Some(RenameFailed))
    else
      var durable := Quiet(renamed.disk, w);
      Attempt(durable.disk, if durable.ok then None else Some(DurabilityUncertain))
  }

  /** Everything between the staging directory and the final synchronisation. */
  function Fill(d: Disk, w: World, names: Names, up: string, down: string): Attempt {
    var prepared := Prepare(d, w, names, up, down);
    if prepared.error.Some? then prepared else RenameAndSync(prepared.disk, w, names)
  }

  /** What dropping the armed guard does. */
  function CleanUp(d: Disk, w: World, names: Names, parentCreated: bool): Disk {
    var removed := RemoveStaging(d, w, names);
    if parentCreated then RemoveParent(removed, w) else removed
  }

  /** Filling, renaming and what the guard then does. */
  function Finish(d: Disk, w: World, names: Names, up: string, down: string, created: bool): PublishResult {
    var filled := Fill(d, w, names, up, down);
    if filled.error.None? then PublishResult(filled.disk, Success(names.final))
    else PublishResult(CleanUp(filled.disk, w, names, created), Failure(filled.error.value))
  }

  predicate IsTimestamp(s: string) {
    |s| == 20 && forall c | c in s :: '0' <= c <= '9'
  }

  function NamesFor(timestamp: string): Names {
    Names(".mads-" + timestamp + "-schema-diff.tmp", timestamp + "_schema_diff")
  }

  function Publish(d: Disk, w: World, timestamp: string, up: string, down: string): PublishResult {
    var names := NamesFor(timestamp);
    if !IsTimestamp(timestamp) then PublishResult(d, Failure(BadTimestamp))
    else
      var parent := MakeParent(d, w);
      if parent.result.None? then PublishResult(parent.disk, Failure(ParentFailed))
      else
        var created := parent.result.value;
        var staging := MakeStaging(parent.disk, w, names);
        if !staging.ok
        then PublishResult(if created then RemoveParent(staging.disk, w) else staging.disk, Failure(StagingFailed))
        else Finish(staging.disk, w, names, up, down, created)
  }

  // ----- the protocol as it runs -----

  class FileSystem {
    var parent: Parent
    var clock: nat
    ghost var history: seq<Parent>

    ghost function View(): Disk
      reads this
    {
      Disk(parent, clock, history)
    }

    constructor (p: Parent)
      ensures View() == Disk(p, 0, [p])
    {
      parent, clock, history := p, 0, [p];
    }

    method Set(p: Parent)
      modifies `parent, `history
      ensures View() == Become(old(View()), p)
    {
      parent, history := p, history + [p];
    }

    method LetRivalAct(w: World)
      modifies this
      ensures View() == Tick(old(View()), w)
    {
      Set(Arrive(parent, w.makesParent(clock), w.rival(clock)));
      clock := clock + 1;
    }

    method CreateParent(w: World) returns (result: Option<bool>)
      modifies this
      ensures ParentStep(View(), result) == MakeParent(old(View()), w)
    {
      var failed := w.fails(clock);
      LetRivalAct(w);
      if failed || parent.NotADirectory? {
        return None;
      }
      if parent.Present? {
        return Some(false);
      }
      Set(Present(map[]));
      return Some(true);
    }

    method CreateStaging(w: World, names: Names) returns (ok: bool)
      modifies this
      ensures Step(View(), ok) == MakeStaging(old(View()), w, names)
    {
      var failed := w.fails(clock);
      LetRivalAct(w);
      if failed || !parent.Present? || names.staging in parent.entries {
        return false;
      }
      Set(Present(parent.entries[names.staging := Directory(map[])]));
      return true;
    }

    method WriteFile(w: World, names: Names, file: string, contents: string) returns (ok: bool)
      modifies this
      ensures Step(View(), ok) == WriteNewFile(old(View()), w, names, file, contents)
    {
      var failed, left := w.fails(clock), w.leaves(clock);
      LetRivalAct(w);
      var entries := Entries(parent);
      if names.staging !in entries || !entries[names.staging].Directory? || file in entries[names.staging].files {
        return false;
      }
      if failed {
        if left.Some? {
          Set(WithFile(parent, names.staging, file, left.value));
        }
        return false;
      }
      Set(WithFile(parent, names.staging, file, contents));
      return true;
    }

    method CallQuietly(w: World) returns (ok: bool)
      modifies this
      ensures Step(View(), ok) == Quiet(old(View()), w)
    {
      ok := !w.fails(clock);
      LetRivalAct(w);
    }

    method PublishWithoutReplacement(w: World, names: Names) returns (ok: bool)
      modifies this
      ensures Step(View(), ok) == RenameStaging(old(View()), w, names)
    {
      var failed := w.fails(clock);
      LetRivalAct(w);
      var entries := Entries(parent);
      if failed || names.final in entries || names.staging !in entries {
        return false;
      }
      Set(Present((entries - {names.staging})[names.final := entries[names.staging]]));
      return true;
    }

    method RemoveStagingTree(w: World, names: Names)
      modifies this
      ensures View() == RemoveStaging(old(View()), w, names)
    {
      var failed, survivors := w.fails(clock), w.survives(clock);
      LetRivalAct(w);
      var entries := Entries(parent);
      if names.staging in entries {
        if !failed {
          Set(Present(entries - {names.staging}));
        } else if entries[names.staging].Directory? {
          var files := entries[names.staging].files;
          Set(Present(entries[names.staging := Directory(map f | f in files && f in survivors :: files[f])]));
        }
      }
    }

    method RemoveEmptyParent(w: World)
      modifies this
      ensures View() == RemoveParent(old(View()), w)
    {
      var failed := w.fails(clock);
      LetRivalAct(w);
      if !failed && parent == Present(map[]) {
        Set(Absent);
      }
    }
  }

  /** Removes what was staged unless publication disarmed it. */
  class PublishGuard {
    const names: Names
    const parentCreated: bool
    var armed: bool

    constructor (names: Names, parentCreated: bool)
      ensures this.names == names && this.parentCreated == parentCreated && armed
    {
      this.names, this.parentCreated, armed := names, parentCreated, true;
    }

    method Disarm()
      modifies this
      ensures !armed
    {
      armed := false;
    }

    method Drop(fs: FileSystem, w: World)
      modifies fs
      ensures fs.View() == if armed then CleanUp(old(fs.View()), w, names, parentCreated) else old(fs.View())
    {
      if !armed {
        return;
      }
      fs.RemoveStagingTree(w, names);
      if parentCreated {
        fs.RemoveEmptyParent(w);
      }
    }
  }

  method FillAndRename(fs: FileSystem, w: World, names: Names, up: string, down: string)
    returns (error: Option<PublishError>)
    modifies fs
    ensures Attempt(fs.View(), error) == Fill(old(fs.View()), w, names, up, down)
  {
    var ok := fs.WriteFile(w, names, "up.sql", up);
    if !ok { return Some(UpFailed); }
    ok := fs.WriteFile(w, names, "down.sql", down);
    if !ok { return Some(DownFailed); }
    ok := fs.CallQuietly(w);
    if !ok { return Some(StagingSyncFailed); }
    ok := fs.CallQuietly(w);
    if !ok { return Some(PrepareFailed); }
    ok := fs.PublishWithoutReplacement(w, names);
    if !ok { return Some(RenameFailed); }
    ok := fs.CallQuietly(w);
    return if ok then None else Some(DurabilityUncertain);
  }

  method PublishMigration(fs: FileSystem, w: World, timestamp: string, up: string, down: string)
    returns (result: Result<string, PublishError>)
    modifies fs
    ensures PublishResult(fs.View(), result) == Publish(old(fs.View()), w, timestamp, up, down)
  {
    if !IsTimestamp(timestamp) {
      return Failure(BadTimestamp);
    }
    var names := NamesFor(timestamp);
    var created := fs.CreateParent(w);
    if created.None? {
      return Failure(ParentFailed);
    }
    var ok := fs.CreateStaging(w, names);
    if !ok {
      if created.value {
        fs.RemoveEmptyParent(w);
      }
      return Failure(StagingFailed);
    }
    var guard := new PublishGuard(names, created.value);
    var error := FillAndRename(fs, w, names, up, down);
    result := if error.None? then Success(names.final) else Failure(error.value);
    if result.Success? {
      guard.Disarm();
    }
    guard.Drop(fs, w);
  }
}
