/** What publication never does, and what it undoes, whatever fails and whatever a rival creates. */
module PublishSafety {
  import opened Wrappers
  import opened Publication

  // ----- entries other than our staging directory are never changed -----

  ghost predicate Keeps(before: Parent, after: Parent, staging: string) {
    (before.NotADirectory? ==> after == before)
    && forall name | name in Entries(before) && name != staging ::
         name in Entries(after) && Entries(after)[name] == Entries(before)[name]
  }

  /** The entry was there at the start, or some rival made it. */
  ghost predicate Foreign(node: Node, name: string, start: Parent, w: World) {
    (name in Entries(start) && Entries(start)[name] == node)
    || exists n: nat :: name in w.rival(n) && w.rival(n)[name] == node
  }

  ghost predicate OnlyForeign(p: Parent, names: Names, start: Parent, w: World) {
    names.final in Entries(p) ==> Foreign(Entries(p)[names.final], names.final, start, w)
  }

  ghost predicate Orderly(d: Disk, names: Names) {
    |d.history| > 0 && d.history[|d.history| - 1] == d.parent
    && forall i, j | 0 <= i <= j < |d.history| :: Keeps(d.history[i], d.history[j], names.staging)
  }

  /** A history in which nothing is lost and, while `foreign`, no final directory is ours. */
  ghost predicate Sound(d: Disk, names: Names, start: Parent, w: World, foreign: bool) {
    Orderly(d, names) && (foreign ==> forall i | 0 <= i < |d.history| :: OnlyForeign(d.history[i], names, start, w))
  }

  lemma KeepsTransitive(a: Parent, b: Parent, c: Parent, staging: string)
    requires Keeps(a, b, staging) && Keeps(b, c, staging)
    ensures Keeps(a, c, staging)
  {
  }

  lemma Grow(d: Disk, p: Parent, names: Names, start: Parent, w: World, foreign: bool)
    requires Sound(d, names, start, w, foreign)
    requires Keeps(d.parent, p, names.staging)
    requires foreign ==> OnlyForeign(p, names, start, w)
    ensures Sound(Become(d, p), names, start, w, foreign)
  {
    var h := d.history;
    forall i | 0 <= i < |h| ensures Keeps(h[i], p, names.staging) {
      KeepsTransitive(h[i], h[|h| - 1], p, names.staging);
    }
    KeepsItself(p, names.staging);
  }

  lemma KeepsItself(p: Parent, staging: string)
    ensures Keeps(p, p, staging)
  {
  }

  lemma ArriveKeeps(p: Parent, n: nat, names: Names, start: Parent, w: World)
    ensures Keeps(p, Arrive(p, w.makesParent(n), w.rival(n)), names.staging)
    ensures OnlyForeign(p, names, start, w) ==> OnlyForeign(Arrive(p, w.makesParent(n), w.rival(n)), names, start, w)
  {
  }

  lemma TickIsSound(d: Disk, w: World, names: Names, start: Parent, foreign: bool)
    requires Sound(d, names, start, w, foreign)
    ensures Sound(Tick(d, w), names, start, w, foreign)
  {
    ArriveKeeps(d.parent, d.clock, names, start, w);
    Grow(d, Arrive(d.parent, w.makesParent(d.clock), w.rival(d.clock)), names, start, w, foreign);
  }

  // ----- each call -----

  lemma MakeParentIsSound(d: Disk, w: World, names: Names, start: Parent)
    requires Sound(d, names, start, w, true)
    ensures Sound(MakeParent(d, w).disk, names, start, w, true)
  {
    TickIsSound(d, w, names, start, true);
    var t := Tick(d, w);
    if t.parent.Absent? {
      Grow(t, Present(map[]), names, start, w, true);
    }
  }

  lemma StageIsSound(t: Disk, p: Parent, node: Node, names: Names, start: Parent, w: World)
    requires Sound(t, names, start, w, true) && t.parent.Present? && names.final != names.staging
    requires p == Present(t.parent.entries[names.staging := node])
    ensures Sound(Become(t, p), names, start, w, true)
  {
    Grow(t, p, names, start, w, true);
  }

  lemma MakeStagingIsSound(d: Disk, w: World, names: Names, start: Parent)
    requires Sound(d, names, start, w, true) && names.final != names.staging
    ensures Sound(MakeStaging(d, w, names).disk, names, start, w, true)
  {
    TickIsSound(d, w, names, start, true);
    var t := Tick(d, w);
    if t.parent.Present? {
      StageIsSound(t, Present(t.parent.entries[names.staging := Directory(map[])]), Directory(map[]), names, start, w);
    }
  }

  lemma WithFileIsSound(t: Disk, names: Names, file: string, contents: string, start: Parent, w: World)
    requires Sound(t, names, start, w, true) && names.final != names.staging
    ensures Sound(Become(t, WithFile(t.parent, names.staging, file, contents)), names, start, w, true)
  {
    var p := WithFile(t.parent, names.staging, file, contents);
    if p == t.parent {
      KeepsItself(p, names.staging);
      Grow(t, p, names, start, w, true);
    } else {
      StageIsSound(t, p, p.entries[names.staging], names, start, w);
    }
  }

  lemma WriteIsSound(d: Disk, w: World, names: Names, file: string, contents: string, start: Parent)
    requires Sound(d, names, start, w, true) && names.final != names.staging
    ensures Sound(WriteNewFile(d, w, names, file, contents).disk, names, start, w, true)
  {
    TickIsSound(d, w, names, start, true);
    var t := Tick(d, w);
    WithFileIsSound(t, names, file, contents, start, w);
    if w.leaves(d.clock).Some? {
      WithFileIsSound(t, names, file, w.leaves(d.clock).value, start, w);
    }
  }

  lemma RenameIsSound(d: Disk, w: World, names: Names, start: Parent)
    requires Sound(d, names, start, w, true)
    ensures Sound(RenameStaging(d, w, names).disk, names, start, w, !RenameStaging(d, w, names).ok)
  {
    TickIsSound(d, w, names, start, true);
    var t := Tick(d, w);
    var r := RenameStaging(d, w, names);
    if r.ok {
      Grow(t, r.disk.parent, names, start, w, false);
    }
  }

  lemma RemoveStagingIsSound(d: Disk, w: World, names: Names, start: Parent, foreign: bool)
    requires Sound(d, names, start, w, foreign) && names.final != names.staging
    ensures Sound(RemoveStaging(d, w, names), names, start, w, foreign)
    ensures d.history <= RemoveStaging(d, w, names).history
  {
    TickIsSound(d, w, names, start, foreign);
    var t := Tick(d, w);
    var r := RemoveStaging(d, w, names);
    if r != t {
      NowForeign(t, names, start, w, foreign);
      Grow(t, r.parent, names, start, w, foreign);
    }
  }

  lemma NowForeign(d: Disk, names: Names, start: Parent, w: World, foreign: bool)
    requires Sound(d, names, start, w, foreign)
    ensures foreign ==> OnlyForeign(d.parent, names, start, w)
  {
  }

  lemma RemoveParentIsSound(d: Disk, w: World, names: Names, start: Parent, foreign: bool)
    requires Sound(d, names, start, w, foreign)
    ensures Sound(RemoveParent(d, w), names, start, w, foreign)
    ensures d.history <= RemoveParent(d, w).history
  {
    TickIsSound(d, w, names, start, foreign);
    var t := Tick(d, w);
    if t.parent == Present(map[]) {
      Grow(t, Absent, names, start, w, foreign);
    }
  }

  lemma CleanUpIsSound(d: Disk, w: World, names: Names, created: bool, start: Parent, foreign: bool)
    requires Sound(d, names, start, w, foreign) && names.final != names.staging
    ensures Sound(CleanUp(d, w, names, created), names, start, w, foreign)
    ensures d.history <= CleanUp(d, w, names, created).history
  {
    RemoveStagingIsSound(d, w, names, start, foreign);
    RemoveParentIsSound(RemoveStaging(d, w, names), w, names, start, foreign);
  }

  // ----- what stands in the staging directory -----

  ghost predicate Staged(d: Disk, names: Names, node: Node) {
    names.staging in Entries(d.parent) && Entries(d.parent)[names.staging] == node
  }

  lemma TickStages(d: Disk, w: World, names: Names, node: Node)
    requires Staged(d, names, node)
    ensures Staged(Tick(d, w), names, node)
  {
  }

  lemma WriteStages(d: Disk, w: World, names: Names, file: string, contents: string, files: map<string, string>)
    requires Staged(d, names, Directory(files)) && WriteNewFile(d, w, names, file, contents).ok
    ensures Staged(WriteNewFile(d, w, names, file, contents).disk, names, Directory(files[file := contents]))
  {
    TickStages(d, w, names, Directory(files));
  }

  /** The moment a final directory of ours appears; before it there was none. */
  ghost predicate Shown(d: Disk, names: Names, node: Node, k: nat) {
    k < |d.history|
    && (forall i | 0 <= i < k :: names.final !in Entries(d.history[i]))
    && forall i | k <= i < |d.history| ::
         names.final in Entries(d.history[i]) && Entries(d.history[i])[names.final] == node
  }

  lemma ShownStays(d: Disk, e: Disk, names: Names, node: Node, k: nat)
    requires Shown(d, names, node, k) && Orderly(e, names) && d.history <= e.history
    requires names.final != names.staging
    ensures Shown(e, names, node, k)
  {
    forall i | k <= i < |e.history|
      ensures names.final in Entries(e.history[i]) && Entries(e.history[i])[names.final] == node
    {
      assert e.history[k] == d.history[k];
      assert Keeps(e.history[k], e.history[i], names.staging);
    }
  }

  lemma RenameShows(d: Disk, w: World, names: Names, start: Parent, node: Node) returns (k: nat)
    requires Sound(d, names, start, w, true) && Staged(d, names, node) && names.final != names.staging
    requires RenameStaging(d, w, names).ok
    ensures Shown(RenameStaging(d, w, names).disk, names, node, k)
  {
    TickIsSound(d, w, names, start, true);
    TickStages(d, w, names, node);
    var t := Tick(d, w);
    k := |t.history|;
    forall i | 0 <= i < k ensures names.final !in Entries(t.history[i]) {
      assert Keeps(t.history[i], t.history[|t.history| - 1], names.staging);
    }
  }

  lemma PrepareIsSound(d: Disk, w: World, names: Names, up: string, down: string, start: Parent)
    requires Sound(d, names, start, w, true) && names.final != names.staging
    ensures Sound(Prepare(d, w, names, up, down).disk, names, start, w, true)
  {
    var first := WriteNewFile(d, w, names, "up.sql", up).disk;
    var second := WriteNewFile(first, w, names, "down.sql", down).disk;
    WriteIsSound(d, w, names, "up.sql", up, start);
    WriteIsSound(first, w, names, "down.sql", down, start);
    TickIsSound(second, w, names, start, true);
    TickIsSound(Tick(second, w), w, names, start, true);
  }

  lemma PrepareStages(d: Disk, w: World, names: Names, up: string, down: string)
    requires Staged(d, names, Directory(map[])) && Prepare(d, w, names, up, down).error.None?
    ensures Staged(Prepare(d, w, names, up, down).disk, names, Complete(up, down))
  {
    var first := WriteNewFile(d, w, names, "up.sql", up).disk;
    var second := WriteNewFile(first, w, names, "down.sql", down).disk;
    WriteStages(d, w, names, "up.sql", up, map[]);
    WriteStages(first, w, names, "down.sql", down, map["up.sql" := up]);
    assert map["up.sql" := up]["down.sql" := down] == map["up.sql" := up, "down.sql" := down];
    TickStages(second, w, names, Complete(up, down));
    TickStages(Tick(second, w), w, names, Complete(up, down));
  }

  predicate Renamed(error: Option<PublishError>) {
    error == None || error == Some(DurabilityUncertain)
  }

  lemma RenameAndSyncIsSound(d: Disk, w: World, names: Names, start: Parent, node: Node) returns (k: nat)
    requires Sound(d, names, start, w, true) && Staged(d, names, node) && names.final != names.staging
    ensures var f := RenameAndSync(d, w, names);
      Sound(f.disk, names, start, w, !Renamed(f.error)) && (Renamed(f.error) ==> Shown(f.disk, names, node, k))
  {
    k := 0;
    RenameIsSound(d, w, names, start);
    var renamed := RenameStaging(d, w, names);
    if renamed.ok {
      k := RenameShows(d, w, names, start, node);
      TickIsSound(renamed.disk, w, names, start, false);
      ShownStays(renamed.disk, Tick(renamed.disk, w), names, node, k);
    }
  }

  lemma FillIsSound(d: Disk, w: World, names: Names, up: string, down: string, start: Parent) returns (k: nat)
    requires Sound(d, names, start, w, true) && Staged(d, names, Directory(map[])) && names.final != names.staging
    ensures var f := Fill(d, w, names, up, down);
      Sound(f.disk, names, start, w, !Renamed(f.error))
      && (Renamed(f.error) ==> Shown(f.disk, names, Complete(up, down), k))
  {
    k := 0;
    PrepareIsSound(d, w, names, up, down, start);
    var prepared := Prepare(d, w, names, up, down);
    if prepared.error.None? {
      PrepareStages(d, w, names, up, down);
      k := RenameAndSyncIsSound(prepared.disk, w, names, start, Complete(up, down));
    }
  }

  lemma NamesDiffer(timestamp: string)
    requires IsTimestamp(timestamp)
    ensures NamesFor(timestamp).final != NamesFor(timestamp).staging
  {
    assert timestamp[0] in timestamp;
    assert NamesFor(timestamp).final[0] == timestamp[0];
    assert NamesFor(timestamp).staging[0] == '.';
  }

  lemma StartIsSound(d: Disk, names: Names, w: World)
    requires d.history == [d.parent]
    ensures Sound(d, names, d.parent, w, true)
  {
  }

  ghost predicate Published(result: Result<string, PublishError>) {
    result.Success? || result == Failure(DurabilityUncertain)
  }

  lemma OpenedIsSound(d: Disk, w: World, names: Names) returns (staging: Step)
    requires d.history == [d.parent] && names.final != names.staging
    requires MakeParent(d, w).result.Some?
    ensures staging == MakeStaging(MakeParent(d, w).disk, w, names)
    ensures Sound(staging.disk, names, d.parent, w, true)
    ensures staging.ok ==> Staged(staging.disk, names, Directory(map[]))
  {
    staging := MakeStaging(MakeParent(d, w).disk, w, names);
    StartIsSound(d, names, w);
    MakeParentIsSound(d, w, names, d.parent);
    MakeStagingIsSound(MakeParent(d, w).disk, w, names, d.parent);
  }

  /** Whatever fails and whatever a rival creates, publication loses no entry but
    * what stands under its staging name, and the final directory is at every moment
    * absent, somebody else's, or ours with both complete files: ours exactly when
    * the result says so, from one moment on and until the end, also when the last
    * synchronisation fails.
    */
  lemma PublicationIsSafe(d: Disk, w: World, timestamp: string, up: string, down: string) returns (k: nat)
    requires d.history == [d.parent]
    ensures var r := Publish(d, w, timestamp, up, down); var names := NamesFor(timestamp);
      Sound(r.disk, names, d.parent, w, !Published(r.result))
      && (Published(r.result) ==> Shown(r.disk, names, Complete(up, down), k))
  {
    k := 0;
    var names := NamesFor(timestamp);
    StartIsSound(d, names, w);
    if IsTimestamp(timestamp) {
      NamesDiffer(timestamp);
      var parent := MakeParent(d, w);
      MakeParentIsSound(d, w, names, d.parent);
      if parent.result.Some? {
        var staging := OpenedIsSound(d, w, names);
        RemoveParentIsSound(staging.disk, w, names, d.parent, true);
        if staging.ok {
          k := FinishIsSafe(staging.disk, w, names, up, down, parent.result.value, d.parent);
        }
      }
    }
  }

  lemma FinishIsSafe(d: Disk, w: World, names: Names, up: string, down: string, created: bool, start: Parent)
    returns (k: nat)
    requires Sound(d, names, start, w, true) && Staged(d, names, Directory(map[])) && names.final != names.staging
    ensures var r := Finish(d, w, names, up, down, created);
      Sound(r.disk, names, start, w, !Published(r.result))
      && (Published(r.result) ==> Shown(r.disk, names, Complete(up, down), k))
  {
    var f := Fill(d, w, names, up, down);
    k := FillIsSound(d, w, names, up, down, start);
    if f.error.Some? {
      CleanUpIsSound(f.disk, w, names, created, start, !Renamed(f.error));
      if Renamed(f.error) {
        ShownStays(f.disk, CleanUp(f.disk, w, names, created), names, Complete(up, down), k);
      }
    }
  }
}
