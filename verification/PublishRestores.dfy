/** When publication undoes itself completely, when it succeeds, and what its
  * guard may remove of a rival's.
  */
module PublishRestores {
  import opened Wrappers
  import opened Publication
  import opened PublishSafety

  // ----- the directory as the rival alone would have left it -----

  function RivalOnly(p: Parent, w: World, first: nat, last: nat): Parent
    requires first <= last
    decreases last - first
  {
    if first == last then p
    else Arrive(RivalOnly(p, w, first, last - 1), w.makesParent(last - 1), w.rival(last - 1))
  }

  /** The directory without what stands under our staging name. */
  function Strip(p: Parent, staging: string): Parent {
    if p.Present? then Present(p.entries - {staging}) else p
  }

  /** Our staging name apart, the entries are those of `pure`; if we made the
    * parent, the rival need not have.
    */
  ghost predicate Shadows(d: Disk, pure: Parent, names: Names, created: bool) {
    d.parent.Present? && d.parent.entries - {names.staging} == Entries(pure) - {names.staging}
    && (if created then !pure.NotADirectory? else pure.Present?)
  }

  lemma AddBoth(news: map<string, Node>, a: map<string, Node>, b: map<string, Node>, staging: string)
    requires a - {staging} == b - {staging}
    ensures (news + a) - {staging} == (news + b) - {staging}
  {
    var l, r := (news + a) - {staging}, (news + b) - {staging};
    assert forall k :: k != staging ==> (k in a <==> k in a - {staging}) && (k in b <==> k in b - {staging});
    assert l.Keys == r.Keys;
    forall k | k in l ensures l[k] == r[k] {
      if k in a { assert a[k] == (a - {staging})[k] == (b - {staging})[k]; }
    }
  }

  lemma ArriveAdds(p: Parent, makesParent: bool, news: map<string, Node>)
    requires !p.NotADirectory?
    ensures Entries(Arrive(p, makesParent, news)) == news + Entries(p)
    ensures !Arrive(p, makesParent, news).NotADirectory?
    ensures Arrive(p, makesParent, news).Absent? <==> p.Absent? && !makesParent && news == map[]
  {
    assert news + map[] == news;
  }

  lemma TickShadows(d: Disk, pure: Parent, w: World, names: Names, created: bool)
    requires Shadows(d, pure, names, created)
    ensures Shadows(Tick(d, w), Arrive(pure, w.makesParent(d.clock), w.rival(d.clock)), names, created)
  {
    var makes, news := w.makesParent(d.clock), w.rival(d.clock);
    ArriveAdds(d.parent, makes, news);
    ArriveAdds(pure, makes, news);
    AddBoth(news, d.parent.entries, Entries(pure), names.staging);
  }

  /** The rival alone, from the start up to now. */
  ghost predicate Tracks(d: Disk, start: Disk, w: World, names: Names, created: bool) {
    start.clock <= d.clock
    && Shadows(d, RivalOnly(start.parent, w, start.clock, d.clock), names, created)
  }

  lemma TickTracks(d: Disk, start: Disk, w: World, names: Names, created: bool)
    requires Tracks(d, start, w, names, created)
    ensures Tracks(Tick(d, w), start, w, names, created)
  {
    TickShadows(d, RivalOnly(start.parent, w, start.clock, d.clock), w, names, created);
  }

  lemma BecomeTracks(d: Disk, p: Parent, start: Disk, w: World, names: Names, created: bool)
    requires Tracks(d, start, w, names, created)
    requires p.Present? && p.entries - {names.staging} == d.parent.entries - {names.staging}
    ensures Tracks(Become(d, p), start, w, names, created)
  {
  }

  lemma PutShadows(entries: map<string, Node>, name: string, node: Node)
    ensures entries[name := node] - {name} == entries - {name}
  {
  }

  lemma WithFileTracks(d: Disk, start: Disk, w: World, names: Names, file: string, contents: string, created: bool)
    requires Tracks(d, start, w, names, created)
    ensures Tracks(Become(d, WithFile(d.parent, names.staging, file, contents)), start, w, names, created)
  {
    var p := WithFile(d.parent, names.staging, file, contents);
    if p != d.parent {
      PutShadows(d.parent.entries, names.staging, p.entries[names.staging]);
    }
    BecomeTracks(d, p, start, w, names, created);
  }

  lemma WriteTracks(d: Disk, start: Disk, w: World, names: Names, file: string, contents: string, created: bool)
    requires Tracks(d, start, w, names, created)
    ensures Tracks(WriteNewFile(d, w, names, file, contents).disk, start, w, names, created)
  {
    TickTracks(d, start, w, names, created);
    var t := Tick(d, w);
    WithFileTracks(t, start, w, names, file, contents, created);
    if w.leaves(d.clock).Some? {
      WithFileTracks(t, start, w, names, file, w.leaves(d.clock).value, created);
    }
  }

  lemma PrepareTracks(d: Disk, start: Disk, w: World, names: Names, up: string, down: string, created: bool)
    requires Tracks(d, start, w, names, created)
    ensures Tracks(Prepare(d, w, names, up, down).disk, start, w, names, created)
  {
    var first := WriteNewFile(d, w, names, "up.sql", up).disk;
    var second := WriteNewFile(first, w, names, "down.sql", down).disk;
    WriteTracks(d, start, w, names, "up.sql", up, created);
    WriteTracks(first, start, w, names, "down.sql", down, created);
    TickTracks(second, start, w, names, created);
    TickTracks(Tick(second, w), start, w, names, created);
  }

  lemma FillTracks(d: Disk, start: Disk, w: World, names: Names, up: string, down: string, created: bool)
    requires Tracks(d, start, w, names, created) && !Renamed(Fill(d, w, names, up, down).error)
    ensures Tracks(Fill(d, w, names, up, down).disk, start, w, names, created)
  {
    PrepareTracks(d, start, w, names, up, down, created);
    TickTracks(Prepare(d, w, names, up, down).disk, start, w, names, created);
  }

  // ----- what a clean-up leaves -----

  ghost predicate LeftToRival(d: Disk, e: Disk, w: World, names: Names) {
    d.clock <= e.clock
    && Strip(e.parent, names.staging) == Strip(RivalOnly(d.parent, w, d.clock, e.clock), names.staging)
  }

  /** The directory is gone although the rival alone would have left an empty one. */
  ghost predicate TookEmptyParent(d: Disk, e: Disk, w: World, names: Names) {
    d.clock < e.clock && RivalOnly(d.parent, w, d.clock, e.clock).Present?
    && Entries(RivalOnly(d.parent, w, d.clock, e.clock)) - {names.staging} == map[]
    && names.staging !in w.rival(e.clock - 1)
  }

  lemma NothingButStaging(entries: map<string, Node>, staging: string)
    ensures entries == map[] <==> entries - {staging} == map[] && staging !in entries
  {
    if entries - {staging} == map[] && staging !in entries { assert entries == entries - {staging}; }
  }

  /** What the last call meets: the parent is empty exactly if the rival left nothing in it. */
  lemma EmptyAtLast(d: Disk, start: Disk, w: World, names: Names)
    requires Tracks(d, start, w, names, true) && names.staging !in Entries(d.parent)
    ensures var t := Tick(d, w); var q := RivalOnly(start.parent, w, start.clock, t.clock);
      t.parent.Present?
      && (t.parent == Present(map[]) <==> Entries(q) - {names.staging} == map[] && names.staging !in w.rival(d.clock))
      && (q.Absent? ==> t.parent == Present(map[]))
      && t.parent.entries - {names.staging} == Entries(q) - {names.staging} && !q.NotADirectory?
  {
    TickTracks(d, start, w, names, true);
    var t := Tick(d, w);
    var before := RivalOnly(start.parent, w, start.clock, d.clock);
    ArriveAdds(d.parent, w.makesParent(d.clock), w.rival(d.clock));
    ArriveAdds(before, w.makesParent(d.clock), w.rival(d.clock));
    NothingButStaging(t.parent.entries, names.staging);
  }

  lemma RemoveParentRestores(d: Disk, start: Disk, w: World, names: Names)
    requires Tracks(d, start, w, names, true) && names.staging !in Entries(d.parent)
    requires !w.fails(d.clock)
    ensures var e := RemoveParent(d, w);
      LeftToRival(start, e, w, names) <==> !TookEmptyParent(start, e, w, names)
  {
    EmptyAtLast(d, start, w, names);
  }

  lemma RemoveStagingTracks(d: Disk, start: Disk, w: World, names: Names, created: bool)
    requires Tracks(d, start, w, names, created) && !w.fails(d.clock)
    ensures Tracks(RemoveStaging(d, w, names), start, w, names, created)
    ensures names.staging !in Entries(RemoveStaging(d, w, names).parent)
  {
    TickTracks(d, start, w, names, created);
    var t := Tick(d, w);
    var rest := t.parent.entries - {names.staging};
    assert rest - {names.staging} == rest;
    if names.staging in t.parent.entries {
      BecomeTracks(t, Present(rest), start, w, names, created);
    }
  }

  lemma TracksLeaves(d: Disk, start: Disk, w: World, names: Names)
    requires Tracks(d, start, w, names, false)
    ensures LeftToRival(start, d, w, names)
  {
  }

  lemma CleanUpRestores(d: Disk, start: Disk, w: World, names: Names, created: bool)
    requires Tracks(d, start, w, names, created)
    requires forall n | d.clock <= n :: !w.fails(n)
    ensures var e := CleanUp(d, w, names, created);
      LeftToRival(start, e, w, names) <==> !(created && TookEmptyParent(start, e, w, names))
  {
    RemoveStagingTracks(d, start, w, names, created);
    var r := RemoveStaging(d, w, names);
    if created {
      RemoveParentRestores(r, start, w, names);
    } else {
      TracksLeaves(r, start, w, names);
    }
  }

  /** The first call that belongs to the clean-up. */
  function CleanUpClock(d: Disk, w: World, timestamp: string, up: string, down: string): nat {
    var names := NamesFor(timestamp);
    var parent := MakeParent(d, w);
    if parent.result.None? then parent.disk.clock
    else
      var staging := MakeStaging(parent.disk, w, names);
      if staging.ok then Fill(staging.disk, w, names, up, down).disk.clock else staging.disk.clock
  }

  ghost predicate MadeParent(d: Disk, w: World) {
    MakeParent(d, w).result == Some(true)
  }

  /** Before we change anything the directory is the rival's. */
  ghost predicate IsRivals(d: Disk, e: Disk, w: World) {
    d.clock <= e.clock && e.parent == RivalOnly(d.parent, w, d.clock, e.clock)
  }

  lemma TickIsRivals(d: Disk, e: Disk, w: World)
    requires IsRivals(d, e, w)
    ensures IsRivals(d, Tick(e, w), w)
  {
  }

  lemma MadeParentTracks(d: Disk, w: World, names: Names)
    requires MadeParent(d, w)
    ensures Tracks(MakeParent(d, w).disk, d, w, names, true) && Entries(MakeParent(d, w).disk.parent) == map[]
  {
    TickIsRivals(d, d, w);
  }

  lemma StagedTracks(t: Disk, start: Disk, w: World, names: Names, created: bool)
    requires Tracks(t, start, w, names, created)
    ensures Tracks(Become(t, Present(t.parent.entries[names.staging := Directory(map[])])), start, w, names, created)
  {
    PutShadows(t.parent.entries, names.staging, Directory(map[]));
  }

  /** After the two directories were made, or not. */
  lemma OpenedTracks(d: Disk, w: World, names: Names)
    requires MakeParent(d, w).result.Some?
    ensures var s := MakeStaging(MakeParent(d, w).disk, w, names);
      if MadeParent(d, w) || s.ok then Tracks(s.disk, d, w, names, MadeParent(d, w)) else IsRivals(d, s.disk, w)
  {
    var p := MakeParent(d, w);
    var t := Tick(p.disk, w);
    TickIsRivals(d, d, w);
    if MadeParent(d, w) {
      MadeParentTracks(d, w, names);
      TickTracks(p.disk, d, w, names, true);
      StagedTracks(t, d, w, names, true);
    } else {
      TickIsRivals(d, p.disk, w);
      if t.parent.Present? { StagedTracks(t, d, w, names, false); }
    }
  }

  /** A staging directory that could not be made stands only if the rival made it. */
  lemma StagingFailedRestores(d: Disk, w: World, names: Names)
    requires MadeParent(d, w) && !MakeStaging(MakeParent(d, w).disk, w, names).ok
    requires !w.fails(d.clock + 2)
    ensures var e := RemoveParent(MakeStaging(MakeParent(d, w).disk, w, names).disk, w);
      LeftToRival(d, e, w, names)
      <==> !(names.staging !in w.rival(d.clock + 1) && TookEmptyParent(d, e, w, names))
  {
    var p := MakeParent(d, w).disk;
    var t := Tick(p, w);
    OpenedTracks(d, w, names);
    ArriveAdds(p.parent, w.makesParent(p.clock), w.rival(p.clock));
    MadeParentTracks(d, w, names);
    if names.staging in w.rival(d.clock + 1) {
      RivalStagingStays(t, d, w, names);
    } else {
      RemoveParentRestores(t, d, w, names);
    }
  }

  lemma RivalStagingStays(t: Disk, start: Disk, w: World, names: Names)
    requires Tracks(t, start, w, names, true) && names.staging in Entries(t.parent)
    requires RivalOnly(start.parent, w, start.clock, t.clock).Present?
    ensures LeftToRival(start, RemoveParent(t, w), w, names)
  {
    TickTracks(t, start, w, names, true);
    TickStages(t, w, names, Entries(t.parent)[names.staging]);
    ArriveAdds(RivalOnly(start.parent, w, start.clock, t.clock), w.makesParent(t.clock), w.rival(t.clock));
  }

  /** We made the parent, remove it again, and the rival alone would have left it:
    * for then it did not take our staging name before we did.
    */
  ghost predicate DropsParent(d: Disk, e: Disk, w: World, timestamp: string) {
    && IsTimestamp(timestamp) && MadeParent(d, w) && TookEmptyParent(d, e, w, NamesFor(timestamp))
    && NamesFor(timestamp).staging !in w.rival(d.clock + 1)
  }

  /** The directory is as the rival alone would have left it, our staging name
    * apart, exactly if we did not drop its parent.
    */
  ghost predicate RestoredExactly(d: Disk, e: Disk, w: World, timestamp: string) {
    LeftToRival(d, e, w, NamesFor(timestamp)) <==> !DropsParent(d, e, w, timestamp)
  }

  lemma UnopenedIsRestored(d: Disk, w: World, timestamp: string, up: string, down: string)
    requires IsTimestamp(timestamp) ==> MakeParent(d, w).result.None?
    ensures RestoredExactly(d, Publish(d, w, timestamp, up, down).disk, w, timestamp)
  {
    TickIsRivals(d, d, w);
  }

  lemma UnstagedIsRestored(d: Disk, w: World, timestamp: string, up: string, down: string)
    requires IsTimestamp(timestamp) && MakeParent(d, w).result.Some?
    requires !MakeStaging(MakeParent(d, w).disk, w, NamesFor(timestamp)).ok && !w.fails(d.clock + 2)
    ensures RestoredExactly(d, Publish(d, w, timestamp, up, down).disk, w, timestamp)
  {
    var names := NamesFor(timestamp);
    if MadeParent(d, w) {
      StagingFailedRestores(d, w, names);
    } else {
      OpenedTracks(d, w, names);
      RivalsAreLeft(d, MakeStaging(MakeParent(d, w).disk, w, names).disk, w, names);
    }
  }

  lemma UnfilledIsRestored(d: Disk, w: World, timestamp: string, up: string, down: string, f: Attempt)
    requires IsTimestamp(timestamp) && MakeParent(d, w).result.Some?
    requires MakeStaging(MakeParent(d, w).disk, w, NamesFor(timestamp)).ok
    requires f == Fill(MakeStaging(MakeParent(d, w).disk, w, NamesFor(timestamp)).disk, w,
                       NamesFor(timestamp), up, down)
    requires !Renamed(f.error) && forall n | f.disk.clock <= n :: !w.fails(n)
    ensures RestoredExactly(d, Publish(d, w, timestamp, up, down).disk, w, timestamp)
  {
    FinishRestores(d, w, NamesFor(timestamp), up, down);
  }

  /** A publication that fails before its directory is in place, and whose
    * clean-up calls work, leaves the migrations directory, its own staging name
    * apart, as it would be had only the rival acted: unless it made the parent
    * itself and the rival, who found it there, left it empty.
    */
  lemma FailureRestores(d: Disk, w: World, timestamp: string, up: string, down: string)
    requires !Published(Publish(d, w, timestamp, up, down).result)
    requires forall n | CleanUpClock(d, w, timestamp, up, down) <= n :: !w.fails(n)
    ensures RestoredExactly(d, Publish(d, w, timestamp, up, down).disk, w, timestamp)
  {
    var names := NamesFor(timestamp);
    if !IsTimestamp(timestamp) || MakeParent(d, w).result.None? {
      UnopenedIsRestored(d, w, timestamp, up, down);
    } else {
      var s := MakeStaging(MakeParent(d, w).disk, w, names);
      if !s.ok {
        UnstagedIsRestored(d, w, timestamp, up, down);
      } else {
        UnfilledIsRestored(d, w, timestamp, up, down, Fill(s.disk, w, names, up, down));
      }
    }
  }

  lemma RivalsAreLeft(d: Disk, e: Disk, w: World, names: Names)
    requires IsRivals(d, e, w)
    ensures LeftToRival(d, e, w, names)
  {
  }

  lemma FinishRestores(d: Disk, w: World, names: Names, up: string, down: string)
    requires MakeParent(d, w).result.Some? && MakeStaging(MakeParent(d, w).disk, w, names).ok
    requires var s := MakeStaging(MakeParent(d, w).disk, w, names).disk; var f := Fill(s, w, names, up, down);
      !Renamed(f.error) && forall n | f.disk.clock <= n :: !w.fails(n)
    ensures var s := MakeStaging(MakeParent(d, w).disk, w, names).disk;
      var e := CleanUp(Fill(s, w, names, up, down).disk, w, names, MadeParent(d, w));
      LeftToRival(d, e, w, names) <==> !(MadeParent(d, w) && TookEmptyParent(d, e, w, names))
  {
    OpenedTracks(d, w, names);
    var s := MakeStaging(MakeParent(d, w).disk, w, names).disk;
    FillTracks(s, d, w, names, up, down, MadeParent(d, w));
    CleanUpRestores(Fill(s, w, names, up, down).disk, d, w, names, MadeParent(d, w));
  }

  // ----- a rival that leaves our staging name alone -----

  ghost predicate SparesStaging(w: World, names: Names) {
    forall n: nat :: names.staging !in w.rival(n)
  }

  lemma {:induction false} RivalOnlyIsSpared(p: Parent, w: World, names: Names, first: nat, last: nat)
    requires first <= last && SparesStaging(w, names) && names.staging !in Entries(p)
    ensures names.staging !in Entries(RivalOnly(p, w, first, last))
    decreases last
  {
    if first < last { RivalOnlyIsSpared(p, w, names, first, last - 1); }
  }

  lemma StripsToItself(p: Parent, staging: string)
    requires staging !in Entries(p)
    ensures Strip(p, staging) == p
  {
    if p.Present? { assert p.entries - {staging} == p.entries; }
  }

  lemma CleanUpSpares(d: Disk, w: World, names: Names, created: bool)
    requires SparesStaging(w, names) && !w.fails(d.clock)
    ensures names.staging !in Entries(CleanUp(d, w, names, created).parent)
  {
  }

  lemma FailureLeavesNoStaging(d: Disk, w: World, timestamp: string, up: string, down: string)
    requires SparesStaging(w, NamesFor(timestamp)) && NamesFor(timestamp).staging !in Entries(d.parent)
    requires !Published(Publish(d, w, timestamp, up, down).result)
    requires forall n | CleanUpClock(d, w, timestamp, up, down) <= n :: !w.fails(n)
    ensures NamesFor(timestamp).staging !in Entries(Publish(d, w, timestamp, up, down).disk.parent)
  {
    var names := NamesFor(timestamp);
    var p := MakeParent(d, w);
    if p.result.Some? {
      var s := MakeStaging(p.disk, w, names);
      if s.ok { CleanUpSpares(Fill(s.disk, w, names, up, down).disk, w, names, p.result.value); }
    }
  }

  /** Then the whole directory is as the rival alone would have left it, except that
    * an empty one that we made is gone.
    */
  lemma FailureRestoresAll(d: Disk, w: World, timestamp: string, up: string, down: string)
    requires SparesStaging(w, NamesFor(timestamp)) && NamesFor(timestamp).staging !in Entries(d.parent)
    requires IsTimestamp(timestamp) && !Published(Publish(d, w, timestamp, up, down).result)
    requires forall n | CleanUpClock(d, w, timestamp, up, down) <= n :: !w.fails(n)
    ensures var e := Publish(d, w, timestamp, up, down).disk;
      d.clock < e.clock
      && (e.parent == RivalOnly(d.parent, w, d.clock, e.clock)
          <==> !(MadeParent(d, w) && RivalOnly(d.parent, w, d.clock, e.clock) == Present(map[])))
  {
    var names := NamesFor(timestamp);
    FailureRestores(d, w, timestamp, up, down);
    FailureLeavesNoStaging(d, w, timestamp, up, down);
    FailureTakesTime(d, w, timestamp, up, down);
    var e := Publish(d, w, timestamp, up, down).disk;
    var q := RivalOnly(d.parent, w, d.clock, e.clock);
    RivalOnlyIsSpared(d.parent, w, names, d.clock, e.clock);
    StripsToItself(e.parent, names.staging);
    StripsToItself(q, names.staging);
    NothingButStaging(Entries(q), names.staging);
  }

  lemma FailureTakesTime(d: Disk, w: World, timestamp: string, up: string, down: string)
    requires IsTimestamp(timestamp)
    ensures d.clock < Publish(d, w, timestamp, up, down).disk.clock
  {
    var names := NamesFor(timestamp);
    var p := MakeParent(d, w);
    if p.result.Some? {
      var s := MakeStaging(p.disk, w, names);
      if s.ok { FillTakesTime(s.disk, w, names, up, down); }
    }
  }

  lemma FillTakesTime(d: Disk, w: World, names: Names, up: string, down: string)
    ensures d.clock < Fill(d, w, names, up, down).disk.clock
  {
  }

  /** The case that is lost: a second publisher finds the directory that we made,
    * and we take it away when our staging directory cannot be made.
    */
  lemma EmptyParentIsLost(timestamp: string, up: string, down: string)
    requires IsTimestamp(timestamp)
    ensures var w := World(n => n == 1, _ => None, _ => {}, n => n == 1, _ => map[]);
      var d := Disk(Absent, 0, [Absent]);
      Publish(d, w, timestamp, up, down).disk.parent == Absent
      && Publish(d, w, timestamp, up, down).disk.clock == 3 && RivalOnly(Absent, w, 0, 3) == Present(map[])
  {
    var w := World(n => n == 1, _ => None, _ => {}, n => n == 1, _ => map[]);
    var none: map<string, Node> := map[];
    assert none + none == none;
    assert RivalOnly(Absent, w, 0, 1) == Absent;
    assert RivalOnly(Absent, w, 0, 2) == Present(map[]);
  }

  /** With an idle rival the rival's directory is the directory exactly as it was. */
  lemma {:induction false} IdleRivalChangesNothing(p: Parent, w: World, first: nat, last: nat)
    requires first <= last && forall n | first <= n < last :: !w.makesParent(n) && w.rival(n) == map[]
    ensures RivalOnly(p, w, first, last) == p
    decreases last
  {
    if first < last {
      IdleRivalChangesNothing(p, w, first, last - 1);
      var none: map<string, Node> := map[];
      assert none + Entries(p) == Entries(p);
    }
  }

  // ----- success -----

  ghost predicate RivalTakes(w: World, name: string, first: nat, last: nat) {
    exists n: nat :: first <= n < last && name in w.rival(n)
  }

  /** A name is taken exactly if it was at the start or the rival has taken it since. */
  ghost predicate Taken(d: Disk, start: Disk, w: World, name: string) {
    start.clock <= d.clock && !d.parent.NotADirectory?
    && (name in Entries(d.parent) <==> name in Entries(start.parent) || RivalTakes(w, name, start.clock, d.clock))
  }

  lemma RivalTakesMore(w: World, name: string, first: nat, last: nat)
    requires first <= last
    ensures RivalTakes(w, name, first, last + 1) <==> RivalTakes(w, name, first, last) || name in w.rival(last)
  {
  }

  lemma TickTakes(d: Disk, start: Disk, w: World, name: string)
    requires Taken(d, start, w, name)
    ensures Taken(Tick(d, w), start, w, name)
  {
    RivalTakesMore(w, name, start.clock, d.clock);
    ArriveAdds(d.parent, w.makesParent(d.clock), w.rival(d.clock));
  }

  lemma WriteSucceeds(d: Disk, start: Disk, w: World, names: Names, file: string, contents: string,
                      files: map<string, string>)
    requires Taken(d, start, w, names.final) && names.final != names.staging && !w.fails(d.clock)
    requires Staged(d, names, Directory(files)) && file !in files
    ensures var s := WriteNewFile(d, w, names, file, contents);
      s.ok && s.disk.clock == d.clock + 1
      && Taken(s.disk, start, w, names.final) && Staged(s.disk, names, Directory(files[file := contents]))
  {
    TickTakes(d, start, w, names.final);
    TickStages(d, w, names, Directory(files));
  }

  lemma PrepareSucceeds(d: Disk, start: Disk, w: World, names: Names, up: string, down: string)
    requires Taken(d, start, w, names.final) && names.final != names.staging
    requires Staged(d, names, Directory(map[])) && forall n | d.clock <= n < d.clock + 4 :: !w.fails(n)
    ensures var p := Prepare(d, w, names, up, down);
      p.error.None? && p.disk.clock == d.clock + 4
      && Taken(p.disk, start, w, names.final) && Staged(p.disk, names, Complete(up, down))
  {
    WriteSucceeds(d, start, w, names, "up.sql", up, map[]);
    var first := WriteNewFile(d, w, names, "up.sql", up).disk;
    WriteSucceeds(first, start, w, names, "down.sql", down, map["up.sql" := up]);
    var second := WriteNewFile(first, w, names, "down.sql", down).disk;
    TickTakes(second, start, w, names.final);
    TickTakes(Tick(second, w), start, w, names.final);
    PrepareStages(d, w, names, up, down);
  }

  /** The rename works exactly if the final name is free until `after`; then the
    * last synchronisation decides.
    */
  ghost predicate RenamedIfFree(f: Attempt, start: Disk, w: World, names: Names, after: nat) {
    && (Renamed(f.error)
        <==> names.final !in Entries(start.parent) && !RivalTakes(w, names.final, start.clock, after))
    && (Renamed(f.error) ==> f.disk.clock == after + 1 && (f.error.None? <==> !w.fails(after)))
  }

  lemma RenamesExactly(d: Disk, start: Disk, w: World, names: Names, node: Node, after: nat)
    requires Taken(d, start, w, names.final) && Staged(d, names, node) && !w.fails(d.clock) && after == d.clock + 1
    ensures RenamedIfFree(RenameAndSync(d, w, names), start, w, names, after)
  {
    TickTakes(d, start, w, names.final);
    TickStages(d, w, names, node);
  }

  /** When the calls up to the rename work, it succeeds exactly if the final name is free. */
  lemma FillRenamesExactly(d: Disk, start: Disk, w: World, names: Names, up: string, down: string)
    requires Taken(d, start, w, names.final) && names.final != names.staging && d.clock == start.clock + 2
    requires Staged(d, names, Directory(map[])) && forall n | d.clock <= n < d.clock + 5 :: !w.fails(n)
    ensures RenamedIfFree(Fill(d, w, names, up, down), start, w, names, start.clock + 7)
  {
    var p := Prepare(d, w, names, up, down).disk;
    PrepareSucceeds(d, start, w, names, up, down);
    FillIsRename(d, w, names, up, down);
    RenamesExactly(p, start, w, names, Complete(up, down), start.clock + 7);
  }

  lemma FillIsRename(d: Disk, w: World, names: Names, up: string, down: string)
    requires Prepare(d, w, names, up, down).error.None?
    ensures Fill(d, w, names, up, down) == RenameAndSync(Prepare(d, w, names, up, down).disk, w, names)
  {
  }

  /** Two calls into the protocol both directories stand, unless something was in the way. */
  lemma OpensExactly(d: Disk, w: World, names: Names)
    requires !w.fails(d.clock) && !w.fails(d.clock + 1) && names.final != names.staging
    ensures var p := MakeParent(d, w); var s := MakeStaging(p.disk, w, names);
      (p.result.Some? <==> !d.parent.NotADirectory?)
      && (p.result.Some? ==>
        && (s.ok <==> names.staging !in Entries(d.parent) && !RivalTakes(w, names.staging, d.clock, d.clock + 2))
        && Taken(s.disk, d, w, names.final) && s.disk.clock == d.clock + 2
        && (s.ok ==> Staged(s.disk, names, Directory(map[]))))
  {
    if !d.parent.NotADirectory? {
      var p := MakeParent(d, w);
      assert Taken(d, d, w, names.final) && Taken(d, d, w, names.staging);
      TickTakes(d, d, w, names.final);
      TickTakes(d, d, w, names.staging);
      TickTakes(p.disk, d, w, names.final);
      TickTakes(p.disk, d, w, names.staging);
    }
  }

  // ----- which call an error names -----

  /** The number of the call, from the first on, that an error speaks of. */
  function CallOf(error: PublishError): nat {
    match error
    case BadTimestamp => 0
    case ParentFailed => 0
    case StagingFailed => 1
    case UpFailed => 2
    case DownFailed => 3
    case StagingSyncFailed => 4
    case PrepareFailed => 5
    case RenameFailed => 6
    case DurabilityUncertain => 7
  }

  ghost predicate NoneFails(w: World, first: nat, last: nat) {
    forall n | first <= n < last :: !w.fails(n)
  }

  /** Creating a directory and renaming can also be refused; other calls only fail. */
  ghost predicate NamesFailure(w: World, first: nat, error: PublishError) {
    && !error.BadTimestamp? && NoneFails(w, first, first + CallOf(error))
    && (w.fails(first + CallOf(error)) || error.ParentFailed? || error.StagingFailed? || error.RenameFailed?)
  }

  lemma WritesUnlessFails(d: Disk, w: World, names: Names, file: string, contents: string, files: map<string, string>)
    requires Staged(d, names, Directory(files)) && file !in files
    ensures var s := WriteNewFile(d, w, names, file, contents);
      s.disk.clock == d.clock + 1 && (s.ok <==> !w.fails(d.clock))
      && (s.ok ==> Staged(s.disk, names, Directory(files[file := contents])))
  {
    TickStages(d, w, names, Directory(files));
  }

  lemma PrepareNames(d: Disk, w: World, names: Names, up: string, down: string, first: nat)
    requires Staged(d, names, Directory(map[])) && d.clock == first + 2 && NoneFails(w, first, d.clock)
    ensures var p := Prepare(d, w, names, up, down);
      if p.error.None? then p.disk.clock == first + 6 && NoneFails(w, first, first + 6)
      else NamesFailure(w, first, p.error.value)
  {
    TwoWrites(d, w, names, up, down);
    var one := WriteNewFile(d, w, names, "up.sql", up);
    var two := WriteNewFile(one.disk, w, names, "down.sql", down);
    AfterTwoWrites(d, w, one, two, Prepare(d, w, names, up, down), first);
  }

  lemma TwoWrites(d: Disk, w: World, names: Names, up: string, down: string)
    requires Staged(d, names, Directory(map[]))
    ensures var one := WriteNewFile(d, w, names, "up.sql", up);
      && one.disk.clock == d.clock + 1 && (one.ok <==> !w.fails(d.clock))
      && var two := WriteNewFile(one.disk, w, names, "down.sql", down);
         one.ok ==> two.disk.clock == d.clock + 2 && (two.ok <==> !w.fails(d.clock + 1))
  {
    WritesUnlessFails(d, w, names, "up.sql", up, map[]);
    var one := WriteNewFile(d, w, names, "up.sql", up);
    if one.ok {
      WritesUnlessFails(one.disk, w, names, "down.sql", down, map["up.sql" := up]);
    }
  }

  lemma AfterTwoWrites(d: Disk, w: World, one: Step, two: Step, p: Attempt, first: nat)
    requires d.clock == first + 2 && NoneFails(w, first, d.clock)
    requires one.disk.clock == first + 3 && (one.ok <==> !w.fails(first + 2))
    requires one.ok ==> two.disk.clock == first + 4 && (two.ok <==> !w.fails(first + 3))
    requires p == if !one.ok then Attempt(one.disk, Some(UpFailed))
                  else if !two.ok then Attempt(two.disk, Some(DownFailed))
                  else
                    var synced := Quiet(two.disk, w);
                    if !synced.ok then Attempt(synced.disk, Some(StagingSyncFailed))
                    else
                      var prepared := Quiet(synced.disk, w);
                      Attempt(prepared.disk, if prepared.ok then None else Some(PrepareFailed))
    ensures if p.error.None? then p.disk.clock == first + 6 && NoneFails(w, first, first + 6)
            else NamesFailure(w, first, p.error.value)
  {}

  lemma FillNames(d: Disk, w: World, names: Names, up: string, down: string, first: nat)
    requires Staged(d, names, Directory(map[])) && d.clock == first + 2 && NoneFails(w, first, d.clock)
    ensures var f := Fill(d, w, names, up, down);
      if f.error.None? then f.disk.clock == first + 8 && NoneFails(w, first, first + 8)
      else NamesFailure(w, first, f.error.value)
  {
    PrepareNames(d, w, names, up, down, first);
    var p := Prepare(d, w, names, up, down);
    if p.error.None? { RenameNames(p.disk, w, names, first); }
  }

  lemma RenameNames(d: Disk, w: World, names: Names, first: nat)
    requires d.clock == first + 6 && NoneFails(w, first, d.clock)
    ensures var f := RenameAndSync(d, w, names);
      if f.error.None? then f.disk.clock == first + 8 && NoneFails(w, first, first + 8)
      else NamesFailure(w, first, f.error.value)
  {}

  /** Success means that all eight calls worked; an error names the first that did not. */
  lemma ResultNamesCall(d: Disk, w: World, timestamp: string, up: string, down: string)
    requires IsTimestamp(timestamp)
    ensures var r := Publish(d, w, timestamp, up, down);
      match r.result
      case Success(path) =>
        path == timestamp + "_schema_diff" && r.disk.clock == d.clock + 8 && NoneFails(w, d.clock, d.clock + 8)
      case Failure(error) => NamesFailure(w, d.clock, error)
  {
    var names := NamesFor(timestamp);
    var parent := MakeParent(d, w);
    if parent.result.Some? {
      var staging := MakeStaging(parent.disk, w, names);
      if staging.ok { FillNames(staging.disk, w, names, up, down, d.clock); }
    }
  }

  /** Publication succeeds exactly if all eight calls work, `migrations` is not a plain
    * file, the staging name is free until we take it, and the final name is free until
    * the rename: two calls and seven, counting the first.
    */
  lemma SucceedsExactly(d: Disk, w: World, timestamp: string, up: string, down: string)
    requires IsTimestamp(timestamp)
    ensures var names := Names(".mads-" + timestamp + "-schema-diff.tmp", timestamp + "_schema_diff");
      Publish(d, w, timestamp, up, down).result.Success?
      <==> NoneFails(w, d.clock, d.clock + 8)
           && !d.parent.NotADirectory? && names.staging !in Entries(d.parent) && names.final !in Entries(d.parent)
           && !RivalTakes(w, names.staging, d.clock, d.clock + 2) && !RivalTakes(w, names.final, d.clock, d.clock + 7)
  {
    ResultNamesCall(d, w, timestamp, up, down);
    if NoneFails(w, d.clock, d.clock + 8) { WorkingSucceeds(d, w, timestamp, up, down); }
  }

  lemma WorkingSucceeds(d: Disk, w: World, timestamp: string, up: string, down: string)
    requires IsTimestamp(timestamp) && NoneFails(w, d.clock, d.clock + 8)
    ensures var names := NamesFor(timestamp);
      Publish(d, w, timestamp, up, down).result.Success?
      <==> !d.parent.NotADirectory? && names.staging !in Entries(d.parent) && names.final !in Entries(d.parent)
           && !RivalTakes(w, names.staging, d.clock, d.clock + 2) && !RivalTakes(w, names.final, d.clock, d.clock + 7)
  {
    var names := NamesFor(timestamp);
    NamesDiffer(timestamp);
    OpensExactly(d, w, names);
    var s := MakeStaging(MakeParent(d, w).disk, w, names);
    if !d.parent.NotADirectory? && s.ok {
      FillRenamesExactly(s.disk, d, w, names, up, down);
    }
  }

  /** A left-over staging entry stops publication and is never touched. */
  lemma LeftoverIsKept(d: Disk, w: World, timestamp: string, up: string, down: string)
    requires NamesFor(timestamp).staging in Entries(d.parent)
    ensures var names := NamesFor(timestamp); var r := Publish(d, w, timestamp, up, down);
      r.result.Failure? && r.result.error in {BadTimestamp, ParentFailed, StagingFailed}
      && Staged(r.disk, names, Entries(d.parent)[names.staging])
  {
    var names := NamesFor(timestamp);
    var node := Entries(d.parent)[names.staging];
    TickStages(d, w, names, node);
    TickStages(Tick(d, w), w, names, node);
  }

  // ----- what the guard removes -----

  /** A directory with nothing but our files under our staging name. */
  ghost predicate OursStaged(d: Disk, names: Names) {
    names.staging in Entries(d.parent) && Entries(d.parent)[names.staging].Directory?
    && Entries(d.parent)[names.staging].files.Keys <= {"up.sql", "down.sql"}
  }

  lemma TickKeepsOurs(d: Disk, w: World, names: Names)
    requires OursStaged(d, names)
    ensures OursStaged(Tick(d, w), names)
  {
    TickStages(d, w, names, Entries(d.parent)[names.staging]);
  }

  lemma WriteKeepsOurs(d: Disk, w: World, names: Names, file: string, contents: string)
    requires OursStaged(d, names) && file in {"up.sql", "down.sql"}
    ensures OursStaged(WriteNewFile(d, w, names, file, contents).disk, names)
  {
    TickKeepsOurs(d, w, names);
  }

  lemma PrepareKeepsOurs(d: Disk, w: World, names: Names, up: string, down: string)
    requires OursStaged(d, names)
    ensures OursStaged(Prepare(d, w, names, up, down).disk, names)
  {
    var first := WriteNewFile(d, w, names, "up.sql", up).disk;
    var second := WriteNewFile(first, w, names, "down.sql", down).disk;
    WriteKeepsOurs(d, w, names, "up.sql", up);
    WriteKeepsOurs(first, w, names, "down.sql", down);
    TickKeepsOurs(second, w, names);
    TickKeepsOurs(Tick(second, w), w, names);
  }

  lemma FailedFillKeepsOurs(d: Disk, w: World, names: Names, up: string, down: string)
    requires OursStaged(d, names) && !Renamed(Fill(d, w, names, up, down).error)
    ensures OursStaged(Fill(d, w, names, up, down).disk, names)
  {
    PrepareKeepsOurs(d, w, names, up, down);
    TickKeepsOurs(Prepare(d, w, names, up, down).disk, w, names);
  }

  lemma UncertainMeetsRival(d: Disk, w: World, names: Names)
    requires names.final != names.staging && RenameAndSync(d, w, names).error == Some(DurabilityUncertain)
    ensures var f := RenameAndSync(d, w, names).disk;
      f.clock > 0
      && (names.staging in Entries(Tick(f, w).parent) <==> RivalTakes(w, names.staging, f.clock - 1, f.clock + 1))
  {
    var renamed := RenameStaging(d, w, names).disk;
    assert names.staging !in Entries(renamed.parent) && renamed.parent.Present?;
    var f := Tick(renamed, w);
    RivalTakesMore(w, names.staging, renamed.clock, renamed.clock);
    RivalTakesMore(w, names.staging, renamed.clock, f.clock);
  }

  /** What the guard finds under our staging name when it comes to remove it: before
    * the rename our own directory and nothing else; after it, when the last
    * synchronisation failed, what the rival has put there since, if anything.
    */
  lemma GuardMeetsExactly(d: Disk, w: World, names: Names, up: string, down: string)
    requires Staged(d, names, Directory(map[])) && names.final != names.staging
    ensures var f := Fill(d, w, names, up, down); var met := Tick(f.disk, w);
      (!Renamed(f.error) ==> OursStaged(met, names))
      && (f.error == Some(DurabilityUncertain) ==>
            f.disk.clock > 0
            && (names.staging in Entries(met.parent)
                <==> RivalTakes(w, names.staging, f.disk.clock - 1, f.disk.clock + 1)))
  {
    var f := Fill(d, w, names, up, down);
    if !Renamed(f.error) {
      FailedFillKeepsOurs(d, w, names, up, down);
      TickKeepsOurs(f.disk, w, names);
    } else if f.error == Some(DurabilityUncertain) {
      UncertainMeetsRival(Prepare(d, w, names, up, down).disk, w, names);
    }
  }

  /** So a rival that stages under our name while we synchronise loses its directory. */
  lemma RivalStagingIsLost(timestamp: string, up: string, down: string)
    requires IsTimestamp(timestamp)
    ensures var names := NamesFor(timestamp); var theirs := map[names.staging := Directory(map[])];
      var w := World(n => n == 7, _ => None, _ => {}, _ => false, n => if n == 7 then theirs else map[]);
      var r := Publish(Disk(Present(map[]), 0, [Present(map[])]), w, timestamp, up, down);
      r.result == Failure(DurabilityUncertain) && r.disk.clock == 9 && names.staging !in Entries(r.disk.parent)
      && names.staging in Entries(RivalOnly(Present(map[]), w, 0, 9))
  {
    var names := NamesFor(timestamp);
    var theirs := map[names.staging := Directory(map[])];
    var w := World(n => n == 7, _ => None, _ => {}, _ => false, n => if n == 7 then theirs else map[]);
    var d := Disk(Present(map[]), 0, [Present(map[])]);
    NamesDiffer(timestamp);
    assert !RivalTakes(w, names.staging, 0, 2) && !RivalTakes(w, names.final, 0, 7);
    OpensExactly(d, w, names);
    var s := MakeStaging(MakeParent(d, w).disk, w, names).disk;
    FillRenamesExactly(s, d, w, names, up, down);
    var f := Fill(s, w, names, up, down);
    assert RivalTakes(w, names.staging, f.disk.clock - 1, f.disk.clock + 1);
    GuardMeetsExactly(s, w, names, up, down);
    TheirsStays(w, names, theirs);
  }

  lemma TheirsStays(w: World, names: Names, theirs: map<string, Node>)
    requires names.staging in theirs && w.rival(7) == theirs
    ensures names.staging in Entries(RivalOnly(Present(map[]), w, 0, 9))
  {
    var before := RivalOnly(Present(map[]), w, 0, 7);
    RivalKeepsPresent(w, 7);
    assert RivalOnly(Present(map[]), w, 0, 8) == Arrive(before, w.makesParent(7), w.rival(7));
  }

  lemma {:induction false} RivalKeepsPresent(w: World, last: nat)
    ensures RivalOnly(Present(map[]), w, 0, last).Present?
  {
    if last > 0 { RivalKeepsPresent(w, last - 1); }
  }
}
