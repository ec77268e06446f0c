/**
 * Saving the rule cache: temporary file, then rename. Save is a program of
 * single file-system calls; a crash may come after any of them.
 */
module RuleCache {
  import opened Messages

  datatype Option<+T> = None | Some(value: T)

  /** A link is read through; what it leads to may be missing. */
  datatype Entry = File(data: Bytes) | Symlink(target: Option<Bytes>)

  /** The cache file and the temporary file next to it. */
  datatype Disk = Disk(path: Option<Entry>, tmp: Option<Entry>)

  datatype Outcome = Saved | SymlinkNotAllowed | Failed

  datatype Pc =
    | CheckPath
    | MakeDir
    | Create
    | Inspect
    | RemoveLeftover
    | CreateAgain
    | WriteData(k: nat)
    | CloseFile
    | RenameFile
    | CleanUp
    | Finished(outcome: Outcome)

  datatype Progress = Progress(disk: Disk, pc: Pc)

  /** Which calls succeed, and how many bytes the file takes before a write fails. */
  datatype World = World(
    lstat: bool, mkdirAndMarshal: bool, create: bool, lstatTmp: bool, removeLeftover: bool, createAgain: bool,
    room: nat, close: bool, rename: bool, removeTmp: bool)

  function Step(s: Progress, data: Bytes, w: World): Progress
    requires s.pc.WriteData? ==> s.pc.k <= |data|
  {
    var d := s.disk;
    match s.pc
    case CheckPath =>
      if w.lstat && d.path.Some? && d.path.value.Symlink? then Progress(d, Finished(SymlinkNotAllowed)) else Progress(d, MakeDir)
    case MakeDir => Progress(d, if w.mkdirAndMarshal then Create else Finished(Failed))
    case Create =>
      if d.tmp.Some? then Progress(d, Inspect)
      else if w.create then Progress(d.(tmp := Some(File([]))), WriteData(0))
      else Progress(d, Finished(Failed))
    case Inspect =>
      Progress(d, if w.lstatTmp && d.tmp.Some? && d.tmp.value.Symlink? then Finished(Failed) else RemoveLeftover)
    case RemoveLeftover => Progress(if w.removeLeftover then d.(tmp := None) else d, CreateAgain)
    case CreateAgain =>
      if d.tmp.None? && w.createAgain then Progress(d.(tmp := Some(File([]))), WriteData(0)) else Progress(d, Finished(Failed))
    case WriteData(k) =>
      if k == |data| then Progress(d, CloseFile)
      else if k < w.room then Progress(d.(tmp := Some(File(data[..k + 1]))), WriteData(k + 1))
      else Progress(d, CleanUp)
    case CloseFile => Progress(d, if w.close then RenameFile else CleanUp)
    case RenameFile => if w.rename then Progress(Disk(d.tmp, None), Finished(Saved)) else Progress(d, CleanUp)
    case CleanUp => Progress(if w.removeTmp then d.(tmp := None) else d, Finished(Failed))
    case Finished(_) => s
  }

  function Rank(pc: Pc, data: Bytes): int {
    match pc
    case CheckPath => |data| + 10
    case MakeDir => |data| + 9
    case Create => |data| + 8
    case Inspect => |data| + 7
    case RemoveLeftover => |data| + 6
    case CreateAgain => |data| + 5
    case WriteData(k) => |data| - k + 4
    case CloseFile => 3
    case RenameFile => 2
    case CleanUp => 1
    case Finished(_) => 0
  }

  predicate Early(pc: Pc) {
    pc.CheckPath? || pc.MakeDir? || pc.Create? || pc.Inspect? || pc.RemoveLeftover?
  }

  /** What the temporary file holds at each point, and that the cache file is still the old one until the end. */
  predicate SaveOk(s: Progress, before: Disk, data: Bytes) {
    && (s.pc.WriteData? ==> s.pc.k <= |data| && s.disk.tmp == Some(File(data[..s.pc.k])))
    && (s.pc.CloseFile? || s.pc.RenameFile? ==> s.disk.tmp == Some(File(data)))
    && (Early(s.pc) ==> s.disk.tmp == before.tmp)
    && (s.disk.tmp.Some? && s.disk.tmp.value.Symlink? ==> s.disk.tmp == before.tmp)
    && s.disk.path == (if s.pc == Finished(Saved) then Some(File(data)) else before.path)
    && (s.pc == Finished(Saved) ==> s.disk.tmp == None)
  }

  lemma StepOk(s: Progress, before: Disk, data: Bytes, w: World)
    requires SaveOk(s, before, data)
    ensures SaveOk(Step(s, data, w), before, data)
    ensures !s.pc.Finished? ==> 0 <= Rank(Step(s, data, w).pc, data) < Rank(s.pc, data)
  {
    assert data[..|data|] == data;
  }

  /** The state when the agent crashes after n calls. */
  function CrashAfter(s: Progress, before: Disk, data: Bytes, w: World, n: nat): (r: Progress)
    requires SaveOk(s, before, data)
    ensures SaveOk(r, before, data)
    decreases n
  {
    if n == 0 then s
    else
      StepOk(s, before, data, w);
      CrashAfter(Step(s, data, w), before, data, w, n - 1)
  }

  /** The state when Save returns. */
  function Finish(s: Progress, before: Disk, data: Bytes, w: World): (r: Progress)
    requires SaveOk(s, before, data)
    ensures SaveOk(r, before, data) && r.pc.Finished?
    decreases Rank(s.pc, data)
  {
    if s.pc.Finished? then s
    else
      StepOk(s, before, data, w);
      Finish(Step(s, data, w), before, data, w)
  }

  lemma Advance(s: Progress, before: Disk, data: Bytes, w: World) returns (t: Progress)
    requires SaveOk(s, before, data) && !s.pc.Finished?
    ensures t == Step(s, data, w) && SaveOk(t, before, data)
    ensures Finish(t, before, data, w) == Finish(s, before, data, w)
  {
    StepOk(s, before, data, w);
    t := Step(s, data, w);
  }

  // ---- Load ----

  /** The part of a snapshot that decides whether it can be used. */
  datatype Snapshot = Snapshot(rules: seq<string>, clientToken: string)

  function Load(d: Disk, parse: Bytes -> Option<Snapshot>): Option<Snapshot> {
    var data := if d.path.None? then None else if d.path.value.File? then Some(d.path.value.data) else d.path.value.target;
    if data.None? then None
    else
      var snap := parse(data.value);
      if snap.Some? && |snap.value.rules| > 0 then snap else None
  }

  /** A cache file that is a link is read through. */
  lemma LoadsThroughLinks(target: Bytes, tmp: Option<Entry>, parse: Bytes -> Option<Snapshot>)
    ensures Load(Disk(Some(Symlink(Some(target))), tmp), parse) == Load(Disk(Some(File(target)), None), parse)
    ensures Load(Disk(Some(Symlink(None)), tmp), parse) == None == Load(Disk(None, tmp), parse)
  {
  }

  /** Wherever a crash comes, Load finds what it would have found before, or the new snapshot, whole. */
  lemma CrashKeepsOldOrNew(before: Disk, data: Bytes, w: World, n: nat, parse: Bytes -> Option<Snapshot>)
    ensures var after := CrashAfter(Progress(before, CheckPath), before, data, w, n).disk;
      Load(after, parse) == Load(before, parse) || Load(after, parse) == Load(Disk(Some(File(data)), None), parse)
  {
  }

  /** Save reports success exactly when the file is the new one; otherwise the old one is untouched. */
  lemma SavedMeansReplaced(before: Disk, data: Bytes, w: World)
    ensures var r := Finish(Progress(before, CheckPath), before, data, w);
      r.disk.path == if r.pc.outcome.Saved? then Some(File(data)) else before.path
  {
  }

  /** No call fails: room for all of the data. */
  predicate Calm(w: World, data: Bytes) {
    && w.lstat && w.mkdirAndMarshal && w.create && w.lstatTmp && w.removeLeftover && w.createAgain
    && w.room >= |data| && w.close && w.rename && w.removeTmp
  }

  predicate IsLink(e: Option<Entry>) {
    e.Some? && e.value.Symlink?
  }

  // ---- Exactly when Save succeeds ----

  /** The temporary file can be made anew: nothing is in its place, or something that is no link and goes away. */
  predicate TempMade(before: Disk, w: World) {
    if before.tmp.None? then w.create
    else !(w.lstatTmp && IsLink(before.tmp)) && w.removeLeftover && w.createAgain
  }

  predicate Reaches(before: Disk, w: World) {
    !(w.lstat && IsLink(before.path)) && w.mkdirAndMarshal && TempMade(before, w)
  }

  lemma {:induction false} WritesExactly(s: Progress, before: Disk, data: Bytes, w: World)
    requires SaveOk(s, before, data) && s.pc.WriteData? && (s.pc.k == 0 || s.pc.k <= w.room)
    ensures var r := Finish(s, before, data, w);
      && (r.pc == Finished(Saved) <==> w.room >= |data| && w.close && w.rename)
      && (r.pc != Finished(Saved) ==> r.pc == Finished(Failed) && (w.removeTmp ==> r.disk.tmp == None))
    decreases |data| - s.pc.k
  {
    var t := Advance(s, before, data, w);
    if s.pc.k == |data| {
      var u := Advance(t, before, data, w);
      if u.pc.RenameFile? {
        u := Advance(u, before, data, w);
      }
      if !u.pc.Finished? {
        var v := Advance(u, before, data, w);
      }
    } else if s.pc.k < w.room {
      WritesExactly(t, before, data, w);
    } else {
      var u := Advance(t, before, data, w);
    }
  }

  lemma CreatesExactly(s: Progress, before: Disk, data: Bytes, w: World)
    requires SaveOk(s, before, data) && s.pc.Create?
    ensures var r := Finish(s, before, data, w);
      && (r.pc == Finished(Saved) <==> TempMade(before, w) && w.room >= |data| && w.close && w.rename)
      && (r.pc != Finished(Saved) ==> r.pc == Finished(Failed))
      && (TempMade(before, w) && r.pc != Finished(Saved) && w.removeTmp ==> r.disk.tmp == None)
  {
    var t := Advance(s, before, data, w);
    if before.tmp.Some? {
      t := Advance(t, before, data, w);
      if !t.pc.Finished? {
        t := Advance(t, before, data, w);
        t := Advance(t, before, data, w);
      }
    }
    if !t.pc.Finished? {
      WritesExactly(t, before, data, w);
    }
  }

  /**
   * Save succeeds if and only if it sees no link, the directory and the JSON can
   * be made, the temporary file can be made anew, all of the data fits, and both
   * the close and the rename go well. Where it fails behind its own temporary
   * file, that file is gone if it can be removed.
   */
  lemma SavesExactly(before: Disk, data: Bytes, w: World)
    ensures var r := Finish(Progress(before, CheckPath), before, data, w);
      && (r.pc == Finished(Saved) <==> Reaches(before, w) && w.room >= |data| && w.close && w.rename)
      && (r.pc == Finished(SymlinkNotAllowed) <==> w.lstat && IsLink(before.path))
      && (Reaches(before, w) && r.pc != Finished(Saved) && w.removeTmp ==> r.disk.tmp == None)
  {
    var s := Advance(Progress(before, CheckPath), before, data, w);
    if !s.pc.Finished? {
      s := Advance(s, before, data, w);
      if !s.pc.Finished? {
        CreatesExactly(s, before, data, w);
      }
    }
  }

  /**
   * When no call fails, Save succeeds exactly when neither path is a link; what
   * an earlier Save left in the temporary file does not matter.
   */
  lemma SavesUnlessLinked(before: Disk, data: Bytes, w: World)
    requires Calm(w, data)
    ensures Finish(Progress(before, CheckPath), before, data, w).pc == Finished(Saved)
       <==> !IsLink(before.path) && !IsLink(before.tmp)
  {
    SavesExactly(before, data, w);
  }

  /** After a crash at any point of one Save, the next one goes through and its snapshot is what Load finds. */
  lemma NextSaveRecovers(before: Disk, data: Bytes, w: World, n: nat, next: Bytes, calm: World, parse: Bytes -> Option<Snapshot>)
    requires !IsLink(before.path) && !IsLink(before.tmp) && Calm(calm, next)
    ensures var crashed := CrashAfter(Progress(before, CheckPath), before, data, w, n).disk;
      var r := Finish(Progress(crashed, CheckPath), crashed, next, calm);
      r.pc == Finished(Saved) && Load(r.disk, parse) == Load(Disk(Some(File(next)), None), parse)
  {
    var crashed := CrashAfter(Progress(before, CheckPath), before, data, w, n).disk;
    SavesUnlessLinked(crashed, next, calm);
  }

  /**
   * What loading gives after a Save, for every snapshot and every fate of the
   * calls: a Save that reports success is loaded back if and only if the snapshot
   * has a rule, one that does not leaves Load as it was, and with no link and no
   * failing call the Save does report success.
   */
  lemma LoadsWhatWasSaved(before: Disk, data: Bytes, w: World, snap: Snapshot, parse: Bytes -> Option<Snapshot>)
    requires parse(data) == Some(snap)
    ensures var r := Finish(Progress(before, CheckPath), before, data, w);
      && (r.pc == Finished(Saved) ==> Load(r.disk, parse) == if snap.rules != [] then Some(snap) else None)
      && (r.pc != Finished(Saved) ==> Load(r.disk, parse) == Load(before, parse))
      && (Calm(w, data) && !IsLink(before.path) && !IsLink(before.tmp) ==>
            (Load(r.disk, parse) == Some(snap) <==> snap.rules != []))
  {
    if Calm(w, data) {
      SavesUnlessLinked(before, data, w);
    }
  }

  /** So saving an empty rule list makes a usable cache unusable. */
  lemma EmptySaveForgets(before: Disk, data: Bytes, w: World, snap: Snapshot, parse: Bytes -> Option<Snapshot>)
    requires !IsLink(before.path) && !IsLink(before.tmp) && Calm(w, data)
    requires parse(data) == Some(snap) && snap.rules == []
    ensures Load(Finish(Progress(before, CheckPath), before, data, w).disk, parse) == None
  {
    SavesUnlessLinked(before, data, w);
    LoadsWhatWasSaved(before, data, w, snap, parse);
  }

  // ---- The code ----

  class CacheFile {
    var path: Option<Entry>
    var tmp: Option<Entry>

    ghost function Contents(): Disk
      reads this
    {
      Disk(path, tmp)
    }

    constructor (d: Disk)
      ensures Contents() == d
    {
      path, tmp := d.path, d.tmp;
    }

    method Save(data: Bytes, w: World) returns (outcome: Outcome)
      modifies this
      ensures Progress(Contents(), Finished(outcome)) == Finish(Progress(old(Contents()), CheckPath), old(Contents()), data, w)
    {
      ghost var before := Contents();
      ghost var s := Progress(before, CheckPath);
      s := Advance(s, before, data, w);
      if w.lstat && path.Some? && path.value.Symlink? {
        return SymlinkNotAllowed;
      }
      s := Advance(s, before, data, w);
      if !w.mkdirAndMarshal {
        return Failed;
      }
      s := Advance(s, before, data, w);
      if tmp.Some? {
        s := Advance(s, before, data, w);
        if w.lstatTmp && tmp.value.Symlink? {
          return Failed;
        }
        s := Advance(s, before, data, w);
        if w.removeLeftover {
          tmp := None;
        }
        s := Advance(s, before, data, w);
        if tmp.Some? || !w.createAgain {
          return Failed;
        }
      } else if !w.create {
        return Failed;
      }
      tmp := Some(File([]));
      outcome := WriteAndRename(data, w, before, s);
    }

    method WriteAndRename(data: Bytes, w: World, ghost before: Disk, ghost start: Progress) returns (outcome: Outcome)
      requires SaveOk(start, before, data) && start.pc == WriteData(0) && start.disk == Contents()
      modifies this
      ensures Progress(Contents(), Finished(outcome)) == Finish(start, before, data, w)
    {
      ghost var s := start;
      var written := WriteAll(data, w, before, s);
      s := Progress(Contents(), WriteData(written));
      s := Advance(s, before, data, w);
      var ok := written == |data|;
      if ok {
        s := Advance(s, before, data, w);
        ok := w.close;
      }
      if ok {
        s := Advance(s, before, data, w);
        if w.rename {
          path, tmp := tmp, None;
          return Saved;
        }
      }
      s := Advance(s, before, data, w);
      if w.removeTmp {
        tmp := None;
      }
      return Failed;
    }

    /** Byte by byte until all is written or the file takes no more. */
    method WriteAll(data: Bytes, w: World, ghost before: Disk, ghost start: Progress) returns (k: nat)
      requires SaveOk(start, before, data) && start.pc == WriteData(0) && start.disk == Contents()
      modifies this`tmp
      ensures k <= |data| && (k == |data| || k >= w.room) && path == old(path)
      ensures SaveOk(Progress(Contents(), WriteData(k)), before, data)
      ensures Finish(Progress(Contents(), WriteData(k)), before, data, w) == Finish(start, before, data, w)
    {
      k := 0;
      while k < |data| && k < w.room
        invariant k <= |data| && path == old(path)
        invariant SaveOk(Progress(Contents(), WriteData(k)), before, data)
        invariant Finish(Progress(Contents(), WriteData(k)), before, data, w) == Finish(start, before, data, w)
      {
        ghost var next := Advance(Progress(Contents(), WriteData(k)), before, data, w);
        tmp := Some(File(data[..k + 1]));
        k := k + 1;
        assert Progress(Contents(), WriteData(k)) == next;
      }
    }
  }
}
