/** Applying a stub template to the web root: a recursive copy with a snapshot taken first
    and a rollback when any step fails. */
module WebRoot {
  import opened Options

  /** A path below a root, name by name. */
  type Path = seq<string>

  /** A directory entry; links and devices are neither copied nor saved. */
  datatype Entry =
    | Regular(data: string)
    | Directory(entries: seq<NamedEntry>)
    | Special

  datatype NamedEntry = NamedEntry(name: string, entry: Entry)

  type Files = map<Path, string>

  /** The regular files of a listing, by path. */
  function Flat(rel: Path, entries: seq<NamedEntry>): Files
    decreases entries
  {
    if entries == [] then map[]
    else FlatEntry(rel + [entries[0].name], entries[0].entry) + Flat(rel, entries[1..])
  }

  function FlatEntry(path: Path, e: Entry): Files
    decreases e
  {
    match e
    case Regular(data) => map[path := data]
    case Directory(entries) => Flat(path, entries)
    case Special => map[]
  }

  /** Every call; one the file system refuses, such as writing where a directory is in the
      way, is one that fails. The last two are those of the rollback. */
  datatype Call =
    | ListRoot(path: Path) | ReadRoot(path: Path)
    | ListSource(path: Path) | ReadSource(path: Path)
    | MakeDir(path: Path) | Write(path: Path)
    | ReloadNginx
    | Remove(path: Path) | Restore(path: Path)

  /** Which calls fail, and what a failed write leaves in its file, if anything. */
  datatype Faults = Faults(fails: Call -> bool, torn: Option<string>)

  /** Every call made to list a directory of the web root and read its files works. */
  predicate SnapshotWorks(rel: Path, entries: seq<NamedEntry>, f: Faults)
    decreases entries, 1
  {
    !f.fails(ListRoot(rel)) && SnapshotsWork(rel, entries, f)
  }

  predicate SnapshotsWork(rel: Path, entries: seq<NamedEntry>, f: Faults)
    decreases entries, 0
  {
    entries == [] ||
    (SnapshotEntryWorks(rel + [entries[0].name], entries[0].entry, f) && SnapshotsWork(rel, entries[1..], f))
  }

  predicate SnapshotEntryWorks(path: Path, e: Entry, f: Faults)
    decreases e, 2
  {
    match e
    case Regular(_) => !f.fails(ReadRoot(path))
    case Directory(entries) => SnapshotWorks(path, entries, f)
    case Special => true
  }

  /** Every call made to copy a directory works. */
  predicate CopyWorks(rel: Path, entries: seq<NamedEntry>, f: Faults)
    decreases entries, 1
  {
    !f.fails(ListSource(rel)) && CopiesWork(rel, entries, f)
  }

  predicate CopiesWork(rel: Path, entries: seq<NamedEntry>, f: Faults)
    decreases entries, 0
  {
    entries == [] ||
    (CopyEntryWorks(rel, rel + [entries[0].name], entries[0].entry, f) && CopiesWork(rel, entries[1..], f))
  }

  predicate CopyEntryWorks(rel: Path, path: Path, e: Entry, f: Faults)
    decreases e, 2
  {
    match e
    case Regular(_) => !f.fails(ReadSource(path)) && !f.fails(MakeDir(rel)) && !f.fails(Write(path))
    case Directory(entries) => !f.fails(MakeDir(path)) && CopyWorks(path, entries, f)
    case Special => true
  }

  ghost predicate SameAt(a: Files, b: Files, p: Path) {
    (p in a <==> p in b) && (p in a ==> a[p] == b[p])
  }

  /** The files without those that were written and could be removed. */
  function Removed(files: Files, written: seq<Path>, f: Faults): Files {
    map p | p in files && !(p in written && !f.fails(Remove(p))) :: files[p]
  }

  /** Every file written is removed and every file saved written back, whatever happens to
      the others; a failed write back may tear its file. */
  ghost predicate RolledBack(copied: Files, now: Files, written: seq<Path>, snapshot: Files, f: Faults) {
    forall p: Path ::
      if p !in snapshot then SameAt(Removed(copied, written, f), now, p)
      else if !f.fails(Restore(p)) then p in now && now[p] == snapshot[p]
      else SameAt(Removed(copied, written, f), now, p) || (p in now && f.torn == Some(now[p]))
  }

  /** What a copy and its rollback leave behind. */
  lemma UndoneCopy(was: Files, copied: Files, now: Files, written: seq<Path>, ok: bool, torn: Option<Path>, f: Faults)
    requires CopyTrace(was, copied, written, ok, torn, f)
    requires RolledBack(copied, now, written, was, f)
    ensures forall p: Path :: p in was && !f.fails(Restore(p)) ==> p in now && now[p] == was[p]
    ensures RollbackWorks(f) ==>
              || now == was
              || (torn.Some? && f.torn.Some? && f.fails(Write(torn.value)) && torn.value !in was
                  && now == was[torn.value := f.torn.value])
  {
    if RollbackWorks(f) {
      if torn.None? || torn.value in was || torn.value in written {
        assert now == was;
      } else {
        assert now == was[torn.value := f.torn.value];
      }
    }
  }

  /** The calls the rollback makes work. */
  ghost predicate RollbackWorks(f: Faults) {
    forall p: Path :: !f.fails(Remove(p)) && !f.fails(Restore(p))
  }

  /** What a copy, finished or not, has done to the files: it changed only paths it
      reports as written, and the one whose write was torn. */
  ghost predicate CopyTrace(was: Files, now: Files, written: seq<Path>, ok: bool, torn: Option<Path>, f: Faults) {
    && (ok ==> torn.None?)
    && (torn.Some? ==> f.torn.Some? && f.fails(Write(torn.value))
                       && torn.value in now && now[torn.value] == f.torn.value)
    && forall p: Path :: p !in written && torn != Some(p) ==> SameAt(was, now, p)
  }

  lemma CopyTraceTransitive(a: Files, b: Files, c: Files, first: seq<Path>, second: seq<Path>,
                            ok: bool, torn: Option<Path>, f: Faults)
    requires CopyTrace(a, b, first, true, None, f) && CopyTrace(b, c, second, ok, torn, f)
    ensures CopyTrace(a, c, first + second, ok, torn, f)
  {
  }

  lemma OverlayAssociates(a: Files, b: Files, c: Files)
    ensures (a + b) + c == a + (b + c)
  {
  }

  lemma {:induction false} PathsBelow(rel: Path, entries: seq<NamedEntry>, p: Path)
    requires p in Flat(rel, entries)
    ensures |p| > |rel| && p[..|rel|] == rel
    decreases entries
  {
    var path := rel + [entries[0].name];
    if p in FlatEntry(path, entries[0].entry) {
      match entries[0].entry
      case Regular(_) =>
      case Directory(inner) =>
        PathsBelow(path, inner, p);
        assert p[..|rel|] == p[..|path|][..|rel|];
      case Special =>
    } else {
      PathsBelow(rel, entries[1..], p);
    }
  }

  /** A copied directory overlays exactly its own subtree: nothing outside it changes. */
  lemma OverlayStaysBelow(files: Files, rel: Path, entries: seq<NamedEntry>, p: Path)
    ensures !(|p| > |rel| && p[..|rel|] == rel) ==> SameAt(files, files + Flat(rel, entries), p)
  {
    if p in Flat(rel, entries) {
      PathsBelow(rel, entries, p);
    }
  }

  // ---- the copy, looked up by path ----

  function IndexOfName(entries: seq<NamedEntry>, name: string): (i: int)
    ensures -1 <= i < |entries|
    ensures i >= 0 ==> entries[i].name == name
  {
    if entries == [] then -1
    else if entries[0].name == name then 0
    else
      var i := IndexOfName(entries[1..], name);
      if i < 0 then -1 else i + 1
  }

  /** The regular file a path leads to, one directory at a time. */
  function FileAt(entries: seq<NamedEntry>, path: Path): Option<string>
    decreases path
  {
    if path == [] || IndexOfName(entries, path[0]) < 0 then None
    else
      match entries[IndexOfName(entries, path[0])].entry
      case Regular(data) => if |path| == 1 then Some(data) else None
      case Directory(inner) => FileAt(inner, path[1..])
      case Special => None
  }

  /** No directory lists a name twice. */
  predicate UniqueNames(entries: seq<NamedEntry>)
    decreases entries
  {
    entries == [] ||
    (&& (forall i :: 1 <= i < |entries| ==> entries[i].name != entries[0].name)
     && (match entries[0].entry
         case Directory(inner) => UniqueNames(inner)
         case Regular(_) => true
         case Special => true)
     && UniqueNames(entries[1..]))
  }

  lemma {:induction false} NameOfTail(entries: seq<NamedEntry>, path: Path)
    requires entries != [] && path != [] && entries[0].name != path[0]
    ensures FileAt(entries, path) == FileAt(entries[1..], path)
  {
  }

  /** The flattened copy holds exactly the regular files of the tree, each at the path
      that leads to it. */
  lemma {:induction false} FlatIsLookup(rel: Path, entries: seq<NamedEntry>, path: Path)
    requires UniqueNames(entries)
    ensures rel + path in Flat(rel, entries) <==> FileAt(entries, path).Some?
    ensures FileAt(entries, path).Some? ==> Flat(rel, entries)[rel + path] == FileAt(entries, path).value
    decreases entries
  {
    if entries == [] {
    } else if path == [] {
      if rel + path in Flat(rel, entries) {
        PathsBelow(rel, entries, rel + path);
      }
    } else {
      var name := entries[0].name;
      FlatIsLookup(rel, entries[1..], path);
      if path[0] == name {
        NoSuchName(entries[1..], path);
        if entries[0].entry.Regular? { HeadIsLookup(rel, entries[0], path); }
        match entries[0].entry
        case Directory(inner) =>
          assert rel + path == (rel + [name]) + path[1..];
          FlatIsLookup(rel + [name], inner, path[1..]);
        case Regular(_) =>
        case Special =>
      } else {
        NameOfTail(entries, path);
        assert (rel + path)[|rel|] == path[0];
        PathsOfHead(rel, entries[0], rel + path);
      }
    }
  }

  lemma PathsOfHead(rel: Path, e: NamedEntry, p: Path)
    ensures p in FlatEntry(rel + [e.name], e.entry) ==> |p| > |rel| && p[|rel|] == e.name
  {
    var path := rel + [e.name];
    if p in FlatEntry(path, e.entry) && e.entry.Directory? {
      PathsBelow(path, e.entry.entries, p);
      assert p[..|path|][|rel|] == p[|rel|];
    }
  }

  /** What an applied template leaves at each path: its own file if it has one there, and
      otherwise whatever was there before. */
  lemma AppliedRootByPath(before: Files, source: seq<NamedEntry>, path: Path)
    requires UniqueNames(source)
    ensures var after := before + Flat([], source);
            match FileAt(source, path)
            case Some(data) => path in after && after[path] == data
            case None => SameAt(before, after, path)
  {
    assert [] + path == path;
    FlatIsLookup([], source, path);
  }

  lemma HeadIsLookup(rel: Path, e: NamedEntry, path: Path)
    requires path != [] && path[0] == e.name && e.entry.Regular?
    ensures rel + path in FlatEntry(rel + [e.name], e.entry) <==> |path| == 1
    ensures |path| == 1 ==> FlatEntry(rel + [e.name], e.entry)[rel + path] == e.entry.data
  {
    if |path| == 1 {
      assert path == [e.name];
    } else {
      assert |rel + path| != |rel + [e.name]|;
    }
  }

  lemma {:induction false} NoSuchName(entries: seq<NamedEntry>, path: Path)
    requires path != [] && forall i :: 0 <= i < |entries| ==> entries[i].name != path[0]
    ensures FileAt(entries, path) == None
  {
  }

  class Applier {
    /** The regular files below the web root. */
    var files: Files

    constructor (files: Files)
      ensures this.files == files
    {
      this.files := files;
    }

    /** snapshotDir over the entries ReadDir reports. */
    method SnapshotDir(rel: Path, entries: seq<NamedEntry>, f: Faults) returns (result: Option<Files>)
      ensures result.Some? <==> SnapshotWorks(rel, entries, f)
      ensures result.Some? ==> result.value == Flat(rel, entries)
      decreases entries, 1
    {
      if f.fails(ListRoot(rel)) {
        return None;
      }
      var saved: Files := map[];
      var i := 0;
      assert entries[0..] == entries;
      while i < |entries|
        invariant 0 <= i <= |entries|
        invariant saved + Flat(rel, entries[i..]) == Flat(rel, entries)
        invariant SnapshotsWork(rel, entries[i..], f) <==> SnapshotsWork(rel, entries, f)
      {
        hide FlatEntry, SnapshotEntryWorks;
        assert entries[i..][1..] == entries[i + 1..] && entries[i..][0] == entries[i];
        var sub := SnapshotEntry(rel + [entries[i].name], entries[i].entry, f);
        if sub.None? {
          return None;
        }
        ghost var later := Flat(rel, entries[i + 1..]);
        OverlayAssociates(saved, sub.value, later);
        saved := saved + sub.value;
        i := i + 1;
      }
      assert entries[i..] == [];
      return Some(saved);
    }

    method SnapshotEntry(path: Path, e: Entry, f: Faults) returns (result: Option<Files>)
      ensures result.Some? <==> SnapshotEntryWorks(path, e, f)
      ensures result.Some? ==> result.value == FlatEntry(path, e)
      decreases e, 2
    {
      match e {
        case Directory(entries) =>
          result := SnapshotDir(path, entries, f);
        case Special =>
          return Some(map[]);
        case Regular(data) =>
          if f.fails(ReadRoot(path)) {
            return None;
          }
          return Some(map[path := data]);
      }
    }

    /** writeDir: the paths written, whether it got through, and the path whose own write
        failed midway. */
    method WriteDir(rel: Path, entries: seq<NamedEntry>, f: Faults)
        returns (written: seq<Path>, ok: bool, torn: Option<Path>)
      modifies this
      ensures ok <==> CopyWorks(rel, entries, f)
      ensures ok ==> files == old(files) + Flat(rel, entries)
      ensures CopyTrace(old(files), files, written, ok, torn, f)
      decreases entries, 1
    {
      written, ok, torn := [], false, None;
      if f.fails(ListSource(rel)) {
        return;
      }
      var i := 0;
      assert entries[0..] == entries;
      while i < |entries|
        invariant 0 <= i <= |entries|
        invariant torn.None? && !ok
        invariant files + Flat(rel, entries[i..]) == old(files) + Flat(rel, entries)
        invariant CopiesWork(rel, entries[i..], f) <==> CopiesWork(rel, entries, f)
        invariant CopyTrace(old(files), files, written, true, None, f)
      {
        hide FlatEntry, CopyEntryWorks, CopyTrace;
        assert entries[i..][1..] == entries[i + 1..] && entries[i..][0] == entries[i];
        ghost var before := files;
        var sub, subOk, subTorn := WriteEntry(rel, rel + [entries[i].name], entries[i].entry, f);
        CopyTraceTransitive(old(files), before, files, written, sub, subOk, subTorn, f);
        written := written + sub;
        if !subOk {
          torn := subTorn;
          return;
        }
        OverlayAssociates(before, FlatEntry(rel + [entries[i].name], entries[i].entry), Flat(rel, entries[i + 1..]));
        i := i + 1;
      }
      assert entries[i..] == [];
      ok := true;
    }

    method WriteEntry(rel: Path, path: Path, e: Entry, f: Faults)
        returns (written: seq<Path>, ok: bool, torn: Option<Path>)
      modifies this
      ensures ok <==> CopyEntryWorks(rel, path, e, f)
      ensures ok ==> files == old(files) + FlatEntry(path, e)
      ensures CopyTrace(old(files), files, written, ok, torn, f)
      decreases e, 2
    {
      written, ok, torn := [], false, None;
      match e {
        case Directory(entries) =>
          if f.fails(MakeDir(path)) {
            return;
          }
          written, ok, torn := WriteDir(path, entries, f);
        case Special =>
          ok := true;
        case Regular(data) =>
          if f.fails(ReadSource(path)) || f.fails(MakeDir(rel)) {
            return;
          }
          if f.fails(Write(path)) {
            if f.torn.Some? {
              files := files[path := f.torn.value];
              torn := Some(path);
            }
            return;
          }
          files := files[path := data];
          written := [path];
          ok := true;
      }
    }

    /** rollback */
    method Rollback(written: seq<Path>, snapshot: Files, f: Faults)
      modifies this
      ensures RolledBack(old(files), files, written, snapshot, f)
    {
      for i := 0 to |written|
        invariant files == Removed(old(files), written[..i], f)
      {
        assert written[..i + 1] == written[..i] + [written[i]];
        if !f.fails(Remove(written[i])) {
          files := files - {written[i]};
        }
      }
      assert written[..|written|] == written;
      ghost var removed := files;
      var pending := snapshot.Keys;
      while pending != {}
        invariant pending <= snapshot.Keys
        invariant forall p: Path :: p !in snapshot || p in pending ==> SameAt(removed, files, p)
        invariant forall p: Path :: p in snapshot && p !in pending ==>
                    if !f.fails(Restore(p)) then p in files && files[p] == snapshot[p]
                    else SameAt(removed, files, p) || (p in files && f.torn == Some(files[p]))
        decreases |pending|
      {
        var p :| p in pending;
        if !f.fails(Restore(p)) {
          files := files[p := snapshot[p]];
        } else if f.torn.Some? {
          files := files[p := f.torn.value];
        }
        pending := pending - {p};
      }
    }

    /** Apply. `listing` is what the web root holds, as ReadDir reports it. It succeeds
        exactly when every call works, and then the root is its old files overlaid by the
        source tree. However it fails, a file that was there before has its contents back
        unless its own restoring call fails, and if all of the rollback's calls work the
        regular files are as they were, except that the one file whose own write failed may
        be left behind if it is new. */
    method Apply(listing: seq<NamedEntry>, source: seq<NamedEntry>, f: Faults) returns (ok: bool)
      requires files == Flat([], listing)
      modifies this
      ensures ok <==> SnapshotWorks([], listing, f) && CopyWorks([], source, f) && !f.fails(ReloadNginx)
      ensures ok ==> files == old(files) + Flat([], source)
      ensures !ok ==> forall p: Path :: p in old(files) && !f.fails(Restore(p)) ==>
                        p in files && files[p] == old(files)[p]
      ensures !ok && RollbackWorks(f) ==>
                || files == old(files)
                || (f.torn.Some? && !CopyWorks([], source, f)
                    && exists p: Path :: f.fails(Write(p)) && p !in old(files)
                                         && files == old(files)[p := f.torn.value])
    {
      var snapshot := SnapshotDir([], listing, f);
      if snapshot.None? {
        return false;
      }
      hide Flat, SnapshotWorks, CopyWorks, CopyTrace, Removed;
      ghost var was := files;
      var written, copied, torn := WriteDir([], source, f);
      ghost var halfway := files;
      if copied && !f.fails(ReloadNginx) {
        return true;
      }
      Rollback(written, snapshot.value, f);
      UndoneCopy(was, halfway, files, written, copied, torn, f);
      return false;
    }
  }
}
