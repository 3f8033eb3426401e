/** Staged imports with deferred rollback and seal: `RecoveryImport` of source trees and of execution
    bundles, and the exclusive publication of a backup file (`internal/sourcelibrary/recovery.go`,
    `internal/executionbundle/recovery.go`, `internal/backuprestore/envelope_store.go`). Every publishing
    step can fail; removals of what an import itself created succeed. */
module StagedImport {
  import opened Prelude

  /** What is published under which path, and how many stage directories there are besides. */
  class Disk {
    var files: map<string, string>
    var stages: nat

    constructor (initial: map<string, string>)
      ensures files == initial && stages == 0
    {
      files, stages := initial, 0;
    }
  }

  /** A verified candidate in the stage directory and where it is to be published. */
  datatype Candidate = Candidate(path: string, content: string)

  /** How moving a candidate into place ends. */
  datatype Move = Moved | Refused | NoDirectory

  /** Two candidates for one path are the same. */
  predicate Agree(items: seq<Candidate>) {
    forall i, j :: 0 <= i < |items| && 0 <= j < |items| && items[i].path == items[j].path ==> items[i] == items[j]
  }

  predicate Fits(files: map<string, string>, same: (string, string) -> bool, item: Candidate) {
    item.path in files && same(files[item.path], item.content)
  }

  /** The import of source trees and the import of execution bundles work alike. They differ in what may
      stand in for a candidate (a tree with the same hash, a file with the same bytes), and in that
      moving a file replaces an existing one where moving a directory is refused. */
  class Import {
    const disk: Disk
    const same: (string, string) -> bool
    const overwrites: bool
    var items: seq<Candidate>
    var published: seq<string>
    var sealed: bool
    var staged: bool
    /** The published files when the import was prepared, and the stage directories of others. */
    ghost const base: map<string, string>
    ghost const stages: nat

    ghost predicate Valid()
      reads this, disk
    {
      && (forall x :: same(x, x)) && Agree(items)
      && (forall i :: 0 <= i < |items| ==> items[i].path !in base)
      && disk.stages == stages + (if staged then 1 else 0)
    }

    /** Exactly what this import published stands beside what was there before. */
    ghost predicate Pending()
      reads this, disk
    {
      && (forall p :: p in disk.files <==> p in base || p in published)
      && (forall p :: p in base ==> p in disk.files && disk.files[p] == base[p] && p !in published)
    }

    constructor (disk: Disk, same: (string, string) -> bool, overwrites: bool)
      requires forall x :: same(x, x)
      modifies disk
      ensures this.disk == disk && this.same == same && this.overwrites == overwrites
      ensures items == [] && published == [] && !sealed && staged && Valid() && Pending()
      ensures disk.files == old(disk.files) && disk.stages == old(disk.stages) + 1
      ensures base == old(disk.files) && stages == old(disk.stages)
    {
      this.disk, this.same, this.overwrites := disk, same, overwrites;
      items, published, sealed, staged := [], [], false, true;
      base, stages := disk.files, disk.stages;
      new;
      disk.stages := disk.stages + 1;
    }

    /** Stages a verified candidate, unless something that may stand in for it is there already. */
    method Stage(item: Candidate, copied: bool) returns (ok: bool)
      requires Valid() && Pending() && published == [] && Agree(items + [item])
      modifies this`items
      ensures Valid() && Pending()
      ensures ok <==> if item.path in base then same(base[item.path], item.content) else copied
      ensures items == if ok && item.path !in base then old(items) + [item] else old(items)
    {
      if item.path in disk.files {
        return same(disk.files[item.path], item.content);
      }
      if copied {
        items := items + [item];
      }
      return copied;
    }

    method DropStage()
      requires Valid()
      modifies this`staged, disk`stages
      ensures Valid() && !staged
    {
      if staged {
        staged := false;
        disk.stages := disk.stages - 1;
      }
    }

    /** Undoes exactly what the import published. */
    method Rollback()
      requires Valid() && !sealed && Pending()
      modifies this`published, this`staged, disk
      ensures Valid() && Pending() && !staged && published == [] && disk.files == base
    {
      var i := |published|;
      while i > 0
        invariant 0 <= i <= |published| && published == old(published) && staged == old(staged) && Valid()
        invariant forall p :: p in disk.files ==> p in base || p in published[..i]
        invariant forall p :: p in base ==> p in disk.files && disk.files[p] == base[p]
      {
        i := i - 1;
        assert published[..i + 1] == published[..i] + [published[i]];
        assert published[i] in published;
        disk.files := disk.files - {published[i]};
      }
      published := [];
      DropStage();
      assert disk.files == base;
    }

    /** Moves the candidates into place, or leaves everything as it was when the import was prepared. */
    method Commit(outcome: nat -> Move) returns (ok: bool)
      requires Valid() && Pending() && published == [] && !sealed && staged
      modifies this`published, this`staged, disk
      ensures Valid() && Pending() && items == old(items)
      ensures ok ==> staged && forall i :: 0 <= i < |items| ==> Fits(disk.files, same, items[i])
      ensures ok ==> forall p :: p in disk.files ==> p in base || Candidate(p, disk.files[p]) in items
      ensures !ok ==> disk.files == base && published == []
      ensures (forall i :: outcome(i) == Moved) ==> ok
    {
      for i := 0 to |items|
        invariant Valid() && Pending() && staged && Settled(i)
      {
        var item := items[i];
        var move := if item.path in disk.files && !overwrites && outcome(i) == Moved then Refused else outcome(i);
        if move == Moved {
          disk.files := disk.files[item.path := item.content];
          published := published + [item.path];
        } else if move == NoDirectory || item.path !in disk.files || !same(disk.files[item.path], item.content) {
          Rollback();
          return false;
        }
      }
      return true;
    }

    /** The first candidates are in place, and whatever was published is one of the candidates. */
    ghost predicate Settled(n: nat)
      reads this, disk
    {
      && n <= |items|
      && (forall i :: 0 <= i < n ==> Fits(disk.files, same, items[i]))
      && (forall p :: p in published ==> p in disk.files && Candidate(p, disk.files[p]) in items)
    }

    method Seal()
      requires Valid() && !sealed
      modifies this, disk`stages
      ensures Valid() && sealed && !staged && published == [] && items == old(items)
    {
      sealed := true;
      DropStage();
      published := [];
    }

    /** Without a seal, closing rolls back. */
    method Close()
      requires Valid() && (!sealed ==> Pending())
      modifies this, disk
      ensures Valid() && !staged && sealed == old(sealed) && disk.stages == stages
      ensures disk.files == if old(sealed) then old(disk.files) else base
    {
      if !sealed {
        Rollback();
      } else {
        DropStage();
      }
    }
  }

  // ---------- Exclusive publication of one file ----------

  datatype Publication = Published | NotCopied | NotLinked | TempStays | NotSynced

  /** `publishFileExclusive`: a temporary copy, a hard link that fails on an existing name, and the
      removal of the temporary name. */
  method PublishFileExclusive(disk: Disk, temp: string, name: string, content: string, outcome: Publication) returns (ok: bool)
    requires temp !in disk.files && temp != name
    modifies disk`files
    ensures ok <==> outcome == Published && name !in old(disk.files)
    ensures disk.files == if ok then old(disk.files)[name := content] else old(disk.files)
  {
    ghost var before := disk.files;
    disk.files := disk.files[temp := if outcome == NotCopied then "" else content];
    if outcome == NotCopied || name in disk.files || outcome == NotLinked {
      disk.files := disk.files - {temp};
      assert disk.files == before;
      return false;
    }
    disk.files := disk.files[name := disk.files[temp]];
    if outcome == TempStays {
      disk.files := disk.files - {name};
      disk.files := disk.files - {temp};
      assert disk.files == before;
      return false;
    }
    disk.files := disk.files - {temp};
    if outcome == NotSynced {
      disk.files := disk.files - {name};
      assert disk.files == before;
      return false;
    }
    assert disk.files == before[name := content];
    return true;
  }
}
