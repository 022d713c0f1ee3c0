/** The group handler for merged archetype catalogs: the group's own storage slot for the
    catalog is filled on demand from the members' catalogs only while empty, deleted when a
    catalog is stored so that it is merged again, and removed together with its checksum and
    merge-info side files on delete. */
module ArchetypeCatalog {
  import opened Common

  type Bytes = seq<bv8>

  /** The catalog file name the merger produces. */
  const CatalogName: string := "archetype-catalog.xml"

  datatype HandlerError = WorkflowError | DeleteIOError

  /** `canHandle`. */
  predicate CanHandle(path: string) {
    EndsWith(path, CatalogName)
  }

  /** The checksum and merge-info helper: for a merged file at `path`, the side files it
      writes (`SidePaths`) and their content. */
  datatype MergeHelper = MergeHelper(sidePaths: string -> set<string>, sideContent: (Bytes, string) -> Bytes)

  /** The side files written for `merged` at `path`. */
  function SideFiles(h: MergeHelper, merged: Bytes, path: string): (r: map<string, Bytes>)
    ensures r.Keys == h.sidePaths(path)
  {
    map s | s in h.sidePaths(path) :: h.sideContent(merged, s)
  }

  /** The group storage after `retrieve`, and what it returns (the slot's path, or null). The
      merge result and a failure writing it are given. */
  function RetrieveSpec(files: map<string, Bytes>, path: string, merged: Option<Bytes>, writeFails: bool,
                        h: MergeHelper): (r: (Result<Option<string>, HandlerError>, map<string, Bytes>))
    ensures path in files ==> r == (Ok(Some(path)), files)
    ensures path !in files && merged.None? ==> r == (Ok(None), files)
    ensures path !in files && merged.Some? && writeFails ==> r == (Err(WorkflowError), files)
    ensures r.0.Ok? && r.0.value.Some? ==> r.0.value.value == path && path in r.1
    ensures r.0.Ok? && r.0.value.Some? && path !in files ==>
      r.1 == files[path := merged.value] + SideFiles(h, merged.value, path)
  {
    if path in files then (Ok(Some(path)), files)
    else if merged.None? then (Ok(None), files)
    else if writeFails then (Err(WorkflowError), files)
    else
      var written := files[path := merged.value] + SideFiles(h, merged.value, path);
      assert path in written by {
        if path !in SideFiles(h, merged.value, path) {
          assert written[path] == merged.value;
        }
      }
      (Ok(Some(path)), written)
  }

  /** Once retrieved, the slot is served as it is: a second `retrieve` changes nothing and
      returns the same slot, whatever the merger would now produce. */
  lemma RetrieveIdempotent(files: map<string, Bytes>, path: string, m1: Option<Bytes>, m2: Option<Bytes>,
                           f1: bool, f2: bool, h: MergeHelper)
    requires RetrieveSpec(files, path, m1, f1, h).0 == Ok(Some(path))
    ensures RetrieveSpec(RetrieveSpec(files, path, m1, f1, h).1, path, m2, f2, h) ==
      (Ok(Some(path)), RetrieveSpec(files, path, m1, f1, h).1)
  {
  }

  /** After a catalog is stored the next `retrieve` merges afresh. */
  lemma StoreForcesRemerge(files: map<string, Bytes>, path: string, m: Bytes, h: MergeHelper)
    requires CanHandle(path)
    ensures RetrieveSpec(StoreSpec(files, path, false).1, path, Some(m), false, h).1 ==
      (files - {path})[path := m] + SideFiles(h, m, path)
  {
  }

  /** `store` up to its delegation to the member stores: a catalog path has its group slot
      deleted (an I/O failure surfaces as a workflow error); other paths leave the group's
      storage alone. */
  function StoreSpec(files: map<string, Bytes>, path: string, deleteFails: bool)
    : (r: (Result<(), HandlerError>, map<string, Bytes>))
    ensures !CanHandle(path) ==> r == (Ok(()), files)
    ensures CanHandle(path) && !deleteFails ==> r.0.Ok? && path !in r.1 && r.1 == files - {path}
    ensures CanHandle(path) && deleteFails ==> r == (Err(WorkflowError), files)
  {
    if !CanHandle(path) then (Ok(()), files)
    else if deleteFails then (Err(WorkflowError), files)
    else (Ok(()), files - {path})
  }

  /** `delete`: false when no storage reference is available; otherwise the slot and its side
      files are removed and the answer is true. */
  function DeleteSpec(files: map<string, Bytes>, path: string, slotAvailable: bool, deleteFails: bool,
                      h: MergeHelper): (r: (Result<bool, HandlerError>, map<string, Bytes>))
    ensures !slotAvailable ==> r == (Ok(false), files)
    ensures slotAvailable && deleteFails ==> r == (Err(DeleteIOError), files)
    ensures slotAvailable && !deleteFails ==>
      r.0 == Ok(true) && path !in r.1 && (forall s :: s in h.sidePaths(path) ==> s !in r.1) &&
      (forall p :: p in files && p != path && p !in h.sidePaths(path) ==> p in r.1 && r.1[p] == files[p])
  {
    if !slotAvailable then (Ok(false), files)
    else if deleteFails then (Err(DeleteIOError), files)
    else (Ok(true), files - {path} - h.sidePaths(path))
  }

  /** The group's own storage, which the handler reads and writes. */
  class ArchetypeCatalogHandler {
    const helper: MergeHelper
    var files: map<string, Bytes>

    constructor (helper: MergeHelper, files: map<string, Bytes>)
      ensures this.helper == helper && this.files == files
    {
      this.helper := helper;
      this.files := files;
    }

    /** `retrieve`: serves an existing slot as is; otherwise writes the merge result, when
        there is one, and its side files. */
    method Retrieve(path: string, merged: Option<Bytes>, writeFails: bool)
      returns (r: Result<Option<string>, HandlerError>)
      modifies this
      ensures (r, files) == RetrieveSpec(old(files), path, merged, writeFails, helper)
    {
      if path !in files {
        if merged.Some? {
          if writeFails {
            return Err(WorkflowError);
          }
          files := files[path := merged.value];
          files := files + SideFiles(helper, merged.value, path);
        }
      }
      if path in files {
        r := Ok(Some(path));
      } else {
        r := Ok(None);
      }
    }

    /** `store`, up to the delegation to the member stores. */
    method Store(path: string, deleteFails: bool) returns (r: Result<(), HandlerError>)
      modifies this
      ensures (r, files) == StoreSpec(old(files), path, deleteFails)
    {
      if EndsWith(path, CatalogName) {
        if deleteFails {
          return Err(WorkflowError);
        }
        files := files - {path};
      }
      r := Ok(());
    }

    /** `delete`. */
    method Delete(path: string, slotAvailable: bool, deleteFails: bool) returns (r: Result<bool, HandlerError>)
      modifies this
      ensures (r, files) == DeleteSpec(old(files), path, slotAvailable, deleteFails, helper)
    {
      if !slotAvailable {
        return Ok(false);
      }
      if deleteFails {
        return Err(DeleteIOError);
      }
      files := files - {path};
      files := files - helper.sidePaths(path);
      r := Ok(true);
    }
  }
}
