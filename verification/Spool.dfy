/** Message bodies, one file per delivery, kept apart from the tables. */
module Spool {
  import opened Channel
  import opened RetryPolicy
  import opened Deliveries

  datatype File = File(body: string, modified: Time)

  class Store {
    var files: map<Id, File>

    constructor ()
      ensures files == map[]
    {
      files := map[];
    }

    /** Written aside and renamed into place: the whole body is there, or the file is as it was. */
    method Put(id: Id, body: string, now: Time, diskUp: bool) returns (ok: bool)
      modifies this
      ensures ok == diskUp
      ensures files == if diskUp then old(files)[id := File(body, now)] else old(files)
    {
      if diskUp {
        files := files[id := File(body, now)];
      }
      ok := diskUp;
    }

    method Get(id: Id) returns (body: Option<string>)
      ensures body == if id in files then Some(files[id].body) else None
    {
      if id in files {
        return Some(files[id].body);
      }
      return None;
    }

    method Delete(id: Id)
      modifies this
      ensures files == old(files) - {id}
    {
      files := files - {id};
    }

    /** By modification time alone; the tables are not consulted. */
    method Prune(olderThan: int) returns (removed: nat)
      modifies this
      ensures removed == |old(files)| - |files|
      ensures files == Kept(old(files), olderThan)
      ensures forall id :: id in files <==> id in old(files) && old(files)[id].modified >= olderThan
      ensures forall id :: id in files ==> files[id] == old(files)[id]
    {
      var stale := set id | id in files && files[id].modified < olderThan;
      FewerEntries(files, stale);
      files, removed := files - stale, |stale|;
    }
  }

  function Kept(files: map<Id, File>, olderThan: int): map<Id, File> {
    map id | id in files && files[id].modified >= olderThan :: files[id]
  }
}
