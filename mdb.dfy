/** The document store: an in-memory map from generated identifiers to
    timestamped documents, with lookup, insertion under a fresh identifier,
    replacement of the payload, and removal. Timestamps are opaque strings
    supplied by the caller in place of the clock. */
module Mdb {
  import opened Results
  import Uuid

  /** One stored entry: when it was created, when it was last edited, and its payload. */
  datatype Document = Document(created: string, edited: string, doc: string)

  /** The database in memory. */
  class Database {
    var data: map<string, Document>

    /** A new, empty database. */
    constructor ()
      ensures data == map[]
    {
      data := map[];
    }

    /** The document stored under `id`, or a NotFound error naming `id`. */
    function Get(id: string): (r: Result<Document>)
      reads this
      ensures r.Ok? <==> id in data
      ensures r.Ok? ==> r.value == data[id]
      ensures r.Err? ==> r.error == NotFound(id)
    {
      if id in data then Ok(data[id]) else Err(NotFound(id))
    }

    /** Stores `doc` under an identifier printed from the random bytes read,
        stamped with the two clock readings. A failed read changes nothing. */
    method Put(doc: string, read: Uuid.RandomRead, created: string, edited: string)
      returns (r: Result<string>)
      requires read.Filled? ==> |read.bytes| == 16
      modifies this
      ensures r.Ok? <==> read.Filled?
      ensures read.ReadFailed? ==> r == Err(RandomSourceFailed(read.reason)) && data == old(data)
      ensures r.Ok? ==> Uuid.IsVersion4Id(r.value) && r.value == Uuid.NewId(read.bytes)
      ensures r.Ok? ==> data == old(data)[r.value := Document(created, edited, doc)]
      // Corollaries of the map equation above, stated for the reader:
      ensures r.Ok? ==> Get(r.value) == Ok(Document(created, edited, doc))
      ensures r.Ok? ==> forall k :: k in old(data) && k != r.value ==> k in data && data[k] == old(data)[k]
    {
      var pid := Uuid.Generate(read);
      if pid.Err? {
        return Err(pid.error);
      }
      data := data[pid.value := Document(created, edited, doc)];
      return Ok(pid.value);
    }

    /** Replaces the payload and the edited time of the document under `id`,
        keeping its creation time; a missing `id` is an error and changes nothing. */
    method Update(id: string, doc: string, edited: string) returns (status: Outcome)
      modifies this
      ensures status == Success <==> id in old(data)
      ensures status.Failure? ==> status.error == NotFound(id) && data == old(data)
      ensures status == Success ==>
        data == old(data)[id := Document(old(data)[id].created, edited, doc)]
      // A corollary of the map equation above, stated for the reader:
      ensures status == Success ==>
        data.Keys == old(data).Keys &&
        data[id].created == old(data)[id].created &&
        data[id].edited == edited && data[id].doc == doc
    {
      var current := Get(id);
      if current.Err? {
        return Failure(current.error);
      }
      var document := current.value.(edited := edited, doc := doc);
      data := data[id := document];
      return Success;
    }

    /** Removes the document under `id`; a missing `id` is an error and changes nothing. */
    method Delete(id: string) returns (status: Outcome)
      modifies this
      ensures status == Success <==> id in old(data)
      ensures status.Failure? ==> status.error == NotFound(id) && data == old(data)
      ensures status == Success ==> data == old(data) - {id}
      ensures status == Success ==> Get(id) == Err(NotFound(id)) && |data| == |old(data)| - 1
    {
      var current := Get(id);
      if current.Err? {
        return Failure(current.error);
      }
      data := data - {id};
      return Success;
    }
  }

  /** A whole life cycle on a fresh database: put "abc", read it, update it to
      "def", read it, delete it, read it. Returns the three reads and the
      statuses of the update and the delete. */
  method Lifecycle(random: seq<Uuid.Byte>, t0: string, t1: string, t2: string)
    returns (id: string, first: Result<Document>, updated: Outcome, second: Result<Document>,
             deleted: Outcome, third: Result<Document>)
    requires |random| == 16
    ensures id == Uuid.NewId(random)
    ensures first == Ok(Document(t0, t1, "abc"))
    ensures updated == Success && second == Ok(Document(t0, t2, "def"))
    ensures deleted == Success
    ensures third == Err(NotFound(id))
  {
    var db := new Database();
    var put := db.Put("abc", Uuid.Filled(random), t0, t1);
    id := put.value;
    first := db.Get(id);
    updated := db.Update(id, "def", t2);
    second := db.Get(id);
    deleted := db.Delete(id);
    third := db.Get(id);
  }
}
