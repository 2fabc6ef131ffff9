/**
 * A MongoDB collection as the scripts use it: an ordered list of documents
 * that `insert_one` appends to and `delete_many({})` empties. The client,
 * the connection and the server are not modelled.
 */
module Mongo {

  class Collection<T> {
    /** The stored documents, in insertion order. */
    var docs: seq<T>

    constructor (init: seq<T>)
      ensures docs == init
    {
      docs := init;
    }

    /** `insert_one(d)`: appends one new document; nothing is replaced. */
    method InsertOne(d: T)
      modifies this
      ensures docs == old(docs) + [d]
    {
      docs := docs + [d];
    }

    /** `delete_many({})`: removes every document and reports how many there were. */
    method DeleteMany() returns (deleted: nat)
      modifies this
      ensures deleted == |old(docs)|
      ensures docs == []
    {
      deleted := |docs|;
      docs := [];
    }
  }
}
