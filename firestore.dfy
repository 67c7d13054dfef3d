/**
 * The document store the admin forms write to: named collections of documents,
 * each document a flat record of field values. Only the three writes the forms
 * issue are modelled: `addDoc`, `updateDoc` and the fire-and-forget
 * `addDocumentNonBlocking`, whose request is queued and not awaited.
 */
module Firestore {
  import opened Js

  /** A field value as the forms write it. */
  datatype Value =
    | Str(s: string)
    | StrList(items: seq<string>)
    | Flag(b: bool)
    | StrMap(props: seq<Entry>)
    | ServerTimestamp   // the `serverTimestamp()` sentinel, filled in by the server

  type Record = map<string, Value>

  type Collections = map<string, map<string, Record>>

  /** A write handed to the store without waiting for its result. */
  datatype PendingWrite = PendingAdd(collection: string, data: Record)

  function DocsOf(cols: Collections, c: string): map<string, Record> {
    if c in cols then cols[c] else map[]
  }

  /** The collections after `addDoc(collection(c), data)` stored the record as `id`. */
  function WithAdded(cols: Collections, c: string, id: string, data: Record): Collections {
    cols[c := DocsOf(cols, c)[id := data]]
  }

  /** The collections after `updateDoc(doc(c, id), data)`: the given fields are
      overwritten, the document's other fields stay. */
  function WithUpdated(cols: Collections, c: string, id: string, data: Record): Collections
    requires id in DocsOf(cols, c)
  {
    cols[c := DocsOf(cols, c)[id := DocsOf(cols, c)[id] + data]]
  }

  class Store {
    var collections: Collections
    var pending: seq<PendingWrite>

    constructor (initial: Collections)
      ensures collections == initial && pending == []
    {
      collections := initial;
      pending := [];
    }

    function Docs(c: string): map<string, Record>
      reads this
    {
      DocsOf(collections, c)
    }

    /** `addDoc`: the store picks a fresh document id; the model receives that
        choice as `autoId`. */
    method AddDoc(c: string, data: Record, autoId: string) returns (id: string)
      requires autoId != "" && autoId !in Docs(c)
      modifies this
      ensures id == autoId
      ensures collections == WithAdded(old(collections), c, id, data)
      ensures pending == old(pending)
    {
      id := autoId;
      collections := WithAdded(collections, c, id, data);
    }

    /** `updateDoc`: rejected (nothing written) when the document does not exist;
        an empty id is not a valid document reference and is rejected too. */
    method UpdateDoc(c: string, id: string, data: Record) returns (ok: bool)
      modifies this
      ensures ok <==> id != "" && id in old(Docs(c))
      ensures ok ==> collections == WithUpdated(old(collections), c, id, data)
      ensures !ok ==> collections == old(collections)
      ensures pending == old(pending)
    {
      ok := id != "" && id in Docs(c);
      if ok {
        collections := WithUpdated(collections, c, id, data);
      }
    }

    /** `addDocumentNonBlocking`: the add is issued and not awaited. */
    method AddDocNonBlocking(c: string, data: Record)
      modifies this
      ensures collections == old(collections)
      ensures pending == old(pending) + [PendingAdd(c, data)]
    {
      pending := pending + [PendingAdd(c, data)];
    }
  }

  /** An update leaves every other document of every collection as it was. */
  lemma UpdateTouchesOneDocument(cols: Collections, c: string, id: string, data: Record, c': string, id': string)
    requires id in DocsOf(cols, c)
    requires c' != c || id' != id
    ensures id' in DocsOf(WithUpdated(cols, c, id, data), c') <==> id' in DocsOf(cols, c')
    ensures id' in DocsOf(cols, c') ==> DocsOf(WithUpdated(cols, c, id, data), c')[id'] == DocsOf(cols, c')[id']
  {
  }
}
