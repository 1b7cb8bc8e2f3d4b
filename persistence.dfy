/**
 * The persistence adapter handed to y-websocket (server/index.js:586-632).
 * The `ydocs` collection holds at most one record per room, because `room`
 * is a unique key (server/models/YDoc.js:4), so it is modelled as a map from
 * room name to the stored state bytes. The Yjs document itself is opaque: a
 * type parameter `D`, with `Y.encodeStateAsUpdate` and `Y.applyUpdate`
 * passed in as functions. A database failure is a `fault` parameter; the
 * adapter catches and logs every failure, so it has no error result.
 */
module Persistence {
  import opened Common

  /** `findOneAndUpdate({room}, {state}, {upsert: true})` on the collection. */
  function Upsert(records: map<string, Bytes>, room: string, state: Bytes): (r: map<string, Bytes>)
    ensures r.Keys == records.Keys + {room}
    ensures r[room] == state
    ensures forall k :: k in records && k != room ==> r[k] == records[k]
  {
    records[room := state]
  }

  /**
   * The bytes `bindState` applies to a fresh document: those of the room's
   * record, when one exists and is non-empty.
   */
  function StoredState(records: map<string, Bytes>, room: string): (r: Option<Bytes>)
    ensures r.Some? <==> room in records && |records[room]| > 0
    ensures r.Some? ==> r.value == records[room]
  {
    if room in records && |records[room]| > 0 then Some(records[room]) else None
  }

  /**
   * What `bindState` makes of the live document. `apply` is `Y.applyUpdate`;
   * it answers `None` when it throws on a malformed update.
   */
  function Bound<D>(records: map<string, Bytes>, room: string, doc: D,
                    apply: (D, Bytes) -> Option<D>, fault: bool): (d: D)
    ensures fault || StoredState(records, room).None? ==> d == doc
    ensures !fault && StoredState(records, room).Some? ==>
              d == (match apply(doc, records[room]) case Some(d') => d' case None => doc)
  {
    if fault then doc
    else match StoredState(records, room)
      case None => doc
      case Some(state) =>
        match apply(doc, state)
        case Some(d') => d'
        case None => doc
  }

  /**
   * Persistence round trip: once `writeState` has stored a document's
   * encoding, a later `bindState` for that room applies exactly those bytes,
   * unless the encoding was empty, in which case it applies nothing. Writes
   * to other rooms in between do not disturb it.
   */
  lemma {:induction false} WriteThenBind<D>(records: map<string, Bytes>, room: string, doc: D,
                                            encode: D -> Bytes, others: seq<(string, Bytes)>,
                                            empty: D, apply: (D, Bytes) -> Option<D>)
    requires forall i :: 0 <= i < |others| ==> others[i].0 != room
    ensures var after := UpsertAll(Upsert(records, room, encode(doc)), others);
            && StoredState(after, room) == (if |encode(doc)| > 0 then Some(encode(doc)) else None)
            && Bound(after, room, empty, apply, false)
               == (if |encode(doc)| == 0 then empty
                   else match apply(empty, encode(doc)) case Some(d) => d case None => empty)
    decreases |others|
  {
    if others != [] {
      WriteThenBind(records, room, doc, encode, others[..|others| - 1], empty, apply);
    }
  }

  /** A run of `writeState` calls, oldest first. */
  function UpsertAll(records: map<string, Bytes>, writes: seq<(string, Bytes)>): (r: map<string, Bytes>)
    ensures r.Keys == records.Keys + set i | 0 <= i < |writes| :: writes[i].0
    decreases |writes|
  {
    if writes == [] then records
    else
      var last := writes[|writes| - 1];
      var r := Upsert(UpsertAll(records, writes[..|writes| - 1]), last.0, last.1);
      assert forall i :: 0 <= i < |writes| - 1 ==> writes[..|writes| - 1][i] == writes[i];
      r
  }

  /** The `ydocs` collection. */
  class DocStore {
    var records: map<string, Bytes>

    constructor ()
      ensures records == map[]
    {
      records := map[];
    }

    /**
     * `persistence.writeState`: encodes the whole current document and
     * upserts it under the room's key, even when the encoding is empty. A
     * failed write leaves the collection as it was and is only logged.
     */
    method WriteState<D>(docName: string, doc: D, encode: D -> Bytes, fault: bool)
      modifies this
      ensures fault ==> records == old(records)
      ensures !fault ==> records == Upsert(old(records), docName, encode(doc))
    {
      if fault {
        return;
      }
      var state := encode(doc);
      records := records[docName := state];
    }

    /**
     * `persistence.bindState`: applies the room's stored state to the fresh
     * document when the record exists and is non-empty; a failed read or a
     * rejected update leaves the document as it was. Nothing is stored.
     */
    method BindState<D>(docName: string, doc: D, apply: (D, Bytes) -> Option<D>, fault: bool)
      returns (loaded: D)
      ensures loaded == Bound(records, docName, doc, apply, fault)
      ensures fault ==> loaded == doc
      ensures !fault && (docName !in records || records[docName] == []) ==> loaded == doc
    {
      loaded := doc;
      if fault {
        return;
      }
      if docName in records && |records[docName]| > 0 {
        var state := records[docName];
        var applied := apply(doc, state);
        if applied.Some? {
          loaded := applied.value;
        }
      }
    }

    /**
     * The rename handler's move of a room's record to the new name, as
     * written (server/index.js:153-162): see `Rekeyed`.
     */
    method Rekey(oldName: string, newName: string, fault: bool)
      modifies this
      ensures records == Rekeyed(old(records), oldName, newName, fault)
    {
      if fault || oldName !in records || |records[oldName]| == 0 || (newName in records && newName != oldName) {
        return;
      }
      var state := records[oldName];
      records := (records - {oldName})[newName := state];
    }

    /**
     * The same move as intended (`Moved`): a record left under the new name
     * is replaced or removed. A failure is only logged.
     */
    method Move(oldName: string, newName: string, fault: bool)
      modifies this
      ensures records == Moved(old(records), oldName, newName, fault)
    {
      if fault {
        return;
      }
      if oldName in records {
        var state := records[oldName];
        records := (records - {oldName})[newName := state];
      } else {
        records := records - {newName};
      }
    }

    /** The delete handler's `YDocModel.deleteOne({room})` (server/index.js:202-207). */
    method Delete(room: string, fault: bool)
      modifies this
      ensures fault ==> records == old(records)
      ensures !fault ==> records == old(records) - {room}
    {
      if !fault {
        records := records - {room};
      }
    }
  }

  /**
   * The move as written: `ydoc.room = newName; ydoc.save()`. The save
   * validates the document first, and `state: {required: true}` refuses an
   * empty buffer; it then fails on the unique `room` key when the new name
   * already has a record. Every failure is only logged.
   */
  function Rekeyed(records: map<string, Bytes>, oldName: string, newName: string, fault: bool)
    : (r: map<string, Bytes>)
    ensures (|| fault || oldName !in records || |records[oldName]| == 0
             || (newName in records && newName != oldName)) ==> r == records
    ensures !fault && oldName in records && |records[oldName]| > 0 && newName !in records ==>
              r.Keys == records.Keys - {oldName} + {newName} && r[newName] == records[oldName]
    ensures forall k :: k in records && k != oldName && k != newName ==> k in r && r[k] == records[k]
  {
    if fault || oldName !in records || |records[oldName]| == 0 || (newName in records && newName != oldName) then
      records
    else (records - {oldName})[newName := records[oldName]]
  }

  /**
   * With a leftover record under the new name (y-websocket stores one for
   * any path a client has connected to, room or not), the move as written
   * leaves both records in place: the renamed room then loads the leftover
   * state, and its own document stays under the old name. The intended
   * move gives the new name the room's own state.
   */
  lemma RekeyOntoLeftoverRecord()
    ensures var records := map["a" := [1 as byte], "b" := [2 as byte]];
            var r := Rekeyed(records, "a", "b", false);
            && StoredState(r, "b") == Some([2 as byte])
            && StoredState(r, "a") == Some([1 as byte])
            && StoredState(Moved(records, "a", "b", false), "b") == Some([1 as byte])
  {
    var records := map["a" := [1 as byte], "b" := [2 as byte]];
    assert "b" in records && "a" != "b";
  }

  /**
   * The move as intended: unless the database fails, the new name holds
   * exactly the room's old record (none, if it had none), replacing
   * whatever was stored there, and the old name holds nothing.
   */
  function Moved(records: map<string, Bytes>, oldName: string, newName: string, fault: bool)
    : (r: map<string, Bytes>)
    ensures fault ==> r == records
    ensures !fault ==> StoredState(r, newName) == StoredState(records, oldName)
    ensures !fault && oldName != newName ==> oldName !in r
    ensures forall k :: k != oldName && k != newName ==> (k in r <==> k in records)
    ensures forall k :: k in records && k != oldName && k != newName ==> r[k] == records[k]
  {
    if fault then records
    else if oldName in records then (records - {oldName})[newName := records[oldName]]
    else records - {newName}
  }

  /**
   * Where the new name is free and the room's record (if any) is not empty,
   * the intended move is the one written.
   */
  lemma MovedAgreesWhenFree(records: map<string, Bytes>, oldName: string, newName: string, fault: bool)
    requires newName !in records || newName == oldName
    requires oldName in records ==> |records[oldName]| > 0
    ensures Moved(records, oldName, newName, fault) == Rekeyed(records, oldName, newName, fault)
  {
  }
}
