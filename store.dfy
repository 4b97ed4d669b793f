/** The flat-file transaction store (`db` in src/lib/db.ts).

    The whole collection lives in one JSON document. Every operation reads the
    whole document, changes the collection in memory and writes the whole
    collection back. File access, JSON (de)serialisation, id generation and
    the clock are outside the model: what a read yields is the `document`
    field, what a write does is an explicit `WriteOutcome` argument, and the
    fresh id and timestamps are arguments too. */
module Store {

  /** A JSON value as it appears inside a stored record. */
  datatype Json =
    | JNull
    | JBool(b: bool)
    | JNumber(n: real)
    | JString(s: string)
    | JArray(items: seq<Json>)
    | JObject(members: map<string, Json>)

  /** One stored transaction: a JSON object from field name to value. The
      store does not check its shape; whatever the caller sent is kept. */
  type Record = map<string, Json>

  /** What reading and parsing the data file yields. */
  datatype Document =
    | Unreadable                    // the read itself throws
    | Malformed(text: string)       // the text is read but is not JSON
    | Stored(records: seq<Record>)  // a JSON array of records

  /** An error raised by the file system. */
  datatype IoError = IoError(message: string)

  /** The file system's answer to a whole-document write. A failed write may
      leave a truncated or partly written file behind: `left` is what a later
      read then finds. */
  datatype WriteOutcome =
    | Written
    | WriteFailed(error: IoError, left: Document)

  /** A value returned, or an error thrown to the caller. */
  datatype Result<T> = Ok(value: T) | Err(error: IoError)

  const IdField := "_id"
  const CreatedField := "createdAt"
  const UpdatedField := "updatedAt"

  /** `t._id === id` in JavaScript: strict equality holds only when `_id` is
      present and is the string `id`. */
  predicate HasId(r: Record, id: string) {
    IdField in r && r[IdField] == JString(id)
  }

  /** The collection `findTransactions` hands back for a document: the
      stored records, or nothing when the read or the parse fails. */
  function Listing(doc: Document): seq<Record> {
    if doc.Stored? then doc.records else []
  }

  /** The record `createTransaction` builds: `{_id: freshId, ...fields,
      createdAt, updatedAt}`. Later spreads win, so a caller's `_id` replaces
      the generated one, while the store's timestamps replace the caller's. */
  function NewRecord(fields: Record, freshId: string, createdAt: string, updatedAt: string): (r: Record)
    ensures r.Keys == fields.Keys + {IdField, CreatedField, UpdatedField}
    ensures r[IdField] == if IdField in fields then fields[IdField] else JString(freshId)
    ensures r[CreatedField] == JString(createdAt)
    ensures r[UpdatedField] == JString(updatedAt)
    ensures forall k :: k in fields && k != IdField && k != CreatedField && k != UpdatedField ==> r[k] == fields[k]
  {
    map[IdField := JString(freshId)] + fields + map[CreatedField := JString(createdAt), UpdatedField := JString(updatedAt)]
  }

  /** The generated id identifies the new record exactly when the caller did
      not send an `_id` of its own, or sent that very string. */
  lemma NewRecordIdentity(fields: Record, freshId: string, createdAt: string, updatedAt: string, id: string)
    ensures HasId(NewRecord(fields, freshId, createdAt, updatedAt), id) <==>
            if IdField in fields then fields[IdField] == JString(id) else id == freshId
  {
  }

  /** The filter in `deleteTransaction`: the records whose `_id` is not the
      string `id`, in their original order. */
  function Without(records: seq<Record>, id: string): (kept: seq<Record>)
    ensures |kept| <= |records|
    ensures forall r :: r in kept <==> r in records && !HasId(r, id)
  {
    if records == [] then []
    else (if HasId(records[0], id) then [] else [records[0]]) + Without(records[1..], id)
  }

  /** Filtering distributes over concatenation, so the kept records stay in
      their original relative order. */
  lemma {:induction false} WithoutAppend(a: seq<Record>, b: seq<Record>, id: string)
    ensures Without(a + b, id) == Without(a, id) + Without(b, id)
  {
    if a == [] {
      assert a + b == b;
    } else {
      assert (a + b)[1..] == a[1..] + b;
      WithoutAppend(a[1..], b, id);
    }
  }

  /** Deleting an id that no record carries keeps the collection identical. */
  lemma {:induction false} WithoutAbsent(records: seq<Record>, id: string)
    requires forall i :: 0 <= i < |records| ==> !HasId(records[i], id)
    ensures Without(records, id) == records
  {
    if records != [] {
      WithoutAbsent(records[1..], id);
    }
  }

  /** Every copy of a record with that id goes, every copy of any other
      record stays: duplicates are neither merged nor dropped. */
  lemma {:induction false} WithoutCount(records: seq<Record>, id: string, r: Record)
    ensures multiset(Without(records, id))[r] == if HasId(r, id) then 0 else multiset(records)[r]
  {
    if records != [] {
      WithoutCount(records[1..], id, r);
      assert records == [records[0]] + records[1..];
    }
  }

  /** Deleting twice is deleting once. */
  lemma WithoutIdempotent(records: seq<Record>, id: string)
    ensures Without(Without(records, id), id) == Without(records, id)
  {
    var kept := Without(records, id);
    forall i | 0 <= i < |kept| ensures !HasId(kept[i], id) {
      assert kept[i] in kept;
    }
    WithoutAbsent(kept, id);
  }

  /** Deleting the id of a record just appended removes it again, and with
      it every earlier record that carries the same id. */
  lemma DeleteUndoesCreate(records: seq<Record>, fields: Record, freshId: string, createdAt: string, updatedAt: string, id: string)
    requires HasId(NewRecord(fields, freshId, createdAt, updatedAt), id)
    ensures Without(records + [NewRecord(fields, freshId, createdAt, updatedAt)], id) == Without(records, id)
  {
    var created := NewRecord(fields, freshId, createdAt, updatedAt);
    WithoutAppend(records, [created], id);
    assert Without([created], id) == [];
  }

  /** The `db` object. Its one piece of state is the content of the data
      file; every method reads it whole and, when it changes anything,
      replaces it whole. */
  class TransactionStore {
    var document: Document

    /** A store over a data file whose current content is `initial`. */
    constructor (initial: Document)
      ensures document == initial
    {
      document := initial;
    }

    /** `findTransactions`: the stored records; a failed read or parse is
        swallowed and yields an empty collection, never an error. */
    method FindTransactions() returns (records: seq<Record>)
      ensures document.Stored? ==> records == document.records
      ensures !document.Stored? ==> records == []
    {
      match document
      case Stored(rs) =>
        records := rs;
      case _ =>
        records := [];
    }

    /** `createTransaction`: reads the collection, appends the new record and
        writes the collection back, returning exactly the appended record. A
        write error is rethrown unchanged. Since the read degrades to an
        empty collection, creating over an unreadable or malformed file
        replaces its content by the new record alone. */
    method CreateTransaction(fields: Record, freshId: string, createdAt: string, updatedAt: string, write: WriteOutcome)
      returns (result: Result<Record>)
      modifies this
      ensures write.Written? ==>
                result == Ok(NewRecord(fields, freshId, createdAt, updatedAt)) &&
                document == Stored(Listing(old(document)) + [NewRecord(fields, freshId, createdAt, updatedAt)])
      ensures write.Written? && !old(document).Stored? ==>
                document == Stored([NewRecord(fields, freshId, createdAt, updatedAt)])
      ensures write.WriteFailed? ==> result == Err(write.error) && document == write.left
    {
      var transactions := FindTransactions();
      var created := NewRecord(fields, freshId, createdAt, updatedAt);
      transactions := transactions + [created];
      match write
      case Written =>
        document := Stored(transactions);
        result := Ok(created);
      case WriteFailed(e, left) =>
        document := left;
        result := Err(e);
    }

    /** `deleteTransaction`: reads the collection, keeps the records whose
        `_id` is not `id` and writes those back. It answers `true` whether or
        not anything matched; a write error is rethrown unchanged. Deleting
        over an unreadable or malformed file writes an empty collection. */
    method DeleteTransaction(id: string, write: WriteOutcome) returns (result: Result<bool>)
      modifies this
      ensures write.Written? ==>
                result == Ok(true) && document == Stored(Without(Listing(old(document)), id))
      ensures write.Written? && !old(document).Stored? ==> document == Stored([])
      ensures write.WriteFailed? ==> result == Err(write.error) && document == write.left
    {
      var transactions := FindTransactions();
      var filtered := Without(transactions, id);
      match write
      case Written =>
        document := Stored(filtered);
        result := Ok(true);
      case WriteFailed(e, left) =>
        document := left;
        result := Err(e);
    }
  }
}
