/**
 * The snapshot-to-list conversion inside `fetchEnrollments`
 * (src/services/enrollmentService.js): the realtime database delivers the
 * whole `enrollments` collection as one keyed object, and the listener turns
 * it into an ordered list of records `{ id: key, ...data[key] }`. No field is
 * renamed, defaulted or normalised.
 */
module EnrollmentService {
  import opened JsText
  import opened JsValue

  /** Assigning `k: v` onto an object literal: overwrite in place if present, else append. */
  function Put(es: seq<Entry>, k: string, v: Value): seq<Entry> {
    if es == [] then [Entry(k, v)]
    else if es[0].key == k then [Entry(k, v)] + es[1..]
    else [es[0]] + Put(es[1..], k, v)
  }

  /** Reading back a key just assigned yields the new value; other keys are unaffected. */
  lemma {:induction false} PutLookup(es: seq<Entry>, k: string, v: Value, k': string)
    ensures Lookup(Put(es, k, v), k') == if k' == k then v else Lookup(es, k')
  {
    if es != [] && es[0].key != k {
      PutLookup(es[1..], k, v, k');
    }
  }

  /** `{ ...target, ...src }` as entry lists: each source entry assigned in order. */
  function Spread(target: seq<Entry>, src: seq<Entry>): seq<Entry>
    decreases |src|
  {
    if src == [] then target else Spread(Put(target, src[0].key, src[0].val), src[1..])
  }

  /** After a spread, a key the source defines reads as the source's value; any other key is the target's. */
  lemma {:induction false} SpreadLookup(target: seq<Entry>, src: seq<Entry>, k: string)
    requires DistinctKeys(src)
    ensures Lookup(Spread(target, src), k) == if HasKey(src, k) then Lookup(src, k) else Lookup(target, k)
    decreases |src|
  {
    if src != [] {
      var rest := src[1..];
      assert DistinctKeys(rest) by {
        forall i, j | 0 <= i < j < |rest| ensures rest[i].key != rest[j].key {
          assert rest[i] == src[i + 1] && rest[j] == src[j + 1];
        }
      }
      SpreadLookup(Put(target, src[0].key, src[0].val), rest, k);
      PutLookup(target, src[0].key, src[0].val, k);
      LookupSpec(src, k);
      LookupSpec(rest, k);
      if HasKey(rest, k) {
        var i :| 0 <= i < |rest| && rest[i].key == k;
        assert src[i + 1] == rest[i];
      } else if k == src[0].key {
        assert Lookup(src, k) == src[0].val;
      }
    }
  }

  /** One converted record: `{ id: key, ...raw }`. */
  function ToRecord(key: string, raw: Value): (r: Value)
    ensures r.Obj?
  {
    Obj(Spread([Entry("id", Str(key))], OwnEntries(raw)))
  }

  /**
   * The record reads `id` as the key unless the raw record has its own `id`
   * (the spread comes after and wins); every other field reads exactly as in
   * the raw record, so no default is introduced.
   */
  lemma RecordFields(key: string, raw: Value, k: string)
    requires raw.Obj? ==> DistinctKeys(raw.entries)
    ensures Get(ToRecord(key, raw), "id") == if HasKey(OwnEntries(raw), "id") then Get(raw, "id") else Str(key)
    ensures k != "id" ==> Get(ToRecord(key, raw), k) == Get(raw, k)
  {
    OwnEntriesDistinct(raw);
    var src := OwnEntries(raw);
    SpreadLookup([Entry("id", Str(key))], src, "id");
    SpreadLookup([Entry("id", Str(key))], src, k);
    LookupSpec(src, k);
  }

  /** The listener's `snapshot.val()` handling: falsy data gives `[]`, otherwise one record per key in key order. */
  function SnapshotToList(data: Value): (r: seq<Value>)
    ensures !Truthy(data) ==> r == []
    ensures Truthy(data) ==> |r| == |OwnEntries(data)|
    ensures Truthy(data) ==> forall i :: 0 <= i < |r| ==>
      r[i] == ToRecord(OwnEntries(data)[i].key, Get(data, OwnEntries(data)[i].key))
  {
    if !Truthy(data) then []
    else
      var es := OwnEntries(data);
      seq(|es|, i requires 0 <= i < |es| => ToRecord(es[i].key, Get(data, es[i].key)))
  }

  /**
   * Record `i` of a snapshot carries the key of entry `i` as its `id` (unless
   * the raw record has its own `id`) and every other field of the raw record
   * under that key unchanged.
   */
  lemma SnapshotRecord(data: Value, i: int, k: string)
    requires Truthy(data) && KeysDistinct(data)
    requires 0 <= i < |OwnEntries(data)|
    requires OwnEntries(data)[i].val.Obj? ==> DistinctKeys(OwnEntries(data)[i].val.entries)
    ensures var e := OwnEntries(data)[i]; var rec := SnapshotToList(data)[i];
      && rec.Obj?
      && Get(rec, "id") == (if HasKey(OwnEntries(e.val), "id") then Get(e.val, "id") else Str(e.key))
      && (k != "id" ==> Get(rec, k) == Get(e.val, k))
  {
    var e := OwnEntries(data)[i];
    LookupSpec(OwnEntries(data), e.key);
    RecordFields(e.key, e.val, k);
  }

  /** What the listener hands to the page: a snapshot's records, or `[]` on a listener error. */
  datatype ListenerEvent = Snapshot(data: Value) | ListenerError

  function Deliver(ev: ListenerEvent): (r: seq<Value>)
    ensures ev.ListenerError? ==> r == []
    ensures ev.Snapshot? && !Truthy(ev.data) ==> r == []
    ensures ev.Snapshot? ==> forall x :: x in r ==> x.Obj?
    ensures ev.Snapshot? ==> r == SnapshotToList(ev.data)
  {
    match ev
    case Snapshot(data) => SnapshotToList(data)
    case ListenerError => []
  }
}
