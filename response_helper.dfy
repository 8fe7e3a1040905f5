/**
 * ResponseHelper: the envelope every endpoint answers with, and the
 * scrubbing of the private fields user_id and connect_id from the data of a
 * success response.
 */
module ResponseHelper {
  import opened Wrappers
  import opened Php
  import Seqs

  /** An answer: the HTTP code, 'success' or 'error', the message and the optional data field. */
  datatype Response = Response(code: int, status: string, message: string, data: Option<Value>)

  /** The fields cleanData removes. */
  const FieldsToRemove: seq<string> := ["user_id", "connect_id"]

  /** An entry survives unless its key is one of the named string keys. */
  function KeepEntry(fields: seq<string>): ((Key, Value)) -> bool
  {
    (e: (Key, Value)) => !(e.0.StrKey? && e.0.s in fields)
  }

  /** Unsetting a field in an array: every entry with that key goes. */
  function Unset(entries: seq<(Key, Value)>, field: string): seq<(Key, Value)>
  {
    Seqs.Filter(entries, KeepEntry([field]))
  }

  /** removeFields(): a non-array is returned unchanged; an array loses the named keys. */
  function RemoveFields(item: Value, fields: seq<string>): (r: Value)
    ensures !item.Arr? ==> r == item
    ensures item.Arr? ==> r.Arr? && forall e :: e in r.entries <==> e in item.entries && !(e.0.StrKey? && e.0.s in fields)
  {
    if item.Arr? then Arr(Seqs.Filter(item.entries, KeepEntry(fields))) else item
  }

  /** Keeping the entries outside the first i + 1 fields is keeping those outside the first i, then those not named fields[i]. */
  lemma KeepEntryStep(fields: seq<string>, i: nat)
    requires i < |fields|
    ensures forall e :: KeepEntry(fields[..i + 1])(e) == (KeepEntry(fields[..i])(e) && KeepEntry([fields[i]])(e))
  {
    assert fields[..i + 1] == fields[..i] + [fields[i]];
    forall e: (Key, Value) ensures KeepEntry(fields[..i + 1])(e) == (KeepEntry(fields[..i])(e) && KeepEntry([fields[i]])(e)) {
      if e.0.StrKey? {
        assert e.0.s in fields[..i + 1] <==> e.0.s in fields[..i] || e.0.s == fields[i];
      }
    }
  }

  /** The foreach of removeFields() over the field names, one unset per name. */
  method RemoveFieldsLoop(item: Value, fields: seq<string>) returns (r: Value)
    ensures r == RemoveFields(item, fields)
  {
    if !item.Arr? {
      return item;
    }
    var entries := item.entries;
    var i := 0;
    assert Seqs.Filter(item.entries, KeepEntry([])) == item.entries by {
      Seqs.FilterAll(item.entries, KeepEntry([]));
    }
    while i < |fields|
      invariant 0 <= i <= |fields|
      invariant entries == Seqs.Filter(item.entries, KeepEntry(fields[..i]))
    {
      KeepEntryStep(fields, i);
      Seqs.FilterTwice(item.entries, KeepEntry(fields[..i]), KeepEntry([fields[i]]), KeepEntry(fields[..i + 1]));
      entries := Unset(entries, fields[i]);
      i := i + 1;
    }
    assert fields[..i] == fields;
    r := Arr(entries);
  }

  /** The element at key 0, when it is set: the value of the first entry with key 0. */
  function EntryAt(entries: seq<(Key, Value)>, k: Key): (r: Option<Value>)
    ensures r.None? <==> forall i :: 0 <= i < |entries| ==> entries[i].0 != k
    ensures r.Some? ==> exists i :: 0 <= i < |entries| && entries[i] == (k, r.value)
  {
    if |entries| == 0 then None
    else if entries[0].0 == k then Some(entries[0].1)
    else
      var r := EntryAt(entries[1..], k);
      assert r.Some? ==> exists i :: 0 <= i < |entries| && entries[i] == (k, r.value) by {
        if r.Some? {
          var i :| 0 <= i < |entries[1..]| && entries[1..][i] == (k, r.value);
          assert entries[i + 1] == (k, r.value);
        }
      }
      r
  }

  /** The element at key 0 is set and is an array: the data is a list of records. */
  predicate IsRecordList(data: Value)
  {
    data.Arr? && match EntryAt(data.entries, IntKey(0)) case Some(v) => v.Arr? case None => false
  }

  /** removeFields() mapped over the data: every entry keeps its key and loses the fields from its value. */
  function RemoveFromEach(entries: seq<(Key, Value)>, fields: seq<string>): (r: seq<(Key, Value)>)
    ensures |r| == |entries|
    ensures forall i :: 0 <= i < |entries| ==> r[i] == (entries[i].0, RemoveFields(entries[i].1, fields))
  {
    seq(|entries|, i requires 0 <= i < |entries| => (entries[i].0, RemoveFields(entries[i].1, fields)))
  }

  /** cleanData(): falsy data unchanged; a record list cleaned record by record; any other array cleaned at the top. */
  function CleanData(data: Value): (r: Value)
    ensures !Truthy(data) ==> r == data
    ensures Truthy(data) && IsRecordList(data) ==> r == Arr(RemoveFromEach(data.entries, FieldsToRemove))
    ensures Truthy(data) && data.Arr? && !IsRecordList(data) ==> r == RemoveFields(data, FieldsToRemove)
    ensures !data.Arr? ==> r == data
  {
    if !Truthy(data) then data
    else if IsRecordList(data) then Arr(RemoveFromEach(data.entries, FieldsToRemove))
    else if data.Arr? then RemoveFields(data, FieldsToRemove)
    else data
  }

  /** On a single record, cleaning removes exactly user_id and connect_id and leaves every other entry as it was. */
  lemma CleanRecordExact(data: Value)
    requires data.Arr? && Truthy(data) && !IsRecordList(data)
    ensures CleanData(data).Arr?
    ensures forall e :: e in CleanData(data).entries <==>
      e in data.entries && e.0 != StrKey("user_id") && e.0 != StrKey("connect_id")
  {
  }

  /** Removing fields twice removes nothing more. */
  lemma RemoveFieldsIdempotent(item: Value, fields: seq<string>)
    ensures RemoveFields(RemoveFields(item, fields), fields) == RemoveFields(item, fields)
  {
    if item.Arr? {
      Seqs.FilterTwice(item.entries, KeepEntry(fields), KeepEntry(fields), KeepEntry(fields));
    }
  }

  /** Removing fields never touches an entry with an integer key, so the element at key 0 is the same afterwards. */
  lemma {:induction false} EntryAtAfterRemove(entries: seq<(Key, Value)>, fields: seq<string>, n: int)
    ensures EntryAt(Seqs.Filter(entries, KeepEntry(fields)), IntKey(n)) == EntryAt(entries, IntKey(n))
    decreases |entries|
  {
    if |entries| > 0 {
      EntryAtAfterRemove(entries[1..], fields, n);
      var rest := Seqs.Filter(entries[1..], KeepEntry(fields));
      assert KeepEntry(fields)(entries[0]) ==> Seqs.Filter(entries, KeepEntry(fields)) == [entries[0]] + rest;
      assert !KeepEntry(fields)(entries[0]) ==> Seqs.Filter(entries, KeepEntry(fields)) == rest;
      assert ([entries[0]] + rest)[1..] == rest;
    }
  }

  /** Cleaning is idempotent: a cleaned response cleaned again is unchanged. */
  lemma CleanDataIdempotent(data: Value)
    ensures CleanData(CleanData(data)) == CleanData(data)
  {
    if Truthy(data) && data.Arr? {
      var once := CleanData(data);
      if IsRecordList(data) {
        var es := RemoveFromEach(data.entries, FieldsToRemove);
        assert Truthy(once);
        forall i | 0 <= i < |es| ensures RemoveFields(es[i].1, FieldsToRemove) == es[i].1 {
          RemoveFieldsIdempotent(data.entries[i].1, FieldsToRemove);
        }
        RecordListStays(data.entries, FieldsToRemove);
        assert RemoveFromEach(es, FieldsToRemove) == es;
      } else {
        EntryAtAfterRemove(data.entries, FieldsToRemove, 0);
        RemoveFieldsIdempotent(data, FieldsToRemove);
      }
    }
  }

  /** array_map keeps the keys, so the first entry with a key is the cleaned first entry. */
  lemma {:induction false} EntryAtEach(entries: seq<(Key, Value)>, fields: seq<string>, k: Key)
    ensures EntryAt(RemoveFromEach(entries, fields), k) ==
      match EntryAt(entries, k) case None => None case Some(v) => Some(RemoveFields(v, fields))
    decreases |entries|
  {
    if |entries| > 0 {
      EntryAtEach(entries[1..], fields, k);
      assert RemoveFromEach(entries, fields)[1..] == RemoveFromEach(entries[1..], fields);
    }
  }

  /** Cleaning each record keeps the first entry with key 0 an array. */
  lemma RecordListStays(entries: seq<(Key, Value)>, fields: seq<string>)
    requires IsRecordList(Arr(entries))
    ensures IsRecordList(Arr(RemoveFromEach(entries, fields)))
  {
    EntryAtEach(entries, fields, IntKey(0));
  }

  /** success(): the data, cleaned unless asked not to, is included exactly when it is not null. */
  function Success(data: Value, message: Option<string>, cleanData: bool): (r: Response)
    ensures r.code == 200 && r.status == "success"
    ensures r.message == message.GetOr("สำเร็จ")
    ensures r.data.None? <==> data == Null
    ensures !cleanData && data != Null ==> r.data == Some(data)
    ensures cleanData && data != Null ==> r.data == Some(CleanData(data))
  {
    var d := if cleanData && data != Null then CleanData(data) else data;
    Response(200, "success", message.GetOr("สำเร็จ"), if d == Null then None else Some(d))
  }

  /** error(): the data field is present exactly when data is not null. */
  function Error(message: string, statusCode: int, data: Value): (r: Response)
    ensures r.code == statusCode && r.status == "error" && r.message == message
    ensures r.data.Some? <==> data != Null
    ensures r.data.Some? ==> r.data.value == data
  {
    Response(statusCode, "error", message, if data != Null then Some(data) else None)
  }

  /** validationError(): always 422 and never a data field; any further argument a caller passes is dropped. */
  function ValidationError(message: string, extra: seq<Value>): (r: Response)
    ensures r.code == 422 && r.status == "error" && r.data.None?
    ensures r.message == message
  {
    Response(422, "error", message, None)
  }

  function Unauthorized(message: Option<string>): (r: Response)
    ensures r.code == 401 && r.status == "error" && r.data.None?
    ensures r.message == message.GetOr("ไม่มีสิทธิ์เข้าถึง")
  {
    Response(401, "error", message.GetOr("ไม่มีสิทธิ์เข้าถึง"), None)
  }

  function NotFound(message: Option<string>): (r: Response)
    ensures r.code == 404 && r.status == "error" && r.data.None?
    ensures r.message == message.GetOr("ไม่พบข้อมูล")
  {
    Response(404, "error", message.GetOr("ไม่พบข้อมูล"), None)
  }

  function ServerError(message: Option<string>): (r: Response)
    ensures r.code == 500 && r.status == "error" && r.data.None?
    ensures r.message == message.GetOr("เกิดข้อผิดพลาดในระบบ")
  {
    Response(500, "error", message.GetOr("เกิดข้อผิดพลาดในระบบ"), None)
  }

  /** The status-code helpers agree with error() without data. */
  lemma HelpersAreErrors(message: string, extra: seq<Value>)
    ensures ValidationError(message, extra) == Error(message, 422, Null)
    ensures Unauthorized(Some(message)) == Error(message, 401, Null)
    ensures NotFound(Some(message)) == Error(message, 404, Null)
    ensures ServerError(Some(message)) == Error(message, 500, Null)
  {
  }

  /** Details passed to validationError() never reach the client. */
  lemma ValidationDropsDetails(message: string, details: Value)
    requires details != Null
    ensures ValidationError(message, [details]).data.None?
    ensures Error(message, 422, details).data == Some(details)
  {
  }
}
