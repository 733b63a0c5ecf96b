/** Idempotency records: the hash comparison and the decision taken on a stored key row. */
module Idempotency {
  import opened Prelude
  import opened Schema

  datatype Found = Conflict | StillProcessing | Replay(body: Option<OrganizationResult>)

  /** What Begin decides once the stored row has been loaded. */
  function Classify(row: KeyRow, hash: Bytes): Found {
    if row.hash != hash then Conflict
    else if row.status != Completed || row.responseStatus.None? then StillProcessing
    else Replay(row.responseBody)
  }

  function ProcessingRow(hash: Bytes, now: Time): KeyRow {
    KeyRow(hash, Processing, None, None, now, None)
  }

  /** The OR of byte-wise XORs is zero exactly when the two byte strings are equal. */
  method EqualBytes(left: Bytes, right: Bytes) returns (equal: bool)
    ensures equal <==> left == right
  {
    if |left| != |right| {
      return false;
    }
    var different: bv8 := 0;
    for index := 0 to |left|
      invariant different == 0 <==> left[..index] == right[..index]
    {
      OrXor(different, left[index], right[index]);
      different := different | (left[index] ^ right[index]);
      assert left[..index + 1] == left[..index] + [left[index]];
      assert right[..index + 1] == right[..index] + [right[index]];
    }
    assert left[..|left|] == left && right[..|right|] == right;
    return different == 0;
  }

  lemma OrXor(d: bv8, a: bv8, b: bv8)
    ensures d | (a ^ b) == 0 <==> d == 0 && a == b
  {
  }
}
