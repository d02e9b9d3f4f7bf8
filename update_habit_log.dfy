/** The log-completion handler (app/api/update-habit-log/route.js): a `PATCH` that sets
    the quantity, the unit and `is_complete` of one of the caller's logs. The session
    lookup and `nextAuthIdToUuid` are inputs; the `habit_logs` table is a map from row id
    to row, and a flag says whether the store reports an error. */
module UpdateHabitLog {
  import opened Text
  import opened JsValue
  import ParseHabits

  /** A row of `habit_logs`. */
  datatype StoredRow = StoredRow(userId: string, habitName: string, quantity: Option<Number>, unit: Option<string>,
                                 date: int, voiceInput: string, isComplete: bool, isDeleted: bool)

  /** The fields of the JSON body the handler reads. */
  datatype PatchBody = PatchBody(id: Value, quantity: Value, unit: Value)

  /** The columns the update writes. */
  datatype Payload = Payload(quantity: int, unit: Option<string>)

  /** What validation decides: an early response, or an update of row `id` owned by
      `userId`. */
  datatype Check = Refuse(status: int, error: string) | Update(id: string, userId: string, payload: Payload)

  datatype PatchResponse = Failure(status: int, error: string) | Success

  /** The checks before the store is touched. `body` is None when the body is not JSON
      or is null, which makes the handler throw and answer from its `catch`. */
  function Validate(session: Option<string>, body: Option<PatchBody>, keyOf: string -> string): (c: Check)
    ensures session.None? || session.value == "" ==> c == Refuse(401, "Unauthorized")
    ensures session.Some? && session.value != "" && body.None? ==> c == Refuse(500, "Failed to update log")
    ensures c.Update? <==>
      && session.Some? && session.value != "" && body.Some?
      && body.value.id.Str? && body.value.id.s != ""
      && !IsNullish(body.value.quantity) && ToNumber(body.value.quantity).Int?
    ensures c.Update? ==>
      && c.id == body.value.id.s && c.userId == keyOf(session.value)
      && ToNumber(body.value.quantity) == Int(c.payload.quantity)
      && c.payload.unit == ParseHabits.UnitColumn(body.value.unit)
    ensures c.Refuse? && session.Some? && session.value != "" && body.Some? ==>
      if !body.value.id.Str? || body.value.id.s == "" then c == Refuse(400, "id required")
      else c == Refuse(400, "quantity required and must be a number")
  {
    if session.None? || session.value == "" then Refuse(401, "Unauthorized")
    else if body.None? then Refuse(500, "Failed to update log")
    else
      var b := body.value;
      if !b.id.Str? || b.id.s == "" then Refuse(400, "id required")
      else
        var quantityNum := ToNumber(b.quantity);
        if IsNullish(b.quantity) || quantityNum.NaN? then Refuse(400, "quantity required and must be a number")
        else Update(b.id.s, keyOf(session.value), Payload(quantityNum.n, ParseHabits.UnitColumn(b.unit)))
  }

  /** A numeric string quantity is coerced; a blank unit is stored as null. */
  lemma ValidateCoerces(user: string, keyOf: string -> string)
    requires user != ""
    ensures Validate(Some(user), Some(PatchBody(Str("log-1"), Str("42"), Str("  "))), keyOf)
         == Update("log-1", keyOf(user), Payload(42, None))
  {
    assert Trim("42") == "42" by { TrimOfUnpadded("42"); }
    assert AllDigits("42");
    assert DigitsValue("42") == DigitsValue("4") * 10 + 2 by { assert "42"[..1] == "4"; }
    assert DigitsValue("4") == DigitsValue("") * 10 + 4 by { assert "4"[..0] == ""; }
    assert IsBlank("  ");
  }

  /** `Number("")` is 0, so an empty or blank quantity passes the check and is stored
      as 0, while a missing one or a word is refused. */
  lemma BlankQuantityIsZero(user: string, keyOf: string -> string, q: string)
    requires user != "" && IsBlank(q)
    ensures Validate(Some(user), Some(PatchBody(Str("log-1"), Str(q), Null)), keyOf)
         == Update("log-1", keyOf(user), Payload(0, None))
    ensures Validate(Some(user), Some(PatchBody(Str("log-1"), Undefined, Null)), keyOf)
         == Refuse(400, "quantity required and must be a number")
    ensures Validate(Some(user), Some(PatchBody(Str("log-1"), Str("abc"), Null)), keyOf)
         == Refuse(400, "quantity required and must be a number")
  {
    assert Trim("abc") == "abc" by { TrimOfUnpadded("abc"); }
    assert !IsDigit('a');
  }

  /** The filter of the update: the row exists, belongs to the caller and is not
      deleted. */
  predicate Matches(rows: map<string, StoredRow>, id: string, userId: string) {
    id in rows && rows[id].userId == userId && !rows[id].isDeleted
  }

  /** The row after the update: the new quantity and unit, and complete. */
  function Completed(row: StoredRow, payload: Payload): (r: StoredRow)
    ensures r.quantity == Some(Int(payload.quantity)) && r.unit == payload.unit && r.isComplete
    ensures r.userId == row.userId && r.habitName == row.habitName && r.date == row.date
    ensures r.voiceInput == row.voiceInput && r.isDeleted == row.isDeleted
  {
    row.(quantity := Some(Int(payload.quantity)), unit := payload.unit, isComplete := true)
  }

  /** The table after `.update(...).eq("id", id).eq("user_id", userId).eq("is_deleted",
      false)`. */
  function Applied(rows: map<string, StoredRow>, id: string, userId: string, payload: Payload): map<string, StoredRow> {
    if Matches(rows, id, userId) then rows[id := Completed(rows[id], payload)] else rows
  }

  /** The update changes at most the one matching row, keeps every row id, and leaves a
      row that does not match the filter alone. */
  lemma AppliedChangesOneRow(rows: map<string, StoredRow>, id: string, userId: string, payload: Payload)
    ensures Applied(rows, id, userId, payload).Keys == rows.Keys
    ensures forall k :: k in rows && k != id ==> Applied(rows, id, userId, payload)[k] == rows[k]
    ensures !Matches(rows, id, userId) ==> Applied(rows, id, userId, payload) == rows
    ensures Matches(rows, id, userId) ==> Applied(rows, id, userId, payload)[id] == Completed(rows[id], payload)
  {
  }

  /** Patching the same row twice with the same request gives the table of one patch. */
  lemma AppliedIdempotent(rows: map<string, StoredRow>, id: string, userId: string, payload: Payload)
    ensures Applied(Applied(rows, id, userId, payload), id, userId, payload) == Applied(rows, id, userId, payload)
  {
  }

  /** The `habit_logs` table as the handler sees it. */
  class LogTable {
    var rows: map<string, StoredRow>

    constructor(rows0: map<string, StoredRow>)
      ensures rows == rows0
    {
      rows := rows0;
    }

    /** `PATCH`. A refused request and a store error leave the table as it was; a
        request that passes validation updates the matching row, or answers 404 when
        there is none. */
    method Patch(session: Option<string>, body: Option<PatchBody>, keyOf: string -> string, storeFails: bool)
      returns (r: PatchResponse)
      modifies this
      ensures Validate(session, body, keyOf).Refuse? ==>
        var c := Validate(session, body, keyOf);
        r == Failure(c.status, c.error) && rows == old(rows)
      ensures Validate(session, body, keyOf).Update? && storeFails ==>
        r == Failure(500, "Failed to update log") && rows == old(rows)
      ensures Validate(session, body, keyOf).Update? && !storeFails ==>
        var c := Validate(session, body, keyOf);
        && rows == Applied(old(rows), c.id, c.userId, c.payload)
        && (r == Success <==> Matches(old(rows), c.id, c.userId))
        && (r != Success ==> r == Failure(404, "Log not found"))
    {
      var c := Validate(session, body, keyOf);
      if c.Refuse? {
        return Failure(c.status, c.error);
      }
      if storeFails {
        return Failure(500, "Failed to update log");
      }
      if !Matches(rows, c.id, c.userId) {
        return Failure(404, "Log not found");
      }
      rows := rows[c.id := Completed(rows[c.id], c.payload)];
      r := Success;
    }
  }
}
