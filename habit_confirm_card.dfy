/** The confirmation card (components/HabitConfirmCard.js): the one-line list of the
    habits that the handler sent back for confirmation. */
module HabitConfirmCard {
  import opened Text
  import opened JsValue
  import opened ParseHabits

  /** How `.join` writes one element: null and undefined as the empty string, any
      other value as `String(v)`. */
  function JoinPart(v: Value): (r: string)
    ensures IsNullish(v) ==> r == ""
    ensures !IsNullish(v) ==> r == ToString(v)
  {
    if IsNullish(v) then "" else ToString(v)
  }

  /** How one habit is shown in the joined list: `"name (q unit)"` with a quantity and a
      truthy unit, `"name (q)"` with a quantity only (both template literals, so a
      missing name reads "null" or "undefined"), and without a quantity the name itself,
      which the join writes as "" when it is missing. */
  function EntryText(h: Habit): (r: string)
    ensures !IsNullish(h.quantity) && Truthy(h.unit) ==>
      r == ToString(h.habitName) + " (" + ToString(h.quantity) + " " + ToString(h.unit) + ")"
    ensures !IsNullish(h.quantity) && !Truthy(h.unit) ==>
      r == ToString(h.habitName) + " (" + ToString(h.quantity) + ")"
    ensures IsNullish(h.quantity) ==> r == JoinPart(h.habitName)
    ensures !IsNullish(h.habitName) ==> ToString(h.habitName) <= r
    ensures !IsNullish(h.habitName) ==> (r == ToString(h.habitName) <==> IsNullish(h.quantity))
  {
    var name := ToString(h.habitName);
    if !IsNullish(h.quantity) && Truthy(h.unit) then name + " (" + ToString(h.quantity) + " " + ToString(h.unit) + ")"
    else if !IsNullish(h.quantity) then name + " (" + ToString(h.quantity) + ")"
    else JoinPart(h.habitName)
  }

  function EntryTexts(habits: seq<Habit>): (r: seq<string>)
    ensures |r| == |habits| && forall i :: 0 <= i < |habits| ==> r[i] == EntryText(habits[i])
  {
    seq(|habits|, i requires 0 <= i < |habits| => EntryText(habits[i]))
  }

  /** `habitList`: the entries in order, joined by ", ". */
  function HabitList(habits: seq<Habit>): string {
    Join(EntryTexts(habits), ", ")
  }

  /** No habits show as the empty string; one habit shows as its entry. */
  lemma HabitListShort(habits: seq<Habit>)
    ensures habits == [] ==> HabitList(habits) == ""
    ensures |habits| == 1 ==> HabitList(habits) == EntryText(habits[0])
  {
  }

  /** A further habit adds a separator and its entry at the end. */
  lemma HabitListSnoc(habits: seq<Habit>, h: Habit)
    requires habits != []
    ensures HabitList(habits + [h]) == HabitList(habits) + ", " + EntryText(h)
  {
    assert EntryTexts(habits + [h]) == EntryTexts(habits) + [EntryText(h)];
    JoinSnoc(EntryTexts(habits), EntryText(h), ", ");
  }

  /** n habits are held together by n - 1 separators. */
  lemma HabitListLength(habits: seq<Habit>)
    requires habits != []
    ensures |HabitList(habits)| == TotalLength(EntryTexts(habits)) + 2 * (|habits| - 1)
  {
    JoinLength(EntryTexts(habits), ", ");
  }

  /** A quantity of 0 is still shown. */
  lemma ZeroQuantityShown(c: real)
    ensures EntryText(Habit(Str("run"), Num(0), Null, c)) == "run (0)"
  {
    assert ToString(Num(0)) == "0" by { assert Digits(0) == [DigitChar(0)]; }
  }

  /** An empty unit is dropped. */
  lemma EmptyUnitDropped(c: real)
    ensures EntryText(Habit(Str("water"), Num(8), Str(""), c)) == "water (8)"
  {
    assert ToString(Num(8)) == "8" by { assert Digits(8) == [DigitChar(8)]; }
  }

  /** Without a quantity the unit is not shown. */
  lemma UnitNeedsQuantity(c: real)
    ensures EntryText(Habit(Str("yoga"), Null, Str("minutes"), c)) == "yoga"
  {
  }

  /** A habit without a name or a quantity is an empty entry, while a missing name with
      a quantity goes through the template literal as "null". */
  lemma MissingName(c: real)
    ensures EntryText(Habit(Null, Null, Null, c)) == ""
    ensures EntryText(Habit(Undefined, Undefined, Null, c)) == ""
    ensures EntryText(Habit(Null, Num(8), Null, c)) == "null (8)"
  {
    assert ToString(Num(8)) == "8" by { assert Digits(8) == [DigitChar(8)]; }
  }

  /** A quantity and a unit are shown together in parentheses. */
  lemma QuantityAndUnitShown(c: real)
    ensures EntryText(Habit(Str("water"), Num(8), Str("glasses"), c)) == "water (8 glasses)"
  {
    assert ToString(Num(8)) == "8" by { assert Digits(8) == [DigitChar(8)]; }
  }
}
