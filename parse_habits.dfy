/** The habit-ingestion request handler (app/api/parse-habits/route.js): who may post,
    which bodies are refused, the confirmed-save path that skips parsing, the 0.7
    confidence gate, the clean-up of the language model's reply and the rows written to
    `habit_logs`. The model's HTTP call, `JSON.parse`, the session lookup, the clock and
    the database are inputs: a reply, a parsing function, an optional user id, a day
    number and a flag saying whether the insert fails. */
module ParseHabits {
  import opened Text
  import opened JsValue

  /** Habits below this confidence need the user's confirmation. */
  const ConfidenceThreshold: real := 0.7

  // ---------------------------------------------------------------- data

  /** A habit as the handler passes it around: `habit_name`, `quantity`, `unit` and
      `confidence` (always a number once the model's reply is normalised; ignored on
      the confirmed path). */
  datatype Habit = Habit(habitName: Value, quantity: Value, unit: Value, confidence: real)

  /** One element of the array the model returns; `confidence` is present when it is a
      number. */
  datatype Item = Item(habitName: Value, name: Value, quantity: Value, unit: Value, confidence: Option<real>)

  /** `body.habits`: an array or anything else. */
  datatype HabitList = NotAList | List(habits: seq<Habit>)

  /** The fields of the JSON body the handler reads (all `Undefined` for a body that is
      not an object). */
  datatype Body = Body(voiceInput: Value, confirmed: Value, habits: HabitList)

  /** What the call to the model gives: a failure (no API key, an HTTP error, a network
      error), or the `text` of its first text block, if any. */
  datatype Reply = CallFailed | Answered(text: Option<string>)

  /** What `JSON.parse` makes of the cleaned text. */
  datatype Parsed = Unparseable | NotAnArray | Items(items: seq<Item>)

  /** One row inserted into `habit_logs`. */
  datatype InsertRow = InsertRow(userId: string, habitName: string, quantity: Option<Number>, unit: Option<string>,
                                 date: int, voiceInput: string, isComplete: bool)

  datatype Response =
    | Error(status: int, message: string)
    | NeedsConfirmation(habits: seq<Habit>)
    | Saved(logs: seq<InsertRow>)
      /** The handler's promise rejects: `saveHabits` is returned without `await`, so a
          `TypeError` inside it escapes the `try`. */
    | Rejected

  /** The response, and the rows the request wrote to the table. */
  datatype Outcome = Outcome(response: Response, inserted: seq<InsertRow>)

  // ---------------------------------------------------------------- the model's reply

  /** The length of the longest prefix of `t` made of `\w` characters. */
  function WordRun(t: string): (n: nat)
    ensures n <= |t| && IsWord(t[..n])
    ensures n < |t| ==> !IsWordChar(t[n])
    decreases |t|
  {
    if t != [] && IsWordChar(t[0]) then
      var n := 1 + WordRun(t[1..]);
      assert forall i :: 1 <= i < n ==> t[..n][i] == t[1..][..n - 1][i - 1];
      n
    else 0
  }

  /** The length of the match of `^```\w*\n?` at the start of `s` (0 when there is
      none). */
  function LeadingFence(s: string): (k: nat)
    ensures k <= |s|
  {
    if |s| >= 3 && s[..3] == "```" then
      var k := 3 + WordRun(s[3..]);
      if k < |s| && s[k] == '\n' then k + 1 else k
    else 0
  }

  /** Where the match of `\n?```$` starts, searching from `k` on (`|s|` when there is
      none). */
  function TrailingFence(s: string, k: nat): (e: nat)
    requires k <= |s|
    ensures k <= e <= |s|
  {
    if |s| >= k + 4 && s[|s| - 4..] == "\n```" then |s| - 4
    else if |s| >= k + 3 && s[|s| - 3..] == "```" then |s| - 3
    else |s|
  }

  /** `content.replace(/^```\w*\n?|\n?```$/g, "").trim()`. */
  function StripFences(s: string): string {
    var k := LeadingFence(s);
    Trim(s[k..TrailingFence(s, k)])
  }

  /** A fenced block with a language tag gives back its trimmed body. */
  lemma StripFencedBlock(lang: string, body: string)
    requires IsWord(lang)
    ensures StripFences("```" + lang + "\n" + body + "\n```") == Trim(body)
  {
    var s := "```" + lang + "\n" + body + "\n```";
    var t := s[3..];
    assert t == lang + "\n" + body + "\n```";
    assert WordRun(t) == |lang| by {
      assert t == lang + ("\n" + body + "\n```");
      WordRunOfWord(lang, "\n" + body + "\n```");
    }
    assert s[..3] == "```";
    var k := 3 + |lang| + 1;
    assert s[k - 1] == '\n';
    assert LeadingFence(s) == k;
    assert s[|s| - 4..] == "\n```";
    assert s[k..|s| - 4] == body;
  }

  lemma {:induction false} WordRunOfWord(w: string, rest: string)
    requires IsWord(w)
    requires rest == [] || !IsWordChar(rest[0])
    ensures WordRun(w + rest) == |w|
    decreases |w|
  {
    if w == [] {
      assert w + rest == rest;
    } else {
      assert (w + rest)[0] == w[0];
      assert (w + rest)[1..] == w[1..] + rest;
      WordRunOfWord(w[1..], rest);
    }
  }

  /** Text with no fence at either end is only trimmed. */
  lemma StripUnfenced(s: string)
    requires |s| < 3 || s[..3] != "```"
    requires |s| < 3 || s[|s| - 3..] != "```"
    ensures StripFences(s) == Trim(s)
  {
    assert |s| >= 4 ==> s[|s| - 4..][1..] == s[|s| - 3..];
    assert s[0..|s|] == s;
  }

  /** The tail of `parseHabitsWithClaude` for one element: `habit_name ?? name ?? ""`,
      `quantity ?? null`, `unit ?? null`, and a confidence of 1.0 unless it is a
      number. */
  function Normalise(item: Item): (h: Habit)
    ensures h.habitName == (if !IsNullish(item.habitName) then item.habitName
                            else if !IsNullish(item.name) then item.name else Str(""))
    ensures h.quantity == (if IsNullish(item.quantity) then Null else item.quantity)
    ensures h.unit == (if IsNullish(item.unit) then Null else item.unit)
    ensures h.confidence == (if item.confidence.Some? then item.confidence.value else 1.0)
  {
    Habit(Coalesce(Coalesce(item.habitName, item.name), Str("")),
          Coalesce(item.quantity, Null), Coalesce(item.unit, Null), item.confidence.GetOr(1.0))
  }

  /** `parseHabitsWithClaude`: None when it throws (failed call, no text, a reply that
      is not JSON or not an array), otherwise the normalised elements. */
  function ParseReply(reply: Reply, jsonParse: string -> Parsed): (r: Option<seq<Habit>>)
    ensures r.Some? <==>
      && reply.Answered? && reply.text.Some? && !IsBlank(reply.text.value)
      && jsonParse(StripFences(Trim(reply.text.value))).Items?
    ensures r.Some? ==> var items := jsonParse(StripFences(Trim(reply.text.value))).items;
      |r.value| == |items| && forall i :: 0 <= i < |items| ==> r.value[i] == Normalise(items[i])
  {
    match reply
    case CallFailed => None
    case Answered(text) =>
      if text.None? || Trim(text.value) == "" then None
      else
        match jsonParse(StripFences(Trim(text.value)))
        case Unparseable => None
        case NotAnArray => None
        case Items(items) => Some(seq(|items|, i requires 0 <= i < |items| => Normalise(items[i])))
  }

  // ---------------------------------------------------------------- the confidence gate

  /** `habits.some((h) => (h.confidence ?? 1) < CONFIDENCE_THRESHOLD)`. */
  predicate NeedsConfirmationOf(habits: seq<Habit>) {
    exists i :: 0 <= i < |habits| && habits[i].confidence < ConfidenceThreshold
  }

  /** Habits whose confidences are all at least 0.7 are saved without asking; exactly
      0.7 is enough. */
  lemma GateThreshold(habits: seq<Habit>)
    ensures !NeedsConfirmationOf(habits) <==> forall i :: 0 <= i < |habits| ==> habits[i].confidence >= 0.7
    ensures (forall i :: 0 <= i < |habits| ==> habits[i].confidence == 0.7) ==> !NeedsConfirmationOf(habits)
  {
  }

  /** An element without a numeric confidence never triggers the gate by itself. */
  lemma MissingConfidenceIsConfident(item: Item)
    requires item.confidence.None?
    ensures !NeedsConfirmationOf([Normalise(item)])
  {
  }

  // ---------------------------------------------------------------- saveHabits

  predicate AllNamed(habits: seq<Habit>) {
    forall i :: 0 <= i < |habits| ==> habits[i].habitName.Str?
  }

  /** `unit != null ? String(unit).trim() || null : null`. */
  function UnitColumn(unit: Value): (r: Option<string>)
    ensures r.Some? ==> !IsNullish(unit) && r.value == Trim(ToString(unit)) && r.value != "" && Unpadded(r.value)
    ensures r.None? <==> IsNullish(unit) || IsBlank(ToString(unit))
  {
    if IsNullish(unit) then None
    else
      var t := Trim(ToString(unit));
      if t == "" then None else Some(t)
  }

  /** `quantity != null ? Number(quantity) : null`. */
  function QuantityColumn(quantity: Value): (r: Option<Number>)
    ensures r.None? <==> IsNullish(quantity)
    ensures r.Some? ==> r.value == ToNumber(quantity)
  {
    if IsNullish(quantity) then None else Some(ToNumber(quantity))
  }

  /** `quantity != null && quantity !== ""`. */
  predicate Completes(quantity: Value) {
    !IsNullish(quantity) && quantity != Str("")
  }

  /** The insert row of one habit. */
  function RowOf(h: Habit, userId: string, voiceInput: string, today: int): InsertRow
    requires h.habitName.Str?
  {
    InsertRow(userId, Trim(h.habitName.s), QuantityColumn(h.quantity), UnitColumn(h.unit), today, voiceInput,
              Completes(h.quantity))
  }

  /** `habits.map(...)`: one row per habit, in order. */
  function InsertRows(habits: seq<Habit>, userId: string, voiceInput: string, today: int): seq<InsertRow>
    requires AllNamed(habits)
  {
    seq(|habits|, i requires 0 <= i < |habits| => RowOf(habits[i], userId, voiceInput, today))
  }

  /** The rows of `saveHabits` keep the habits' order and say, for each, what the
      insert stores: the trimmed name, the coerced quantity, the trimmed unit or null,
      the same user and day, and completion exactly when a quantity was given. */
  lemma InsertRowsSpec(habits: seq<Habit>, userId: string, voiceInput: string, today: int)
    requires AllNamed(habits)
    ensures |InsertRows(habits, userId, voiceInput, today)| == |habits|
    ensures forall i :: 0 <= i < |habits| ==>
      var r := InsertRows(habits, userId, voiceInput, today)[i];
      var h := habits[i];
      && r.userId == userId && r.date == today && r.voiceInput == voiceInput
      && r.habitName == Trim(h.habitName.s)
      && (r.quantity.None? <==> IsNullish(h.quantity))
      && (r.quantity.Some? ==> r.quantity.value == ToNumber(h.quantity))
      && r.unit == UnitColumn(h.unit)
      && (r.isComplete <==> !IsNullish(h.quantity) && h.quantity != Str(""))
  {
  }

  /** A numeric string quantity is stored as its number and completes the log. */
  lemma NumericStringQuantity()
    ensures QuantityColumn(Str("8")) == Some(Int(8)) && Completes(Str("8"))
  {
    assert Trim("8") == "8" by { TrimOfUnpadded("8"); }
    assert DigitsValue("8") == DigitsValue("") * 10 + 8 by { assert "8"[..0] == ""; }
  }

  /** An empty string quantity is stored as 0 but does not complete the log, while a
      quantity of 0 does. */
  lemma EmptyAndZeroQuantity()
    ensures QuantityColumn(Str("")) == Some(Int(0)) && !Completes(Str(""))
    ensures QuantityColumn(Num(0)) == Some(Int(0)) && Completes(Num(0))
    ensures QuantityColumn(Null) == None && !Completes(Null)
  {
    assert IsBlank("");
  }

  /** `saveHabits`: a habit whose name is not a string makes `.trim()` throw and the
      request's promise reject; otherwise the rows are inserted, or nothing is when the
      insert fails. */
  function Save(habits: seq<Habit>, userId: string, voiceInput: string, today: int, insertFails: bool): (o: Outcome)
    ensures !AllNamed(habits) ==> o == Outcome(Rejected, [])
    ensures AllNamed(habits) && insertFails ==> o == Outcome(Error(500, "Failed to save logs"), [])
    ensures AllNamed(habits) && !insertFails ==>
      o.response == Saved(o.inserted) && o.inserted == InsertRows(habits, userId, voiceInput, today)
  {
    if !AllNamed(habits) then Outcome(Rejected, [])
    else if insertFails then Outcome(Error(500, "Failed to save logs"), [])
    else
      var rows := InsertRows(habits, userId, voiceInput, today);
      Outcome(Saved(rows), rows)
  }

  // ---------------------------------------------------------------- POST

  /** `typeof body.voiceInput === "string" ? body.voiceInput.trim() : ""`. */
  function VoiceText(v: Value): string {
    if v.Str? then Trim(v.s) else ""
  }

  /** `POST`. `session` is `session.user.id`, `body` is None when the body is not JSON,
      `keyOf` is `nextAuthIdToUuid`, `jsonParse` is `JSON.parse` and `today` the day the
      rows are dated. */
  function Post(session: Option<string>, body: Option<Body>, keyOf: string -> string, today: int,
                reply: Reply, jsonParse: string -> Parsed, insertFails: bool): (o: Outcome)
    ensures session.None? || session.value == "" ==> o == Outcome(Error(401, "Unauthorized"), [])
    ensures o.inserted != [] ==> o.response == Saved(o.inserted)
    ensures o.response.NeedsConfirmation? ==> o.inserted == []
  {
    if session.None? || session.value == "" then Outcome(Error(401, "Unauthorized"), [])
    else if body.None? then Outcome(Error(500, "Failed to process voice input"), [])
    else
      var b := body.value;
      var voiceInput := VoiceText(b.voiceInput);
      if voiceInput == "" then Outcome(Error(400, "voiceInput required"), [])
      else if b.confirmed == Bool(true) then
        var confirmed := if b.habits.List? then b.habits.habits else [];
        if confirmed == [] then Outcome(Error(400, "No habits provided for confirmed save"), [])
        else Save(confirmed, keyOf(session.value), voiceInput, today, insertFails)
      else
        var parsed := ParseReply(reply, jsonParse);
        if parsed.None? then Outcome(Error(500, "Failed to process voice input"), [])
        else if parsed.value == [] then Outcome(Error(422, "Could not parse habits from input"), [])
        else if NeedsConfirmationOf(parsed.value) then Outcome(NeedsConfirmation(parsed.value), [])
        else Save(parsed.value, keyOf(session.value), voiceInput, today, insertFails)
  }

  // ---------------------------------------------------------------- what POST promises

  /** A body without a usable `voiceInput` is refused after the session check and
      before anything else. */
  lemma VoiceInputRequired(session: Option<string>, b: Body, keyOf: string -> string, today: int,
                           reply: Reply, jsonParse: string -> Parsed, insertFails: bool)
    requires session.Some? && session.value != ""
    requires !b.voiceInput.Str? || IsBlank(b.voiceInput.s)
    ensures Post(session, Some(b), keyOf, today, reply, jsonParse, insertFails) == Outcome(Error(400, "voiceInput required"), [])
  {
  }

  /** Every row a request inserts belongs to the caller, is dated today and carries the
      trimmed transcript. */
  lemma InsertedRowsCarryRequest(session: Option<string>, body: Option<Body>, keyOf: string -> string, today: int,
                                 reply: Reply, jsonParse: string -> Parsed, insertFails: bool)
    ensures var o := Post(session, body, keyOf, today, reply, jsonParse, insertFails);
      forall r :: r in o.inserted ==>
        && session.Some? && r.userId == keyOf(session.value) && r.date == today
        && body.Some? && body.value.voiceInput.Str? && r.voiceInput == Trim(body.value.voiceInput.s)
        && r.voiceInput != ""
  {
    var o := Post(session, body, keyOf, today, reply, jsonParse, insertFails);
    if o.inserted != [] {
      var b := body.value;
      var voiceInput := VoiceText(b.voiceInput);
      var habits := if b.confirmed == Bool(true) then b.habits.habits else ParseReply(reply, jsonParse).value;
      InsertRowsSpec(habits, keyOf(session.value), voiceInput, today);
    }
  }

  /** The confirmed path never consults the model and never applies the gate: with
      habits it saves them as given, without habits it is refused. */
  lemma ConfirmedPath(session: Option<string>, b: Body, keyOf: string -> string, today: int,
                      reply: Reply, jsonParse: string -> Parsed, reply': Reply, jsonParse': string -> Parsed,
                      insertFails: bool)
    requires session.Some? && session.value != ""
    requires b.voiceInput.Str? && !IsBlank(b.voiceInput.s)
    requires b.confirmed == Bool(true)
    ensures Post(session, Some(b), keyOf, today, reply, jsonParse, insertFails)
         == Post(session, Some(b), keyOf, today, reply', jsonParse', insertFails)
    ensures !b.habits.List? || b.habits.habits == [] ==>
      Post(session, Some(b), keyOf, today, reply, jsonParse, insertFails)
        == Outcome(Error(400, "No habits provided for confirmed save"), [])
    ensures b.habits.List? && b.habits.habits != [] ==>
      Post(session, Some(b), keyOf, today, reply, jsonParse, insertFails)
        == Save(b.habits.habits, keyOf(session.value), Trim(b.voiceInput.s), today, insertFails)
  {
  }

  /** On the parse path: a failure is a 500, an empty array a 422, a low-confidence
      habit sends every habit back for confirmation with nothing saved, and otherwise
      the habits are saved. */
  lemma ParsePath(session: Option<string>, b: Body, keyOf: string -> string, today: int,
                  reply: Reply, jsonParse: string -> Parsed, insertFails: bool)
    requires session.Some? && session.value != ""
    requires b.voiceInput.Str? && !IsBlank(b.voiceInput.s)
    requires b.confirmed != Bool(true)
    ensures var o := Post(session, Some(b), keyOf, today, reply, jsonParse, insertFails);
      var parsed := ParseReply(reply, jsonParse);
      && (parsed.None? ==> o == Outcome(Error(500, "Failed to process voice input"), []))
      && (parsed == Some([]) ==> o == Outcome(Error(422, "Could not parse habits from input"), []))
      && (parsed.Some? && parsed.value != [] ==>
            (o.response.NeedsConfirmation? <==> NeedsConfirmationOf(parsed.value)))
      && (parsed.Some? && parsed.value != [] && NeedsConfirmationOf(parsed.value) ==>
            o == Outcome(NeedsConfirmation(parsed.value), []))
      && (parsed.Some? && parsed.value != [] && !NeedsConfirmationOf(parsed.value) ==>
            o == Save(parsed.value, keyOf(session.value), Trim(b.voiceInput.s), today, insertFails))
  {
  }
}
