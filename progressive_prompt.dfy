/** The follow-up prompt (components/ProgressivePrompt.js): a text or number field whose
    Done button hands the trimmed value and the unit to `onSubmit`, and a Skip button.
    The `onSubmit` and `onSkip` callbacks are recorded as the calls they receive. */
module ProgressivePrompt {
  import opened Text
  import opened JsValue

  /** The arguments of one `onSubmit` call: the value and `unit ?? null`. */
  datatype Submission = Submission(value: string, unit: Value)

  /** The field shown: a number input labelled with the unit, or a free-text input. */
  datatype InputKind = NumberInput(unitLabel: string) | TextInput

  /** `isEmpty`: nothing but white space has been typed; Done is disabled exactly
      then. */
  predicate IsEmpty(value: string) {
    Trim(value) == ""
  }

  lemma IsEmptyIffBlank(value: string)
    ensures IsEmpty(value) <==> IsBlank(value)
    ensures IsEmpty("")
  {
  }

  /** What `handleDone` passes to `onSubmit`, if anything. */
  function DoneSubmission(value: string, unit: Value): (r: Option<Submission>)
    ensures r.None? <==> IsBlank(value)
    ensures r.Some? ==> r.value.value == Trim(value)
    ensures r.Some? ==> r.value.value != "" && Unpadded(r.value.value) && Trim(r.value.value) == r.value.value
    ensures r.Some? ==> r.value.unit == (if IsNullish(unit) then Null else unit)
  {
    if Trim(value) == "" then None
    else
      TrimIdempotent(value);
      Some(Submission(Trim(value), Coalesce(unit, Null)))
  }

  /** Padding around what was typed changes neither whether Done submits nor what it
      submits. */
  lemma DoneIgnoresPadding(pre: string, value: string, post: string, unit: Value)
    requires IsBlank(pre) && IsBlank(post)
    ensures DoneSubmission(pre + value + post, unit) == DoneSubmission(value, unit)
  {
    TrimIgnoresPadding(pre, value, post);
  }

  /** A truthy unit selects the number input; anything else the text input. */
  function InputKindOf(unit: Value): (k: InputKind)
    ensures k.NumberInput? <==> Truthy(unit)
  {
    if Truthy(unit) then NumberInput(ToString(unit)) else TextInput
  }

  /** The prompt as the component holds it. */
  class Prompt {
    const unit: Value
    var value: string
    var submitted: seq<Submission>
    var skips: nat

    constructor(unit: Value)
      ensures this.unit == unit && value == "" && submitted == [] && skips == 0
      ensures IsEmpty(value)
    {
      this.unit := unit;
      value := "";
      submitted := [];
      skips := 0;
    }

    /** `onChange` of either input. */
    method Change(v: string)
      modifies this
      ensures value == v && submitted == old(submitted) && skips == old(skips)
    {
      value := v;
    }

    /** `handleDone`: a blank value calls nothing; otherwise `onSubmit` is called once. */
    method Done()
      modifies this
      ensures value == old(value) && skips == old(skips)
      ensures IsEmpty(value) ==> submitted == old(submitted)
      ensures !IsEmpty(value) ==> submitted == old(submitted) + [DoneSubmission(value, unit).value]
    {
      var t := Trim(value);
      if t == "" {
        return;
      }
      submitted := submitted + [Submission(t, if IsNullish(unit) then Null else unit)];
    }

    /** Skip calls `onSkip` whatever the value. */
    method Skip()
      modifies this
      ensures value == old(value) && submitted == old(submitted) && skips == old(skips) + 1
    {
      skips := skips + 1;
    }
  }
}
