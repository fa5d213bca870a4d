// The dialogue input field of the result page: the 200-character cap on
// typing, and the submit rules (ignore blank input, alert on one character,
// send the trimmed text, clear the field only when sending succeeded).

module DialogueInput {
  import opened Strings

  /** The longest value the field accepts. */
  const MaxLength: nat := 200

  /** What pressing submit does with the current input. */
  datatype SubmitOutcome = Ignored | Alerted | Sent(text: string)

  /** The decision of handleSubmit: blank input is ignored, one character alerts, anything longer is sent trimmed. */
  function SubmitDecision(input: string): (o: SubmitOutcome)
    ensures o.Sent? ==> o.text == Trim(input) && |o.text| >= 2 && NoOuterSpace(o.text)
    ensures o == Ignored <==> AllSpace(input)
    ensures o == Alerted <==> |Trim(input)| == 1
  {
    TrimEmptyIffAllSpace(input);
    var trimmed := Trim(input);
    if trimmed == [] then Ignored
    else if |trimmed| < 2 then Alerted
    else Sent(trimmed)
  }

  /** Surrounding whitespace never changes the outcome. */
  lemma SubmitIgnoresPadding(input: string)
    ensures SubmitDecision(input) == SubmitDecision(Trim(input))
  {
    TrimOfTrimmed(Trim(input));
  }

  /**
   * The field's state: the text typed, whether a submission is in flight,
   * every text handed to onSubmit, and the number of alerts shown.
   */
  class DialogueField {
    var input: string
    var isLoading: bool
    var submitted: seq<string>
    var alerts: nat

    /** The input never exceeds the cap, and onSubmit only ever got trimmed text of two characters or more. */
    predicate Valid()
      reads this
    {
      |input| <= MaxLength
      && forall k :: 0 <= k < |submitted| ==> |submitted[k]| >= 2 && NoOuterSpace(submitted[k])
    }

    constructor()
      ensures input == [] && !isLoading && submitted == [] && alerts == 0
      ensures Valid()
    {
      input := [];
      isLoading := false;
      submitted := [];
      alerts := 0;
    }

    /** handleInputChange: a value over 200 characters is ignored. */
    method HandleInputChange(value: string)
      requires Valid()
      modifies this
      ensures Valid()
      ensures input == if |value| <= MaxLength then value else old(input)
      ensures isLoading == old(isLoading) && submitted == old(submitted) && alerts == old(alerts)
    {
      if |value| <= MaxLength {
        input := value;
      }
    }

    /**
     * handleSubmit; `succeeds` is whether the awaited onSubmit resolved.
     * The trimmed text is sent when it has two characters or more; the field
     * is cleared only when sending succeeded; loading is off afterwards.
     */
    method HandleSubmit(succeeds: bool)
      requires Valid()
      modifies this
      ensures Valid()
      ensures match SubmitDecision(old(input))
        case Ignored => input == old(input) && submitted == old(submitted) && alerts == old(alerts)
                        && isLoading == old(isLoading)
        case Alerted => input == old(input) && submitted == old(submitted) && alerts == old(alerts) + 1
                        && isLoading == old(isLoading)
        case Sent(text) => submitted == old(submitted) + [text] && alerts == old(alerts) && !isLoading
                           && input == (if succeeds then [] else old(input))
    {
      var trimmedInput := Trim(input);
      TrimEmptyIffAllSpace(input);
      if trimmedInput == [] {
        return;
      }
      if |trimmedInput| < 2 {
        alerts := alerts + 1;
        return;
      }
      isLoading := true;
      submitted := submitted + [trimmedInput];
      if succeeds {
        input := [];
      }
      isLoading := false;
    }

    /** handleKeyPress: Enter without Shift submits; any other key does nothing. */
    method HandleKeyPress(key: string, shiftKey: bool, succeeds: bool)
      requires Valid()
      modifies this
      ensures Valid()
      ensures !(key == "Enter" && !shiftKey) ==>
        input == old(input) && submitted == old(submitted) && alerts == old(alerts) && isLoading == old(isLoading)
      ensures key == "Enter" && !shiftKey ==>
        match SubmitDecision(old(input))
        case Ignored => input == old(input) && submitted == old(submitted) && alerts == old(alerts)
                        && isLoading == old(isLoading)
        case Alerted => input == old(input) && submitted == old(submitted) && alerts == old(alerts) + 1
                        && isLoading == old(isLoading)
        case Sent(text) => submitted == old(submitted) + [text] && alerts == old(alerts) && !isLoading
                           && input == (if succeeds then [] else old(input))
    {
      if key == "Enter" && !shiftKey {
        HandleSubmit(succeeds);
      }
    }
  }
}
