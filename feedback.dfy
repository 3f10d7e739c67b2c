/**
 * The mobile "Share Feedback" screen: the length rules on the message,
 * the counter and hint under the text box, and the send gate.
 *
 * Sending, the alerts and navigating back are outside the screen: the
 * send handler reports the message it would send.
 */
module Feedback {
  import opened Wrappers
  import opened Text

  const Max: nat := 500
  const Min: nat := 10

  /** `remaining`: characters left before the limit. */
  function Remaining(text: string): (r: int)
    ensures r >= 0 <==> |text| <= Max
    ensures r + |text| == Max
  {
    Max - |text|
  }

  /** `isValid`: at least Min characters once trimmed, at most Max as typed. */
  predicate IsValid(text: string) {
    |Trim(text)| >= Min && |text| <= Max
  }

  /** A valid text has between Min and Max characters and a non-negative counter. */
  lemma ValidBounds(text: string)
    requires IsValid(text)
    ensures Min <= |text| <= Max && Remaining(text) >= 0
  {
  }

  /** The hint under the text box. */
  datatype Hint = More(count: nat) | LooksGood

  /** `At least 10 characters (n more)` below the minimum, else `Looks good`. */
  function HintOf(text: string): (r: Hint)
    ensures r.LooksGood? <==> |Trim(text)| >= Min
    ensures r.More? ==> 0 < r.count <= Min && r.count + |Trim(text)| == Min
  {
    if |Trim(text)| < Min then More(Min - |Trim(text)|) else LooksGood
  }

  /** Within the length limit the hint says 'Looks good' exactly when the text may be sent. */
  lemma HintAgreesWithValidity(text: string)
    requires |text| <= Max
    ensures HintOf(text).LooksGood? <==> IsValid(text)
  {
  }

  /** The message sent: the trimmed text with its category. */
  datatype FeedbackMessage = FeedbackMessage(category: string, message: string)

  /** Trimming a valid text gives a valid text: the message sent passes the screen's own rules. */
  lemma SentMessageValid(text: string)
    requires IsValid(text)
    ensures IsValid(Trim(text)) && Trim(Trim(text)) == Trim(text)
  {
    TrimIdempotent(text);
  }

  class Screen {
    var text: string
    var category: string
    var loading: bool

    /** The text box holds at most Max characters. */
    ghost predicate Valid()
      reads this
    {
      |text| <= Max
    }

    constructor ()
      ensures Valid() && text == "" && category == "Other" && !loading
    {
      text := "";
      category := "Other";
      loading := false;
    }

    /** `disabled={!isValid || loading}`. */
    predicate SendDisabled()
      reads this
    {
      !IsValid(text) || loading
    }

    /** The text box's change: the input keeps at most the first Max characters. */
    method ChangeText(typed: string)
      modifies this
      ensures Valid()
      ensures |typed| <= Max ==> text == typed
      ensures |typed| > Max ==> text == typed[..Max]
      ensures category == old(category) && loading == old(loading)
    {
      text := if |typed| <= Max then typed else typed[..Max];
    }

    /** A chip press: choose the category. */
    method ChooseCategory(c: string)
      modifies this
      ensures category == c && text == old(text) && loading == old(loading)
    {
      category := c;
    }

    /**
     * `onSend`: nothing happens unless the text is valid; otherwise the
     * trimmed text is sent with the category, and loading is off afterwards.
     */
    method OnSend() returns (sent: Option<FeedbackMessage>)
      requires Valid()
      modifies this
      ensures Valid()
      ensures sent.Some? <==> IsValid(old(text))
      ensures sent.Some? ==> sent.value == FeedbackMessage(old(category), Trim(old(text)))
      ensures sent.Some? ==> Min <= |sent.value.message| <= Max
      ensures sent.None? ==> loading == old(loading)
      ensures sent.Some? ==> !loading
      ensures text == old(text) && category == old(category)
    {
      var message := FeedbackMessage(category, Trim(text));
      if !IsValid(text) {
        return None;
      }
      loading := true;
      sent := Some(message);
      loading := false;
    }
  }
}
