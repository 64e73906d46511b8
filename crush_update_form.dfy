/** The form for setting or clearing this month's crush. */
module CrushUpdateForm {
  import opened Wrappers
  import opened Clock
  import Text
  import Validation
  import WebTime
  import CrushRoutes
  import ServerConfig

  /** `crushes.find((crush) => crush.month === currentMonth)`. */
  function CurrentCrush(crushes: seq<CrushRoutes.CrushEntry>, currentMonth: string)
    : (r: Option<CrushRoutes.CrushEntry>)
    ensures r.None? <==> forall k :: 0 <= k < |crushes| ==> crushes[k].month != currentMonth
    ensures r.Some? ==> r.value.month == currentMonth
    ensures r.Some? ==>
      exists k :: 0 <= k < |crushes| && crushes[k] == r.value && forall j :: 0 <= j < k ==> crushes[j].month != currentMonth
  {
    if crushes == [] then None
    else if crushes[0].month == currentMonth then Some(crushes[0])
    else
      var r := CurrentCrush(crushes[1..], currentMonth);
      assert forall k :: 1 <= k < |crushes| ==> crushes[k] == crushes[1..][k - 1];
      r
  }

  /** What pressing submit does. */
  datatype SubmitAction =
    | NavigateAway                                   // nothing to delete
    | DeleteCrush                                    // clear this month's crush
    | SaveCrush(toEmail: string, message: string)    // create or update it
    | DoNothing                                      // the form is invalid

  /** `isFormValid`. */
  function FormValid(hasCrush: bool, email: string, message: string, current: Option<CrushRoutes.CrushEntry>)
    : (r: bool)
    ensures !hasCrush ==> (r <==> current.Some?)
    ensures hasCrush ==> (r <==> Text.HasVisibleChar(email) && Validation.ValidateEmail(email) && Text.HasVisibleChar(message))
  {
    Text.TrimEmptyIff(email);
    Text.TrimEmptyIff(message);
    if !hasCrush then current.Some?
    else Text.Trim(email) != "" && Validation.ValidateEmail(email) && Text.Trim(message) != ""
  }

  /** `handleSubmit`'s branching. */
  function SubmitFor(hasCrush: bool, email: string, message: string, current: Option<CrushRoutes.CrushEntry>)
    : (r: SubmitAction)
    ensures r == NavigateAway <==> !hasCrush && current.None?
    ensures r == DeleteCrush <==> !hasCrush && current.Some?
    ensures r.SaveCrush? <==> hasCrush && FormValid(hasCrush, email, message, current)
    ensures r.SaveCrush? ==> r.toEmail == Text.Trim(email) && r.message == Text.Trim(message)
  {
    if !hasCrush then (if current.None? then NavigateAway else DeleteCrush)
    else if !FormValid(hasCrush, email, message, current) then DoNothing
    else SaveCrush(Text.Trim(email), Text.Trim(message))
  }

  /**
   * A save sent by a valid form passes every check of POST /crush except,
   * possibly, the length limit, which the form does not check.
   */
  lemma SubmittedCrushAccepted(hasCrush: bool, email: string, message: string, current: Option<CrushRoutes.CrushEntry>)
    requires SubmitFor(hasCrush, email, message, current).SaveCrush?
    ensures var a := SubmitFor(hasCrush, email, message, current);
      var accepted := CrushRoutes.SaveStatus(CrushRoutes.CrushRequest(Some(a.toEmail), Some(a.message))).Ok?;
      accepted <==> Text.JsLength(a.message) <= ServerConfig.MESSAGE_LENGTH_LIMIT
  {
    Text.TrimEmptyIff(email);
    Text.TrimEmptyIff(message);
    Text.TrimIdempotent(message);
    Text.TrimEmptyIff(Text.Trim(message));
  }

  class CrushForm {
    /** The crush for the current month, computed once from the listing. */
    const currentCrush: Option<CrushRoutes.CrushEntry>
    var hasCrush: bool
    var email: string
    var message: string

    /** Initial state: switched on and filled in exactly when this month already has a crush. */
    constructor(crushes: seq<CrushRoutes.CrushEntry>, now: DateFields)
      requires ValidFields(now)
      ensures currentCrush == CurrentCrush(crushes, WebTime.GetCurrentMonth(now))
      ensures hasCrush == currentCrush.Some?
      ensures email == (if currentCrush.Some? then currentCrush.value.toEmail else "")
      ensures message == (if currentCrush.Some? then currentCrush.value.message else "")
    {
      var current := CurrentCrush(crushes, WebTime.GetCurrentMonth(now));
      currentCrush := current;
      hasCrush := current.Some?;
      email := if current.Some? then current.value.toEmail else "";
      message := if current.Some? then current.value.message else "";
    }

    /** The effect on `currentCrush`: refill the form from an existing crush. */
    method Sync()
      modifies this
      ensures currentCrush.Some? ==>
        hasCrush && email == currentCrush.value.toEmail && message == currentCrush.value.message
      ensures currentCrush.None? ==> hasCrush == old(hasCrush) && email == old(email) && message == old(message)
    {
      if currentCrush.Some? {
        hasCrush := true;
        email := currentCrush.value.toEmail;
        message := currentCrush.value.message;
      }
    }

    /** The toggle: switching off clears both fields; switching on keeps them. */
    method Toggle(value: bool)
      modifies this
      ensures hasCrush == value
      ensures !value ==> email == "" && message == ""
      ensures value ==> email == old(email) && message == old(message)
    {
      hasCrush := value;
      if !value {
        email := "";
        message := "";
      }
    }

    method HandleSubmit() returns (action: SubmitAction)
      ensures action == SubmitFor(hasCrush, email, message, currentCrush)
    {
      if !hasCrush {
        if currentCrush.None? {
          return NavigateAway;
        }
        return DeleteCrush;
      }
      if !FormValid(hasCrush, email, message, currentCrush) {
        return DoNothing;
      }
      action := SaveCrush(Text.Trim(email), Text.Trim(message));
    }
  }

  /** After switching off, submitting deletes when there is a crush this month and otherwise just leaves. */
  lemma ToggleOffThenSubmit(current: Option<CrushRoutes.CrushEntry>, email: string, message: string)
    ensures SubmitFor(false, email, message, current) == if current.Some? then DeleteCrush else NavigateAway
    ensures FormValid(false, "", "", current) <==> current.Some?
  {
  }
}
