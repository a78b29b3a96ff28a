/**
 * Request guards of the tournament pages: the chain of tournament checks
 * run before a round can be generated, and the confirmation page that runs
 * a destructive action only when the operator typed the expected text.
 */
module TournamentGuards {

  /** The first non-empty message of `errors`, or "" when there is none. */
  function FirstError(errors: seq<string>): (e: string)
    ensures e == "" <==> forall i :: 0 <= i < |errors| ==> errors[i] == ""
    ensures e != "" ==> exists i :: 0 <= i < |errors| && errors[i] == e && forall j :: 0 <= j < i ==> errors[j] == ""
  {
    if errors == [] then ""
    else if errors[0] != "" then errors[0]
    else FirstError(errors[1..])
  }

  /** Either the message page is shown, or the wrapped view is called. */
  datatype GuardOutcome = ShowMessage(message: string) | CallWrapped

  /**
   * The `check_tournament` decorator. Its three arguments are the messages
   * returned by the last-round-results check, the teams-and-adjudicators
   * check and the final check ("" for a check that passed).
   */
  function CheckTournament(lastRoundResults: string, teamsAndAdjudicators: string, final: string): (o: GuardOutcome)
    ensures o == CallWrapped <==> lastRoundResults == "" && teamsAndAdjudicators == "" && final == ""
    ensures o.ShowMessage? ==> o.message == FirstError([lastRoundResults, teamsAndAdjudicators, final]) && o.message != ""
  {
    var errors := [lastRoundResults, teamsAndAdjudicators, final];
    assert errors[1..] == [teamsAndAdjudicators, final] && errors[1..][1..] == [final] && [final][1..] == [];
    if lastRoundResults != "" then ShowMessage(lastRoundResults)
    else if teamsAndAdjudicators != "" then ShowMessage(teamsAndAdjudicators)
    else if final != "" then
      assert FirstError([final]) == final;
      assert FirstError(errors[1..]) == FirstError([final]);
      ShowMessage(final)
    else CallWrapped
  }

  /** A failing earlier check hides every later one. */
  lemma EarlierCheckWins(lastRoundResults: string, teamsAndAdjudicators: string, final: string)
    ensures lastRoundResults != "" ==> CheckTournament(lastRoundResults, teamsAndAdjudicators, final) == ShowMessage(lastRoundResults)
    ensures lastRoundResults == "" && teamsAndAdjudicators != "" ==>
      CheckTournament(lastRoundResults, teamsAndAdjudicators, final) == ShowMessage(teamsAndAdjudicators)
  {
  }

  /** Either the callback runs and the user is redirected, or the page is rendered. */
  datatype ConfirmOutcome = CallbackThenRedirect | RenderConfirm(isError: bool)

  /**
   * The `_confirm_page` helper: `isPost` and `formValid` describe the
   * request and its confirmation form, `message` is the submitted text.
   */
  function ConfirmPage(isPost: bool, formValid: bool, message: string, needMessage: string): (o: ConfirmOutcome)
    ensures o == CallbackThenRedirect <==> isPost && formValid && message == needMessage
    ensures o == RenderConfirm(true) <==> isPost && formValid && message != needMessage
    ensures o == RenderConfirm(false) <==> !(isPost && formValid)
  {
    var isError := isPost && formValid && message != needMessage;
    if isPost && formValid && !isError then CallbackThenRedirect
    else RenderConfirm(isError)
  }
}
