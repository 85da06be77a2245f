/** The state of the PowerOPPS calculator page: the scores form and the target
    form, their validation, and their reset buttons. Entered text reaches the
    handlers through `parseFloat`; the model holds the parsed number, with None
    for text that parses to NaN (including the empty text a reset leaves). */
module PowerOppsForm {
  import opened Wrappers
  import opened Scoring

  /** A parsed entry the handlers accept: a number above zero. */
  predicate Positive(x: Option<real>) {
    x.Some? && x.value > 0.0
  }

  /** The validation both handlers apply: the body weight first, then the second
      number, each with its own message; None when both are accepted. */
  function InputError(bw: Option<real>, x: Option<real>, secondMessage: string): (r: Option<string>)
    ensures r == None <==> Positive(bw) && Positive(x)
    ensures !Positive(bw) ==> r == Some("Enter a valid body weight")
    ensures Positive(bw) && !Positive(x) ==> r == Some(secondMessage)
  {
    if bw.None? || bw.value <= 0.0 then Some("Enter a valid body weight")
    else if x.None? || x.value <= 0.0 then Some(secondMessage)
    else None
  }

  const LiftMessage := "Enter a valid weight lifted"
  const TargetMessage := "Enter a valid target score"

  class Calculator {
    // Scores form
    var female: bool
    var isKg: bool
    var event: Event
    var category: Category
    var bodyWeight: Option<real>
    var weightLifted: Option<real>
    var results: Option<ScoreResults>
    var error: string

    // Target form
    var targetFemale: bool
    var targetIsKg: bool
    var targetEvent: Event
    var targetCategory: Category
    var targetBodyWeight: Option<real>
    var targetScore: Option<real>
    var scoreType: ScoreType
    var targetResult: Option<real>
    var targetError: string

    /** Male, kg, classic full power, empty entries, no results, no errors, DOTS. */
    constructor()
      ensures !female && isKg && event == CL && category == PL
      ensures bodyWeight == None && weightLifted == None && results == None && error == ""
      ensures !targetFemale && targetIsKg && targetEvent == CL && targetCategory == PL
      ensures targetBodyWeight == None && targetScore == None && scoreType == Dots
      ensures targetResult == None && targetError == ""
    {
      female, isKg, event, category := false, true, CL, PL;
      bodyWeight, weightLifted, results, error := None, None, None, "";
      targetFemale, targetIsKg, targetEvent, targetCategory := false, true, CL, PL;
      targetBodyWeight, targetScore, scoreType := None, None, Dots;
      targetResult, targetError := None, "";
    }

    /** `handleCalculateScores`: a rejected entry sets its message and leaves the
        results as they were; accepted entries replace the results with all five
        scores and leave the error empty. Nothing else changes. */
    method HandleCalculateScores(host: HostMath)
      modifies this
      ensures InputError(bodyWeight, weightLifted, LiftMessage).Some? ==>
                error == InputError(bodyWeight, weightLifted, LiftMessage).value && results == old(results)
      ensures InputError(bodyWeight, weightLifted, LiftMessage).None? ==>
                error == "" && results == Some(AllScores(bodyWeight.value, weightLifted.value, female, event, category, isKg, host))
      ensures female == old(female) && isKg == old(isKg) && event == old(event) && category == old(category)
      ensures bodyWeight == old(bodyWeight) && weightLifted == old(weightLifted)
      ensures targetFemale == old(targetFemale) && targetIsKg == old(targetIsKg)
      ensures targetEvent == old(targetEvent) && targetCategory == old(targetCategory)
      ensures targetBodyWeight == old(targetBodyWeight) && targetScore == old(targetScore) && scoreType == old(scoreType)
      ensures targetResult == old(targetResult) && targetError == old(targetError)
    {
      error := "";
      if bodyWeight.None? || bodyWeight.value <= 0.0 {
        error := "Enter a valid body weight";
        return;
      }
      if weightLifted.None? || weightLifted.value <= 0.0 {
        error := LiftMessage;
        return;
      }
      var r := CalculateAllScores(bodyWeight.value, weightLifted.value, female, event, category, isKg, host);
      results := Some(r);
    }

    /** `handleCalculateTarget`: the same guards with the target's message; accepted
        entries replace the target result. Nothing else changes. */
    method HandleCalculateTarget(host: HostMath)
      modifies this
      ensures InputError(targetBodyWeight, targetScore, TargetMessage).Some? ==>
                targetError == InputError(targetBodyWeight, targetScore, TargetMessage).value
                && targetResult == old(targetResult)
      ensures InputError(targetBodyWeight, targetScore, TargetMessage).None? ==>
                targetError == ""
                && targetResult == Some(TargetWeight(targetBodyWeight.value, targetScore.value, scoreType,
                                                     targetFemale, targetEvent, targetCategory, targetIsKg, host))
      ensures targetFemale == old(targetFemale) && targetIsKg == old(targetIsKg)
      ensures targetEvent == old(targetEvent) && targetCategory == old(targetCategory)
      ensures targetBodyWeight == old(targetBodyWeight) && targetScore == old(targetScore) && scoreType == old(scoreType)
      ensures female == old(female) && isKg == old(isKg) && event == old(event) && category == old(category)
      ensures bodyWeight == old(bodyWeight) && weightLifted == old(weightLifted)
      ensures results == old(results) && error == old(error)
    {
      targetError := "";
      if targetBodyWeight.None? || targetBodyWeight.value <= 0.0 {
        targetError := "Enter a valid body weight";
        return;
      }
      if targetScore.None? || targetScore.value <= 0.0 {
        targetError := TargetMessage;
        return;
      }
      var w := CalculateTargetWeight(targetBodyWeight.value, targetScore.value, scoreType,
                                     targetFemale, targetEvent, targetCategory, targetIsKg, host);
      targetResult := Some(w);
    }

    /** `resetScores`: clears both entries, the results and the error. */
    method ResetScores()
      modifies this
      ensures bodyWeight == None && weightLifted == None && results == None && error == ""
      ensures female == old(female) && isKg == old(isKg) && event == old(event) && category == old(category)
      ensures targetFemale == old(targetFemale) && targetIsKg == old(targetIsKg)
      ensures targetEvent == old(targetEvent) && targetCategory == old(targetCategory)
      ensures targetBodyWeight == old(targetBodyWeight) && targetScore == old(targetScore) && scoreType == old(scoreType)
      ensures targetResult == old(targetResult) && targetError == old(targetError)
    {
      bodyWeight, weightLifted, results, error := None, None, None, "";
    }

    /** `resetTarget`: clears both target entries, the target result and its error. */
    method ResetTarget()
      modifies this
      ensures targetBodyWeight == None && targetScore == None && targetResult == None && targetError == ""
      ensures targetFemale == old(targetFemale) && targetIsKg == old(targetIsKg)
      ensures targetEvent == old(targetEvent) && targetCategory == old(targetCategory) && scoreType == old(scoreType)
      ensures female == old(female) && isKg == old(isKg) && event == old(event) && category == old(category)
      ensures bodyWeight == old(bodyWeight) && weightLifted == old(weightLifted)
      ensures results == old(results) && error == old(error)
    {
      targetBodyWeight, targetScore, targetResult, targetError := None, None, None, "";
    }
  }

  /** After a reset, calculating only reports the body-weight message and shows
      no results. */
  method ResetThenCalculate(c: Calculator, host: HostMath) returns (shown: Option<ScoreResults>, message: string)
    modifies c
    ensures shown == None && message == "Enter a valid body weight"
  {
    c.ResetScores();
    c.HandleCalculateScores(host);
    shown, message := c.results, c.error;
  }
}
