/** The parent's page of `ParentDashboard.js`: the linking form (validation and normalisation of
    the code, and the state after the server answers), the pass rate and the three insight labels. */
module ParentDashboard {
  import opened Common
  import opened Text
  import opened Percent

  const EnterCode := "Please enter a linking code"
  const LinkFailed := "Failed to link. Please check the code."
  const Linked := "Successfully linked to student!"

  /** The code `linkToStudent` sends: refused when it trims to nothing, otherwise trimmed and
      upper-cased. The code sent is non-empty, has no surrounding whitespace and no lower-case
      ASCII letter. */
  function LinkRequest(code: string): (r: Result<string, string>)
    ensures r.Failure? <==> IsBlank(code)
    ensures r.Failure? ==> r.error == EnterCode
    ensures r.Success? ==> r.value == Upper(Trim(code))
    ensures r.Success? ==> r.value != [] && HasNoLowerAscii(r.value) && Trimmed(r.value)
  {
    var t := Trim(code);
    TrimEmptyIffBlank(code);
    if t == [] then Failure(EnterCode)
    else
      UpperIsUpper(t);
      UpperKeepsTrimmed(t);
      Success(Upper(t))
  }

  /** A code already sent is sent unchanged when typed again. */
  lemma LinkRequestIdempotent(code: string)
    requires LinkRequest(code).Success?
    ensures LinkRequest(LinkRequest(code).value) == LinkRequest(code)
  {
    var c := LinkRequest(code).value;
    TrimKeepsTrimmed(c);
    UpperIsUpper(Trim(code));
    assert !IsJsWhitespace(c[0]);
    assert !IsBlank(c);
  }

  /** The banner's `type`: empty before any attempt. */
  datatype MessageType = NoType | SuccessType | ErrorType

  datatype Message = Message(kind: MessageType, text: string)

  /** The linking form's state. */
  class LinkForm {
    var linkingCode: string
    var message: Message
    var linkedStudent: Option<string>
    var showLinkingForm: bool

    constructor()
      ensures linkingCode == "" && message == Message(NoType, "") && linkedStudent == None && !showLinkingForm
    {
      linkingCode := "";
      message := Message(NoType, "");
      linkedStudent := None;
      showLinkingForm := false;
    }

    /** `linkToStudent`: a blank code only sets the error message and sends nothing. Otherwise
        the trimmed, upper-cased code is sent, the request `LinkRequest` describes, and the form
        takes the reply (`TakeReply`). */
    method LinkToStudent(reply: Option<string>) returns (sent: Option<string>)
      modifies this
      ensures sent.None? <==> IsBlank(old(linkingCode))
      ensures sent.Some? ==> sent.value == Upper(Trim(old(linkingCode)))
      ensures sent.None? ==>
        && message == Message(ErrorType, EnterCode)
        && linkingCode == old(linkingCode) && linkedStudent == old(linkedStudent) && showLinkingForm == old(showLinkingForm)
      ensures sent.Some? && reply.Some? ==>
        message == Message(SuccessType, Linked) && linkedStudent == reply && linkingCode == "" && !showLinkingForm
      ensures sent.Some? && reply.None? ==>
        && message == Message(ErrorType, LinkFailed)
        && linkingCode == old(linkingCode) && linkedStudent == old(linkedStudent) && showLinkingForm == old(showLinkingForm)
    {
      // `!linkingCode.trim()`, which `TrimEmptyIffBlank` shows is `IsBlank`
      if IsBlank(linkingCode) {
        message := Message(ErrorType, EnterCode);
        return None;
      }
      sent := Some(Upper(Trim(linkingCode)));
      TakeReply(reply);
    }

    /** The answer to the link request: `reply` is the linked student's name the server answers
        with, or `None` when the request fails, which leaves the form as it was apart from the
        message. */
    method TakeReply(reply: Option<string>)
      modifies this
      ensures reply.Some? ==>
        message == Message(SuccessType, Linked) && linkedStudent == reply && linkingCode == "" && !showLinkingForm
      ensures reply.None? ==>
        && message == Message(ErrorType, LinkFailed)
        && linkingCode == old(linkingCode) && linkedStudent == old(linkedStudent) && showLinkingForm == old(showLinkingForm)
    {
      if reply.Some? {
        linkedStudent := reply;
        message := Message(SuccessType, Linked);
        linkingCode := "";
        showLinkingForm := false;
      } else {
        message := Message(ErrorType, LinkFailed);
      }
    }
  }

  // ---------------------------------------------------------------- stats and insights

  /** The pass rate under "Passed Tests": 0 with no tests, otherwise the rounded share of passed
      tests, at most 100 when no more tests passed than were taken. */
  function PassRate(passedTests: nat, totalTests: nat): (r: nat)
    ensures totalTests == 0 ==> r == 0
    ensures passedTests <= totalTests ==> r <= 100
    ensures totalTests > 0 ==> 2 * totalTests * r <= 200 * passedTests + totalTests < 2 * totalTests * (r + 1)
  {
    GetPercentage(passedTests, totalTests)
  }

  datatype PerformanceLabel = Excellent | GoodProgress | NeedsImprovement

  /** The performance insight: `Excellent Performance` from 75, `Good Progress` from 60. The
      server's average need not be whole, so it is a real here. */
  function PerformanceLabelOf(averageScore: real): (l: PerformanceLabel)
    ensures l == Excellent <==> averageScore >= 75.0
    ensures l == NeedsImprovement <==> averageScore < 60.0
  {
    if averageScore >= 75.0 then Excellent else if averageScore >= 60.0 then GoodProgress else NeedsImprovement
  }

  datatype ActivityLabel = VeryActive | ModeratelyActive | GettingStarted

  /** The activity insight: `Very Active` above 10 tests, `Moderately Active` above 5. */
  function ActivityLabelOf(totalTests: int): (l: ActivityLabel)
    ensures l == VeryActive <==> totalTests > 10
    ensures l == GettingStarted <==> totalTests <= 5
  {
    if totalTests > 10 then VeryActive else if totalTests > 5 then ModeratelyActive else GettingStarted
  }

  datatype FocusLabel = FollowingPlans | CompletedImprovements | ReadyForChallenges

  /** The focus insight: active learning plans first, then completed ones. */
  function FocusLabelOf(activeLearningPlans: int, completedLearningPlans: int): (l: FocusLabel)
    ensures l == FollowingPlans <==> activeLearningPlans > 0
    ensures l == CompletedImprovements <==> activeLearningPlans <= 0 && completedLearningPlans > 0
  {
    if activeLearningPlans > 0 then FollowingPlans
    else if completedLearningPlans > 0 then CompletedImprovements
    else ReadyForChallenges
  }
}
