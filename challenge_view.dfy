/**
 * The part of a game challenge view that every challenge shares: four push
 * buttons, a feedback face carrying a point display, and an answer area whose
 * interactivity follows the challenge state.
 */
module ChallengeView {
  import opened Wrappers
  import opened NumberText

  /**
   * The states of a challenge as this view sees them. `Unhandled` stands for
   * any state value without an entry in the handler table.
   */
  datatype ChallengeState =
    | PresentingChallenge
    | ChallengeSolvedCorrectly
    | PresentingTryAgain
    | AttemptsExhausted
    | DisplayingCorrectAnswer
    | Unhandled(name: string)

  /** Positions in `buttons`, in the order the constructor pushes the buttons. */
  const CHECK_ANSWER: nat := 0
  const NEXT: nat := 1
  const TRY_AGAIN: nat := 2
  const DISPLAY_CORRECT_ANSWER: nat := 3
  const BUTTON_COUNT: nat := 4

  const ALL_HIDDEN: seq<bool> := [false, false, false, false]

  /** The expression of the feedback face. */
  datatype Expression = Smile | Frown

  /** Calls of the view's own overridable functions, which do nothing in this base view. */
  datatype Hook = ClearAnswerHook | DisplayCorrectAnswerHook | CheckAnswerHook

  /** Calls the view makes on its challenge. */
  datatype ChallengeCall = NextCall | TryAgainCall | DisplayCorrectAnswerCall

  /**
   * What the view shows: button visibility (in push order), the face's
   * visibility and expression, the point text, and whether the answer area
   * is pickable (`None` until first set).
   */
  datatype Display = Display(
    buttonsVisible: seq<bool>,
    faceVisible: bool,
    expression: Option<Expression>,
    pointText: string,
    answerPickable: Option<bool>)

  /** The display right after the face and buttons are created. */
  const INITIAL_DISPLAY: Display := Display(ALL_HIDDEN, false, None, "+0", None)

  /** `hideButtonsAndFace`: every button and the face hidden, nothing else touched. */
  function Hidden(d: Display): Display {
    d.(buttonsVisible := ALL_HIDDEN, faceVisible := false)
  }

  /** The entry of the state-change handler table for `s`, applied to `d`; no entry changes nothing. */
  function ApplyHandler(d: Display, s: ChallengeState, pointValue: int): Display
    requires |d.buttonsVisible| == BUTTON_COUNT
  {
    match s
    case PresentingChallenge =>
      d.(answerPickable := Some(true), buttonsVisible := d.buttonsVisible[CHECK_ANSWER := true])
    case ChallengeSolvedCorrectly =>
      d.(answerPickable := Some(false), expression := Some(Smile), pointText := "+" + IntToString(pointValue),
         faceVisible := true, buttonsVisible := d.buttonsVisible[NEXT := true])
    case PresentingTryAgain =>
      d.(answerPickable := Some(false), expression := Some(Frown), pointText := "",
         faceVisible := true, buttonsVisible := d.buttonsVisible[TRY_AGAIN := true])
    case AttemptsExhausted =>
      d.(answerPickable := Some(false), buttonsVisible := d.buttonsVisible[DISPLAY_CORRECT_ANSWER := true],
         expression := Some(Frown), pointText := "", faceVisible := true)
    case DisplayingCorrectAnswer =>
      d.(answerPickable := Some(false), buttonsVisible := d.buttonsVisible[NEXT := true])
    case Unhandled(_) => d
  }

  /** The state link: hide everything, then run the state's handler. */
  function AfterStateChange(d: Display, s: ChallengeState, pointValue: int): Display {
    ApplyHandler(Hidden(d), s, pointValue)
  }

  /** The overridable functions a state's handler calls. */
  function HandlerHooks(s: ChallengeState): seq<Hook> {
    match s
    case PresentingChallenge => [ClearAnswerHook]
    case DisplayingCorrectAnswer => [DisplayCorrectAnswerHook]
    case _ => []
  }

  /** What pressing a button calls on the view itself. */
  function ButtonHooks(button: nat): seq<Hook> {
    if button == CHECK_ANSWER then [CheckAnswerHook] else []
  }

  /** What pressing a button calls on the challenge. */
  function ButtonCalls(button: nat): seq<ChallengeCall> {
    if button == NEXT then [NextCall]
    else if button == TRY_AGAIN then [TryAgainCall]
    else if button == DISPLAY_CORRECT_ANSWER then [DisplayCorrectAnswerCall]
    else []
  }

  /** The one button each handled state shows. */
  function ShownButton(s: ChallengeState): Option<nat> {
    match s
    case PresentingChallenge => Some(CHECK_ANSWER)
    case ChallengeSolvedCorrectly => Some(NEXT)
    case PresentingTryAgain => Some(TRY_AGAIN)
    case AttemptsExhausted => Some(DISPLAY_CORRECT_ANSWER)
    case DisplayingCorrectAnswer => Some(NEXT)
    case Unhandled(_) => None
  }

  /** The number of visible buttons. */
  function VisibleCount(visible: seq<bool>): nat {
    if visible == [] then 0 else (if visible[0] then 1 else 0) + VisibleCount(visible[1..])
  }

  /** After a state change exactly the state's button is visible, and no other. */
  lemma OnlyShownButtonVisible(d: Display, s: ChallengeState, pointValue: int)
    ensures var r := AfterStateChange(d, s, pointValue);
      && |r.buttonsVisible| == BUTTON_COUNT
      && (forall i | 0 <= i < BUTTON_COUNT :: r.buttonsVisible[i] <==> ShownButton(s) == Some(i))
  {
  }

  /**
   * Exactly one button is visible in each of the five handled states, and
   * none in a state without a handler.
   */
  lemma ExactlyOneButtonVisible(d: Display, s: ChallengeState, pointValue: int)
    ensures VisibleCount(AfterStateChange(d, s, pointValue).buttonsVisible) == (if s.Unhandled? then 0 else 1)
  {
    var v := AfterStateChange(d, s, pointValue).buttonsVisible;
    OnlyShownButtonVisible(d, s, pointValue);
    if s.Unhandled? {
      assert v == ALL_HIDDEN;
    } else {
      var b := ShownButton(s).value;
      assert v == ALL_HIDDEN[b := true];
      CountOneUp(b);
    }
  }

  /** Making one hidden button visible among four hidden buttons gives one visible button. */
  lemma CountOneUp(b: nat)
    requires b < BUTTON_COUNT
    ensures VisibleCount(ALL_HIDDEN[b := true]) == 1
  {
    var v := ALL_HIDDEN[b := true];
    assert v[3..][1..] == [];
    assert VisibleCount(v[3..]) == (if b == 3 then 1 else 0);
    assert v[2..][1..] == v[3..];
    assert VisibleCount(v[2..]) == (if b >= 2 then 1 else 0);
    assert v[1..][1..] == v[2..];
    assert VisibleCount(v[1..]) == (if b >= 1 then 1 else 0);
  }

  /**
   * The answer area is made interactive in the presenting state and
   * non-interactive in the other four handled states; a state without a
   * handler leaves it as it was.
   */
  lemma InteractiveOnlyWhilePresenting(d: Display, s: ChallengeState, pointValue: int)
    ensures var r := AfterStateChange(d, s, pointValue);
      && (!s.Unhandled? ==> r.answerPickable == Some(s == PresentingChallenge))
      && (s.Unhandled? ==> r.answerPickable == d.answerPickable)
  {
  }

  /**
   * The face is shown exactly after a graded answer: smiling with '+' and
   * the point value when solved, frowning with no points after a wrong
   * answer. Showing the correct answer hides the face and keeps its
   * expression and text; a state without a handler hides it and changes
   * nothing else.
   */
  lemma FaceFeedback(d: Display, s: ChallengeState, pointValue: int)
    ensures var r := AfterStateChange(d, s, pointValue);
      && (r.faceVisible <==> s in {ChallengeSolvedCorrectly, PresentingTryAgain, AttemptsExhausted})
      && (s == ChallengeSolvedCorrectly ==>
            r.expression == Some(Smile) && |r.pointText| >= 2 && r.pointText[0] == '+' &&
            ParseInt(r.pointText[1..]) == Some(pointValue))
      && (s in {PresentingTryAgain, AttemptsExhausted} ==> r.expression == Some(Frown) && r.pointText == "")
      && (s !in {ChallengeSolvedCorrectly, PresentingTryAgain, AttemptsExhausted} ==>
            r.expression == d.expression && r.pointText == d.pointText)
  {
    if s == ChallengeSolvedCorrectly {
      var r := AfterStateChange(d, s, pointValue);
      assert r.pointText[1..] == IntToString(pointValue);
      ParseIntToString(pointValue);
    }
  }

  /** Because everything is hidden first, what a state shows does not depend on what was shown before. */
  lemma ShownIndependentOfHistory(d1: Display, d2: Display, s: ChallengeState, pointValue: int)
    ensures AfterStateChange(d1, s, pointValue).buttonsVisible == AfterStateChange(d2, s, pointValue).buttonsVisible
    ensures AfterStateChange(d1, s, pointValue).faceVisible == AfterStateChange(d2, s, pointValue).faceVisible
  {
  }

  /**
   * A challenge view. `challengeState` is the challenge's state property and
   * `pointValue` the challenge's current point value, both as the view
   * observes them; the challenge lowers its point value after a wrong
   * answer, so the view reads it each time the solved handler runs.
   * `hooks` and `challengeCalls` record, in order, the calls the view makes.
   */
  class ChallengeView {
    var pointValue: int
    const buttons: array<bool>
    var faceVisible: bool
    var expression: Option<Expression>
    var pointText: string
    var answerPickable: Option<bool>
    var challengeState: ChallengeState
    var hooks: seq<Hook>
    var challengeCalls: seq<ChallengeCall>

    ghost predicate Valid()
      reads this
    {
      buttons.Length == BUTTON_COUNT
    }

    function Current(): Display
      reads this, buttons
    {
      Display(buttons[..], faceVisible, expression, pointText, answerPickable)
    }

    /** Hides every button, one at a time, and then the face. */
    method HideButtonsAndFace()
      requires Valid()
      modifies this, buttons
      ensures Current() == Hidden(old(Current()))
      ensures challengeState == old(challengeState) && hooks == old(hooks) && challengeCalls == old(challengeCalls)
      ensures pointValue == old(pointValue)
    {
      for i := 0 to buttons.Length
        invariant forall k | 0 <= k < i :: !buttons[k]
        modifies buttons
      {
        buttons[i] := false;
      }
      assert buttons[..] == ALL_HIDDEN;
      faceVisible := false;
    }

    /** `setAnswerNodeInteractive`. */
    method SetAnswerNodeInteractive(interactive: bool)
      modifies this
      ensures Current() == old(Current()).(answerPickable := Some(interactive))
      ensures challengeState == old(challengeState) && hooks == old(hooks) && challengeCalls == old(challengeCalls)
      ensures pointValue == old(pointValue)
    {
      answerPickable := Some(interactive);
    }

    /** The function linked to the challenge state: hide everything, then the state's handler, if it has one. */
    method OnChallengeStateChanged(s: ChallengeState)
      requires Valid()
      modifies this, buttons
      ensures Current() == AfterStateChange(old(Current()), s, old(pointValue))
      ensures hooks == old(hooks) + HandlerHooks(s)
      ensures challengeState == old(challengeState) && challengeCalls == old(challengeCalls)
      ensures pointValue == old(pointValue)
    {
      HideButtonsAndFace();
      match s
      case PresentingChallenge =>
        hooks := hooks + [ClearAnswerHook];
        SetAnswerNodeInteractive(true);
        buttons[CHECK_ANSWER] := true;
      case ChallengeSolvedCorrectly =>
        SetAnswerNodeInteractive(false);
        expression := Some(Smile);
        pointText := "+" + IntToString(pointValue);
        faceVisible := true;
        buttons[NEXT] := true;
      case PresentingTryAgain =>
        SetAnswerNodeInteractive(false);
        expression := Some(Frown);
        pointText := "";
        faceVisible := true;
        buttons[TRY_AGAIN] := true;
      case AttemptsExhausted =>
        SetAnswerNodeInteractive(false);
        buttons[DISPLAY_CORRECT_ANSWER] := true;
        expression := Some(Frown);
        pointText := "";
        faceVisible := true;
      case DisplayingCorrectAnswer =>
        SetAnswerNodeInteractive(false);
        buttons[NEXT] := true;
        hooks := hooks + [DisplayCorrectAnswerHook];
      case Unhandled(_) =>
    }

    /** Sets the challenge state; the linked function runs only when the value changes. */
    method SetChallengeState(s: ChallengeState)
      requires Valid()
      modifies this, buttons
      ensures challengeState == s && challengeCalls == old(challengeCalls) && pointValue == old(pointValue)
      ensures old(challengeState) == s ==> Current() == old(Current()) && hooks == old(hooks)
      ensures old(challengeState) != s ==>
        Current() == AfterStateChange(old(Current()), s, old(pointValue)) && hooks == old(hooks) + HandlerHooks(s)
    {
      if s != challengeState {
        challengeState := s;
        OnChallengeStateChanged(s);
      }
    }

    /**
     * The challenge's point value changes (halved after a wrong answer, zero
     * once the answer is shown). Nothing is redrawn now: the new value
     * appears the next time the solved handler runs.
     */
    method SetPointValue(v: int)
      modifies this
      ensures pointValue == v
      ensures Current() == old(Current()) && challengeState == old(challengeState)
      ensures hooks == old(hooks) && challengeCalls == old(challengeCalls)
    {
      pointValue := v;
    }

    /**
     * Pressing a button fires its listener; a hidden button cannot be
     * pressed. Check calls the view's own `checkAnswer`; next, try again
     * and show answer call the challenge.
     */
    method PressButton(button: nat)
      requires Valid() && button < BUTTON_COUNT
      modifies this
      ensures Current() == old(Current()) && challengeState == old(challengeState) && pointValue == old(pointValue)
      ensures old(buttons[button]) ==>
        hooks == old(hooks) + ButtonHooks(button) && challengeCalls == old(challengeCalls) + ButtonCalls(button)
      ensures !old(buttons[button]) ==> hooks == old(hooks) && challengeCalls == old(challengeCalls)
    {
      if buttons[button] {
        if button == CHECK_ANSWER {
          hooks := hooks + [CheckAnswerHook];
        } else if button == NEXT {
          challengeCalls := challengeCalls + [NextCall];
        } else if button == TRY_AGAIN {
          challengeCalls := challengeCalls + [TryAgainCall];
        } else {
          challengeCalls := challengeCalls + [DisplayCorrectAnswerCall];
        }
      }
    }

    /**
     * Creates the face (hidden, showing "+0") and the four buttons, hides
     * them all, and links to the challenge state, which runs the handler
     * for the initial state once.
     */
    constructor(pointValue: int, initialState: ChallengeState)
      ensures Valid() && fresh(buttons)
      ensures this.pointValue == pointValue && challengeState == initialState
      ensures Current() == AfterStateChange(INITIAL_DISPLAY, initialState, pointValue)
      ensures hooks == HandlerHooks(initialState) && challengeCalls == []
    {
      this.pointValue := pointValue;
      buttons := new bool[BUTTON_COUNT](_ => true);
      faceVisible := false;
      expression := None;
      pointText := "+0";
      answerPickable := None;
      challengeState := initialState;
      hooks := [];
      challengeCalls := [];
      new;
      HideButtonsAndFace();
      OnChallengeStateChanged(initialState);
    }
  }

  /**
   * A challenge worth 2 points answered wrongly once, then correctly: the
   * challenge halves its value on try again, and the solved face shows the
   * halved value, not the value the view was created with.
   */
  method SolvedAfterTryAgainShowsHalvedValue() returns (text: string)
    ensures text == "+1"
  {
    var view := new ChallengeView(2, PresentingChallenge);
    view.SetChallengeState(PresentingTryAgain);
    view.SetPointValue(1);
    view.SetChallengeState(PresentingChallenge);
    view.SetChallengeState(ChallengeSolvedCorrectly);
    assert IntToString(1) == "1";
    text := view.pointText;
  }
}
