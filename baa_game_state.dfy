/**
 * The base game state of the Build an Atom game. Game challenges are the
 * states of the game model and receive the user's events; the base state
 * rejects every event by throwing, and its `step` does nothing.
 */
module BAAGameState {
  import opened Wrappers
  import opened Particles

  /** A base game state, identified by its name. */
  datatype BAAGameState = BAAGameState(name: string)

  /** The two static base instances. */
  const CHOOSING_LEVEL: BAAGameState := BAAGameState("choosingLevel")
  const LEVEL_COMPLETED: BAAGameState := BAAGameState("levelCompleted")

  /**
   * The user events a challenge view sends to the game state. The options
   * object passed along with an evaluated answer is not modelled.
   */
  datatype UserEvent =
    | HandleEvaluatedAnswer(submittedAtom: NumberAtom, isCorrect: bool)
    | CheckAnswer(submittedAtom: NumberAtom)
    | TryAgain
    | Next
    | DisplayCorrectAnswer

  /** The name of the API function an event is sent through. */
  function EventName(e: UserEvent): string {
    match e
    case HandleEvaluatedAnswer(_, _) => "handleEvaluatedAnswer"
    case CheckAnswer(_) => "checkAnswer"
    case TryAgain => "tryAgain"
    case Next => "next"
    case DisplayCorrectAnswer => "displayCorrectAnswer"
  }

  const BASE_CLASS_MESSAGE: string := " should never be called in base class"

  /**
   * Sending an event to a base state: the call throws an error naming the
   * function that was called.
   */
  function HandleEvent(state: BAAGameState, e: UserEvent): (r: Outcome<string>)
    ensures r.Fail?
    ensures |r.error| > |EventName(e)| && r.error[..|EventName(e)|] == EventName(e)
  {
    Fail(EventName(e) + BASE_CLASS_MESSAGE)
  }

  /** `step` is a stub in the base state: the state after a step is the state before it. */
  function Step(state: BAAGameState, dt: real): (r: BAAGameState)
    ensures r == state
  {
    state
  }

  /** Every event is rejected by both static instances, and the two instances are different states. */
  lemma StaticStatesRejectEverything(e: UserEvent)
    ensures HandleEvent(CHOOSING_LEVEL, e).Fail? && HandleEvent(LEVEL_COMPLETED, e).Fail?
    ensures CHOOSING_LEVEL.name == "choosingLevel" && LEVEL_COMPLETED.name == "levelCompleted"
    ensures CHOOSING_LEVEL != LEVEL_COMPLETED
  {
    assert CHOOSING_LEVEL.name[0] != LEVEL_COMPLETED.name[0];
  }

  /** Two event names are equal only for events sent through the same function. */
  lemma EventNamesDistinct(e1: UserEvent, e2: UserEvent)
    ensures EventName(e1) == EventName(e2) <==> SameFunction(e1, e2)
  {
    if EventName(e1) == EventName(e2) {
      assert EventName(e1)[0] == EventName(e2)[0];
    }
  }

  /** Whether two events go through the same API function, whatever their arguments. */
  predicate SameFunction(e1: UserEvent, e2: UserEvent) {
    (e1.HandleEvaluatedAnswer? && e2.HandleEvaluatedAnswer?) ||
    (e1.CheckAnswer? && e2.CheckAnswer?) ||
    (e1.TryAgain? && e2.TryAgain?) ||
    (e1.Next? && e2.Next?) ||
    (e1.DisplayCorrectAnswer? && e2.DisplayCorrectAnswer?)
  }

  /**
   * The error tells which function was wrongly called: two rejections carry
   * the same message exactly when they come through the same function, in
   * whichever base state.
   */
  lemma ErrorIdentifiesEvent(s1: BAAGameState, e1: UserEvent, s2: BAAGameState, e2: UserEvent)
    ensures HandleEvent(s1, e1) == HandleEvent(s2, e2) <==> SameFunction(e1, e2)
  {
    EventNamesDistinct(e1, e2);
    var m1, m2 := EventName(e1) + BASE_CLASS_MESSAGE, EventName(e2) + BASE_CLASS_MESSAGE;
    if m1 == m2 {
      assert |EventName(e1)| == |EventName(e2)|;
      assert EventName(e1) == m1[..|EventName(e1)|] == m2[..|EventName(e2)|] == EventName(e2);
    }
  }
}
