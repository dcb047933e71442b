/** The two-step onboarding modal: the personality quiz first, then the
    indicator selection, and the submit that saves the merged selection. */
module Onboarding {
  import opened IndicatorPreferences
  import opened IndicatorSelection

  datatype Step = QuizStep | IndicatorsStep

  datatype OnboardingState = OnboardingState(step: Step, selected: seq<IndicatorKey>)

  /** What can happen while the modal is up. */
  datatype Event =
    | Opened(initialStep: Step, initialIndicators: seq<IndicatorKey>)
    | QuizCompleted
    | CheckboxClicked(key: IndicatorKey)

  /** The modal's reaction to one event. */
  function Apply(st: OnboardingState, e: Event): (r: OnboardingState)
    ensures e.Opened? ==> r == OnboardingState(e.initialStep, MergeMandatory(e.initialIndicators))
    ensures e.QuizCompleted? ==> r == st.(step := IndicatorsStep)
    ensures e.CheckboxClicked? ==> r == st.(selected := CheckboxChange(st.selected, e.key))
  {
    match e
    case Opened(initialStep, initialIndicators) => OnboardingState(initialStep, OpenSelection(initialIndicators))
    case QuizCompleted => st.(step := IndicatorsStep)
    case CheckboxClicked(key) => st.(selected := CheckboxChange(st.selected, key))
  }

  /** Apply a run of events in order. */
  function Run(st: OnboardingState, es: seq<Event>): OnboardingState
    decreases |es|
  {
    if |es| == 0 then st else Run(Apply(st, es[0]), es[1..])
  }

  /** No handler moves the indicators step back to the quiz; only opening
      the modal again resets the step. This is the intended behaviour, with
      the open effect firing when the modal opens; `ApplyAsWritten` below
      shows how the component departs from it. */
  lemma {:induction false} IndicatorsStepIsFinal(st: OnboardingState, es: seq<Event>)
    requires st.step == IndicatorsStep
    requires forall i | 0 <= i < |es| :: !es[i].Opened?
    ensures Run(st, es).step == IndicatorsStep
    decreases |es|
  {
    if |es| > 0 {
      IndicatorsStepIsFinal(Apply(st, es[0]), es[1..]);
    }
  }

  /** Whether the `initialIndicators` prop keeps its identity from one
      render to the next. A caller that omits it gets the parameter
      default `[]`, which is a fresh array on every render. */
  datatype PropIdentity = StableProp | FreshEachRender

  /** One event as the component is written: the handler's update, after
      which, if the update re-rendered the modal and the `initialIndicators`
      dependency is a fresh array, the open effect (`isOpen` still true)
      runs again with the props' initial step and indicators. */
  function ApplyAsWritten(st: OnboardingState, e: Event, initialStep: Step, initialIndicators: seq<IndicatorKey>,
                          identity: PropIdentity): (r: OnboardingState)
    ensures identity == StableProp ==> r == Apply(st, e)
    ensures identity == FreshEachRender && Apply(st, e) != st ==>
      r == OnboardingState(initialStep, MergeMandatory(initialIndicators))
    ensures Apply(st, e) == st ==> r == st
  {
    var next := Apply(st, e);
    if identity == FreshEachRender && next != st then Apply(next, Opened(initialStep, initialIndicators))
    else next
  }

  function RunAsWritten(st: OnboardingState, es: seq<Event>, initialStep: Step, initialIndicators: seq<IndicatorKey>,
                        identity: PropIdentity): OnboardingState
    decreases |es|
  {
    if |es| == 0 then st
    else RunAsWritten(ApplyAsWritten(st, es[0], initialStep, initialIndicators, identity), es[1..],
                      initialStep, initialIndicators, identity)
  }

  /** As written, a modal opened on the quiz step by a caller that omits
      `initialIndicators` never reaches the indicator step: completing the
      quiz re-renders, the effect fires again and puts the quiz back. */
  lemma {:induction false} IndicatorsStepUnreachableAsWritten(st: OnboardingState, es: seq<Event>,
                                                              initialIndicators: seq<IndicatorKey>)
    requires st.step == QuizStep
    requires forall i | 0 <= i < |es| :: es[i].Opened? ==> es[i].initialStep == QuizStep
    ensures RunAsWritten(st, es, QuizStep, initialIndicators, FreshEachRender).step == QuizStep
    decreases |es|
  {
    if |es| > 0 {
      var next := ApplyAsWritten(st, es[0], QuizStep, initialIndicators, FreshEachRender);
      assert next.step == QuizStep;
      IndicatorsStepUnreachableAsWritten(next, es[1..], initialIndicators);
    }
  }

  /** The concrete case: opening on the quiz and completing it leaves the
      modal on the quiz. */
  lemma QuizCompletionUndoneAsWritten(initialIndicators: seq<IndicatorKey>)
    ensures var shown := Apply(OnboardingState(QuizStep, []), Opened(QuizStep, initialIndicators));
      && Apply(shown, QuizCompleted).step == IndicatorsStep
      && ApplyAsWritten(shown, QuizCompleted, QuizStep, initialIndicators, FreshEachRender).step == QuizStep
  {
  }

  /** With a prop that keeps its identity, the component behaves as `Run`. */
  lemma {:induction false} StablePropRunsAsIntended(st: OnboardingState, es: seq<Event>, initialStep: Step,
                                                     initialIndicators: seq<IndicatorKey>)
    ensures RunAsWritten(st, es, initialStep, initialIndicators, StableProp) == Run(st, es)
    decreases |es|
  {
    if |es| > 0 {
      StablePropRunsAsIntended(Apply(st, es[0]), es[1..], initialStep, initialIndicators);
    }
  }

  /** After the modal has been opened, both mandatory keys stay selected
      through any later events. */
  lemma {:induction false} MandatoryStaysSelected(st: OnboardingState, es: seq<Event>)
    requires forall k | IsMandatory(k) :: k in st.selected
    ensures forall k | IsMandatory(k) :: k in Run(st, es).selected
    decreases |es|
  {
    if |es| > 0 {
      MandatoryStaysSelected(Apply(st, es[0]), es[1..]);
    }
  }

  datatype SubmitOutcome = EmptyWarning | Saved(indicators: seq<IndicatorKey>)

  /** `handleIndicatorSubmit`: the merged selection is saved; the warning for
      an empty list is never reached because the merge holds the mandatory
      keys. */
  function Submit(st: OnboardingState): (r: SubmitOutcome)
    ensures r.Saved?
    ensures r.indicators == SubmitSelection(st.selected)
    ensures forall k | IsMandatory(k) :: k in r.indicators
  {
    var finalIndicators := SubmitSelection(st.selected);
    if |finalIndicators| == 0 then EmptyWarning else Saved(finalIndicators)
  }
}
