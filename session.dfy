/** The session controller of the quiz widget: the six pieces of component
    state, the four handlers that change them, and what a whole play-through
    does to them. Each handler is specified by a function on a State value;
    the class Quiz holds the state in fields and its methods are proved to
    perform exactly those transitions. */
module QuizSession {
  import opened QuizData
  import opened Scoring

  datatype Option<T> = None | Some(value: T)

  /** The screen the component renders, read off its flags. */
  datatype Phase = NotStarted | Answering | Feedback | Complete

  /** The component's state, one field per `useState` hook. */
  datatype State = State(
    currentIndex: int,
    score: int,
    selectedAnswer: Option<int>,
    showFeedback: bool,
    quizComplete: bool,
    started: bool)

  /** The state the component mounts with. */
  const Initial: State := State(0, 0, None, false, false, false)

  /** Number of questions in the table (`quizData.length`, see QuestionCountIsTableLength). */
  const QuestionCount: nat := 7

  lemma QuestionCountIsTableLength()
    ensures |Questions()| == QuestionCount
  {
  }

  function PhaseOf(s: State): Phase {
    if !s.started then NotStarted
    else if s.quizComplete then Complete
    else if s.showFeedback then Feedback
    else Answering
  }

  /** What every reachable state satisfies: the index names a question, the
      score is at most the number of answered questions, an answer is
      selected exactly while feedback shows and is one of the options,
      completion happens on the last question with its feedback showing, and
      nothing moves before the start button is pressed. */
  predicate Inv(s: State) {
    && 0 <= s.currentIndex < QuestionCount
    && 0 <= s.score <= s.currentIndex + (if s.showFeedback then 1 else 0) <= QuestionCount
    && (s.selectedAnswer.Some? <==> s.showFeedback)
    && (s.selectedAnswer.Some? ==> 0 <= s.selectedAnswer.value < OptionCount)
    && (s.quizComplete ==> s.started && s.showFeedback && s.currentIndex == QuestionCount - 1)
    && (!s.started ==> s == Initial)
  }

  /** `quizData[currentIndex]`. */
  function CurrentQuestion(s: State): (q: Question)
    requires 0 <= s.currentIndex < QuestionCount
    ensures WellFormed(q)
  {
    Questions()[s.currentIndex]
  }

  /** `isCorrect`: the selected option is the current question's answer, which
      is always one of its four options. */
  function IsCorrect(s: State): (b: bool)
    requires Inv(s)
    ensures b ==> s.showFeedback
    ensures b ==> 0 <= s.selectedAnswer.value == CurrentQuestion(s).answer < OptionCount
  {
    s.selectedAnswer == Some(CurrentQuestion(s).answer)
  }

  /** The start button: the first question, unanswered, score zero. */
  function Started(s: State): (t: State)
    requires Inv(s) && PhaseOf(s) == NotStarted
    ensures Inv(t) && PhaseOf(t) == Answering
    ensures t == Initial.(started := true)
  {
    s.(started := true)
  }

  /** `handleAnswer(index)`. While feedback shows it changes nothing, so a
      repeated answer is ignored; otherwise it records the selection, shows
      feedback and raises the score by one exactly when the answer is right. */
  function Answered(s: State, index: int): (t: State)
    requires Inv(s) && s.started && !s.quizComplete
    requires 0 <= index < OptionCount
    ensures Inv(t)
    ensures s.showFeedback ==> t == s
    ensures !s.showFeedback ==> t.selectedAnswer == Some(index) && t.showFeedback && PhaseOf(t) == Feedback
    ensures !s.showFeedback ==> (t.score == s.score + 1 <==> index == CurrentQuestion(s).answer)
    ensures !s.showFeedback ==> (t.score == s.score <==> index != CurrentQuestion(s).answer)
    ensures !s.showFeedback ==> (IsCorrect(t) <==> t.score == s.score + 1)
    ensures t.currentIndex == s.currentIndex && t.quizComplete == s.quizComplete && t.started == s.started
  {
    if s.showFeedback then s
    else
      var shown := s.(selectedAnswer := Some(index), showFeedback := true);
      if index == CurrentQuestion(s).answer then shown.(score := s.score + 1) else shown
  }

  /** `nextQuestion`. Before the last question it moves one question on and
      clears the selection; on the last one it only marks the quiz complete,
      leaving the selection and the feedback as they were. The score never changes. */
  function Advanced(s: State): (t: State)
    requires Inv(s) && PhaseOf(s) == Feedback
    ensures Inv(t)
    ensures t.score == s.score && t.started == s.started
    ensures s.currentIndex < QuestionCount - 1 ==>
      && t.currentIndex == s.currentIndex + 1
      && t.selectedAnswer == None && !t.showFeedback
      && PhaseOf(t) == Answering
    ensures s.currentIndex == QuestionCount - 1 ==>
      && t.quizComplete && t.currentIndex == s.currentIndex
      && t.selectedAnswer == s.selectedAnswer && t.showFeedback
      && PhaseOf(t) == Complete
  {
    if s.currentIndex < QuestionCount - 1 then
      s.(currentIndex := s.currentIndex + 1, selectedAnswer := None, showFeedback := false)
    else
      s.(quizComplete := true)
  }

  /** `restart`. Everything but `started` returns to its initial value, so a
      started quiz restarts on its first question rather than on the start screen. */
  function Restarted(s: State): (t: State)
    ensures Inv(t)
    ensures t == Initial.(started := s.started)
    ensures PhaseOf(t) == if s.started then Answering else NotStarted
  {
    s.(currentIndex := 0, score := 0, selectedAnswer := None, showFeedback := false, quizComplete := false)
  }

  /** A second answer to the same question is ignored. */
  lemma AnswerTwiceIsAnswerOnce(s: State, i: int, j: int)
    requires Inv(s) && s.started && !s.quizComplete
    requires 0 <= i < OptionCount && 0 <= j < OptionCount
    ensures Answered(Answered(s, i), j) == Answered(s, i)
  {
  }

  /** Restarting a started quiz gives the state of a fresh start, not of a
      freshly mounted component: the start screen is not shown again. */
  lemma RestartIsFreshStart(s: State)
    requires Inv(s) && s.started
    ensures Restarted(s) == Started(Initial)
    ensures Restarted(s) != Initial
  {
  }

  /** A click on one of the widget's buttons. */
  datatype Event =
    | StartClicked
    | OptionClicked(index: int)
    | NextClicked
    | RestartClicked

  /** Whether the screen for state `s` shows the button for `e`, enabled: the
      start button on the start screen, the four option buttons on an
      unanswered question, the next button while feedback shows, and the
      restart button on the results screen. */
  predicate Offered(s: State, e: Event)
    requires Inv(s)
  {
    match e
    case StartClicked => !s.started
    case OptionClicked(i) =>
      s.started && !s.quizComplete && !s.showFeedback && 0 <= i < OptionCount
    case NextClicked => s.started && !s.quizComplete && s.showFeedback
    case RestartClicked => s.started && s.quizComplete
  }

  /** The handler a click runs. Apart from a restart, no click lowers the
      index or the score, and each raises either by at most one; only the
      next button moves to another question. */
  function Step(s: State, e: Event): (t: State)
    requires Inv(s) && Offered(s, e)
    ensures Inv(t)
    ensures e != RestartClicked ==>
      s.currentIndex <= t.currentIndex <= s.currentIndex + 1 && s.score <= t.score <= s.score + 1
    ensures t.currentIndex != s.currentIndex ==> e == NextClicked || e == RestartClicked
  {
    match e
    case StartClicked => Started(s)
    case OptionClicked(i) => Answered(s, i)
    case NextClicked => Advanced(s)
    case RestartClicked => Restarted(s)
  }

  /** A sequence of clicks from state `s`; a click where the screen shows no
      enabled button does nothing. Every reachable state satisfies Inv. */
  function Play(s: State, es: seq<Event>): (t: State)
    requires Inv(s)
    ensures Inv(t)
    decreases |es|
  {
    if es == [] then s
    else Play(if Offered(s, es[0]) then Step(s, es[0]) else s, es[1..])
  }

  lemma {:induction false} PlayAppend(s: State, a: seq<Event>, b: seq<Event>)
    requires Inv(s)
    ensures Play(s, a + b) == Play(Play(s, a), b)
    decreases |a|
  {
    if a == [] {
      assert a + b == b;
    } else {
      var s' := if Offered(s, a[0]) then Step(s, a[0]) else s;
      assert (a + b)[0] == a[0];
      assert (a + b)[1..] == a[1..] + b;
      PlayAppend(s', a[1..], b);
    }
  }

  /** Two offered clicks in a row run their two handlers. */
  lemma PlayTwo(s: State, e1: Event, e2: Event)
    requires Inv(s) && Offered(s, e1) && Offered(Step(s, e1), e2)
    ensures Play(s, [e1, e2]) == Step(Step(s, e1), e2)
  {
    var s1 := Step(s, e1);
    var s2 := Step(s1, e2);
    assert [e1, e2][1..] == [e2];
    assert [e2][1..] == [];
    assert Play(s2, []) == s2;
    assert Play(s1, [e2]) == Play(s2, []);
    assert Play(s, [e1, e2]) == Play(s1, [e2]);
  }

  /** Without a restart, a play-through only moves forward: the index and the
      score never decrease, and the index grows by at most one per click. */
  lemma {:induction false} PlayMovesForward(s: State, es: seq<Event>)
    requires Inv(s)
    requires forall k :: 0 <= k < |es| ==> es[k] != RestartClicked
    ensures s.currentIndex <= Play(s, es).currentIndex <= s.currentIndex + |es|
    ensures s.score <= Play(s, es).score
    decreases |es|
  {
    if es != [] {
      var s' := if Offered(s, es[0]) then Step(s, es[0]) else s;
      assert es[0] != RestartClicked;
      PlayMovesForward(s', es[1..]);
    }
  }

  /** The clicks that answer questions i, i+1, ... with the options in
      `choices`, pressing the next button after each answer. */
  function Rounds(choices: seq<int>, i: nat): seq<Event>
    requires i <= |choices|
    decreases |choices| - i
  {
    if i == |choices| then []
    else [OptionClicked(choices[i]), NextClicked] + Rounds(choices, i + 1)
  }

  /** The result of answering question i with choice x: one point more when x is right. */
  function Hit(i: nat, x: int): nat
    requires i < QuestionCount
  {
    if x == Questions()[i].answer then 1 else 0
  }

  /** How many of questions i, i+1, ... the options in `choices` answer correctly. */
  function CountCorrect(choices: seq<int>, i: nat): (c: nat)
    requires |choices| == QuestionCount && i <= QuestionCount
    ensures c <= QuestionCount - i
    decreases QuestionCount - i
  {
    if i == QuestionCount then 0
    else Hit(i, choices[i]) + CountCorrect(choices, i + 1)
  }

  predicate ValidChoices(choices: seq<int>) {
    |choices| == QuestionCount && forall j :: 0 <= j < |choices| ==> 0 <= choices[j] < OptionCount
  }

  /** Question i on screen, unanswered, with score c. */
  function Unanswered(i: nat, c: int): (s: State)
    requires i < QuestionCount && 0 <= c <= i
    ensures Inv(s) && PhaseOf(s) == Answering
  {
    State(i, c, None, false, false, true)
  }

  /** The results screen with score c, option x chosen on the last question. */
  function Finished(c: int, x: int): (s: State)
    requires 0 <= c <= QuestionCount && 0 <= x < OptionCount
    ensures Inv(s) && PhaseOf(s) == Complete
  {
    State(QuestionCount - 1, c, Some(x), true, true, true)
  }

  /** One round: an unanswered question i with score c, an option click and
      the next button. The score gains Hit(i, x); the quiz moves to question
      i + 1, or completes on the last question. */
  lemma AnswerThenNext(i: nat, c: int, x: int)
    requires i < QuestionCount && 0 <= c <= i && 0 <= x < OptionCount
    ensures Play(Unanswered(i, c), [OptionClicked(x), NextClicked])
         == if i + 1 < QuestionCount then Unanswered(i + 1, c + Hit(i, x)) else Finished(c + Hit(i, x), x)
  {
    var s := Unanswered(i, c);
    var s1 := Step(s, OptionClicked(x));
    assert s1 == State(i, c + Hit(i, x), Some(x), true, false, true);
    PlayTwo(s, OptionClicked(x), NextClicked);
  }

  /** The clicks of Rounds(choices, i) lead through the state after round i. */
  lemma FirstRound(choices: seq<int>, i: nat, c: int)
    requires ValidChoices(choices)
    requires i < QuestionCount && 0 <= c <= i
    ensures Play(Unanswered(i, c), Rounds(choices, i))
         == if i + 1 < QuestionCount then Play(Unanswered(i + 1, c + Hit(i, choices[i])), Rounds(choices, i + 1))
            else Finished(c + Hit(i, choices[i]), choices[i])
  {
    var round := [OptionClicked(choices[i]), NextClicked];
    assert Rounds(choices, i) == round + Rounds(choices, i + 1);
    AnswerThenNext(i, c, choices[i]);
    PlayAppend(Unanswered(i, c), round, Rounds(choices, i + 1));
    if i + 1 == QuestionCount {
      assert Rounds(choices, i + 1) == [];
    }
  }

  /** Answering questions i, i+1, ... from question i, unanswered, with score
      c: the quiz ends complete on the last question with c plus the number of
      correct choices. */
  lemma {:induction false} PlayRounds(choices: seq<int>, i: nat, c: int)
    requires ValidChoices(choices)
    requires i < QuestionCount && 0 <= c <= i
    ensures c + CountCorrect(choices, i) <= QuestionCount
    ensures Play(Unanswered(i, c), Rounds(choices, i))
         == Finished(c + CountCorrect(choices, i), choices[QuestionCount - 1])
    decreases QuestionCount - i
  {
    FirstRound(choices, i, c);
    if i + 1 < QuestionCount {
      PlayRounds(choices, i + 1, c + Hit(i, choices[i]));
    }
  }

  /** A whole play-through: press start, then answer every question with the
      options in `choices`. The quiz ends on the results screen with one point
      per correct choice; GetScoreData's contract says how that score is graded. */
  lemma FullPlaythrough(choices: seq<int>)
    requires ValidChoices(choices)
    ensures PhaseOf(Play(Initial, [StartClicked] + Rounds(choices, 0))) == Complete
    ensures Play(Initial, [StartClicked] + Rounds(choices, 0)).score == CountCorrect(choices, 0)
  {
    PlayAppend(Initial, [StartClicked], Rounds(choices, 0));
    assert Play(Initial, [StartClicked]) == Unanswered(0, 0);
    PlayRounds(choices, 0, 0);
  }

  /** The correct option of every question, in order. */
  function AnswerKey(): (key: seq<int>)
    ensures ValidChoices(key)
    ensures forall j :: 0 <= j < |key| ==> key[j] == Questions()[j].answer
  {
    seq(QuestionCount, j requires 0 <= j < QuestionCount => Questions()[j].answer)
  }

  lemma {:induction false} CountCorrectAll(choices: seq<int>, i: nat)
    requires |choices| == QuestionCount && i <= QuestionCount
    requires forall j :: i <= j < QuestionCount ==> choices[j] == Questions()[j].answer
    ensures CountCorrect(choices, i) == QuestionCount - i
    decreases QuestionCount - i
  {
    if i < QuestionCount {
      CountCorrectAll(choices, i + 1);
    }
  }

  lemma {:induction false} CountCorrectNone(choices: seq<int>, i: nat)
    requires |choices| == QuestionCount && i <= QuestionCount
    requires forall j :: i <= j < QuestionCount ==> choices[j] != Questions()[j].answer
    ensures CountCorrect(choices, i) == 0
    decreases QuestionCount - i
  {
    if i < QuestionCount {
      CountCorrectNone(choices, i + 1);
    }
  }

  /** Answering every question correctly scores all seven points, 100 percent and a pass. */
  lemma PerfectPlaythroughPasses()
    ensures Play(Initial, [StartClicked] + Rounds(AnswerKey(), 0)).score == QuestionCount
    ensures GetScoreData(QuestionCount, QuestionCount).pass
    ensures Percent(QuestionCount, QuestionCount) == 100
  {
    FullPlaythrough(AnswerKey());
    CountCorrectAll(AnswerKey(), 0);
    PerfectScorePasses(QuestionCount);
  }

  /** Answering every question wrongly scores nothing and the lowest grade. */
  lemma HopelessPlaythroughFails(choices: seq<int>)
    requires ValidChoices(choices)
    requires forall j :: 0 <= j < |choices| ==> choices[j] != Questions()[j].answer
    ensures Play(Initial, [StartClicked] + Rounds(choices, 0)).score == 0
    ensures GetScoreData(0, QuestionCount).grade == ExceptionalFailure
  {
    FullPlaythrough(choices);
    CountCorrectNone(choices, 0);
    ZeroScoreFails(QuestionCount);
  }

  /** The component itself: its six state hooks as fields and its handlers as methods. */
  class Quiz {
    var currentIndex: int
    var score: int
    var selectedAnswer: Option<int>
    var showFeedback: bool
    var quizComplete: bool
    var started: bool

    function Snapshot(): State
      reads this
    {
      State(currentIndex, score, selectedAnswer, showFeedback, quizComplete, started)
    }

    ghost predicate Valid()
      reads this
    {
      Inv(Snapshot())
    }

    /** Mounting the component: every hook at its initial value. */
    constructor ()
      ensures Valid() && Snapshot() == Initial
    {
      currentIndex, score, selectedAnswer := 0, 0, None;
      showFeedback, quizComplete, started := false, false, false;
    }

    /** The start button's handler, `setStarted(true)`. */
    method Start()
      requires Valid() && !started
      modifies this
      ensures Valid() && Snapshot() == Started(old(Snapshot()))
    {
      started := true;
    }

    /** `handleAnswer`, run by option button `index` of the question screen. */
    method HandleAnswer(index: int)
      requires Valid() && started && !quizComplete
      requires 0 <= index < OptionCount
      modifies this
      ensures Valid() && Snapshot() == Answered(old(Snapshot()), index)
    {
      if showFeedback {
        return;
      }
      selectedAnswer := Some(index);
      showFeedback := true;
      if index == Questions()[currentIndex].answer {
        score := score + 1;
      }
    }

    /** `nextQuestion`, run by the button shown with the feedback. */
    method NextQuestion()
      requires Valid() && started && !quizComplete && showFeedback
      modifies this
      ensures Valid() && Snapshot() == Advanced(old(Snapshot()))
    {
      if currentIndex < QuestionCount - 1 {
        currentIndex := currentIndex + 1;
        selectedAnswer := None;
        showFeedback := false;
      } else {
        quizComplete := true;
      }
    }

    /** `restart`. */
    method Restart()
      requires Valid()
      modifies this
      ensures Valid() && Snapshot() == Restarted(old(Snapshot()))
    {
      currentIndex := 0;
      score := 0;
      selectedAnswer := None;
      showFeedback := false;
      quizComplete := false;
    }
  }
}
