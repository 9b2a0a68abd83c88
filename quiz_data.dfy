/** The fixed question table of the quiz widget (`quizData` in snarky-js-quiz.tsx).
    A question's texts are named by keys of type Text; only the number of
    options and the `answer` index take part in the behaviour, and Wording
    gives each key the words the widget displays. */
module QuizData {

  /** A displayed text of question `q`: its prompt, its option `o`, or the
      commentary shown after a correct or a wrong answer. */
  datatype Text =
    | Prompt(q: nat)
    | OptionText(q: nat, o: nat)
    | CorrectSnark(q: nat)
    | WrongSnark(q: nat)

  /** One multiple-choice question: its prompt, its options in display order,
      the index of the correct option and the two commentaries. */
  datatype Question = Question(
    question: Text,
    options: seq<Text>,
    answer: int,
    correctSnark: Text,
    wrongSnark: Text)

  /** Every question renders this many option buttons. */
  const OptionCount: nat := 4

  /** A question is well formed when it has four options and its answer indexes one of them. */
  predicate WellFormed(q: Question) {
    |q.options| == OptionCount && 0 <= q.answer < |q.options|
  }

  /** The index of the correct option of question `i` (0-based). */
  function CorrectOption(i: nat): int {
    match i
    case 0 => 1
    case 1 => 2
    case 2 => 1
    case 3 => 1
    case 4 => 1
    case 5 => 1
    case _ => 1
  }

  /** Question number `i` of the table (0-based). */
  function Entry(i: nat): Question {
    Question(Prompt(i), [OptionText(i, 0), OptionText(i, 1), OptionText(i, 2), OptionText(i, 3)],
             CorrectOption(i), CorrectSnark(i), WrongSnark(i))
  }

  /** The seven questions, in the order the widget asks them. */
  function Questions(): (qs: seq<Question>)
    ensures |qs| == 7
    ensures forall i :: 0 <= i < |qs| ==> WellFormed(qs[i])
  {
    seq(7, i requires 0 <= i < 7 => Entry(i))
  }

  /** The words the widget displays for a text key; keys outside the table have none. */
  function Wording(t: Text): string {
    match t
    case Prompt(0) => "What does 'const' actually mean in JavaScript?"
    case Prompt(1) => "What will console.log(typeof null) output?"
    case Prompt(2) => "What's the difference between '==' and '==='?"
    case Prompt(3) => "What does Array.prototype.map() return?"
    case Prompt(4) => "What is a closure?"
    case Prompt(5) => "What will [1, 2, 3].push(4) return?"
    case Prompt(6) => "What's the event loop?"
    case OptionText(0, 0) => "The variable is completely immutable forever"
    case OptionText(0, 1) => "The binding can't be reassigned, but objects/arrays can still be mutated"
    case OptionText(0, 2) => "It's just 'var' but fancier"
    case OptionText(0, 3) => "Nobody really knows, we just use it to look professional"
    case OptionText(1, 0) => "'null'"
    case OptionText(1, 1) => "'undefined'"
    case OptionText(1, 2) => "'object'"
    case OptionText(1, 3) => "'nothing'"
    case OptionText(2, 0) => "Nothing, one just has more characters"
    case OptionText(2, 1) => "'==' compares values, '===' compares values AND types"
    case OptionText(2, 2) => "'===' is deprecated"
    case OptionText(2, 3) => "'==' is faster because it's shorter"
    case OptionText(3, 0) => "undefined, it modifies the original array"
    case OptionText(3, 1) => "A new array with transformed elements"
    case OptionText(3, 2) => "A boolean indicating success"
    case OptionText(3, 3) => "The original array, but angrier"
    case OptionText(4, 0) => "When you close your laptop in frustration"
    case OptionText(4, 1) => "A function that remembers variables from its outer scope"
    case OptionText(4, 2) => "A way to end a JavaScript file"
    case OptionText(4, 3) => "A deprecated feature from ES5"
    case OptionText(5, 0) => "[1, 2, 3, 4]"
    case OptionText(5, 1) => "4"
    case OptionText(5, 2) => "undefined"
    case OptionText(5, 3) => "true"
    case OptionText(6, 0) => "A for loop that handles events"
    case OptionText(6, 1) => "The mechanism that handles async operations and callbacks"
    case OptionText(6, 2) => "A React hook"
    case OptionText(6, 3) => "The thing that makes your code slow"
    case CorrectSnark(0) => "Look at you, understanding the nuance! const isn't about immutability, it's about reassignment. Gold star."
    case CorrectSnark(1) => "You know about JavaScript's most famous bug! typeof null returning 'object' has been wrong since 1995 and we're stuck with it forever."
    case CorrectSnark(2) => "Correct! Always use === unless you have a very specific reason to let JavaScript's type coercion make decisions for you. (Spoiler: you don't.)"
    case CorrectSnark(3) => "Nailed it. map() returns a NEW array and leaves the original untouched. Immutability enthusiasts everywhere rejoice."
    case CorrectSnark(4) => "You actually understand closures! This puts you ahead of like 60% of interview candidates. Seriously."
    case CorrectSnark(5) => "Correct! push() returns the NEW LENGTH of the array, not the array itself. This trips up everyone at least once."
    case CorrectSnark(6) => "You know about the event loop! This is legitimately useful knowledge for understanding why your async code does weird things."
    case WrongSnark(0) => "Ah, the classic const confusion. It prevents reassignment, not mutation. Your object's properties are still fair game for chaos."
    case WrongSnark(1) => "It's 'object'. Yes, really. This is a bug from 1995 that can never be fixed because it would break the internet. Welcome to JavaScript."
    case WrongSnark(2) => "=== checks both value AND type. == will tell you that '5' == 5 is true, which is the kind of chaos we don't need in our lives."
    case WrongSnark(3) => "map() returns a brand new array with your transformations. It doesn't mutate the original. This is why functional programmers won't stop talking about it."
    case WrongSnark(4) => "A closure is a function that 'closes over' variables from its outer scope. It remembers them even after that outer function has finished. It's weird and powerful."
    case WrongSnark(5) => "Trick question energy: push() returns the new LENGTH of the array (4), not the array itself. The array IS modified, but the return value is just a number."
    case WrongSnark(6) => "The event loop is how JavaScript handles async operations - it processes the call stack, then checks the callback queue. It's why setTimeout(fn, 0) doesn't run immediately."
    case _ => ""
  }
}
