/**
 * The flashcard deck: a category filter, a study view that steps through the
 * filtered cards modulo their number, a card that flips between question and
 * answer, and answer marking that updates the card's own counters and the
 * session's counters and, half a second later, moves to the next card.
 */
module Flashcards {
  import opened Collections

  datatype Difficulty = Easy | Medium | Hard

  datatype Flashcard = Flashcard(
    id: string,
    front: string,
    back: string,
    category: string,
    difficulty: Difficulty,
    lastReviewed: string,
    correctCount: nat,
    totalAttempts: nat,
    aiGenerated: bool,
    isStarred: bool)

  datatype StudyMode = Browse | Study

  /** The category selection that shows every card. */
  const AllCategories: string := "all"

  /** `filteredCards`. */
  function FilteredCards(cards: seq<Flashcard>, selected: string): seq<Flashcard>
  {
    if selected == AllCategories then cards
    else Filter(cards, (c: Flashcard) => c.category == selected)
  }

  /** "all" shows the whole deck; any other selection exactly the cards of that category, in order. */
  lemma FilteredCardsSpec(cards: seq<Flashcard>, selected: string)
    ensures selected == AllCategories ==> FilteredCards(cards, selected) == cards
    ensures selected != AllCategories ==>
      && (forall c | c in FilteredCards(cards, selected) :: c in cards && c.category == selected)
      && (forall c | c in cards && c.category == selected :: c in FilteredCards(cards, selected))
    ensures IsSubsequence(FilteredCards(cards, selected), cards)
  {
    if selected == AllCategories {
      SubsequenceReflexive(cards);
    } else {
      FilterIsSubsequence(cards, (c: Flashcard) => c.category == selected);
    }
  }

  /** `categories`: `Array.from(new Set(cards.map(c => c.category)))`. */
  function Categories(cards: seq<Flashcard>): seq<string>
  {
    Distinct(Map(cards, (c: Flashcard) => c.category))
  }

  /** Every card's category is listed, only those, each exactly once, in order of first occurrence. */
  lemma CategoriesSpec(cards: seq<Flashcard>)
    ensures forall i | 0 <= i < |cards| :: cards[i].category in Categories(cards)
    ensures forall s | s in Categories(cards) :: exists i :: 0 <= i < |cards| && cards[i].category == s
    ensures NoDuplicates(Categories(cards))
    ensures var names := Map(cards, (c: Flashcard) => c.category);
      forall i, j | 0 <= i < j < |Categories(cards)| ::
        FirstIndex(names, Categories(cards)[i]) < FirstIndex(names, Categories(cards)[j])
  {
    var names := Map(cards, (c: Flashcard) => c.category);
    DistinctFirstOccurrenceOrder(names);
    forall i | 0 <= i < |cards| ensures cards[i].category in Categories(cards) {
      assert names[i] in names;
    }
  }

  /** `nextCard`'s index update, `(i + 1) % n`. */
  function NextIndex(i: nat, n: nat): (r: nat)
    requires n > 0
    ensures r < n
    ensures i + 1 < n ==> r == i + 1
    ensures i == n - 1 ==> r == 0
  {
    (i + 1) % n
  }

  /** `prevCard`'s index update, `(i - 1 + n) % n`. */
  function PrevIndex(i: nat, n: nat): (r: nat)
    requires n > 0
    ensures r < n
    ensures 0 < i <= n ==> r == i - 1
    ensures i == 0 ==> r == n - 1
  {
    (i - 1 + n) % n
  }

  /** On an index inside the deck, next and previous undo each other. */
  lemma NextPrevInverse(i: nat, n: nat)
    requires i < n
    ensures PrevIndex(NextIndex(i, n), n) == i
    ensures NextIndex(PrevIndex(i, n), n) == i
  {
  }

  /** The card list after `markAnswer(correct)` on the card with this id. */
  function MarkedCards(cards: seq<Flashcard>, id: string, correct: bool, today: string): (r: seq<Flashcard>)
    ensures |r| == |cards|
    ensures forall i :: 0 <= i < |cards| && cards[i].id != id ==> r[i] == cards[i]
    ensures forall i :: 0 <= i < |cards| && cards[i].id == id ==>
      && r[i].totalAttempts == cards[i].totalAttempts + 1
      && r[i].correctCount == cards[i].correctCount + (if correct then 1 else 0)
      && r[i].lastReviewed == today
      && r[i] == cards[i].(correctCount := r[i].correctCount, totalAttempts := r[i].totalAttempts, lastReviewed := today)
  {
    Map(cards, (c: Flashcard) =>
      if c.id == id
      then c.(correctCount := c.correctCount + (if correct then 1 else 0),
              totalAttempts := c.totalAttempts + 1,
              lastReviewed := today)
      else c)
  }

  /** No card has more correct answers than attempts. */
  predicate AccuracyBounded(cards: seq<Flashcard>) {
    forall i | 0 <= i < |cards| :: cards[i].correctCount <= cards[i].totalAttempts
  }

  /** Marking an answer keeps every card's correct count within its attempts. */
  lemma MarkKeepsAccuracyBounded(cards: seq<Flashcard>, id: string, correct: bool, today: string)
    requires AccuracyBounded(cards)
    ensures AccuracyBounded(MarkedCards(cards, id, correct, today))
  {
    var r := MarkedCards(cards, id, correct, today);
    forall i | 0 <= i < |r| ensures r[i].correctCount <= r[i].totalAttempts {
      assert cards[i].correctCount <= cards[i].totalAttempts;
    }
  }

  /** The flashcard page's state. */
  class FlashcardDeck {
    var cards: seq<Flashcard>
    var currentCardIndex: nat
    var isFlipped: bool
    var showAnswer: bool
    var studyMode: StudyMode
    var selectedCategory: string
    var sessionCorrect: nat
    var sessionTotal: nat
    /**
     * Advances scheduled by `markAnswer` and not yet run, oldest first; each
     * holds the number of filtered cards seen by the handler that scheduled it.
     */
    var pendingAdvances: seq<nat>

    /** The flip state and the answer visibility move together; the session counters agree. */
    predicate Valid()
      reads this
    {
      && isFlipped == showAnswer
      && sessionCorrect <= sessionTotal
      && (forall k | 0 <= k < |pendingAdvances| :: pendingAdvances[k] > 0)
    }

    constructor (cards: seq<Flashcard>)
      ensures Valid()
      ensures this.cards == cards && currentCardIndex == 0 && !isFlipped && !showAnswer
      ensures studyMode == Browse && selectedCategory == AllCategories
      ensures sessionCorrect == 0 && sessionTotal == 0 && pendingAdvances == []
    {
      this.cards := cards;
      currentCardIndex := 0;
      isFlipped := false;
      showAnswer := false;
      studyMode := Browse;
      selectedCategory := AllCategories;
      sessionCorrect := 0;
      sessionTotal := 0;
      pendingAdvances := [];
    }

    /** The cards the current category shows. */
    function Filtered(): seq<Flashcard>
      reads this
    {
      FilteredCards(cards, selectedCategory)
    }

    /** The category selector. The index is not reset, so it may fall outside the new list. */
    method SelectCategory(category: string)
      modifies this`selectedCategory
      ensures selectedCategory == category
    {
      selectedCategory := category;
    }

    /** Clicking a card in the browse grid opens it in the study view. */
    method OpenCard(index: nat)
      requires index < |Filtered()|
      modifies this`currentCardIndex, this`studyMode
      ensures currentCardIndex == index && studyMode == Study
    {
      currentCardIndex := index;
      studyMode := Study;
    }

    /** `flipCard`: turns the card and shows or hides the answer with it. */
    method FlipCard()
      requires Valid()
      requires currentCardIndex < |Filtered()|
      modifies this`isFlipped, this`showAnswer
      ensures Valid()
      ensures isFlipped == !old(isFlipped) && showAnswer == !old(showAnswer)
    {
      isFlipped := !isFlipped;
      showAnswer := !showAnswer;
    }

    /** `nextCard`. */
    method NextCard()
      requires Valid()
      requires currentCardIndex < |Filtered()|
      modifies this`currentCardIndex, this`isFlipped, this`showAnswer
      ensures Valid()
      ensures currentCardIndex == NextIndex(old(currentCardIndex), |Filtered()|)
      ensures currentCardIndex < |Filtered()| && !isFlipped && !showAnswer
    {
      currentCardIndex := NextIndex(currentCardIndex, |Filtered()|);
      isFlipped := false;
      showAnswer := false;
    }

    /** `prevCard`. */
    method PrevCard()
      requires Valid()
      requires currentCardIndex < |Filtered()|
      modifies this`currentCardIndex, this`isFlipped, this`showAnswer
      ensures Valid()
      ensures currentCardIndex == PrevIndex(old(currentCardIndex), |Filtered()|)
      ensures currentCardIndex < |Filtered()| && !isFlipped && !showAnswer
    {
      currentCardIndex := PrevIndex(currentCardIndex, |Filtered()|);
      isFlipped := false;
      showAnswer := false;
    }

    /**
     * `markAnswer(correct)` on the card on screen: one more session attempt
     * (and one more correct answer when `correct`), the same on every card
     * with the current card's id, and an advance scheduled.
     */
    method MarkAnswer(correct: bool, today: string)
      requires Valid()
      requires currentCardIndex < |Filtered()|
      modifies this`cards, this`sessionCorrect, this`sessionTotal, this`pendingAdvances
      ensures Valid()
      ensures sessionTotal == old(sessionTotal) + 1
      ensures sessionCorrect == old(sessionCorrect) + (if correct then 1 else 0)
      ensures cards == MarkedCards(old(cards), old(Filtered())[old(currentCardIndex)].id, correct, today)
      ensures pendingAdvances == old(pendingAdvances) + [|old(Filtered())|]
      ensures AccuracyBounded(old(cards)) ==> AccuracyBounded(cards)
    {
      var n := |Filtered()|;
      var current := Filtered()[currentCardIndex];
      sessionCorrect := sessionCorrect + (if correct then 1 else 0);
      sessionTotal := sessionTotal + 1;
      if AccuracyBounded(cards) {
        MarkKeepsAccuracyBounded(cards, current.id, correct, today);
      }
      cards := MarkedCards(cards, current.id, correct, today);
      pendingAdvances := pendingAdvances + [n];
    }

    /** The oldest scheduled advance runs: `nextCard` with the card count its handler saw. */
    method Tick()
      requires Valid()
      requires pendingAdvances != []
      modifies this`currentCardIndex, this`isFlipped, this`showAnswer, this`pendingAdvances
      ensures Valid()
      ensures currentCardIndex == NextIndex(old(currentCardIndex), old(pendingAdvances)[0])
      ensures !isFlipped && !showAnswer && pendingAdvances == old(pendingAdvances)[1..]
    {
      currentCardIndex := NextIndex(currentCardIndex, pendingAdvances[0]);
      isFlipped := false;
      showAnswer := false;
      pendingAdvances := pendingAdvances[1..];
    }

    /** The Start Study Session and Back to Browse buttons. */
    method SetStudyMode(mode: StudyMode)
      modifies this`studyMode
      ensures studyMode == mode
    {
      studyMode := mode;
    }
  }
}
