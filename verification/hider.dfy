/**
 * The hider app: a running game clock, the hand of cards drawn for each
 * answered question, the answer history and the final score.
 */
module Hider {
  import opened Wrappers
  import opened Clock
  import opened Cards

  /**
   * One answered question: its type, the card drawn for it, and the game
   * clock when it was answered, kept in seconds; the history shows it as
   * `FormatTime(time)`, which determines the seconds and is determined by them.
   */
  datatype Entry = Entry(questionType: string, card: string, time: nat) {
    function Shown(): (r: string)
      ensures ReadTime(r) == Some(time)
    {
      FormatTimeRoundTrip(time);
      FormatTime(time)
    }
  }

  class HiderApp {
    var gameStarted: bool
    var hand: seq<Card>
    var answeredCount: nat
    var gameTime: nat
    var timerRunning: bool
    var history: seq<Entry>
    var showModal: bool
    var showScoreModal: bool

    /** The hand never exceeds its limit, and each answered question left one history entry. */
    ghost predicate Valid()
      reads this
    {
      |hand| <= MaxHand && |history| == answeredCount
    }

    constructor()
      ensures Valid()
      ensures !gameStarted && !timerRunning && !showModal && !showScoreModal
      ensures hand == [] && answeredCount == 0 && gameTime == 0 && history == []
    {
      gameStarted, timerRunning, showModal, showScoreModal := false, false, false, false;
      hand, answeredCount, gameTime, history := [], 0, 0, [];
    }

    method StartGame()
      requires Valid()
      modifies this
      ensures Valid()
      ensures gameStarted && timerRunning
      ensures hand == old(hand) && answeredCount == old(answeredCount) && gameTime == old(gameTime)
      ensures history == old(history) && showModal == old(showModal) && showScoreModal == old(showScoreModal)
    {
      gameStarted, timerRunning := true, true;
    }

    /** One second of the game clock: it advances only while the game is on and the timer runs. */
    method Tick()
      requires Valid()
      modifies this
      ensures Valid()
      ensures gameTime == old(gameTime) + (if old(timerRunning) && old(gameStarted) then 1 else 0)
      ensures gameStarted == old(gameStarted) && timerRunning == old(timerRunning)
      ensures hand == old(hand) && answeredCount == old(answeredCount)
      ensures history == old(history) && showModal == old(showModal) && showScoreModal == old(showScoreModal)
    {
      if timerRunning && gameStarted {
        gameTime := gameTime + 1;
      }
    }

    /** The pause/resume button. */
    method ToggleTimer()
      requires Valid()
      modifies this
      ensures Valid()
      ensures timerRunning == !old(timerRunning)
      ensures gameStarted == old(gameStarted) && gameTime == old(gameTime)
      ensures hand == old(hand) && answeredCount == old(answeredCount)
      ensures history == old(history) && showModal == old(showModal) && showScoreModal == old(showScoreModal)
    {
      timerRunning := !timerRunning;
    }

    /**
     * Answers a question of the given type; `drawn` is the randomly drawn
     * card kind and `id` its time stamp. A full hand does not take the card,
     * but the question is counted and recorded either way.
     */
    method AnswerQuestion(questionType: string, drawn: string, id: int)
      requires Valid()
      modifies this
      ensures Valid()
      ensures |old(hand)| >= MaxHand ==> hand == old(hand)
      ensures |old(hand)| < MaxHand ==> hand == old(hand) + [Card(id, drawn)]
      ensures answeredCount == old(answeredCount) + 1
      ensures history == old(history) + [Entry(questionType, drawn, old(gameTime))]
      ensures !showModal
      ensures gameStarted == old(gameStarted) && timerRunning == old(timerRunning) && gameTime == old(gameTime)
      ensures showScoreModal == old(showScoreModal)
    {
      var entry := Entry(questionType, drawn, gameTime);
      showModal := false;
      if |hand| < MaxHand {
        hand := hand + [Card(id, drawn)];
      }
      answeredCount := answeredCount + 1;
      history := history + [entry];
    }

    /** Discards every card with the given id; the others keep their order. */
    method DiscardCard(id: int)
      requires Valid()
      modifies this
      ensures Valid()
      ensures hand == WithoutId(old(hand), id)
      ensures gameStarted == old(gameStarted) && timerRunning == old(timerRunning) && gameTime == old(gameTime)
      ensures answeredCount == old(answeredCount) && history == old(history)
      ensures showModal == old(showModal) && showScoreModal == old(showScoreModal)
    {
      hand := WithoutId(hand, id);
    }

    /**
     * `calculateFinalScore`: the clock's time, the bonus the score preview
     * shows (in seconds), and their sum.
     */
    function CalculateFinalScore(): (s: Score)
      reads this
      ensures s.huntingTime == gameTime
      ensures s.timeBonus == 60 * BonusMinutes(hand)
      ensures s.totalScore == gameTime + s.timeBonus
    {
      FinalScore(gameTime, hand)
    }

    /** "I've been caught": the clock stops and the score is shown. */
    method Caught()
      requires Valid()
      modifies this
      ensures Valid()
      ensures !timerRunning && showScoreModal
      ensures gameStarted == old(gameStarted) && gameTime == old(gameTime) && hand == old(hand)
      ensures answeredCount == old(answeredCount) && history == old(history) && showModal == old(showModal)
    {
      timerRunning := false;
      showScoreModal := true;
    }

    /** Starts over, once confirmed. */
    method ResetGame()
      modifies this
      ensures Valid()
      ensures !gameStarted && !timerRunning && gameTime == 0 && hand == []
      ensures answeredCount == 0 && history == []
      ensures showModal == old(showModal) && showScoreModal == old(showScoreModal)
    {
      gameStarted, timerRunning, gameTime := false, false, 0;
      hand, answeredCount, history := [], 0, [];
    }
  }
}
