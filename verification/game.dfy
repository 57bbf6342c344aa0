/**
 * The combined game app: a role chosen at setup, an hour of hiding counted
 * down, the hunt counted up, the seekers' question cards counted per type,
 * the hider's hand, and the final score.
 */
module Game {
  import opened Wrappers
  import opened Cards

  datatype Phase = Setup | Hiding | Hunting | Finished

  /** The seekers' card types in this app. */
  datatype CardType = Matching | Measuring | Radar | Thermometer | Photo

  /** The cards of each type the seekers start with. */
  function StartingCards(): (cards: map<CardType, int>)
    ensures forall t: CardType :: t in cards && cards[t] > 0
    ensures cards[Matching] == 3 && cards[Measuring] == 3
    ensures cards[Radar] == 2 && cards[Thermometer] == 2 && cards[Photo] == 1
  {
    var cards := map[Matching := 3, Measuring := 3, Radar := 2, Thermometer := 2, Photo := 1];
    assert forall t: CardType :: t in cards by {
      forall t: CardType ensures t in cards {
        assert t.Matching? || t.Measuring? || t.Radar? || t.Thermometer? || t.Photo?;
      }
    }
    cards
  }

  /** The hiding time, in seconds. */
  const HidingTime: nat := 60 * 60

  /**
   * One second of the hiding countdown. The countdown runs only while
   * hiding with time left; the last second switches to the hunt.
   */
  function HidingStep(phase: Phase, left: nat): (r: (Phase, nat))
    ensures phase == Hiding && left > 0 ==>
      r.1 == left - 1 && (r.1 == 0 ==> r.0 == Hunting) && (r.1 > 0 ==> r.0 == Hiding)
    ensures !(phase == Hiding && left > 0) ==> r == (phase, left)
  {
    if phase == Hiding && left > 0 then
      if left <= 1 then (Hunting, 0) else (Hiding, left - 1)
    else (phase, left)
  }

  /** `k` seconds of the hiding countdown. */
  function HidingSteps(phase: Phase, left: nat, k: nat): (Phase, nat)
    decreases k
  {
    if k == 0 then (phase, left)
    else
      var (p, l) := HidingStep(phase, left);
      HidingSteps(p, l, k - 1)
  }

  /**
   * From `left` seconds of hiding, the countdown stays in the hiding phase
   * for `left - 1` seconds and the hunt begins on second `left`, with the
   * countdown at zero; after that nothing changes.
   */
  lemma {:induction false} HidingCountdown(left: nat, k: nat)
    requires left > 0
    ensures k < left ==> HidingSteps(Hiding, left, k) == (Hiding, left - k)
    ensures k >= left ==> HidingSteps(Hiding, left, k) == (Hunting, 0)
  {
    if k > 0 {
      if left == 1 {
        HuntingIsStable(k - 1);
      } else {
        HidingCountdown(left - 1, k - 1);
      }
    }
  }

  /** Once hunting, the hiding countdown leaves the state alone. */
  lemma {:induction false} HuntingIsStable(k: nat)
    ensures HidingSteps(Hunting, 0, k) == (Hunting, 0)
  {
    if k > 0 {
      HuntingIsStable(k - 1);
    }
  }

  /** The hunt begins exactly one hour after hiding starts. */
  lemma HourOfHiding()
    ensures HidingSteps(Hiding, HidingTime, HidingTime - 1) == (Hiding, 1)
    ensures HidingSteps(Hiding, HidingTime, HidingTime) == (Hunting, 0)
  {
    HidingCountdown(HidingTime, HidingTime - 1);
    HidingCountdown(HidingTime, HidingTime);
  }

  /** What the game's dialog shows: `modalContent`. */
  datatype Dialog =
    | NoDialog
    | QuestionInput(qtype: CardType)
    | QuestionResult(qtype: CardType)
    | GameOver(huntingTime: nat, timeBonus: nat, totalScore: nat)

  class GameApp {
    var phase: Phase
    /** "", "hider" or "seeker", as chosen in the setup form. */
    var role: string
    var seekerCards: map<CardType, int>
    var hand: seq<Card>
    var hidingTimeLeft: nat
    var huntingTime: nat
    var showModal: bool
    var dialog: Dialog

    /** Every card type has a counter and the hand never exceeds its limit. */
    ghost predicate Valid()
      reads this
    {
      (forall t: CardType :: t in seekerCards) && |hand| <= MaxHand
    }

    constructor()
      ensures Valid()
      ensures phase == Setup && role == "" && seekerCards == StartingCards() && hand == []
      ensures hidingTimeLeft == HidingTime && huntingTime == 0 && !showModal && dialog == NoDialog
    {
      phase, role, seekerCards, hand := Setup, "", StartingCards(), [];
      hidingTimeLeft, huntingTime, showModal, dialog := HidingTime, 0, false, NoDialog;
    }

    /** The role selector of the setup form. */
    method ChooseRole(r: string)
      requires Valid()
      modifies this
      ensures Valid()
      ensures role == r
      ensures phase == old(phase) && seekerCards == old(seekerCards) && hand == old(hand)
      ensures hidingTimeLeft == old(hidingTimeLeft) && huntingTime == old(huntingTime)
      ensures showModal == old(showModal) && dialog == old(dialog)
    {
      role := r;
    }

    /** Without a role the game stays at setup; otherwise hiding begins. */
    method StartGame()
      requires Valid()
      modifies this
      ensures Valid()
      ensures phase == if role == "" then old(phase) else Hiding
      ensures role == old(role) && seekerCards == old(seekerCards) && hand == old(hand)
      ensures hidingTimeLeft == old(hidingTimeLeft) && huntingTime == old(huntingTime)
      ensures showModal == old(showModal) && dialog == old(dialog)
    {
      if role == "" {
        return;
      }
      phase := Hiding;
    }

    /** One second of the hiding timer. */
    method HidingTick()
      requires Valid()
      modifies this
      ensures Valid()
      ensures (phase, hidingTimeLeft) == HidingStep(old(phase), old(hidingTimeLeft))
      ensures role == old(role) && seekerCards == old(seekerCards) && hand == old(hand)
      ensures huntingTime == old(huntingTime) && showModal == old(showModal) && dialog == old(dialog)
    {
      if phase == Hiding && hidingTimeLeft > 0 {
        if hidingTimeLeft <= 1 {
          phase := Hunting;
          hidingTimeLeft := 0;
        } else {
          hidingTimeLeft := hidingTimeLeft - 1;
        }
      }
    }

    /** One second of the hunting timer: it counts only while hunting. */
    method HuntingTick()
      requires Valid()
      modifies this
      ensures Valid()
      ensures huntingTime == old(huntingTime) + (if old(phase) == Hunting then 1 else 0)
      ensures phase == old(phase) && role == old(role) && seekerCards == old(seekerCards) && hand == old(hand)
      ensures hidingTimeLeft == old(hidingTimeLeft) && showModal == old(showModal) && dialog == old(dialog)
    {
      if phase == Hunting {
        huntingTime := huntingTime + 1;
      }
    }

    /** Opens the question form, only for a seeker with a card of that type left. */
    method UseQuestion(t: CardType)
      requires Valid()
      modifies this
      ensures Valid()
      ensures role == "seeker" && old(seekerCards[t]) > 0 ==> showModal && dialog == QuestionInput(t)
      ensures !(role == "seeker" && old(seekerCards[t]) > 0) ==> showModal == old(showModal) && dialog == old(dialog)
      ensures phase == old(phase) && role == old(role) && seekerCards == old(seekerCards) && hand == old(hand)
      ensures hidingTimeLeft == old(hidingTimeLeft) && huntingTime == old(huntingTime)
    {
      if role != "seeker" || seekerCards[t] <= 0 {
        return;
      }
      showModal := true;
      dialog := QuestionInput(t);
    }

    /**
     * Spends a card of type `t` and shows the result. On the hider's device
     * the hider then draws `drawn`, stamped `id`.
     */
    method SubmitQuestion(t: CardType, drawn: string, id: int)
      requires Valid()
      modifies this
      ensures Valid()
      ensures seekerCards == old(seekerCards)[t := old(seekerCards[t]) - 1]
      ensures forall u: CardType :: u != t ==> seekerCards[u] == old(seekerCards[u])
      ensures dialog == QuestionResult(t)
      ensures role == "hider" && |old(hand)| < MaxHand ==> hand == old(hand) + [Card(id, drawn)]
      ensures !(role == "hider" && |old(hand)| < MaxHand) ==> hand == old(hand)
      ensures phase == old(phase) && role == old(role) && showModal == old(showModal)
      ensures hidingTimeLeft == old(hidingTimeLeft) && huntingTime == old(huntingTime)
    {
      seekerCards := seekerCards[t := seekerCards[t] - 1];
      dialog := QuestionResult(t);
      if role == "hider" {
        DrawHiderCard(drawn, id);
      }
    }

    /** Adds the drawn card unless the hand is full. */
    method DrawHiderCard(drawn: string, id: int)
      requires Valid()
      modifies this
      ensures Valid()
      ensures |old(hand)| >= MaxHand ==> hand == old(hand)
      ensures |old(hand)| < MaxHand ==> hand == old(hand) + [Card(id, drawn)]
      ensures phase == old(phase) && role == old(role) && seekerCards == old(seekerCards)
      ensures hidingTimeLeft == old(hidingTimeLeft) && huntingTime == old(huntingTime)
      ensures showModal == old(showModal) && dialog == old(dialog)
    {
      if |hand| >= MaxHand {
        return;
      }
      hand := hand + [Card(id, drawn)];
    }

    /** Discards every card with the given id; the others keep their order. */
    method DiscardCard(id: int)
      requires Valid()
      modifies this
      ensures Valid()
      ensures hand == WithoutId(old(hand), id)
      ensures phase == old(phase) && role == old(role) && seekerCards == old(seekerCards)
      ensures hidingTimeLeft == old(hidingTimeLeft) && huntingTime == old(huntingTime)
      ensures showModal == old(showModal) && dialog == old(dialog)
    {
      hand := WithoutId(hand, id);
    }

    /**
     * Plays a veto: without a veto card nothing changes; otherwise the cards
     * sharing the first veto card's id leave the hand and the dialog closes.
     */
    method PlayVeto()
      requires Valid()
      modifies this
      ensures Valid()
      ensures FindVeto(old(hand)).None? ==> hand == old(hand) && showModal == old(showModal)
      ensures FindVeto(old(hand)).Some? ==> hand == WithoutId(old(hand), FindVeto(old(hand)).value.id) && !showModal
      ensures |hand| <= |old(hand)|
      ensures phase == old(phase) && role == old(role) && seekerCards == old(seekerCards)
      ensures hidingTimeLeft == old(hidingTimeLeft) && huntingTime == old(huntingTime) && dialog == old(dialog)
    {
      var veto := FindVeto(hand);
      if veto.None? {
        return;
      }
      hand := WithoutId(hand, veto.value.id);
      showModal := false;
    }

    /** Ends the game: the score is the hunting time plus the hand's time bonus. */
    method EndGame()
      requires Valid()
      modifies this
      ensures Valid()
      ensures phase == Finished && showModal
      ensures dialog == GameOver(huntingTime, TimeBonus(hand), huntingTime + TimeBonus(hand))
      ensures dialog.totalScore == FinalScore(huntingTime, hand).totalScore
      ensures role == old(role) && seekerCards == old(seekerCards) && hand == old(hand)
      ensures hidingTimeLeft == old(hidingTimeLeft) && huntingTime == old(huntingTime)
    {
      var timeBonus := TimeBonus(hand);
      dialog := GameOver(huntingTime, timeBonus, huntingTime + timeBonus);
      showModal := true;
      phase := Finished;
    }
  }
}
