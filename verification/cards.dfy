/**
 * The hider's cards, shared by the hider app and the game app: the hand
 * limit, discarding by id, finding a veto, and the time bonus that the
 * "Time +" cards add to the final score.
 */
module Cards {
  import opened Wrappers
  import opened Text

  /** A card in the hider's hand; the id is the time stamp it was drawn at. */
  datatype Card = Card(id: int, kind: string)

  /** The hand holds at most this many cards. */
  const MaxHand: nat := 6

  /** The kinds a drawn card can have. */
  const Deck: seq<string> := ["Veto", "Time +5min", "Time +10min", "Time +15min", "Time +20min", "Duplicate"]

  predicate IsTimeCard(c: Card) {
    StartsWith(c.kind, "Time +")
  }

  /** The minutes a card names: the first run of digits in its kind (none counts as 0). */
  function Minutes(c: Card): (n: nat)
    ensures FirstDigitRun(c.kind) == [] ==> n == 0
  {
    DigitsValue(FirstDigitRun(c.kind))
  }

  /** What one card adds to the bonus, in seconds. */
  function Worth(c: Card): nat {
    if IsTimeCard(c) then Minutes(c) * 60 else 0
  }

  /**
   * The time bonus in seconds, as `calculateFinalScore` and `endGame` sum it:
   * 60 seconds per minute of every time card, left to right.
   */
  function TimeBonus(hand: seq<Card>): (b: nat)
    ensures (forall i :: 0 <= i < |hand| ==> !IsTimeCard(hand[i])) ==> b == 0
  {
    if hand == [] then 0
    else
      TimeBonus(hand[..|hand| - 1]) + Worth(hand[|hand| - 1])
  }

  /**
   * The minutes shown in the hider's score preview: none exactly when every
   * card is either not a time card or names no minutes.
   */
  function BonusMinutes(hand: seq<Card>): (n: nat)
    ensures n == 0 <==> forall i :: 0 <= i < |hand| ==> !IsTimeCard(hand[i]) || Minutes(hand[i]) == 0
  {
    if hand == [] then 0
    else
      var c := hand[|hand| - 1];
      BonusMinutes(hand[..|hand| - 1]) + (if IsTimeCard(c) then Minutes(c) else 0)
  }

  /** The preview's minutes, in seconds, are the bonus the final score adds. */
  lemma {:induction false} PreviewMatchesBonus(hand: seq<Card>)
    ensures TimeBonus(hand) == 60 * BonusMinutes(hand)
  {
    if hand != [] {
      PreviewMatchesBonus(hand[..|hand| - 1]);
    }
  }

  /** The bonus is the sum of what each card adds. */
  lemma {:induction false} BonusOfConcat(a: seq<Card>, b: seq<Card>)
    ensures TimeBonus(a + b) == TimeBonus(a) + TimeBonus(b)
    decreases |b|
  {
    if b == [] {
      assert a + b == a;
    } else {
      BonusOfConcat(a, b[..|b| - 1]);
      assert (a + b)[..|a + b| - 1] == a + b[..|b| - 1];
    }
  }

  /** A single card adds what it is worth. */
  lemma BonusOfOne(x: Card)
    ensures TimeBonus([x]) == Worth(x)
  {
    assert [x][..0] == [];
  }

  /** Taking one card out of a hand lowers the bonus by what that card adds. */
  lemma BonusWithout(p: seq<Card>, x: Card, r: seq<Card>)
    ensures TimeBonus(p + [x] + r) == Worth(x) + TimeBonus(p + r)
  {
    BonusOfConcat(p + [x], r);
    BonusOfConcat(p, [x]);
    BonusOfOne(x);
    BonusOfConcat(p, r);
  }

  /** The bonus does not depend on the order of the hand. */
  lemma {:induction false} BonusIgnoresOrder(a: seq<Card>, b: seq<Card>)
    requires multiset(a) == multiset(b)
    ensures TimeBonus(a) == TimeBonus(b)
    decreases |a|
  {
    if a != [] {
      var x := a[|a| - 1];
      assert x in multiset(b);
      var i :| 0 <= i < |b| && b[i] == x;
      var a', b' := a[..|a| - 1], b[..i] + b[i + 1..];
      assert a == a' + [x];
      assert b == b[..i] + [x] + b[i + 1..];
      assert multiset(a) == multiset(a') + multiset{x};
      assert multiset(b) == multiset(b[..i]) + multiset{x} + multiset(b[i + 1..]);
      assert multiset(b') == multiset(b[..i]) + multiset(b[i + 1..]);
      assert multiset(a') == multiset(a) - multiset{x};
      assert multiset(b') == multiset(b) - multiset{x};
      BonusIgnoresOrder(a', b');
      BonusWithout(b[..i], x, b[i + 1..]);
      BonusOfConcat(a', [x]);
    } else {
      assert b == [];
    }
  }

  /** `hand.filter(card => card.id !== id)`. */
  function WithoutId(hand: seq<Card>, id: int): (r: seq<Card>)
    ensures |r| <= |hand|
    ensures forall c :: c in r ==> c in hand && c.id != id
  {
    if hand == [] then []
    else
      var rest := WithoutId(hand[1..], id);
      if hand[0].id == id then rest else [hand[0]] + rest
  }

  /** Every card of another id is kept as many times as the hand holds it; none of that id is. */
  lemma {:induction false} WithoutIdCounts(hand: seq<Card>, id: int, c: Card)
    ensures multiset(WithoutId(hand, id))[c] == if c.id == id then 0 else multiset(hand)[c]
  {
    if hand != [] {
      WithoutIdCounts(hand[1..], id, c);
      assert hand == [hand[0]] + hand[1..];
      assert multiset(hand) == multiset{hand[0]} + multiset(hand[1..]);
    }
  }

  /** Filtering keeps the order: it works piece by piece on a split hand. */
  lemma {:induction false} WithoutIdConcat(a: seq<Card>, b: seq<Card>, id: int)
    ensures WithoutId(a + b, id) == WithoutId(a, id) + WithoutId(b, id)
  {
    if a != [] {
      WithoutIdConcat(a[1..], b, id);
      assert (a + b)[0] == a[0];
      assert (a + b)[1..] == a[1..] + b;
      var rest := WithoutId(a[1..], id);
      assert WithoutId(a, id) == if a[0].id == id then rest else [a[0]] + rest;
    } else {
      assert a + b == b;
    }
  }

  /** A hand with no card of that id is left as it is. */
  lemma {:induction false} WithoutAbsentId(hand: seq<Card>, id: int)
    requires forall c :: c in hand ==> c.id != id
    ensures WithoutId(hand, id) == hand
  {
    if hand != [] {
      WithoutAbsentId(hand[1..], id);
      assert hand == [hand[0]] + hand[1..];
    }
  }

  /** `hand.find(card => card.type === 'Veto')`: the first veto card. */
  function FindVeto(hand: seq<Card>): (r: Option<Card>)
    ensures r.None? <==> forall i :: 0 <= i < |hand| ==> hand[i].kind != "Veto"
    ensures r.Some? ==> exists i :: 0 <= i < |hand| && hand[i] == r.value && r.value.kind == "Veto" &&
                                    forall j :: 0 <= j < i ==> hand[j].kind != "Veto"
  {
    if hand == [] then None
    else if hand[0].kind == "Veto" then Some(hand[0])
    else
      var r := FindVeto(hand[1..]);
      assert forall i :: 1 <= i < |hand| ==> hand[i] == hand[1..][i - 1];
      if r.Some? then
        var i :| 0 <= i < |hand[1..]| && hand[1..][i] == r.value && r.value.kind == "Veto" &&
                 forall j :: 0 <= j < i ==> hand[1..][j].kind != "Veto";
        assert hand[i + 1] == r.value;
        r
      else r
  }

  /** The result of `calculateFinalScore`. */
  datatype Score = Score(huntingTime: nat, timeBonus: nat, totalScore: nat)

  /**
   * The final score: the time survived plus the hand's time bonus, which is
   * the preview's minutes in seconds.
   */
  function FinalScore(time: nat, hand: seq<Card>): (s: Score)
    ensures s.huntingTime == time
    ensures s.timeBonus == 60 * BonusMinutes(hand)
    ensures s.totalScore == s.huntingTime + s.timeBonus
  {
    PreviewMatchesBonus(hand);
    Score(time, TimeBonus(hand), time + TimeBonus(hand))
  }

  /** A card "Time +n" followed by a unit is a time card worth n minutes. */
  lemma TimeCardMinutes(id: int, n: nat, unit: string)
    requires unit == [] || !IsDigit(unit[0])
    ensures var c := Card(id, "Time +" + NatToString(n) + unit);
      IsTimeCard(c) && Minutes(c) == n && Worth(c) == 60 * n
  {
    var d := NatToString(n);
    var kind := "Time +" + d + unit;
    assert kind[..6] == "Time +";
    assert kind == "Time +" + (d + unit);
    FirstDigitRunAfter("Time +", d + unit);
    DigitPrefixOfDigits(d, unit);
    NatToStringRoundTrip(n);
  }

  /** The kinds in the deck, spelled through the digits of their minutes. */
  lemma DeckSpellings()
    ensures Deck[1] == "Time +" + NatToString(5) + "min"
    ensures Deck[2] == "Time +" + NatToString(10) + "min"
    ensures Deck[3] == "Time +" + NatToString(15) + "min"
    ensures Deck[4] == "Time +" + NatToString(20) + "min"
  {
  }

  /** Veto and Duplicate are not time cards and add nothing. */
  lemma OtherCardsWorthNothing(id: int)
    ensures !IsTimeCard(Card(id, Deck[0])) && Worth(Card(id, Deck[0])) == 0
    ensures !IsTimeCard(Card(id, Deck[5])) && Worth(Card(id, Deck[5])) == 0
  {
    assert Deck[0][..4][0] == 'V' && Deck[5][..6][0] == 'D';
  }

  /** Veto and Duplicate add nothing; the time cards add 5, 10, 15 and 20 minutes. */
  lemma DeckWorth(id: int)
    ensures Worth(Card(id, Deck[0])) == 0 && Worth(Card(id, Deck[5])) == 0
    ensures Worth(Card(id, Deck[1])) == 300 && Worth(Card(id, Deck[2])) == 600
    ensures Worth(Card(id, Deck[3])) == 900 && Worth(Card(id, Deck[4])) == 1200
  {
    OtherCardsWorthNothing(id);
    DeckSpellings();
    TimeCardMinutes(id, 5, "min");
    TimeCardMinutes(id, 10, "min");
    TimeCardMinutes(id, 15, "min");
    TimeCardMinutes(id, 20, "min");
  }
}
