// Card rewards: the rarity table chosen by accuracy, the cumulative-chance rarity draw, and the
// granting of a card of that rarity (a new copy or one more of an owned card).

module Cards {
  import opened Wrappers
  import opened Numeric
  import opened Models

  /** One card draw: random.random()'s value and the index random.choice takes (modulo the candidates). */
  datatype Draw = Draw(roll: real, pick: nat)

  /** What award_cards reports of a granted card. */
  datatype CardInfo = CardInfo(name: string, description: string, rarity: string, category: string, imageUrl: Option<string>)

  function TotalChance(table: seq<(string, real)>): real
  {
    if |table| == 0 then 0.0 else table[0].1 + TotalChance(table[1..])
  }

  /** The rarity odds for an accuracy, in the order they are tried; the chances add up to one. */
  function RarityTable(accuracy: int): (table: seq<(string, real)>)
    ensures TotalChance(table) == 1.0
    ensures forall j :: 0 <= j < |table| ==> table[j].1 > 0.0
  {
    if accuracy >= 95 then [("legendary", 0.1), ("epic", 0.3), ("rare", 0.6)]
    else if accuracy >= 85 then [("epic", 0.1), ("rare", 0.4), ("common", 0.5)]
    else if accuracy >= 70 then [("rare", 0.2), ("common", 0.8)]
    else [("common", 1.0)]
  }

  /** The first rarity whose running total (starting from cumulative) reaches the roll; "common" otherwise. */
  function RarityFrom(table: seq<(string, real)>, roll: real, cumulative: real): string
  {
    if |table| == 0 then "common"
    else if roll <= cumulative + table[0].1 then table[0].0
    else RarityFrom(table[1..], roll, cumulative + table[0].1)
  }

  function SelectedRarity(table: seq<(string, real)>, roll: real): string
  {
    RarityFrom(table, roll, 0.0)
  }

  /** Sum of the first k chances. */
  function PrefixChance(table: seq<(string, real)>, k: nat): real
    requires k <= |table|
  {
    if k == 0 then 0.0 else PrefixChance(table, k - 1) + table[k - 1].1
  }

  /** The rarity-selection loop of award_cards. */
  method SelectRarity(table: seq<(string, real)>, roll: real) returns (rarity: string)
    ensures rarity == SelectedRarity(table, roll)
  {
    var cumulative := 0.0;
    rarity := "common";
    var i := 0;
    while i < |table|
      invariant 0 <= i <= |table|
      invariant SelectedRarity(table, roll) == RarityFrom(table[i..], roll, cumulative)
    {
      var (name, chance) := table[i];
      assert table[i..][1..] == table[i + 1..];
      cumulative := cumulative + chance;
      if roll <= cumulative {
        rarity := name;
        return;
      }
      i := i + 1;
    }
  }

  /** Skipping k entries whose running totals stay below the roll leaves the search at entry k. */
  lemma {:induction false} RaritySkip(table: seq<(string, real)>, roll: real, k: nat)
    requires k <= |table|
    requires forall j :: 1 <= j <= k ==> roll > PrefixChance(table, j)
    ensures SelectedRarity(table, roll) == RarityFrom(table[k..], roll, PrefixChance(table, k))
  {
    if k > 0 {
      RaritySkip(table, roll, k - 1);
      assert table[k - 1..][1..] == table[k..];
    }
  }

  /** The selected rarity is that of the first entry whose running total reaches the roll. */
  lemma FirstCoveringRarity(table: seq<(string, real)>, roll: real, i: nat)
    requires i < |table|
    requires roll <= PrefixChance(table, i + 1)
    requires forall j :: 1 <= j <= i ==> roll > PrefixChance(table, j)
    ensures SelectedRarity(table, roll) == table[i].0
  {
    RaritySkip(table, roll, i);
  }

  /** With no running total reaching the roll, the card is common. */
  lemma NoCoveringRarity(table: seq<(string, real)>, roll: real)
    requires forall j :: 1 <= j <= |table| ==> roll > PrefixChance(table, j)
    ensures SelectedRarity(table, roll) == "common"
  {
    RaritySkip(table, roll, |table|);
  }

  /** A perfect workout's roll below one never yields a common card. */
  lemma PerfectNeverCommon(accuracy: int, roll: real)
    requires accuracy >= 95 && roll <= 1.0
    ensures SelectedRarity(RarityTable(accuracy), roll) in {"legendary", "epic", "rare"}
  {
    var t: seq<(string, real)> := [("legendary", 0.1), ("epic", 0.3), ("rare", 0.6)];
    assert RarityTable(accuracy) == t;
    var t1, t2: seq<(string, real)> := [("epic", 0.3), ("rare", 0.6)], [("rare", 0.6)];
    assert t[1..] == t1 && t1[1..] == t2;
    assert RarityFrom(t, roll, 0.0) == if roll <= 0.1 then "legendary" else RarityFrom(t1, roll, 0.1);
    assert RarityFrom(t1, roll, 0.1) == if roll <= 0.4 then "epic" else RarityFrom(t2, roll, 0.4);
    assert RarityFrom(t2, roll, 0.4) == if roll <= 1.0 then "rare" else RarityFrom([], roll, 1.0);
  }

  /** Below 70 every card is common. */
  lemma LowAccuracyAlwaysCommon(accuracy: int, roll: real)
    requires accuracy < 70
    ensures SelectedRarity(RarityTable(accuracy), roll) == "common"
  {
    var t: seq<(string, real)> := [("common", 1.0)];
    assert RarityTable(accuracy) == t;
    assert t[1..] == [];
    assert RarityFrom(t, roll, 0.0) == if roll <= 1.0 then "common" else RarityFrom([], roll, 1.0);
  }

  /** The four rarities: those the odds tables name, and the default. */
  const Rarities: set<string> := {"common", "rare", "epic", "legendary"}

  /** Whatever the roll, the selected rarity is one of the four. */
  lemma SelectedRarityKnown(accuracy: int, roll: real)
    ensures SelectedRarity(RarityTable(accuracy), roll) in Rarities
  {
    RarityFromIn(RarityTable(accuracy), roll, 0.0);
  }

  lemma {:induction false} RarityFromIn(table: seq<(string, real)>, roll: real, cumulative: real)
    requires forall j :: 0 <= j < |table| ==> table[j].0 in Rarities
    ensures RarityFrom(table, roll, cumulative) in Rarities
  {
    if |table| > 0 && roll > cumulative + table[0].1 {
      RarityFromIn(table[1..], roll, cumulative + table[0].1);
    }
  }

  /** The card table has an active card of the rarity, so the query behind random.choice is non-empty. */
  predicate Stocked(cards: seq<Card>, rarity: string)
  {
    exists i :: 0 <= i < |cards| && cards[i].isActive && cards[i].rarity == rarity
  }

  /** The ids of the active cards of a rarity among the first n rows, in table order. */
  function CandidateIds(cards: seq<Card>, rarity: string, n: nat): (ids: seq<int>)
    requires n <= |cards|
    ensures forall j :: 0 <= j < |ids| ==> 1 <= ids[j] <= n && cards[ids[j] - 1].rarity == rarity && cards[ids[j] - 1].isActive
  {
    if n == 0 then []
    else
      CandidateIds(cards, rarity, n - 1) +
        (if cards[n - 1].rarity == rarity && cards[n - 1].isActive then [n] else [])
  }

  /** Every active card of the rarity among the first n rows is a candidate, and the ids ascend. */
  lemma {:induction false} CandidateIdsComplete(cards: seq<Card>, rarity: string, n: nat)
    requires n <= |cards|
    ensures forall i :: 1 <= i <= n && cards[i - 1].rarity == rarity && cards[i - 1].isActive ==>
      i in CandidateIds(cards, rarity, n)
    ensures forall j, k :: 0 <= j < k < |CandidateIds(cards, rarity, n)| ==>
      CandidateIds(cards, rarity, n)[j] < CandidateIds(cards, rarity, n)[k]
  {
    if n > 0 {
      CandidateIdsComplete(cards, rarity, n - 1);
      var prev := CandidateIds(cards, rarity, n - 1);
      var ids := CandidateIds(cards, rarity, n);
      assert ids[..|prev|] == prev;
      forall i | 1 <= i <= n && cards[i - 1].rarity == rarity && cards[i - 1].isActive
        ensures i in ids
      {
        if i < n {
          assert i in prev;
        }
      }
      forall j, k | 0 <= j < k < |ids|
        ensures ids[j] < ids[k]
      {
        if k < |prev| {
          assert ids[j] == prev[j] && ids[k] == prev[k];
        } else {
          assert ids[j] == prev[j] && ids[k] == n;
        }
      }
    }
  }

  /** One more copy of a card: the quantity goes up by one, or a new entry with one copy. */
  function GrantCard(userCards: map<(int, int), UserCard>, userId: int, cardId: int, now: int): (m: map<(int, int), UserCard>)
    ensures (userId, cardId) in m
    ensures m[(userId, cardId)].quantity ==
      (if (userId, cardId) in userCards then userCards[(userId, cardId)].quantity else 0) + 1
    ensures m.Keys == userCards.Keys + {(userId, cardId)}
    ensures forall k :: k in userCards && k != (userId, cardId) ==> m[k] == userCards[k]
  {
    var key := (userId, cardId);
    if key in userCards then userCards[key := userCards[key].(quantity := userCards[key].quantity + 1)]
    else userCards[key := NewUserCard(userId, cardId, now)]
  }

  /** The card a draw grants, if its rarity has active cards. */
  function DrawnCard(cards: seq<Card>, accuracy: int, d: Draw): (id: Option<int>)
    ensures id.Some? ==> (1 <= id.value <= |cards| && cards[id.value - 1].isActive &&
      cards[id.value - 1].rarity == SelectedRarity(RarityTable(accuracy), d.roll))
    ensures id.Some? <==> Stocked(cards, SelectedRarity(RarityTable(accuracy), d.roll))
  {
    var rarity := SelectedRarity(RarityTable(accuracy), d.roll);
    var candidates := CandidateIds(cards, rarity, |cards|);
    CandidateIdsComplete(cards, rarity, |cards|);
    if |candidates| == 0 then
      assert !Stocked(cards, rarity) by {
        forall i | 0 <= i < |cards| && cards[i].isActive
          ensures cards[i].rarity != rarity
        {
          assert cards[i + 1 - 1] == cards[i];
          assert cards[i].rarity == rarity ==> i + 1 in candidates;
        }
      }
      None
    else Some(candidates[d.pick % |candidates|])
  }

  function CardInfoOf(c: Card): CardInfo
  {
    CardInfo(c.name, c.description, c.rarity, c.category, c.imageUrl)
  }

  /** One draw on top of the user's cards and the cards reported so far. */
  function AwardOne(cards: seq<Card>, userId: int, accuracy: int, d: Draw, now: int,
                    prev: (map<(int, int), UserCard>, seq<CardInfo>)): (r: (map<(int, int), UserCard>, seq<CardInfo>))
    ensures r == prev || |r.1| == |prev.1| + 1
  {
    match DrawnCard(cards, accuracy, d)
    case None => prev
    case Some(id) => (GrantCard(prev.0, userId, id, now), prev.1 + [CardInfoOf(cards[id - 1])])
  }

  /**
   * A draw whose selected rarity has no active card changes nothing; otherwise it grants one copy
   * of an active card of that rarity and reports that card.
   */
  lemma AwardOneGrants(cards: seq<Card>, userId: int, accuracy: int, d: Draw, now: int,
                       prev: (map<(int, int), UserCard>, seq<CardInfo>))
    ensures var r := AwardOne(cards, userId, accuracy, d, now, prev);
      var rarity := SelectedRarity(RarityTable(accuracy), d.roll);
      (!Stocked(cards, rarity) ==> r == prev) &&
      (Stocked(cards, rarity) ==>
        exists id :: 1 <= id <= |cards| && cards[id - 1].isActive && cards[id - 1].rarity == rarity &&
          r == (GrantCard(prev.0, userId, id, now), prev.1 + [CardInfoOf(cards[id - 1])]))
  {
    match DrawnCard(cards, accuracy, d)
    case None =>
    case Some(id) =>
      var rarity := SelectedRarity(RarityTable(accuracy), d.roll);
      assert 1 <= id <= |cards| && cards[id - 1].isActive && cards[id - 1].rarity == rarity &&
        AwardOne(cards, userId, accuracy, d, now, prev) ==
          (GrantCard(prev.0, userId, id, now), prev.1 + [CardInfoOf(cards[id - 1])]);
  }

  /** The user's cards and the reported cards after the given draws. */
  function AwardSpec(cards: seq<Card>, userCards: map<(int, int), UserCard>, userId: int, accuracy: int,
                     draws: seq<Draw>, now: int): (r: (map<(int, int), UserCard>, seq<CardInfo>))
    ensures |r.1| <= |draws|
  {
    if |draws| == 0 then (userCards, [])
    else
      AwardOne(cards, userId, accuracy, draws[|draws| - 1], now,
               AwardSpec(cards, userCards, userId, accuracy, draws[..|draws| - 1], now))
  }

  /** The draws up to n + 1 are those up to n followed by draw n. */
  lemma {:induction false} AwardSpecStep(cards: seq<Card>, userCards: map<(int, int), UserCard>, userId: int,
                                         accuracy: int, draws: seq<Draw>, n: nat, now: int)
    requires n < |draws|
    ensures AwardSpec(cards, userCards, userId, accuracy, draws[..n + 1], now) ==
      AwardOne(cards, userId, accuracy, draws[n], now, AwardSpec(cards, userCards, userId, accuracy, draws[..n], now))
  {
    assert draws[..n + 1][..n] == draws[..n];
  }

  /** The last draw reports nothing, or one more card of the rarity its roll selected. */
  lemma AwardSpecLast(cards: seq<Card>, userCards: map<(int, int), UserCard>, userId: int,
                      accuracy: int, draws: seq<Draw>, now: int)
    requires |draws| > 0
    ensures var infos := AwardSpec(cards, userCards, userId, accuracy, draws, now).1;
      var prev := AwardSpec(cards, userCards, userId, accuracy, draws[..|draws| - 1], now).1;
      infos == prev ||
      (infos == prev + [infos[|infos| - 1]] &&
       infos[|infos| - 1].rarity == SelectedRarity(RarityTable(accuracy), draws[|draws| - 1].roll))
  {
  }

  /** With an active card of every rarity, every draw reports a card: one to three for randint's one to three draws. */
  lemma {:induction false} AwardSpecEveryDraw(cards: seq<Card>, userCards: map<(int, int), UserCard>, userId: int,
                                              accuracy: int, draws: seq<Draw>, now: int)
    requires forall rarity :: rarity in Rarities ==> Stocked(cards, rarity)
    ensures |AwardSpec(cards, userCards, userId, accuracy, draws, now).1| == |draws|
  {
    if |draws| > 0 {
      AwardSpecEveryDraw(cards, userCards, userId, accuracy, draws[..|draws| - 1], now);
      SelectedRarityKnown(accuracy, draws[|draws| - 1].roll);
      AwardOneGrants(cards, userId, accuracy, draws[|draws| - 1], now,
                     AwardSpec(cards, userCards, userId, accuracy, draws[..|draws| - 1], now));
    }
  }

  /** The user's copies of a card: its quantity, or 0 without an entry. */
  function Copies(userCards: map<(int, int), UserCard>, key: (int, int)): int
  {
    if key in userCards then userCards[key].quantity else 0
  }

  /** How many of the draws pick the card with this id. */
  function TimesDrawn(cards: seq<Card>, accuracy: int, draws: seq<Draw>, id: int): nat
  {
    if |draws| == 0 then 0
    else
      var last := if DrawnCard(cards, accuracy, draws[|draws| - 1]) == Some(id) then 1 else 0;
      TimesDrawn(cards, accuracy, draws[..|draws| - 1], id) + last
  }

  /** Each card's copies rise by the number of draws that picked it. */
  lemma {:induction false} AwardSpecCopies(cards: seq<Card>, userCards: map<(int, int), UserCard>, userId: int,
                                           accuracy: int, draws: seq<Draw>, now: int, id: int)
    ensures Copies(AwardSpec(cards, userCards, userId, accuracy, draws, now).0, (userId, id)) ==
      Copies(userCards, (userId, id)) + TimesDrawn(cards, accuracy, draws, id)
  {
    if |draws| > 0 {
      var init := draws[..|draws| - 1];
      AwardSpecCopies(cards, userCards, userId, accuracy, init, now, id);
      var prev := AwardSpec(cards, userCards, userId, accuracy, init, now);
      match DrawnCard(cards, accuracy, draws[|draws| - 1])
      case None =>
      case Some(drawn) =>
        var m := GrantCard(prev.0, userId, drawn, now);
        assert Copies(m, (userId, id)) == Copies(prev.0, (userId, id)) + (if drawn == id then 1 else 0);
    }
  }

  /** Every other user's entries stay as they were, and no entry of theirs is added. */
  lemma {:induction false} AwardSpecOtherUsers(cards: seq<Card>, userCards: map<(int, int), UserCard>, userId: int,
                                               accuracy: int, draws: seq<Draw>, now: int)
    ensures var m := AwardSpec(cards, userCards, userId, accuracy, draws, now).0;
      forall k :: k in m && k.0 != userId ==> k in userCards && m[k] == userCards[k]
  {
    if |draws| > 0 {
      AwardSpecOtherUsers(cards, userCards, userId, accuracy, draws[..|draws| - 1], now);
    }
  }

  /** The rarities an accuracy allows: never common for a perfect workout, only common below 70. */
  predicate RarityAllowed(accuracy: int, rarity: string)
  {
    (accuracy >= 95 ==> rarity != "common") && (accuracy < 70 ==> rarity == "common")
  }

  /** Every reported card has the rarity its roll selected, so one the accuracy allows. */
  lemma {:induction false} AwardedCardsRarity(cards: seq<Card>, userCards: map<(int, int), UserCard>, userId: int,
                                              accuracy: int, draws: seq<Draw>, now: int)
    requires forall j :: 0 <= j < |draws| ==> draws[j].roll <= 1.0
    ensures var infos := AwardSpec(cards, userCards, userId, accuracy, draws, now).1;
      forall j :: 0 <= j < |infos| ==> RarityAllowed(accuracy, infos[j].rarity)
  {
    if |draws| > 0 {
      var init := draws[..|draws| - 1];
      AwardedCardsRarity(cards, userCards, userId, accuracy, init, now);
      var d := draws[|draws| - 1];
      if accuracy >= 95 {
        PerfectNeverCommon(accuracy, d.roll);
      } else if accuracy < 70 {
        LowAccuracyAlwaysCommon(accuracy, d.roll);
      }
      assert RarityAllowed(accuracy, SelectedRarity(RarityTable(accuracy), d.roll));
      AwardSpecLast(cards, userCards, userId, accuracy, draws, now);
    }
  }

  /** Granting keeps every entry keyed by its own user and card, with at least one copy, of an existing card. */
  predicate CardsWellFormed(userCards: map<(int, int), UserCard>, cardCount: int)
  {
    forall k :: k in userCards ==>
      userCards[k].userId == k.0 && userCards[k].cardId == k.1 && userCards[k].quantity >= 1 && 1 <= k.1 <= cardCount
  }

  /** More card rows keep every entry pointing at an existing card. */
  lemma CardsWellFormedGrow(userCards: map<(int, int), UserCard>, cardCount: int, newCount: int)
    requires CardsWellFormed(userCards, cardCount) && cardCount <= newCount
    ensures CardsWellFormed(userCards, newCount)
  {
  }

  lemma {:induction false} AwardKeepsCardsWellFormed(cards: seq<Card>, userCards: map<(int, int), UserCard>, userId: int,
                                                     accuracy: int, draws: seq<Draw>, now: int)
    requires CardsWellFormed(userCards, |cards|)
    ensures CardsWellFormed(AwardSpec(cards, userCards, userId, accuracy, draws, now).0, |cards|)
  {
    if |draws| > 0 {
      AwardKeepsCardsWellFormed(cards, userCards, userId, accuracy, draws[..|draws| - 1], now);
    }
  }
}
