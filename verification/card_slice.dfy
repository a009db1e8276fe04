/** The cards slice of the store (src/store/features/cards/cardSlice.ts). */
module CardSlice {
  import opened Wrappers
  import opened Seqs
  import opened KanbanTypes

  function Assign(changes: CardChanges): Card -> Card {
    c => AssignCard(c, changes)
  }

  /** `updateCard`: the first card with `id` takes the changes; all others are untouched. */
  function UpdatedCard(cards: seq<Card>, id: string, changes: CardChanges): (r: seq<Card>)
    ensures |r| == |cards|
    ensures FirstIndex(cards, CardKey, id).None? ==> r == cards
    ensures FirstIndex(cards, CardKey, id).Some? ==>
      var i := FirstIndex(cards, CardKey, id).value;
      r[i] == AssignCard(cards[i], changes) && forall j :: 0 <= j < |cards| && j != i ==> r[j] == cards[j]
    ensures forall j :: 0 <= j < |r| ==> r[j].id == cards[j].id
  {
    UpdateFirst(cards, CardKey, id, Assign(changes))
  }

  /** The predicate `card => card.id !== cardId`. */
  function OtherCard(cardId: string): Card -> bool {
    (c: Card) => c.id != cardId
  }

  /** `deleteCard`: exactly the cards with `cardId` go; every other card stays, as often as before. */
  function WithoutCard(cards: seq<Card>, cardId: string): (r: seq<Card>)
    ensures forall c :: c in r <==> c in cards && c.id != cardId
    ensures forall c: Card :: c.id != cardId ==> multiset(r)[c] == multiset(cards)[c]
  {
    var keep := OtherCard(cardId);
    FilterCount(cards, keep);
    Filter(cards, keep)
  }

  /**
   * `deleteCard` keeps the surviving cards in their order: it distributes over
   * concatenation, drops a lone card with `cardId` and keeps any other.
   */
  lemma WithoutCardKeepsOrder(a: seq<Card>, b: seq<Card>, cardId: string, c: Card)
    ensures WithoutCard(a + b, cardId) == WithoutCard(a, cardId) + WithoutCard(b, cardId)
    ensures WithoutCard([c], cardId) == if c.id == cardId then [] else [c]
  {
    FilterConcat(a, b, OtherCard(cardId));
    FilterSingleton(c, OtherCard(cardId));
  }

  /** The predicate `card => !cardIds.includes(card.id)`. */
  function Unlisted(cardIds: seq<string>): Card -> bool {
    (c: Card) => c.id !in cardIds
  }

  /** `deleteCardsByIds`: exactly the cards whose id is listed go; the others stay, as often as before. */
  function WithoutCards(cards: seq<Card>, cardIds: seq<string>): (r: seq<Card>)
    ensures forall c :: c in r <==> c in cards && c.id !in cardIds
    ensures forall c: Card :: c.id !in cardIds ==> multiset(r)[c] == multiset(cards)[c]
    ensures cardIds == [] ==> r == cards
  {
    var keep := Unlisted(cardIds);
    FilterCount(cards, keep);
    if cardIds == [] then FilterKeepsAll(cards, keep); Filter(cards, keep)
    else Filter(cards, keep)
  }

  /**
   * `deleteCardsByIds` keeps the surviving cards in their order: it distributes over
   * concatenation, drops a lone listed card and keeps any other.
   */
  lemma WithoutCardsKeepsOrder(a: seq<Card>, b: seq<Card>, cardIds: seq<string>, c: Card)
    ensures WithoutCards(a + b, cardIds) == WithoutCards(a, cardIds) + WithoutCards(b, cardIds)
    ensures WithoutCards([c], cardIds) == if c.id in cardIds then [] else [c]
  {
    FilterConcat(a, b, Unlisted(cardIds));
    FilterSingleton(c, Unlisted(cardIds));
  }

  /** Whether `toggleSubtaskDone` acts on card `c`: it has subtasks and `index` names one. */
  predicate HasSubtask(c: Card, index: int) {
    c.subTasks.Some? && 0 <= index < |c.subTasks.value|
  }

  function ToggleSubtask(index: int): Card -> Card {
    (c: Card) =>
      if HasSubtask(c, index) then
        var st := c.subTasks.value;
        c.(subTasks := Some(st[index := st[index].(done := !st[index].done)]))
      else c
  }

  /**
   * `toggleSubtaskDone`: flips `done` of subtask `index` of the first card with
   * `cardId`, only when that card has such a subtask; nothing else changes.
   */
  function ToggledSubtask(cards: seq<Card>, cardId: string, index: int): (r: seq<Card>)
    ensures |r| == |cards|
    ensures FirstIndex(cards, CardKey, cardId).None? ==> r == cards
    ensures FirstIndex(cards, CardKey, cardId).Some? ==>
      var i := FirstIndex(cards, CardKey, cardId).value;
      && (forall j :: 0 <= j < |cards| && j != i ==> r[j] == cards[j])
      && (!HasSubtask(cards[i], index) ==> r[i] == cards[i])
      && (HasSubtask(cards[i], index) ==>
            var st := cards[i].subTasks.value;
            && r[i] == cards[i].(subTasks := r[i].subTasks)
            && r[i].subTasks.Some? && |r[i].subTasks.value| == |st|
            && r[i].subTasks.value[index].done == !st[index].done
            && r[i].subTasks.value[index].title == st[index].title
            && forall k :: 0 <= k < |st| && k != index ==> r[i].subTasks.value[k] == st[k])
  {
    UpdateFirst(cards, CardKey, cardId, ToggleSubtask(index))
  }

  /** Toggling the same subtask twice restores the cards. */
  lemma ToggledSubtaskTwice(cards: seq<Card>, cardId: string, index: int)
    ensures ToggledSubtask(ToggledSubtask(cards, cardId, index), cardId, index) == cards
  {
    var f := ToggleSubtask(index);
    forall c ensures f(f(c)) == c {
      if HasSubtask(c, index) {
        var st := c.subTasks.value;
        var st' := st[index := st[index].(done := !st[index].done)];
        assert st'[index := st'[index].(done := !st'[index].done)] == st;
      }
    }
    UpdateFirstInvolution(cards, CardKey, cardId, f);
  }

  /** The card list of the store, changed in place by the reducers. */
  class CardState {
    var cards: seq<Card>

    constructor (initial: seq<Card>)
      ensures cards == initial
    {
      cards := initial;
    }

    /** `createCard` stores the payload as the last card. */
    method CreateCard(card: Card)
      modifies this
      ensures cards == old(cards) + [card]
    {
      cards := cards + [card];
    }

    method UpdateCard(id: string, changes: CardChanges)
      modifies this
      ensures cards == UpdatedCard(old(cards), id, changes)
    {
      var i := FirstIndex(cards, CardKey, id);
      if i.Some? {
        cards := cards[i.value := AssignCard(cards[i.value], changes)];
      }
    }

    method DeleteCard(cardId: string)
      modifies this
      ensures cards == WithoutCard(old(cards), cardId)
    {
      cards := WithoutCard(cards, cardId);
    }

    method ToggleSubtaskDone(cardId: string, index: int)
      modifies this
      ensures cards == ToggledSubtask(old(cards), cardId, index)
    {
      var i := FirstIndex(cards, CardKey, cardId);
      if i.Some? && HasSubtask(cards[i.value], index) {
        var card := cards[i.value];
        var subTasks := card.subTasks.value;
        subTasks := subTasks[index := subTasks[index].(done := !subTasks[index].done)];
        cards := cards[i.value := card.(subTasks := Some(subTasks))];
      }
    }

    method DeleteCardsByIds(cardIds: seq<string>)
      modifies this
      ensures cards == WithoutCards(old(cards), cardIds)
    {
      cards := WithoutCards(cards, cardIds);
    }
  }
}
