/** Picking the cards of a week (`select_weighted_cards` in core/scheduling.py).
    Each pick is one draw of an index; how the weights bias the draw is not
    modelled, so a pick may be any card. */
module Selection {
  import opened Randomness
  import opened Repository

  /** The cards picked by `count` draws from `pos` on, repeats allowed. */
  function Picks(cards: seq<FlashCard>, count: int, stream: nat -> int, pos: nat): (r: seq<FlashCard>)
    requires |cards| >= 1
    ensures |r| == if count > 0 then count else 0
    ensures forall i :: 0 <= i < |r| ==> r[i] in cards
    ensures forall i :: 0 <= i < |r| ==> r[i] == cards[Below(stream, pos + i, |cards|)]
  {
    if count <= 0 then [] else Picks(cards, count - 1, stream, pos) + [cards[Below(stream, pos + count - 1, |cards|)]]
  }

  /** `select_weighted_cards`: nothing from no cards, otherwise `count` picks
      made by `random.choices` over the card indices. */
  method SelectWeightedCards(cards: seq<FlashCard>, count: int, rng: Rng) returns (r: seq<FlashCard>)
    modifies rng
    ensures cards == [] ==> r == [] && rng.pos == old(rng.pos)
    ensures cards != [] ==> r == Picks(cards, count, rng.stream, old(rng.pos))
    ensures rng.pos == old(rng.pos) + |r|
  {
    if cards == [] {
      return [];
    }
    var indices := rng.Choices(|cards|, count);
    r := [];
    var i := 0;
    while i < |indices|
      invariant 0 <= i <= |indices| && |r| == i
      invariant forall j :: 0 <= j < i ==> r[j] == cards[indices[j]]
    {
      r := r + [cards[indices[i]]];
      i := i + 1;
    }
    ghost var p := Picks(cards, count, rng.stream, old(rng.pos));
    assert |p| == |r|;
    forall j | 0 <= j < |r| ensures r[j] == p[j] { }
  }
}
