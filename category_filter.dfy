/**
 * The blog page's category chips (blog/static/blog/js/script.js): a click
 * on a chip makes it the only active chip, shows every card whose
 * `data-categories` text contains the chip's filter (every card for
 * "all"), and hides the others; a hidden card is taken out of the layout
 * by a 300 ms timer, but only if it is still hidden when the timer fires.
 * Timers all have the same delay, so they fire in the order they were
 * started: the pending ones are a queue of card indices.
 */
module CategoryFilter {
  import opened Text
  import opened Dom

  const ShowAll := "all"

  /** The card's inline `display` style. */
  datatype Display = Unset | Block | NoDisplay

  /** A blog card: its categories text (empty when the attribute is
      missing), whether it has the `hidden` class, and its display. */
  datatype Card = Card(categories: string, hidden: bool, display: Display)

  /** The chip test: "all", or the filter text occurs in the categories. */
  predicate Matches(filter: string, categories: string) {
    filter == ShowAll || IsSubstring(filter, categories)
  }

  /** The "all" chip matches every card. */
  lemma AllMatchesEverything(categories: string)
    ensures Matches(ShowAll, categories)
  {
  }

  /** The test is on raw text, not on whole category names: a filter that
      matches some text matches any text containing it, so the filter
      "java" matches a card filed under "javascript". */
  lemma {:induction false} MatchesWithinLongerText(filter: string, categories: string, before: string, after: string)
    requires Matches(filter, categories)
    ensures Matches(filter, before + categories + after)
    ensures Matches("java", "javascript")
  {
    var t := before + categories + after;
    if filter != ShowAll {
      IsSubstringIffOccurs(filter, categories);
      var i :| OccursAt(filter, categories, i);
      assert t[|before| + i..|before| + i + |filter|] == categories[i..i + |filter|];
      assert OccursAt(filter, t, |before| + i);
      IsSubstringIffOccurs(filter, t);
    }
    assert "java" <= "javascript";
  }

  /** The indices, in increasing order, of the cards the filter does not
      match: the cards whose hide timer a click starts. */
  function Unmatched(cards: seq<Card>, filter: string): (ix: seq<nat>)
    ensures forall j: int :: j in ix <==> 0 <= j < |cards| && !Matches(filter, cards[j].categories)
    ensures forall a, b | 0 <= a < b < |ix| :: ix[a] < ix[b]
  {
    if cards == [] then []
    else
      var init := cards[..|cards| - 1];
      var ix0 := Unmatched(init, filter);
      assert forall j | 0 <= j < |init| :: init[j] == cards[j];
      assert forall a | 0 <= a < |ix0| :: ix0[a] in ix0;
      if Matches(filter, cards[|cards| - 1].categories) then ix0 else ix0 + [|cards| - 1]
  }

  class ChipFilter {
    /** The chips' `data-filter` values. */
    const filters: seq<string>

    var chipActive: seq<bool>
    var cards: seq<Card>
    /** Indices of the cards whose hide timer is running, oldest first. */
    var pendingHides: seq<nat>

    ghost predicate Valid()
      reads this
    {
      |chipActive| == |filters|
    }

    constructor (filters: seq<string>, chipActive: seq<bool>, cards: seq<Card>)
      requires |chipActive| == |filters|
      ensures Valid()
      ensures this.filters == filters && this.chipActive == chipActive && this.cards == cards
      ensures pendingHides == []
    {
      this.filters := filters;
      this.chipActive := chipActive;
      this.cards := cards;
      pendingHides := [];
    }

    /** A click on chip `k`. */
    method ClickChip(k: nat)
      requires Valid() && k < |filters|
      modifies this
      ensures Valid()
      ensures chipActive == Marker(|filters|, k)
      ensures |cards| == |old(cards)|
      ensures forall i | 0 <= i < |cards| ::
                && cards[i].categories == old(cards[i].categories)
                && (cards[i].hidden <==> !Matches(filters[k], cards[i].categories))
                && (!cards[i].hidden ==> cards[i].display == Block)
                && (cards[i].hidden ==> cards[i].display == old(cards[i].display))
      ensures pendingHides == old(pendingHides) + Unmatched(old(cards), filters[k])
    {
      var c := 0;
      while c < |chipActive|
        invariant c <= |chipActive| == |filters|
        invariant forall e | 0 <= e < c :: !chipActive[e]
        invariant cards == old(cards) && pendingHides == old(pendingHides)
      {
        chipActive := chipActive[c := false];
        c := c + 1;
      }
      chipActive := chipActive[k := true];
      assert chipActive == Marker(|filters|, k);

      var filter := filters[k];
      var i := 0;
      while i < |cards|
        invariant i <= |cards| == |old(cards)|
        invariant chipActive == Marker(|filters|, k)
        invariant forall j | i <= j < |cards| :: cards[j] == old(cards[j])
        invariant forall j | 0 <= j < i ::
                    && cards[j].categories == old(cards[j].categories)
                    && (cards[j].hidden <==> !Matches(filter, cards[j].categories))
                    && (!cards[j].hidden ==> cards[j].display == Block)
                    && (cards[j].hidden ==> cards[j].display == old(cards[j].display))
        invariant pendingHides == old(pendingHides) + Unmatched(old(cards)[..i], filter)
      {
        var card := cards[i];
        assert old(cards)[..i + 1][..i] == old(cards)[..i];
        if Matches(filter, card.categories) {
          cards := cards[i := Card(card.categories, false, Block)];
        } else {
          cards := cards[i := Card(card.categories, true, card.display)];
          pendingHides := pendingHides + [i];
        }
        i := i + 1;
      }
      assert old(cards)[..i] == old(cards);
    }

    /** The oldest running hide timer fires: its card leaves the layout if
        it is still hidden, and is left alone if a later click showed it. */
    method HideTimerFires()
      requires pendingHides != []
      modifies this`cards, this`pendingHides
      ensures pendingHides == old(pendingHides[1..])
      ensures |cards| == |old(cards)|
      ensures forall j | 0 <= j < |cards| ::
                cards[j] == if j == old(pendingHides[0]) && old(cards[j]).hidden
                            then old(cards[j]).(display := NoDisplay)
                            else old(cards[j])
    {
      var i := pendingHides[0];
      pendingHides := pendingHides[1..];
      if i < |cards| && cards[i].hidden {
        cards := cards[i := cards[i].(display := NoDisplay)];
      }
    }
  }

  /** A click followed by the firing of every timer it started, with no
      other click in between: afterwards the cards in the layout are
      exactly the ones the chip matches. */
  method ClickAndSettle(f: ChipFilter, k: nat)
    requires f.Valid() && k < |f.filters| && f.pendingHides == []
    modifies f
    ensures f.Valid() && f.pendingHides == [] && f.chipActive == Marker(|f.filters|, k)
    ensures |f.cards| == |old(f.cards)|
    ensures forall i | 0 <= i < |f.cards| ::
              && f.cards[i].categories == old(f.cards[i].categories)
              && f.cards[i].display == if Matches(f.filters[k], f.cards[i].categories) then Block else NoDisplay
  {
    f.ClickChip(k);
    ghost var clicked := f.cards;
    while f.pendingHides != []
      invariant f.Valid() && f.chipActive == Marker(|f.filters|, k)
      invariant |f.cards| == |clicked|
      invariant forall i | 0 <= i < |f.cards| ::
                  && f.cards[i].categories == clicked[i].categories
                  && f.cards[i].hidden == clicked[i].hidden
                  && (f.cards[i].hidden <==> !Matches(f.filters[k], f.cards[i].categories))
                  && (!f.cards[i].hidden ==> f.cards[i].display == Block)
                  && (f.cards[i].hidden && i !in f.pendingHides ==> f.cards[i].display == NoDisplay)
      decreases |f.pendingHides|
    {
      f.HideTimerFires();
    }
  }
}
