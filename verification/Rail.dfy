/** solveRail: cards are sorted, packed, pooled, clamped and rounded. */
module Rail {
  import opened Collections
  import opened RailFit
  import opened RailOptimality

  /** `height` is an element's offsetHeight, hence a natural number;
      `preferredTop` need not be whole.  Placing a card writes `offset` and
      `top`. */
  class Card {
    const id: int
    const height: nat
    const preferredTop: real
    var offset: int
    var top: int

    constructor (id: int, height: nat, preferredTop: real)
      ensures this.id == id && this.height == height && this.preferredTop == preferredTop
    {
      this.id, this.height, this.preferredTop := id, height, preferredTop;
    }
  }

  // ----- the order of the rail -----

  /** The comparator: preferred position first, then identifier. */
  predicate Before(a: Card, b: Card) {
    a.preferredTop < b.preferredTop || (a.preferredTop == b.preferredTop && a.id <= b.id)
  }

  ghost predicate Ordered(cards: seq<Card>) {
    forall i, j :: 0 <= i < j < |cards| ==> Before(cards[i], cards[j])
  }

  function InsertCard(c: Card, cards: seq<Card>): seq<Card> {
    if cards == [] then [c]
    else if Before(c, cards[0]) then [c] + cards
    else [cards[0]] + InsertCard(c, cards[1..])
  }

  /** The stable sort that the array's own sort method performs. */
  function SortCards(cards: seq<Card>): seq<Card> {
    if cards == [] then [] else InsertCard(cards[0], SortCards(cards[1..]))
  }

  lemma {:induction false} InsertCardContents(c: Card, cards: seq<Card>)
    ensures multiset(InsertCard(c, cards)) == multiset(cards) + multiset{c}
  {
    if cards != [] {
      assert cards == [cards[0]] + cards[1..];
      if !Before(c, cards[0]) {
        InsertCardContents(c, cards[1..]);
      }
    }
  }

  lemma {:induction false} InsertCardOrder(c: Card, cards: seq<Card>)
    requires Ordered(cards)
    ensures Ordered(InsertCard(c, cards))
  {
    if cards != [] && !Before(c, cards[0]) {
      var rest := InsertCard(c, cards[1..]);
      InsertCardOrder(c, cards[1..]);
      forall j | 0 <= j < |rest|
        ensures Before(cards[0], rest[j])
      {
        InsertCardContents(c, cards[1..]);
        assert rest[j] in multiset(rest);
        if rest[j] != c {
          assert rest[j] in multiset(cards[1..]);
        }
      }
    }
  }

  /** Rising preferred tops, and rising identifiers where these are equal. */
  predicate InOrder(cards: seq<Card>) {
    forall i, j :: 0 <= i < j < |cards| ==>
                     cards[i].preferredTop < cards[j].preferredTop
                     || (cards[i].preferredTop == cards[j].preferredTop && cards[i].id <= cards[j].id)
  }

  /** Sorting puts the cards in order of their preferred tops, equal ones in order
      of their identifiers, and only permutes them. */
  lemma {:induction false} SortCardsOrders(cards: seq<Card>)
    ensures Ordered(SortCards(cards))
    ensures InOrder(SortCards(cards))
    ensures multiset(SortCards(cards)) == multiset(cards)
    ensures |SortCards(cards)| == |cards|
  {
    if cards != [] {
      assert cards == [cards[0]] + cards[1..];
      SortCardsOrders(cards[1..]);
      InsertCardContents(cards[0], SortCards(cards[1..]));
      InsertCardOrder(cards[0], SortCards(cards[1..]));
    }
    assert |multiset(SortCards(cards))| == |multiset(cards)|;
  }

  /** The cards with a given preferred top and identifier, in their order. */
  function Ties(cards: seq<Card>, preferredTop: real, id: int): seq<Card> {
    if cards == [] then []
    else (if cards[0].preferredTop == preferredTop && cards[0].id == id then [cards[0]] else [])
         + Ties(cards[1..], preferredTop, id)
  }

  lemma TiesCons(c: Card, cards: seq<Card>, preferredTop: real, id: int)
    ensures Ties([c] + cards, preferredTop, id)
         == (if c.preferredTop == preferredTop && c.id == id then [c] else []) + Ties(cards, preferredTop, id)
  {
    assert ([c] + cards)[1..] == cards;
  }

  lemma {:induction false} InsertKeepsTies(c: Card, cards: seq<Card>, preferredTop: real, id: int)
    ensures Ties(InsertCard(c, cards), preferredTop, id) == Ties([c] + cards, preferredTop, id)
  {
    if cards != [] && !Before(c, cards[0]) {
      var rest := InsertCard(c, cards[1..]);
      InsertKeepsTies(c, cards[1..], preferredTop, id);
      assert cards == [cards[0]] + cards[1..];
      TiesCons(cards[0], rest, preferredTop, id);
      TiesCons(c, cards[1..], preferredTop, id);
      TiesCons(c, cards, preferredTop, id);
      TiesCons(cards[0], cards[1..], preferredTop, id);
    }
  }

  /** The sort is stable. */
  lemma {:induction false} SortCardsStable(cards: seq<Card>, preferredTop: real, id: int)
    ensures Ties(SortCards(cards), preferredTop, id) == Ties(cards, preferredTop, id)
  {
    if cards != [] {
      SortCardsStable(cards[1..], preferredTop, id);
      InsertKeepsTies(cards[0], SortCards(cards[1..]), preferredTop, id);
      TiesCons(cards[0], SortCards(cards[1..]), preferredTop, id);
    }
  }

  lemma {:induction false} PermutedDistinct<T>(s: seq<T>, t: seq<T>)
    requires multiset(s) == multiset(t) && Distinct(s)
    ensures Distinct(t)
  {
    forall i, j | 0 <= i < j < |t|
      ensures t[i] != t[j]
    {
      DistinctCounts(s);
      assert t == t[..i] + [t[i]] + t[i + 1..j] + [t[j]] + t[j + 1..];
      assert multiset(t)[t[i]] >= if t[i] == t[j] then 2 else 1;
      assert t[i] in multiset(t);
      assert t[i] in multiset(s);
    }
  }

  lemma {:induction false} DistinctCounts<T>(s: seq<T>)
    requires Distinct(s)
    ensures forall x :: x in s ==> multiset(s)[x] == 1
  {
    if s != [] {
      assert s == [s[0]] + s[1..];
      DistinctCounts(s[1..]);
      assert s[0] !in s[1..];
    }
  }

  // ----- packing -----

  /** Where card k starts when all cards are stacked from zero. */
  function Offset(cards: seq<Card>, gap: nat, k: nat): nat
    requires k <= |cards|
  {
    if k == 0 then 0 else Offset(cards, gap, k - 1) + cards[k - 1].height + gap
  }

  function PackedHeight(cards: seq<Card>, gap: nat): nat {
    if cards == [] then 0 else Offset(cards, gap, |cards| - 1) + cards[|cards| - 1].height
  }

  function Targets(cards: seq<Card>, gap: nat): seq<real> {
    seq(|cards|, i requires 0 <= i < |cards| => cards[i].preferredTop - Offset(cards, gap, i) as real)
  }

  lemma {:induction false} OffsetsFit(cards: seq<Card>, gap: nat, k: nat)
    requires k < |cards|
    ensures Offset(cards, gap, k) + cards[k].height <= PackedHeight(cards, gap)
    decreases |cards| - k
  {
    if k + 1 < |cards| {
      OffsetsFit(cards, gap, k + 1);
    }
  }

  // ----- placements -----

  /** A placement keeps the order and the gap and stays inside the stage. */
  ghost predicate Feasible(cards: seq<Card>, tops: seq<real>, gap: nat, padding: int, stageHeight: int) {
    && |tops| == |cards|
    && (forall i :: 0 <= i < |cards| ==>
                      padding as real <= tops[i] && tops[i] + cards[i].height as real <= (stageHeight - padding) as real)
    && forall i :: 0 < i < |cards| ==>
                     tops[i - 1] + cards[i - 1].height as real + gap as real <= tops[i]
  }

  /** Sum of squared distances from the preferred positions. */
  ghost function Displacement(cards: seq<Card>, tops: seq<real>): real
    requires |tops| == |cards|
  {
    Cost(tops, Preferred(cards))
  }

  ghost function Preferred(cards: seq<Card>): seq<real> {
    seq(|cards|, i requires 0 <= i < |cards| => cards[i].preferredTop)
  }

  ghost function Shifted(cards: seq<Card>, gap: nat, tops: seq<real>): seq<real>
    requires |tops| == |cards|
  {
    seq(|cards|, i requires 0 <= i < |cards| => tops[i] - Offset(cards, gap, i) as real)
  }

  ghost function Unshifted(cards: seq<Card>, gap: nat, x: seq<real>): seq<real>
    requires |x| == |cards|
  {
    seq(|cards|, i requires 0 <= i < |cards| => x[i] + Offset(cards, gap, i) as real)
  }

  /** Feasible placements are exactly the admissible displacements of the
      packed stack. */
  lemma FeasibleIsAdmissible(cards: seq<Card>, tops: seq<real>, gap: nat, padding: int, stageHeight: int)
    requires |tops| == |cards|
    ensures Feasible(cards, tops, gap, padding, stageHeight)
       <==> Admissible(Shifted(cards, gap, tops), padding as real,
                       (stageHeight - padding - PackedHeight(cards, gap)) as real)
  {
    if Feasible(cards, tops, gap, padding, stageHeight) {
      FeasibleShifts(cards, tops, gap, padding, stageHeight);
    }
    if Admissible(Shifted(cards, gap, tops), padding as real, (stageHeight - padding - PackedHeight(cards, gap)) as real) {
      AdmissibleIsFeasible(cards, tops, gap, padding, stageHeight);
    }
  }

  lemma FeasibleShifts(cards: seq<Card>, tops: seq<real>, gap: nat, padding: int, stageHeight: int)
    requires Feasible(cards, tops, gap, padding, stageHeight)
    ensures Admissible(Shifted(cards, gap, tops), padding as real,
                       (stageHeight - padding - PackedHeight(cards, gap)) as real)
  {
    var z := Shifted(cards, gap, tops);
    assert forall i :: 0 < i < |z| ==> z[i - 1] <= z[i];
    forall i | 0 <= i < |z|
      ensures padding as real <= z[i] <= (stageHeight - padding - PackedHeight(cards, gap)) as real
    {
      RisingTo(z, 0, i);
      RisingTo(z, i, |z| - 1);
    }
  }

  lemma AdmissibleIsFeasible(cards: seq<Card>, tops: seq<real>, gap: nat, padding: int, stageHeight: int)
    requires |tops| == |cards|
    requires Admissible(Shifted(cards, gap, tops), padding as real,
                        (stageHeight - padding - PackedHeight(cards, gap)) as real)
    ensures Feasible(cards, tops, gap, padding, stageHeight)
  {
    var z := Shifted(cards, gap, tops);
    forall i | 0 <= i < |cards|
      ensures padding as real <= tops[i] && tops[i] + cards[i].height as real <= (stageHeight - padding) as real
    {
      assert z[i] == tops[i] - Offset(cards, gap, i) as real;
      OffsetsFit(cards, gap, i);
    }
    forall i | 0 < i < |cards|
      ensures tops[i - 1] + cards[i - 1].height as real + gap as real <= tops[i]
    {
      assert z[i - 1] <= z[i];
    }
  }

  lemma {:induction false} RisingTo(z: seq<real>, i: nat, j: nat)
    requires i <= j < |z|
    requires forall k :: 0 < k < |z| ==> z[k - 1] <= z[k]
    ensures z[i] <= z[j]
    decreases j
  {
    if i < j {
      RisingTo(z, i, j - 1);
    }
  }

  lemma {:induction false} CostOfShift(a: seq<real>, b: seq<real>, a': seq<real>, b': seq<real>)
    requires |a| == |b| == |a'| == |b'|
    requires forall i :: 0 <= i < |a| ==> a[i] - b[i] == a'[i] - b'[i]
    ensures Cost(a, b) == Cost(a', b')
  {
    if a != [] {
      var n := |a| - 1;
      CostOfShift(a[..n], b[..n], a'[..n], b'[..n]);
    }
  }

  // ----- rounding -----

  /** Math.round: nearest integer, halves upwards. */
  function RoundHalfUp(x: real): int { (x + 0.5).Floor }

  lemma RoundShift(x: real, n: int)
    ensures RoundHalfUp(x + n as real) == RoundHalfUp(x) + n
  {}

  lemma RoundMonotone(x: real, y: real)
    requires x <= y
    ensures RoundHalfUp(x) <= RoundHalfUp(y)
  {}

  lemma RoundNear(x: real)
    ensures -0.5 <= x - RoundHalfUp(x) as real < 0.5
  {}

  lemma RoundWithin(x: real, lo: int, hi: int)
    requires lo as real <= x <= hi as real
    ensures lo <= RoundHalfUp(x) <= hi
  {}

  lemma RoundApart(x: real, y: real, step: int)
    requires x + step as real <= y
    ensures RoundHalfUp(x) + step <= RoundHalfUp(y)
  {
    RoundShift(x, step);
    RoundMonotone(x + step as real, y);
  }

  /** Rounding a feasible placement card by card gives a feasible placement,
      because every constraint has an integer constant. */
  lemma RoundingKeepsFeasible(cards: seq<Card>, tops: seq<real>, rounded: seq<real>, gap: nat, padding: int, stageHeight: int)
    requires Feasible(cards, tops, gap, padding, stageHeight)
    requires |rounded| == |cards|
    requires forall i :: 0 <= i < |cards| ==> rounded[i] == RoundHalfUp(tops[i]) as real
    ensures Feasible(cards, rounded, gap, padding, stageHeight)
    ensures forall i :: 0 <= i < |cards| ==> -0.5 <= tops[i] - rounded[i] < 0.5
  {
    forall i | 0 <= i < |cards|
      ensures padding as real <= rounded[i] && rounded[i] + cards[i].height as real <= (stageHeight - padding) as real
    {
      RoundWithin(tops[i], padding, stageHeight - padding - cards[i].height);
    }
    forall i | 0 < i < |cards|
      ensures rounded[i - 1] + cards[i - 1].height as real + gap as real <= rounded[i]
    {
      RoundApart(tops[i - 1], tops[i], cards[i - 1].height + gap);
    }
    forall i | 0 <= i < |cards|
      ensures -0.5 <= tops[i] - rounded[i] < 0.5
    {
      RoundNear(tops[i]);
    }
  }

  // ----- the algorithm -----

  /** What solveRail aims at: `tops` is feasible, and any other feasible
      placement is worse by at least the squared distance between the two. */
  ghost predicate BestPlacement(cards: seq<Card>, tops: seq<real>, gap: nat, padding: int, stageHeight: int) {
    && Feasible(cards, tops, gap, padding, stageHeight)
    && forall other :: Feasible(cards, other, gap, padding, stageHeight) ==>
                         Displacement(cards, other) >= Displacement(cards, tops) + Cost(other, tops)
  }

  /** The largest displacement the stage allows the packed stack. */
  function Slack(cards: seq<Card>, gap: nat, padding: int, stageHeight: int): int {
    stageHeight - padding - PackedHeight(cards, gap)
  }

  /** Positions before rounding: the clamped mean of each card's block, plus
      the card's place in the stack. */
  ghost function ExactTops(cards: seq<Card>, gap: nat, lo: int, hi: int, blocks: seq<Block>): (tops: seq<real>)
    requires Blocks(Targets(cards, gap), blocks, |cards|)
    ensures |tops| == |cards|
  {
    FitLength(Targets(cards, gap), blocks, |cards|, lo as real, hi as real);
    Unshifted(cards, gap, Fit(Targets(cards, gap), blocks, lo as real, hi as real))
  }

  lemma ExactIsFeasible(cards: seq<Card>, gap: nat, padding: int, stageHeight: int, blocks: seq<Block>)
    requires Blocks(Targets(cards, gap), blocks, |cards|)
    requires padding <= Slack(cards, gap, padding, stageHeight)
    ensures var tops := ExactTops(cards, gap, padding, Slack(cards, gap, padding, stageHeight), blocks);
            Feasible(cards, tops, gap, padding, stageHeight)
  {
    var y := Targets(cards, gap);
    var hi := Slack(cards, gap, padding, stageHeight);
    var x := Fit(y, blocks, padding as real, hi as real);
    var tops := ExactTops(cards, gap, padding, hi, blocks);
    FitLength(y, blocks, |y|, padding as real, hi as real);
    FitAdmissible(y, blocks, |y|, padding as real, hi as real);
    assert Shifted(cards, gap, tops) == x;
    FeasibleIsAdmissible(cards, tops, gap, padding, stageHeight);
  }

  lemma NoneIsBetter(cards: seq<Card>, gap: nat, padding: int, stageHeight: int, blocks: seq<Block>, other: seq<real>)
    requires Blocks(Targets(cards, gap), blocks, |cards|)
    requires padding <= Slack(cards, gap, padding, stageHeight)
    requires Feasible(cards, other, gap, padding, stageHeight)
    ensures var tops := ExactTops(cards, gap, padding, Slack(cards, gap, padding, stageHeight), blocks);
            Displacement(cards, other) >= Displacement(cards, tops) + Cost(other, tops)
  {
    var y, z := Targets(cards, gap), Shifted(cards, gap, other);
    var hi := Slack(cards, gap, padding, stageHeight);
    var x := Fit(y, blocks, padding as real, hi as real);
    var tops := ExactTops(cards, gap, padding, hi, blocks);
    FitLength(y, blocks, |y|, padding as real, hi as real);
    FeasibleIsAdmissible(cards, other, gap, padding, stageHeight);
    FitIsLeastSquares(y, blocks, padding as real, hi as real, z);
    CostsOfShift(other, tops, Preferred(cards), z, x, y);
  }

  lemma CostsOfShift(a: seq<real>, b: seq<real>, c: seq<real>, a': seq<real>, b': seq<real>, c': seq<real>)
    requires |a| == |b| == |c| == |a'| == |b'| == |c'|
    requires forall i :: 0 <= i < |a| ==> a[i] - a'[i] == b[i] - b'[i] == c[i] - c'[i]
    ensures Cost(a, c) == Cost(a', c') && Cost(b, c) == Cost(b', c') && Cost(a, b) == Cost(a', b')
  {
    CostOfShift(a, c, a', c');
    CostOfShift(b, c, b', c');
    CostOfShift(a, b, a', b');
  }

  /** The clamp after pooling does not lose optimality. */
  lemma FitIsBest(cards: seq<Card>, gap: nat, padding: int, stageHeight: int, blocks: seq<Block>)
    requires Blocks(Targets(cards, gap), blocks, |cards|)
    requires stageHeight >= PackedHeight(cards, gap) + 2 * padding
    ensures BestPlacement(cards, ExactTops(cards, gap, padding, Slack(cards, gap, padding, stageHeight), blocks),
                          gap, padding, stageHeight)
  {
    var tops := ExactTops(cards, gap, padding, Slack(cards, gap, padding, stageHeight), blocks);
    ExactIsFeasible(cards, gap, padding, stageHeight, blocks);
    forall other | Feasible(cards, other, gap, padding, stageHeight)
      ensures Displacement(cards, other) >= Displacement(cards, tops) + Cost(other, tops)
    {
      NoneIsBetter(cards, gap, padding, stageHeight, blocks, other);
    }
  }

  /** A best placement is the only one of its cost. */
  lemma BestIsUnique(cards: seq<Card>, tops: seq<real>, other: seq<real>, gap: nat, padding: int, stageHeight: int)
    requires BestPlacement(cards, tops, gap, padding, stageHeight)
    requires Feasible(cards, other, gap, padding, stageHeight)
    requires Displacement(cards, other) <= Displacement(cards, tops)
    ensures other == tops
  {
    ZeroCost(other, tops);
  }

  /** Cards that fit where they want to be are put there. */
  lemma PreferredIsKept(cards: seq<Card>, tops: seq<real>, gap: nat, padding: int, stageHeight: int)
    requires BestPlacement(cards, tops, gap, padding, stageHeight)
    requires Feasible(cards, Preferred(cards), gap, padding, stageHeight)
    ensures tops == Preferred(cards)
  {
    NoCost(Preferred(cards));
    ZeroCost(tops, Preferred(cards));
    ZeroCost(Preferred(cards), tops);
    BestIsUnique(cards, tops, Preferred(cards), gap, padding, stageHeight);
  }

  lemma {:induction false} NoCost(a: seq<real>)
    ensures Cost(a, a) == 0.0
  {
    if a != [] {
      NoCost(a[..|a| - 1]);
    }
  }

  /** The stage is never higher than it must be: cards can be placed on a stage
      exactly when it holds the packed stack and the padding. */
  lemma FeasibleWhenHighEnough(cards: seq<Card>, gap: nat, padding: int, stageHeight: int)
    requires cards != []
    ensures (exists tops :: Feasible(cards, tops, gap, padding, stageHeight))
       <==> stageHeight >= PackedHeight(cards, gap) + 2 * padding
  {
    if tops :| Feasible(cards, tops, gap, padding, stageHeight) {
      FeasibleIsAdmissible(cards, tops, gap, padding, stageHeight);
      assert padding as real <= Shifted(cards, gap, tops)[0];
    }
    if stageHeight >= PackedHeight(cards, gap) + 2 * padding {
      var x := seq(|cards|, _ => padding as real);
      var stack := Unshifted(cards, gap, x);
      assert Shifted(cards, gap, stack) == x;
      FeasibleIsAdmissible(cards, stack, gap, padding, stageHeight);
    }
  }

  lemma SquareSign(d: real)
    ensures Product(d, d) >= 0.0
    ensures Product(d, d) <= 0.0 ==> d == 0.0
  {
    if d > 0.0 {
      ProductPositive(d, d);
    } else if d < 0.0 {
      ProductPositive(-d, -d);
      assert Product(d, d) == Product(-d, -d);
    }
  }

  lemma ProductPositive(a: real, b: real)
    requires a > 0.0 && b > 0.0
    ensures Product(a, b) > 0.0
  {}

  lemma {:induction false} ZeroCost(a: seq<real>, b: seq<real>)
    requires |a| == |b|
    ensures Cost(a, b) >= 0.0
    ensures Cost(a, b) <= 0.0 ==> a == b
  {
    if a != [] {
      var n := |a| - 1;
      ZeroCost(a[..n], b[..n]);
      SquareSign(a[n] - b[n]);
      assert a == a[..n] + [a[n]] && b == b[..n] + [b[n]];
    }
  }

  method AssignOffsets(cards: seq<Card>, gap: nat) returns (packedHeight: nat)
    requires Distinct(cards)
    modifies (set c | c in cards)`offset
    ensures packedHeight == PackedHeight(cards, gap)
    ensures forall i {:trigger cards[i].offset} :: 0 <= i < |cards| ==> cards[i].offset == Offset(cards, gap, i)
  {
    packedHeight := 0;
    for index := 0 to |cards|
      invariant index < |cards| ==> packedHeight == Offset(cards, gap, index)
      invariant index == |cards| ==> packedHeight == PackedHeight(cards, gap)
      invariant forall i {:trigger cards[i].offset} :: 0 <= i < index ==> cards[i].offset == Offset(cards, gap, i)
    {
      var item := cards[index];
      item.offset := packedHeight;
      packedHeight := packedHeight + item.height + if index == |cards| - 1 then 0 else gap;
      assert index + 1 < |cards| ==> packedHeight == Offset(cards, gap, index + 1);
    }
  }

  method WriteTops(cards: seq<Card>, gap: nat, blocks: seq<Block>, lo: int, hi: int)
    requires Distinct(cards)
    requires Blocks(Targets(cards, gap), blocks, |cards|)
    requires forall i {:trigger cards[i].offset} :: 0 <= i < |cards| ==> cards[i].offset == Offset(cards, gap, i)
    modifies (set c | c in cards)`top
    ensures forall i {:trigger cards[i].top} :: 0 <= i < |cards| ==>
                                                  cards[i].top == RoundHalfUp(ExactTops(cards, gap, lo, hi, blocks)[i])
  {
    ghost var exact := ExactTops(cards, gap, lo, hi, blocks);
    for i := 0 to |blocks|
      invariant forall k {:trigger cards[k].top} :: 0 <= k < |cards| && (i == |blocks| || k < blocks[i].first) ==>
                                                      cards[k].top == RoundHalfUp(exact[k])
    {
      var block := blocks[i];
      var x := Clamp(lo as real, hi as real, block.weightedSum / block.weight as real);
      FitAt(Targets(cards, gap), blocks, |cards|, lo as real, hi as real, i);
      WriteBlock(cards, block, x, exact);
    }
  }

  /** The inner loop: the tops of one block, of the displacement x. */
  method WriteBlock(cards: seq<Card>, block: Block, x: real, ghost exact: seq<real>)
    requires Distinct(cards) && |exact| == |cards|
    requires block.first <= block.last < |cards|
    requires forall k {:trigger exact[k]} :: block.first <= k <= block.last ==> exact[k] == x + cards[k].offset as real
    requires forall k {:trigger cards[k].top} :: 0 <= k < block.first ==> cards[k].top == RoundHalfUp(exact[k])
    modifies (set c | c in cards)`top
    ensures forall k {:trigger cards[k].top} :: 0 <= k <= block.last ==> cards[k].top == RoundHalfUp(exact[k])
  {
    for index := block.first to block.last + 1
      invariant forall k {:trigger cards[k].top} :: 0 <= k < index ==> cards[k].top == RoundHalfUp(exact[k])
    {
      assert exact[index] == x + cards[index].offset as real;
      cards[index].top := RoundHalfUp(x + cards[index].offset as real);
    }
  }

  lemma {:induction false} FitAt(y: seq<real>, blocks: seq<Block>, n: nat, lo: real, hi: real, i: nat)
    requires Blocks(y, blocks, n) && i < |blocks|
    ensures |Fit(y, blocks, lo, hi)| == n && blocks[i].last < n
    ensures forall k :: blocks[i].first <= k <= blocks[i].last ==>
                          Fit(y, blocks, lo, hi)[k] == Clamp(lo, hi, blocks[i].Mean())
  {
    FitLength(y, blocks, n, lo, hi);
    if n > 0 {
      DropLastBlock(y, blocks, n);
      FitLength(y, blocks[..|blocks| - 1], blocks[|blocks| - 1].first, lo, hi);
      if i < |blocks| - 1 {
        FitAt(y, blocks[..|blocks| - 1], blocks[|blocks| - 1].first, lo, hi, i);
      }
    }
  }

  ghost function Tops(cards: seq<Card>): seq<real>
    reads cards
  {
    seq(|cards|, i requires 0 <= i < |cards| reads cards => cards[i].top as real)
  }

  /** The cards stand inside the stage, a gap apart. */
  predicate Placed(cards: seq<Card>, gap: nat, padding: int, stageHeight: int)
    reads cards
  {
    && (forall i :: 0 <= i < |cards| ==>
                      padding <= cards[i].top && cards[i].top + cards[i].height <= stageHeight - padding)
    && forall i, j :: 0 <= i && j == i + 1 < |cards| ==> cards[i].top + cards[i].height + gap <= cards[j].top
  }

  predicate AsPreferred(cards: seq<Card>)
    reads cards
  {
    forall i :: 0 <= i < |cards| ==> cards[i].top == RoundHalfUp(cards[i].preferredTop)
  }

  /** What the rounded tops are. */
  lemma RoundedTops(cards: seq<Card>, exact: seq<real>, gap: nat, padding: int, stageHeight: int)
    requires BestPlacement(cards, exact, gap, padding, stageHeight)
    requires forall i :: 0 <= i < |cards| ==> cards[i].top == RoundHalfUp(exact[i])
    ensures Feasible(cards, Tops(cards), gap, padding, stageHeight) && Placed(cards, gap, padding, stageHeight)
    ensures Feasible(cards, Preferred(cards), gap, padding, stageHeight) ==> AsPreferred(cards)
  {
    RoundingKeepsFeasible(cards, exact, Tops(cards), gap, padding, stageHeight);
    FeasibleTops(cards, gap, padding, stageHeight);
    if Feasible(cards, Preferred(cards), gap, padding, stageHeight) {
      PreferredIsKept(cards, exact, gap, padding, stageHeight);
    }
  }

  lemma FeasibleTops(cards: seq<Card>, gap: nat, padding: int, stageHeight: int)
    requires Feasible(cards, Tops(cards), gap, padding, stageHeight)
    ensures Placed(cards, gap, padding, stageHeight)
  {
    forall i, j | 0 <= i && j == i + 1 < |cards|
      ensures cards[i].top + cards[i].height + gap <= cards[j].top
    {
      assert Tops(cards)[j - 1] == cards[i].top as real && Tops(cards)[j] == cards[j].top as real;
    }
    forall i | 0 <= i < |cards|
      ensures padding <= cards[i].top && cards[i].top + cards[i].height <= stageHeight - padding
    {
      assert Tops(cards)[i] == cards[i].top as real;
    }
  }

  /** Everything after the sort: pack, pool, clamp, round. */
  method PlaceCards(cards: seq<Card>, requestedHeight: int, gap: nat, padding: int)
    returns (stageHeight: int, ghost exact: seq<real>)
    requires Distinct(cards)
    modifies cards
    ensures stageHeight == (var least := PackedHeight(cards, gap) + 2 * padding;
                            if requestedHeight < least then least else requestedHeight)
    ensures BestPlacement(cards, exact, gap, padding, stageHeight)
    ensures forall i :: 0 <= i < |cards| ==> cards[i].top == RoundHalfUp(exact[i])
  {
    var packedHeight := AssignOffsets(cards, gap);
    stageHeight := requestedHeight;
    if stageHeight < packedHeight + 2 * padding {
      stageHeight := packedHeight + 2 * padding;
    }
    var blocks, _ := PoolBlocks(Targets(cards, gap));
    var maxX := stageHeight - padding - packedHeight;
    if maxX < padding {
      maxX := padding;
    }
    assert maxX == Slack(cards, gap, padding, stageHeight);
    WriteTops(cards, gap, blocks, padding, maxX);
    FitIsBest(cards, gap, padding, stageHeight, blocks);
    exact := ExactTops(cards, gap, padding, maxX, blocks);
  }

  method SortInPlace(items: array<Card>)
    requires Distinct(items[..])
    modifies items
    ensures items[..] == SortCards(old(items[..])) && InOrder(items[..]) && Distinct(items[..])
    ensures multiset(items[..]) == multiset(old(items[..]))
    ensures forall c :: c in items[..] ==> c in old(items[..])
  {
    ghost var before := items[..];
    var cards := SortCards(items[..]);
    SortCardsOrders(before);
    PermutedDistinct(before, cards);
    forall c | c in cards
      ensures c in before
    {
      assert c in multiset(cards);
    }
    forall i | 0 <= i < items.Length {
      items[i] := cards[i];
    }
    assert items[..] == cards;
  }

  /** The whole routine.  `exact` is what the cards' tops are rounded from;
      the rounded tops are themselves a feasible placement. */
  method SolveRail(items: array<Card>, requestedHeight: int, gap: nat := 14, padding: int := 0)
    returns (stageHeight: int, ghost exact: seq<real>)
    requires Distinct(items[..])
    modifies items, set c | c in items[..]
    ensures items[..] == SortCards(old(items[..]))
    ensures stageHeight == (var least := PackedHeight(items[..], gap) + 2 * padding;
                            if requestedHeight < least then least else requestedHeight)
    ensures BestPlacement(items[..], exact, gap, padding, stageHeight)
    ensures forall i :: 0 <= i < items.Length ==> items[i].top == RoundHalfUp(exact[i])
    ensures Feasible(items[..], Tops(items[..]), gap, padding, stageHeight)
    ensures multiset(items[..]) == multiset(old(items[..]))
    ensures InOrder(items[..])
    ensures Placed(items[..], gap, padding, stageHeight)
    ensures Feasible(items[..], Preferred(items[..]), gap, padding, stageHeight) ==> AsPreferred(items[..])
  {
    SortInPlace(items);
    var cards := items[..];
    stageHeight, exact := PlaceCards(cards, requestedHeight, gap, padding);
    RoundedTops(cards, exact, gap, padding, stageHeight);
    assert items[..] == cards;
  }
}
