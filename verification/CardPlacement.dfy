/** Where frontend/app.js puts the six timeframe cards: two groups, cards replaced in any completion
    order, each answer choosing its group. A card is known by its timeframe and its node. */
module CardPlacement {
  import opened Options

  datatype Timeframe = M15 | H1 | H4 | D1 | W1 | Mo1

  datatype Group = Tactical | Regime {
    function Other(): Group {
      if this.Tactical? then Regime else Tactical
    }
  }

  const TACTICAL_TIMEFRAMES: seq<Timeframe> := [M15, H1, H4]
  const REGIME_TIMEFRAMES: seq<Timeframe> := [D1, W1, Mo1]

  /** order.indexOf(timeframe): -1 when the timeframe is of the other group. */
  function IndexOf(g: Group, t: Timeframe): int {
    match t
    case M15 => if g.Tactical? then 0 else -1
    case H1 => if g.Tactical? then 1 else -1
    case H4 => if g.Tactical? then 2 else -1
    case D1 => if g.Regime? then 0 else -1
    case W1 => if g.Regime? then 1 else -1
    case Mo1 => if g.Regime? then 2 else -1
  }

  function HomeGroup(t: Timeframe): Group {
    if IndexOf(Tactical, t) >= 0 then Tactical else Regime
  }

  datatype Card = Card(timeframe: Timeframe, node: nat)

  datatype Layout = Layout(tactical: seq<Card>, regime: seq<Card>) {
    function In(g: Group): seq<Card> {
      if g.Tactical? then tactical else regime
    }
    function With(g: Group, cards: seq<Card>): Layout {
      if g.Tactical? then this.(tactical := cards) else this.(regime := cards)
    }
  }

  /** The first card of the timeframe in a group. */
  function Find(cards: seq<Card>, t: Timeframe): (i: Option<nat>)
    ensures i.Some? ==> i.value < |cards| && cards[i.value].timeframe == t
    ensures i == None ==> forall k :: 0 <= k < |cards| ==> cards[k].timeframe != t
  {
    if cards == [] then None
    else if cards[0].timeframe == t then Some(0)
    else match Find(cards[1..], t) case Some(i) => Some(i + 1) case None => None
  }

  /** The group of the first card of the timeframe in the whole target. */
  function Where(l: Layout, t: Timeframe): Option<Group> {
    if Find(l.tactical, t).Some? then Some(Tactical)
    else if Find(l.regime, t).Some? then Some(Regime)
    else None
  }

  /** The place before the first card that comes later in the group's order, or the end. */
  function Place(cards: seq<Card>, g: Group, position: int): (i: nat)
    ensures i <= |cards|
    ensures forall k :: 0 <= k < i ==> IndexOf(g, cards[k].timeframe) <= position
    ensures i < |cards| ==> IndexOf(g, cards[i].timeframe) > position
  {
    if cards == [] || IndexOf(g, cards[0].timeframe) > position then 0 else 1 + Place(cards[1..], g, position)
  }

  function Insert(cards: seq<Card>, g: Group, card: Card): seq<Card> {
    var i := Place(cards, g, IndexOf(g, card.timeframe));
    cards[..i] + [card] + cards[i..]
  }

  function Without(cards: seq<Card>, t: Timeframe): seq<Card> {
    match Find(cards, t)
    case Some(i) => cards[..i] + cards[i + 1..]
    case None => cards
  }

  /** `replaceTimeframeCard` */
  function Replace(l: Layout, card: Card, g: Group): Layout {
    var t := card.timeframe;
    if Where(l, t) == Some(g) then l.With(g, l.In(g)[Find(l.In(g), t).value := card])
    else
      var removed := if Where(l, t) == None then l else l.With(Where(l, t).value, Without(l.In(Where(l, t).value), t));
      removed.With(g, Insert(removed.In(g), g, card))
  }

  /** `renderTimeframePlaceholders`: one loading card per timeframe, each group in its order. */
  function Placeholders(nodes: Timeframe -> nat): Layout {
    Layout([Card(M15, nodes(M15)), Card(H1, nodes(H1)), Card(H4, nodes(H4))],
           [Card(D1, nodes(D1)), Card(W1, nodes(W1)), Card(Mo1, nodes(Mo1))])
  }

  datatype Answer = Answer(card: Card, group: Group)

  /** The answers in completion order. */
  function After(l: Layout, answers: seq<Answer>): Layout {
    if answers == [] then l
    else
      var last := answers[|answers| - 1];
      Replace(After(l, answers[..|answers| - 1]), last.card, last.group)
  }

  // ------------------------------------------------------------------ what every answer keeps

  function Shape(cards: seq<Card>): seq<Timeframe> {
    seq(|cards|, i requires 0 <= i < |cards| => cards[i].timeframe)
  }

  function Shown(l: Layout): multiset<Timeframe> {
    multiset(Shape(l.tactical)) + multiset(Shape(l.regime))
  }

  predicate InOrder(cards: seq<Card>, g: Group) {
    forall i, j :: 0 <= i < j < |cards| ==> IndexOf(g, cards[i].timeframe) <= IndexOf(g, cards[j].timeframe)
  }

  /** Each timeframe has exactly one card, and each group is in its canonical order. */
  predicate Inv(l: Layout) {
    && (forall t: Timeframe :: Shown(l)[t] == 1)
    && InOrder(l.tactical, Tactical) && InOrder(l.regime, Regime)
  }

  lemma PlaceholdersInv(nodes: Timeframe -> nat)
    ensures Inv(Placeholders(nodes))
  {
    var l := Placeholders(nodes);
    assert Shape(l.tactical) == [M15, H1, H4] && Shape(l.regime) == [D1, W1, Mo1];
    hide Shape;
    forall t: Timeframe ensures Shown(l)[t] == 1 {
      match t case M15 => case H1 => case H4 => case D1 => case W1 => case Mo1 =>
    }
  }

  lemma ShapeOfParts(a: seq<Card>, b: seq<Card>)
    ensures Shape(a + b) == Shape(a) + Shape(b)
    ensures multiset(Shape(a + b)) == multiset(Shape(a)) + multiset(Shape(b))
  {
    assert Shape(a + b) == Shape(a) + Shape(b);
  }

  lemma InsertKeeps(cards: seq<Card>, g: Group, card: Card)
    requires InOrder(cards, g)
    ensures InOrder(Insert(cards, g, card), g)
    ensures multiset(Shape(Insert(cards, g, card))) == multiset(Shape(cards)) + multiset{card.timeframe}
  {
    var i := Place(cards, g, IndexOf(g, card.timeframe));
    hide Place, IndexOf, Shape, InOrder;
    InsertedInOrder(cards, g, i, card);
    InsertedShape(cards, i, card);
  }

  lemma InsertedInOrder(cards: seq<Card>, g: Group, i: nat, card: Card)
    requires InOrder(cards, g) && i <= |cards|
    requires forall k :: 0 <= k < i ==> IndexOf(g, cards[k].timeframe) <= IndexOf(g, card.timeframe)
    requires i < |cards| ==> IndexOf(g, cards[i].timeframe) > IndexOf(g, card.timeframe)
    ensures InOrder(cards[..i] + [card] + cards[i..], g)
  {
    hide IndexOf;
    var after := cards[..i] + [card] + cards[i..];
    assert forall k :: i < k < |after| ==> after[k] == cards[k - 1];
    forall k | i <= k < |cards| ensures IndexOf(g, cards[k].timeframe) > IndexOf(g, card.timeframe) {
    }
  }

  lemma InsertedShape(cards: seq<Card>, i: nat, card: Card)
    requires i <= |cards|
    ensures multiset(Shape(cards[..i] + [card] + cards[i..])) == multiset(Shape(cards)) + multiset{card.timeframe}
  {
    assert Shape([card]) == [card.timeframe];
    hide Shape;
    assert cards == cards[..i] + cards[i..];
    ShapeOfParts(cards[..i], cards[i..]);
    ShapeOfParts(cards[..i], [card]);
    ShapeOfParts(cards[..i] + [card], cards[i..]);
  }

  lemma WithoutKeeps(cards: seq<Card>, g: Group, t: Timeframe)
    requires InOrder(cards, g) && Find(cards, t).Some?
    ensures InOrder(Without(cards, t), g)
    ensures multiset(Shape(cards)) == multiset(Shape(Without(cards, t))) + multiset{t}
  {
    var i := Find(cards, t).value;
    hide Find, IndexOf, Shape, InOrder;
    RemovedInOrder(cards, g, i);
    RemovedShape(cards, i);
  }

  lemma RemovedInOrder(cards: seq<Card>, g: Group, i: nat)
    requires InOrder(cards, g) && i < |cards|
    ensures InOrder(cards[..i] + cards[i + 1..], g)
  {
    hide IndexOf;
    var left := cards[..i] + cards[i + 1..];
    forall j, k | 0 <= j < k < |left| ensures IndexOf(g, left[j].timeframe) <= IndexOf(g, left[k].timeframe) {
      assert left[j] == cards[if j < i then j else j + 1] && left[k] == cards[if k < i then k else k + 1];
    }
  }

  lemma RemovedShape(cards: seq<Card>, i: nat)
    requires i < |cards|
    ensures multiset(Shape(cards)) == multiset(Shape(cards[..i] + cards[i + 1..])) + multiset{cards[i].timeframe}
  {
    hide Shape;
    var left := cards[..i] + cards[i + 1..];
    InsertedShape(left, i, cards[i]);
    assert left[..i] == cards[..i] && left[i..] == cards[i + 1..];
    assert cards == cards[..i] + [cards[i]] + cards[i + 1..];
  }

  lemma UpdateKeeps(cards: seq<Card>, g: Group, i: nat, card: Card)
    requires InOrder(cards, g) && i < |cards| && cards[i].timeframe == card.timeframe
    ensures InOrder(cards[i := card], g) && Shape(cards[i := card]) == Shape(cards)
  {
  }

  lemma SomewhereShown(l: Layout, t: Timeframe)
    requires Inv(l)
    ensures Where(l, t).Some? && Find(l.In(Where(l, t).value), t).Some?
  {
    hide InOrder, Find;
    assert Shown(l)[t] == 1;
  }

  /** MAIN: whatever card is answered, and for whatever group, every timeframe keeps exactly one card
      and both groups stay in their canonical order. */
  lemma ReplaceInv(l: Layout, card: Card, g: Group)
    requires Inv(l)
    ensures Inv(Replace(l, card, g))
  {
    SomewhereShown(l, card.timeframe);
    var from := Where(l, card.timeframe).value;
    hide Find, IndexOf, Where, Shape, InOrder;
    if from == g {
      var i := Find(l.In(g), card.timeframe).value;
      UpdateKeeps(l.In(g), g, i, card);
      hide Replace;
      assert Shown(l.With(g, l.In(g)[i := card])) == Shown(l);
      hide Shown;
      assert Inv(l.With(g, l.In(g)[i := card]));
    } else {
      MovedInv(l, card, from);
    }
  }

  lemma MovedInv(l: Layout, card: Card, from: Group)
    requires Inv(l) && Where(l, card.timeframe) == Some(from) && Find(l.In(from), card.timeframe).Some?
    ensures Inv(Replace(l, card, from.Other()))
  {
    hide Find, IndexOf, Shape, InOrder;
    var t := card.timeframe;
    var left, grown := Without(l.In(from), t), Insert(l.In(from.Other()), from.Other(), card);
    WithoutKeeps(l.In(from), from, t);
    InsertKeeps(l.In(from.Other()), from.Other(), card);
    Moved(l, from, left, grown, t);
    assert Replace(l, card, from.Other()) == l.With(from, left).With(from.Other(), grown) by {
      hide Insert, Without;
    }
    hide Insert, Without, Replace;
  }

  /** A card that moves from one group to the other is shown once all the while. */
  lemma Moved(l: Layout, from: Group, left: seq<Card>, grown: seq<Card>, t: Timeframe)
    requires multiset(Shape(l.In(from))) == multiset(Shape(left)) + multiset{t}
    requires multiset(Shape(grown)) == multiset(Shape(l.In(from.Other()))) + multiset{t}
    ensures Shown(l.With(from, left).With(from.Other(), grown)) == Shown(l)
  {
    hide Shape;
  }

  lemma {:induction false} AfterInv(l: Layout, answers: seq<Answer>)
    requires Inv(l)
    ensures Inv(After(l, answers))
  {
    hide Inv;
    if answers != [] {
      var n := |answers| - 1;
      AfterInv(l, answers[..n]);
      ReplaceInv(After(l, answers[..n]), answers[n].card, answers[n].group);
    }
  }

  // ------------------------------------------------------------------ what decides the layout

  function Foreign(cards: seq<Card>, g: Group): seq<Timeframe> {
    if cards == [] then []
    else
      var last := cards[|cards| - 1].timeframe;
      Foreign(cards[..|cards| - 1], g) + if IndexOf(g, last) < 0 then [last] else []
  }

  function AtHome(cards: seq<Card>, g: Group): seq<Timeframe> {
    if cards == [] then []
    else
      var last := cards[|cards| - 1].timeframe;
      AtHome(cards[..|cards| - 1], g) + if IndexOf(g, last) < 0 then [] else [last]
  }

  predicate Rising(ts: seq<Timeframe>, g: Group) {
    forall i, j :: 0 <= i < j < |ts| ==> IndexOf(g, ts[i]) < IndexOf(g, ts[j])
  }

  /** The foreign cards come first, then the home ones. */
  lemma {:induction false} ForeignersFirst(cards: seq<Card>, g: Group)
    requires InOrder(cards, g)
    ensures Shape(cards) == Foreign(cards, g) + AtHome(cards, g)
  {
    hide IndexOf;
    if cards != [] {
      var n := |cards| - 1;
      ForeignersFirst(cards[..n], g);
      OneMoreShape(cards);
      if IndexOf(g, cards[n].timeframe) < 0 {
        AllForeign(cards[..n], g);
      }
      hide InOrder, Shape;
    }
  }

  lemma OneMoreShape(cards: seq<Card>)
    requires cards != []
    ensures Shape(cards) == Shape(cards[..|cards| - 1]) + [cards[|cards| - 1].timeframe]
  {
  }

  lemma {:induction false} AllForeign(cards: seq<Card>, g: Group)
    requires forall k :: 0 <= k < |cards| ==> IndexOf(g, cards[k].timeframe) < 0
    ensures AtHome(cards, g) == []
  {
    hide IndexOf;
    if cards != [] {
      AllForeign(cards[..|cards| - 1], g);
    }
  }

  lemma {:induction false} ForeignOrHome(cards: seq<Card>, g: Group, t: Timeframe)
    ensures t in Foreign(cards, g) ==> IndexOf(g, t) < 0
    ensures t in AtHome(cards, g) ==> IndexOf(g, t) >= 0
  {
    hide IndexOf;
    if cards != [] {
      ForeignOrHome(cards[..|cards| - 1], g, t);
    }
  }

  lemma HomesRise(l: Layout, g: Group)
    requires Inv(l)
    ensures Rising(AtHome(l.In(g), g), g)
  {
    var h := AtHome(l.In(g), g);
    forall i, j | 0 <= i < j < |h| ensures IndexOf(g, h[i]) < IndexOf(g, h[j]) {
      HomePairRises(l, g, i, j);
    }
  }

  lemma HomePairRises(l: Layout, g: Group, i: nat, j: nat)
    requires Inv(l) && i < j < |AtHome(l.In(g), g)|
    ensures IndexOf(g, AtHome(l.In(g), g)[i]) < IndexOf(g, AtHome(l.In(g), g)[j])
  {
    var cards := l.In(g);
    var offset := |Foreign(cards, g)|;
    HomePlace(cards, g, i);
    HomePlace(cards, g, j);
    PairRises(l, g, offset + i, offset + j);
    hide *;
  }

  lemma HomePlace(cards: seq<Card>, g: Group, i: nat)
    requires InOrder(cards, g) && i < |AtHome(cards, g)|
    ensures |Foreign(cards, g)| + i < |cards|
    ensures cards[|Foreign(cards, g)| + i].timeframe == AtHome(cards, g)[i] && IndexOf(g, AtHome(cards, g)[i]) >= 0
  {
    ForeignersFirst(cards, g);
    ForeignOrHome(cards, g, AtHome(cards, g)[i]);
    hide Foreign, AtHome, IndexOf, InOrder;
    assert |Shape(cards)| == |cards|;
    assert Shape(cards)[|Foreign(cards, g)| + i] == AtHome(cards, g)[i];
  }

  lemma PairRises(l: Layout, g: Group, m: nat, n: nat)
    requires Inv(l) && m < n < |l.In(g)| && IndexOf(g, l.In(g)[m].timeframe) >= 0
    ensures IndexOf(g, l.In(g)[m].timeframe) < IndexOf(g, l.In(g)[n].timeframe)
  {
    ShownOnce(l, g, m, n);
    hide IndexOf, Shown;
    assert InOrder(l.In(g), g);
  }

  lemma ShownOnce(l: Layout, g: Group, i: nat, j: nat)
    requires Inv(l) && i < j < |l.In(g)|
    ensures l.In(g)[i].timeframe != l.In(g)[j].timeframe
  {
    hide InOrder;
    var shape := Shape(l.In(g));
    var t := shape[i];
    assert Shown(l)[t] == 1;
    Twice(shape, i, j);
  }

  lemma Twice(ts: seq<Timeframe>, i: nat, j: nat)
    requires i < j < |ts|
    ensures ts[i] == ts[j] ==> multiset(ts)[ts[i]] >= 2
  {
    assert ts == ts[..j] + [ts[j]] + ts[j + 1..];
    assert ts[..j][i] == ts[i];
  }

  /** A rising list is determined by what is in it. */
  lemma {:induction false} SameRising(a: seq<Timeframe>, b: seq<Timeframe>, g: Group)
    requires Rising(a, g) && Rising(b, g) && multiset(a) == multiset(b)
    ensures a == b
  {
    hide IndexOf;
    assert |multiset(a)| == |a| && |multiset(b)| == |b|;
    if a == [] {
    } else {
      SameLast(a, b, g);
      var m, n := |a| - 1, |b| - 1;
      WithoutLast(a);
      WithoutLast(b);
      SameRising(a[..m], b[..n], g);
      hide Rising;
      assert a == a[..m] + [a[m]] && b == b[..n] + [b[n]];
    }
  }

  lemma WithoutLast(a: seq<Timeframe>)
    requires a != []
    ensures multiset(a[..|a| - 1]) == multiset(a) - multiset{a[|a| - 1]}
  {
    assert a == a[..|a| - 1] + [a[|a| - 1]];
  }

  lemma SameLast(a: seq<Timeframe>, b: seq<Timeframe>, g: Group)
    requires Rising(a, g) && Rising(b, g) && multiset(a) == multiset(b) && a != []
    ensures b != [] && a[|a| - 1] == b[|b| - 1]
  {
    hide IndexOf;
    var x := a[|a| - 1];
    assert x in multiset(b);
    assert x in b;
    var y := b[|b| - 1];
    assert y in multiset(a);
    assert y in a;
    assert IndexOf(g, x) <= IndexOf(g, y) && IndexOf(g, y) <= IndexOf(g, x);
  }

  /** Who is at home in a group is who has not gone to the other. */
  lemma HomeCount(l: Layout, g: Group, t: Timeframe)
    requires Inv(l)
    ensures IndexOf(g, t) < 0 ==> multiset(AtHome(l.In(g), g))[t] == 0
    ensures IndexOf(g, t) >= 0 ==> multiset(AtHome(l.In(g), g))[t] + multiset(Foreign(l.In(g.Other()), g.Other()))[t] == 1
  {
    var here, there := l.In(g), l.In(g.Other());
    CountSplits(here, g, t);
    CountSplits(there, g.Other(), t);
    HomeOrForeign(g, t);
    assert Shown(l)[t] == multiset(Shape(here))[t] + multiset(Shape(there))[t];
    hide *;
  }

  lemma CountSplits(cards: seq<Card>, g: Group, t: Timeframe)
    requires InOrder(cards, g)
    ensures multiset(Shape(cards))[t] == multiset(Foreign(cards, g))[t] + multiset(AtHome(cards, g))[t]
    ensures IndexOf(g, t) < 0 ==> multiset(AtHome(cards, g))[t] == 0
    ensures IndexOf(g, t) >= 0 ==> multiset(Foreign(cards, g))[t] == 0
  {
    ForeignersFirst(cards, g);
    ForeignOrHome(cards, g, t);
    hide Foreign, AtHome, IndexOf, InOrder, Shape;
    assert t in multiset(Foreign(cards, g)) <==> t in Foreign(cards, g);
    assert t in multiset(AtHome(cards, g)) <==> t in AtHome(cards, g);
  }

  lemma HomeOrForeign(g: Group, t: Timeframe)
    ensures IndexOf(g, t) >= 0 <==> IndexOf(g.Other(), t) < 0
  {
  }

  /** MAIN: two layouts that keep the invariant are the same, card by card of their timeframes, exactly
      when the same foreign cards stand in each group in the same order. */
  lemma ForeignersDecideTheLayout(a: Layout, b: Layout)
    requires Inv(a) && Inv(b)
    ensures Shape(a.tactical) == Shape(b.tactical) && Shape(a.regime) == Shape(b.regime) <==>
      Foreign(a.tactical, Tactical) == Foreign(b.tactical, Tactical) && Foreign(a.regime, Regime) == Foreign(b.regime, Regime)
  {
    if Foreign(a.tactical, Tactical) == Foreign(b.tactical, Tactical) && Foreign(a.regime, Regime) == Foreign(b.regime, Regime) {
      SameHomes(a, b, Tactical);
      SameHomes(a, b, Regime);
      ForeignersFirst(a.tactical, Tactical);
      ForeignersFirst(b.tactical, Tactical);
      ForeignersFirst(a.regime, Regime);
      ForeignersFirst(b.regime, Regime);
    }
    if Shape(a.tactical) == Shape(b.tactical) && Shape(a.regime) == Shape(b.regime) {
      ForeignOfShape(a.tactical, b.tactical, Tactical);
      ForeignOfShape(a.regime, b.regime, Regime);
    }
  }

  lemma {:induction false} ForeignOfShape(a: seq<Card>, b: seq<Card>, g: Group)
    requires Shape(a) == Shape(b)
    ensures Foreign(a, g) == Foreign(b, g)
  {
    hide IndexOf;
    assert |Shape(a)| == |Shape(b)|;
    if a != [] {
      var n := |a| - 1;
      assert Shape(a)[n] == Shape(b)[n];
      assert Shape(a[..n]) == Shape(a)[..n] == Shape(b)[..n] == Shape(b[..n]);
      ForeignOfShape(a[..n], b[..n], g);
    }
  }

  lemma SameHomes(a: Layout, b: Layout, g: Group)
    requires Inv(a) && Inv(b) && Foreign(a.In(g.Other()), g.Other()) == Foreign(b.In(g.Other()), g.Other())
    ensures AtHome(a.In(g), g) == AtHome(b.In(g), g)
  {
    HomesRise(a, g);
    HomesRise(b, g);
    hide AtHome, Inv, IndexOf, Foreign;
    forall t ensures multiset(AtHome(a.In(g), g))[t] == multiset(AtHome(b.In(g), g))[t] {
      HomeCount(a, g, t);
      HomeCount(b, g, t);
    }
    SameRising(AtHome(a.In(g), g), AtHome(b.In(g), g), g);
  }

  // ------------------------------------------------------------------ completion orders

  /** The timeframes answered into a group that is not their own, in completion order. */
  function Strayed(answers: seq<Answer>, g: Group): seq<Timeframe> {
    if answers == [] then []
    else
      var last := answers[|answers| - 1];
      Strayed(answers[..|answers| - 1], g) +
      if last.group == g && IndexOf(g, last.card.timeframe) < 0 then [last.card.timeframe] else []
  }

  predicate OnceEach(answers: seq<Answer>) {
    forall i, j :: 0 <= i < j < |answers| ==> answers[i].card.timeframe != answers[j].card.timeframe
  }

  /** A timeframe not yet answered still stands in its home group. */
  predicate StillHome(l: Layout, t: Timeframe) {
    Where(l, t) == Some(HomeGroup(t))
  }

  lemma {:induction false} ForeignOfParts(a: seq<Card>, b: seq<Card>, g: Group)
    ensures Foreign(a + b, g) == Foreign(a, g) + Foreign(b, g)
  {
    hide IndexOf;
    if b == [] {
      assert a + b == a;
    } else {
      var n := |b| - 1;
      assert (a + b)[..|a + b| - 1] == a + b[..n] && (a + b)[|a + b| - 1] == b[n];
      ForeignOfParts(a, b[..n], g);
    }
  }

  lemma {:induction false} NoForeign(cards: seq<Card>, g: Group)
    requires forall k :: 0 <= k < |cards| ==> IndexOf(g, cards[k].timeframe) >= 0
    ensures Foreign(cards, g) == []
  {
    hide IndexOf;
    if cards != [] {
      NoForeign(cards[..|cards| - 1], g);
    }
  }

  /** A card put into a group not its own comes after the foreign cards already there. */
  lemma InsertForeign(cards: seq<Card>, g: Group, card: Card)
    requires InOrder(cards, g) && IndexOf(g, card.timeframe) < 0
    ensures Foreign(Insert(cards, g, card), g) == Foreign(cards, g) + [card.timeframe]
  {
    hide IndexOf, Place, InOrder, Foreign;
    ForeignIndex(g, card.timeframe);
    var i := Place(cards, g, IndexOf(g, card.timeframe));
    RestIsHome(cards, g, i);
    ForeignOne(card, g);
    ForeignInBetween(cards[..i], card, cards[i..], g);
    assert cards[..i] + cards[i..] == cards;
  }

  lemma ForeignInBetween(a: seq<Card>, card: Card, b: seq<Card>, g: Group)
    requires Foreign(b, g) == []
    ensures Foreign(a + [card] + b, g) == Foreign(a + b, g) + Foreign([card], g)
  {
    hide Foreign;
    ForeignOfParts(a, b, g);
    ForeignOfParts(a, [card], g);
    ForeignOfParts(a + [card], b, g);
    assert Foreign(a, g) + [] == Foreign(a, g);
    assert Foreign(a, g) + Foreign([card], g) + [] == Foreign(a, g) + Foreign([card], g);
  }

  lemma RestIsHome(cards: seq<Card>, g: Group, i: nat)
    requires InOrder(cards, g) && i <= |cards| && (i < |cards| ==> IndexOf(g, cards[i].timeframe) >= 0)
    ensures Foreign(cards[i..], g) == []
  {
    hide IndexOf;
    forall k | i <= k < |cards| ensures IndexOf(g, cards[k].timeframe) >= 0 {
      assert i < k ==> IndexOf(g, cards[i].timeframe) <= IndexOf(g, cards[k].timeframe);
    }
    NoForeign(cards[i..], g);
  }

  lemma ForeignOne(card: Card, g: Group)
    ensures Foreign([card], g) == if IndexOf(g, card.timeframe) < 0 then [card.timeframe] else []
  {
    hide IndexOf;
    assert [card][..0] == [];
    assert Foreign([], g) == [];
  }

  lemma ForeignIndex(g: Group, t: Timeframe)
    ensures IndexOf(g, t) >= -1
  {
  }

  lemma RemoveHome(cards: seq<Card>, g: Group, t: Timeframe)
    requires Find(cards, t).Some? && IndexOf(g, t) >= 0
    ensures Foreign(Without(cards, t), g) == Foreign(cards, g)
  {
    var i := Find(cards, t).value;
    hide Find, IndexOf, Foreign;
    HomeInBetween(cards[..i], cards[i], cards[i + 1..], g);
    assert cards[..i] + [cards[i]] + cards[i + 1..] == cards;
  }

  lemma HomeInBetween(a: seq<Card>, c: Card, b: seq<Card>, g: Group)
    requires IndexOf(g, c.timeframe) >= 0
    ensures Foreign(a + [c] + b, g) == Foreign(a + b, g)
  {
    NoForeign([c], g);
    hide Foreign;
    ForeignOfParts(a, [c], g);
    ForeignOfParts(a + [c], b, g);
    ForeignOfParts(a, b, g);
    assert Foreign(a, g) + [] == Foreign(a, g);
  }

  function StrayedBy(a: Answer, g: Group): seq<Timeframe> {
    if a.group == g && IndexOf(g, a.card.timeframe) < 0 then [a.card.timeframe] else []
  }

  /** One answer for a timeframe still at home: it stays, or joins the other group's foreigners last. */
  lemma AnswerFromHome(l: Layout, a: Answer, g: Group)
    requires Inv(l) && StillHome(l, a.card.timeframe)
    ensures Foreign(Replace(l, a.card, a.group).In(g), g) == Foreign(l.In(g), g) + StrayedBy(a, g)
  {
    hide *;
    var from := HomeFacts(l, a.card.timeframe);
    if from == a.group {
      StaysAtHome(l, a.card, from, g);
      assert StrayedBy(a, g) == [] by {
        StaysUnstrayed(a, g);
      }
      assert Foreign(l.In(g), g) + [] == Foreign(l.In(g), g);
    } else {
      Leaves(l, a.card, from, g);
      StrayedOther(a, from, g);
    }
  }

  lemma HomeFacts(l: Layout, t: Timeframe) returns (from: Group)
    requires Inv(l) && StillHome(l, t)
    ensures Where(l, t) == Some(from) && Find(l.In(from), t).Some?
    ensures IndexOf(from, t) >= 0 && IndexOf(from.Other(), t) < 0
  {
    from := HomeGroup(t);
    SomewhereShown(l, t);
    HomeOrForeign(from, t);
    hide Inv, Find;
  }

  lemma StaysUnstrayed(a: Answer, g: Group)
    requires IndexOf(a.group, a.card.timeframe) >= 0
    ensures StrayedBy(a, g) == []
  {
  }

  lemma StrayedOther(a: Answer, from: Group, g: Group)
    requires a.group != from && IndexOf(from.Other(), a.card.timeframe) < 0
    ensures a.group == from.Other()
    ensures StrayedBy(a, g) == if g == from then [] else [a.card.timeframe]
  {
  }

  lemma StaysAtHome(l: Layout, card: Card, from: Group, g: Group)
    requires Where(l, card.timeframe) == Some(from)
    ensures Foreign(Replace(l, card, from).In(g), g) == Foreign(l.In(g), g)
  {
    AnswerInPlace(l.In(from), Find(l.In(from), card.timeframe).value, card, from);
    hide Find, IndexOf, Foreign, Replace, Where;
  }

  lemma Leaves(l: Layout, card: Card, from: Group, g: Group)
    requires Inv(l) && Where(l, card.timeframe) == Some(from) && Find(l.In(from), card.timeframe).Some?
    requires IndexOf(from, card.timeframe) >= 0 && IndexOf(from.Other(), card.timeframe) < 0
    ensures Foreign(Replace(l, card, from.Other()).In(g), g) ==
      Foreign(l.In(g), g) + if g == from then [] else [card.timeframe]
  {
    ReplacedByMoving(l, card, from);
    RemoveHome(l.In(from), from, card.timeframe);
    InsertIntoOther(l, from.Other(), card);
    hide Find, IndexOf, Foreign, Replace, Where, Insert, Without;
    assert Foreign(l.In(from), from) + [] == Foreign(l.In(from), from);
  }

  lemma InsertIntoOther(l: Layout, g: Group, card: Card)
    requires Inv(l) && IndexOf(g, card.timeframe) < 0
    ensures Foreign(Insert(l.In(g), g, card), g) == Foreign(l.In(g), g) + [card.timeframe]
  {
    InsertForeign(l.In(g), g, card);
  }

  lemma AnswerInPlace(cards: seq<Card>, i: nat, card: Card, g: Group)
    requires i < |cards| && cards[i].timeframe == card.timeframe
    ensures Foreign(cards[i := card], g) == Foreign(cards, g)
  {
    assert Shape(cards[i := card]) == Shape(cards);
    ForeignOfShape(cards, cards[i := card], g);
  }

  lemma ReplacedByMoving(l: Layout, card: Card, from: Group)
    requires Where(l, card.timeframe) == Some(from) && Find(l.In(from), card.timeframe).Some?
    ensures var to := from.Other();
      Replace(l, card, to) == l.With(from, Without(l.In(from), card.timeframe)).With(to, Insert(l.In(to), to, card))
  {
    hide Insert, Without;
  }

  // ------------------------------------------------------------------ the cards themselves

  /** The card of another timeframe is where it was. */
  lemma OtherCardsStay(l: Layout, card: Card, to: Group, c: Card, g: Group)
    requires Inv(l) && c.timeframe != card.timeframe
    ensures c in Replace(l, card, to).In(g) <==> c in l.In(g)
  {
    var t := card.timeframe;
    SomewhereShown(l, t);
    var from := Where(l, t).value;
    hide IndexOf, InOrder, Shown;
    if from == to {
      hide Replace, Find;
      OneChanged(l.In(to), Find(l.In(to), t).value, card, c);
    } else {
      ReplacedByMoving(l, card, from);
      OneRemoved(l.In(from), Find(l.In(from), t).value, c);
      OneInserted(l.In(to), Place(l.In(to), to, IndexOf(to, t)), card, c);
      hide Replace, Find, Place;
    }
  }

  lemma OneChanged(cards: seq<Card>, i: nat, card: Card, c: Card)
    requires i < |cards| && cards[i] != c && card != c
    ensures c in cards[i := card] <==> c in cards
  {
    if c in cards {
      var k :| 0 <= k < |cards| && cards[k] == c;
      assert cards[i := card][k] == c;
    }
  }

  lemma OneRemoved(cards: seq<Card>, i: nat, c: Card)
    requires i < |cards| && cards[i] != c
    ensures c in cards[..i] + cards[i + 1..] <==> c in cards
  {
    assert cards == cards[..i] + [cards[i]] + cards[i + 1..];
  }

  lemma OneInserted(cards: seq<Card>, i: nat, card: Card, c: Card)
    requires i <= |cards| && card != c
    ensures c in cards[..i] + [card] + cards[i..] <==> c in cards
  {
    assert cards == cards[..i] + cards[i..];
  }

  lemma AnsweredIsShown(l: Layout, card: Card, g: Group)
    requires Inv(l)
    ensures card in Replace(l, card, g).In(g)
  {
    SomewhereShown(l, card.timeframe);
    var from := Where(l, card.timeframe).value;
    hide IndexOf, InOrder, Shown;
    if from == g {
      var i := Find(l.In(g), card.timeframe).value;
      assert l.In(g)[i := card][i] == card;
    } else {
      ReplacedByMoving(l, card, from);
    }
  }

  lemma WhereItStands(l: Layout, c: Card, g: Group)
    requires Inv(l) && c in l.In(g)
    ensures Where(l, c.timeframe) == Some(g)
  {
    hide InOrder, Find;
    var i :| 0 <= i < |l.In(g)| && l.In(g)[i] == c;
    assert Shape(l.In(g))[i] == c.timeframe;
    assert Shown(l)[c.timeframe] == 1;
    FoundIsShown(l.tactical, c.timeframe);
    FoundIsShown(l.regime, c.timeframe);
  }

  lemma FoundIsShown(cards: seq<Card>, t: Timeframe)
    ensures Find(cards, t).Some? ==> multiset(Shape(cards))[t] > 0
  {
    if Find(cards, t).Some? {
      var i := Find(cards, t).value;
      hide Find;
      assert Shape(cards)[i] == t;
    }
  }

  /** A group's order is its list of timeframes, and each timeframe is of one group. */
  lemma IndexMeans(g: Group, t: Timeframe, k: nat)
    ensures var order := if g.Tactical? then [M15, H1, H4] else [D1, W1, Mo1];
      (IndexOf(g, t) == k <==> k < |order| && order[k] == t) && (IndexOf(g, t) < 0 <==> t !in order)
    ensures HomeGroup(t) == g <==> t in if g.Tactical? then [M15, H1, H4] else [D1, W1, Mo1]
  {
    var order := if g.Tactical? then [M15, H1, H4] else [D1, W1, Mo1];
    assert t in order <==> t == order[0] || t == order[1] || t == order[2];
  }

  lemma OneCardOf(l: Layout, c: Card, g: Group, d: Card, h: Group)
    requires Inv(l) && c in l.In(g) && d in l.In(h) && c.timeframe == d.timeframe
    ensures c == d && g == h
  {
    hide *;
    var i :| 0 <= i < |l.In(g)| && l.In(g)[i] == c;
    TheOneCard(l, g, i, d, h);
    WhereItStands(l, c, g);
    WhereItStands(l, d, h);
  }

  /** MAIN: an answer shows its card in its group, in place of its timeframe's, and moves no other card to
      another group. */
  lemma ReplacedExactly(l: Layout, card: Card, to: Group, c: Card, g: Group)
    requires Inv(l)
    ensures c in Replace(l, card, to).In(g) <==> (c == card && g == to) || (c in l.In(g) && c.timeframe != card.timeframe)
  {
    hide *;
    ReplaceInv(l, card, to);
    AnsweredIsShown(l, card, to);
    if c.timeframe != card.timeframe {
      OtherCardsStay(l, card, to, c, g);
    } else if c in Replace(l, card, to).In(g) {
      OneCardOf(Replace(l, card, to), c, g, card, to);
    }
  }

  // ------------------------------------------------------------------ runs from the placeholders

  predicate Unanswered(answers: seq<Answer>, t: Timeframe) {
    forall i :: 0 <= i < |answers| ==> answers[i].card.timeframe != t
  }

  /** The card a timeframe shows: its answer's, or still its placeholder. */
  ghost predicate Due(nodes: Timeframe -> nat, answers: seq<Answer>, c: Card, g: Group) {
    || (exists i :: 0 <= i < |answers| && answers[i] == Answer(c, g))
    || (Unanswered(answers, c.timeframe) && c == Card(c.timeframe, nodes(c.timeframe)) && g == HomeGroup(c.timeframe))
  }

  lemma {:induction false} AfterAnswers(nodes: Timeframe -> nat, answers: seq<Answer>, c: Card, g: Group)
    requires OnceEach(answers)
    ensures Inv(After(Placeholders(nodes), answers))
    ensures Due(nodes, answers, c, g) ==> c in After(Placeholders(nodes), answers).In(g)
  {
    PlaceholdersInv(nodes);
    AfterInv(Placeholders(nodes), answers);
    if answers != [] {
      var n := |answers| - 1;
      var before, last := After(Placeholders(nodes), answers[..n]), answers[n];
      AfterInv(Placeholders(nodes), answers[..n]);
      if Due(nodes, answers, c, g) {
        hide Inv, Replace, Placeholders;
        if last == Answer(c, g) {
          AnsweredIsShown(before, c, g);
        } else {
          DueBefore(nodes, answers, c, g);
          AfterAnswers(nodes, answers[..n], c, g);
          OtherCardsStay(before, last.card, last.group, c, g);
        }
      }
    }
  }

  lemma DueBefore(nodes: Timeframe -> nat, answers: seq<Answer>, c: Card, g: Group)
    requires OnceEach(answers) && answers != [] && Due(nodes, answers, c, g) && answers[|answers| - 1] != Answer(c, g)
    ensures Due(nodes, answers[..|answers| - 1], c, g) && c.timeframe != answers[|answers| - 1].card.timeframe
  {
    var n := |answers| - 1;
    if i :| 0 <= i < |answers| && answers[i] == Answer(c, g) {
      assert answers[..n][i] == Answer(c, g);
    }
  }

  lemma NotYetAnsweredIsHome(nodes: Timeframe -> nat, answers: seq<Answer>, t: Timeframe)
    requires OnceEach(answers) && Unanswered(answers, t)
    ensures Inv(After(Placeholders(nodes), answers)) && StillHome(After(Placeholders(nodes), answers), t)
  {
    var c := Card(t, nodes(t));
    AfterAnswers(nodes, answers, c, HomeGroup(t));
    WhereItStands(After(Placeholders(nodes), answers), c, HomeGroup(t));
    hide Inv, After;
  }

  /** The foreign cards of a group stand in completion order. */
  lemma {:induction false} StrayedAreForeign(nodes: Timeframe -> nat, answers: seq<Answer>, g: Group)
    requires OnceEach(answers)
    ensures Foreign(After(Placeholders(nodes), answers).In(g), g) == Strayed(answers, g)
  {
    if answers == [] {
      NoForeign(Placeholders(nodes).In(g), g);
    } else {
      var n := |answers| - 1;
      var last := answers[n];
      StrayedAreForeign(nodes, answers[..n], g);
      NotYetAnsweredIsHome(nodes, answers[..n], last.card.timeframe);
      hide Inv, Foreign, Replace, IndexOf, Where, Placeholders;
      AnswerFromHome(After(Placeholders(nodes), answers[..n]), last, g);
    }
  }

  /** The card every timeframe must show in the end. */
  lemma DueCard(nodes: Timeframe -> nat, answers: seq<Answer>, t: Timeframe) returns (c: Card, g: Group)
    ensures c.timeframe == t && Due(nodes, answers, c, g)
  {
    if Unanswered(answers, t) {
      c, g := Card(t, nodes(t)), HomeGroup(t);
    } else {
      var i :| 0 <= i < |answers| && answers[i].card.timeframe == t;
      c, g := answers[i].card, answers[i].group;
      assert answers[i] == Answer(c, g);
    }
  }

  lemma DueInEither(nodes: Timeframe -> nat, a: seq<Answer>, b: seq<Answer>, c: Card, g: Group)
    requires (forall x :: x in a <==> x in b) && Due(nodes, a, c, g)
    ensures Due(nodes, b, c, g)
  {
    if i :| 0 <= i < |a| && a[i] == Answer(c, g) {
      assert a[i] in b;
      var j :| 0 <= j < |b| && b[j] == a[i];
    } else {
      forall j | 0 <= j < |b| ensures b[j].card.timeframe != c.timeframe {
        assert b[j] in a;
      }
    }
  }

  lemma TheOneCard(l: Layout, g: Group, i: nat, c: Card, h: Group)
    requires Inv(l) && i < |l.In(g)| && c in l.In(h) && c.timeframe == l.In(g)[i].timeframe
    ensures l.In(g)[i] == c
  {
    WhereItStands(l, l.In(g)[i], g);
    WhereItStands(l, c, h);
    assert g == h;
    hide *;
    var k :| 0 <= k < |l.In(g)| && l.In(g)[k] == c;
    if i < k {
      ShownOnce(l, g, i, k);
    } else if k < i {
      ShownOnce(l, g, k, i);
    }
  }

  lemma SameCard(nodes: Timeframe -> nat, a: seq<Answer>, b: seq<Answer>, g: Group, i: nat)
    requires OnceEach(a) && OnceEach(b) && forall x :: x in a <==> x in b
    requires i < |After(Placeholders(nodes), a).In(g)| && i < |After(Placeholders(nodes), b).In(g)|
    requires After(Placeholders(nodes), a).In(g)[i].timeframe == After(Placeholders(nodes), b).In(g)[i].timeframe
    ensures After(Placeholders(nodes), a).In(g)[i] == After(Placeholders(nodes), b).In(g)[i]
  {
    hide Inv, After, Placeholders, Due, OnceEach;
    var c, h := DueCard(nodes, a, After(Placeholders(nodes), a).In(g)[i].timeframe);
    DueInEither(nodes, a, b, c, h);
    AfterAnswers(nodes, a, c, h);
    AfterAnswers(nodes, b, c, h);
    TheOneCard(After(Placeholders(nodes), a), g, i, c, h);
    TheOneCard(After(Placeholders(nodes), b), g, i, c, h);
  }

  /** MAIN: when each timeframe is answered at most once, the cards shown are the answered ones, each in its
      group, and the placeholders of the others at home; in each group, those from the other come first, in
      completion order, and then its own, in its order. */
  lemma FinalLayout(nodes: Timeframe -> nat, answers: seq<Answer>, c: Card, g: Group)
    requires OnceEach(answers)
    ensures var l := After(Placeholders(nodes), answers);
      && (c in l.In(g) <==> Due(nodes, answers, c, g))
      && Shape(l.In(g)) == Strayed(answers, g) + AtHome(l.In(g), g) && Rising(AtHome(l.In(g), g), g)
  {
    var l := After(Placeholders(nodes), answers);
    hide *;
    AfterAnswers(nodes, answers, c, g);
    if c in l.In(g) {
      var d, h := DueCard(nodes, answers, c.timeframe);
      AfterAnswers(nodes, answers, d, h);
      OneCardOf(l, c, g, d, h);
    }
    HomesRise(l, g);
    OrderedGroups(l, g);
    ForeignersFirst(l.In(g), g);
    StrayedAreForeign(nodes, answers, g);
  }

  lemma OrderedGroups(l: Layout, g: Group)
    requires Inv(l)
    ensures InOrder(l.In(g), g)
  {
    hide InOrder, Shown;
  }

  /** MAIN: of the same answers, each timeframe's once, two completion orders give the same cards in the
      same places exactly when the cards that left their home group came in the same order. */
  lemma CompletionOrderMattersOnlyForStrays(nodes: Timeframe -> nat, a: seq<Answer>, b: seq<Answer>)
    requires OnceEach(a) && OnceEach(b) && forall x :: x in a <==> x in b
    ensures After(Placeholders(nodes), a) == After(Placeholders(nodes), b) <==>
      Strayed(a, Tactical) == Strayed(b, Tactical) && Strayed(a, Regime) == Strayed(b, Regime)
  {
    var la, lb := After(Placeholders(nodes), a), After(Placeholders(nodes), b);
    PlaceholdersInv(nodes);
    AfterInv(Placeholders(nodes), a);
    AfterInv(Placeholders(nodes), b);
    StrayedAreForeign(nodes, a, Tactical);
    StrayedAreForeign(nodes, b, Tactical);
    StrayedAreForeign(nodes, a, Regime);
    StrayedAreForeign(nodes, b, Regime);
    ForeignersDecideTheLayout(la, lb);
    hide Inv, After, Placeholders, Strayed, Foreign, OnceEach;
    if Shape(la.tactical) == Shape(lb.tactical) && Shape(la.regime) == Shape(lb.regime) {
      SameCards(nodes, a, b, Tactical);
      SameCards(nodes, a, b, Regime);
    }
  }

  lemma SameCards(nodes: Timeframe -> nat, a: seq<Answer>, b: seq<Answer>, g: Group)
    requires OnceEach(a) && OnceEach(b) && forall x :: x in a <==> x in b
    requires Shape(After(Placeholders(nodes), a).In(g)) == Shape(After(Placeholders(nodes), b).In(g))
    ensures After(Placeholders(nodes), a).In(g) == After(Placeholders(nodes), b).In(g)
  {
    var ca, cb := After(Placeholders(nodes), a).In(g), After(Placeholders(nodes), b).In(g);
    assert |Shape(ca)| == |Shape(cb)|;
    hide After, Placeholders, OnceEach;
    forall i | 0 <= i < |ca| ensures ca[i] == cb[i] {
      assert Shape(ca)[i] == Shape(cb)[i];
      SameCard(nodes, a, b, g, i);
    }
  }

  lemma {:induction false} NoStrays(answers: seq<Answer>, g: Group)
    requires forall i :: 0 <= i < |answers| ==> answers[i].group == HomeGroup(answers[i].card.timeframe)
    ensures Strayed(answers, g) == []
  {
    if answers != [] {
      NoStrays(answers[..|answers| - 1], g);
    }
  }

  /** MAIN: when every answer stays in its home group, every completion order ends in the same layout. */
  lemma HomeAnswersCommute(nodes: Timeframe -> nat, a: seq<Answer>, b: seq<Answer>)
    requires OnceEach(a) && OnceEach(b) && forall x :: x in a <==> x in b
    requires forall x :: x in a ==> x.group == HomeGroup(x.card.timeframe)
    ensures After(Placeholders(nodes), a) == After(Placeholders(nodes), b)
  {
    NoStrays(a, Tactical);
    NoStrays(a, Regime);
    forall i | 0 <= i < |b| ensures b[i].group == HomeGroup(b[i].card.timeframe) {
      assert b[i] in a;
    }
    NoStrays(b, Tactical);
    NoStrays(b, Regime);
    CompletionOrderMattersOnlyForStrays(nodes, a, b);
  }

  lemma StrayedPair(x: Answer, y: Answer, g: Group)
    ensures Strayed([x, y], g) == StrayedBy(x, g) + StrayedBy(y, g)
  {
    assert [x, y][..1] == [x] && [x][..0] == [];
    assert Strayed([x], g) == StrayedBy(x, g);
  }

  /** Two answers commute exactly when they are not two strays in one group: there, the two cards stand in
      completion order, so the order shows. */
  lemma TwoStraysShowTheirOrder(nodes: Timeframe -> nat, x: Answer, y: Answer)
    requires x.card.timeframe != y.card.timeframe
    ensures After(Placeholders(nodes), [x, y]) == After(Placeholders(nodes), [y, x]) <==>
      !(x.group == y.group && StrayedBy(x, x.group) != [] && StrayedBy(y, y.group) != [])
  {
    assert forall z :: z in [x, y] <==> z in [y, x];
    CompletionOrderMattersOnlyForStrays(nodes, [x, y], [y, x]);
    hide After, Placeholders;
    forall g ensures Strayed([x, y], g) == Strayed([y, x], g) <==> StrayedBy(x, g) == [] || StrayedBy(y, g) == [] {
      StrayedPair(x, y, g);
      StrayedPair(y, x, g);
      hide Strayed, IndexOf;
      OneAnswerEach(x, y, g);
    }
    hide Strayed, IndexOf;
    assert StrayedBy(x, Tactical) == [] || StrayedBy(x, Regime) == [];
  }

  lemma OneAnswerEach(x: Answer, y: Answer, g: Group)
    requires x.card.timeframe != y.card.timeframe
    ensures StrayedBy(x, g) + StrayedBy(y, g) == StrayedBy(y, g) + StrayedBy(x, g) <==> StrayedBy(x, g) == [] || StrayedBy(y, g) == []
  {
    hide IndexOf;
    if StrayedBy(x, g) != [] && StrayedBy(y, g) != [] {
      assert (StrayedBy(x, g) + StrayedBy(y, g))[0] == x.card.timeframe;
      assert (StrayedBy(y, g) + StrayedBy(x, g))[0] == y.card.timeframe;
    }
  }

  // ------------------------------------------------------------------ the target as the source changes it

  class Target {
    var tactical: seq<Card>
    var regime: seq<Card>

    function Abs(): Layout
      reads this
    {
      Layout(tactical, regime)
    }

    /** `renderTimeframePlaceholders` */
    method RenderPlaceholders(nodes: Timeframe -> nat)
      modifies this
      ensures Abs() == Placeholders(nodes)
    {
      tactical := GroupOf(nodes, TACTICAL_TIMEFRAMES);
      regime := GroupOf(nodes, REGIME_TIMEFRAMES);
    }

    static method GroupOf(nodes: Timeframe -> nat, order: seq<Timeframe>) returns (cards: seq<Card>)
      ensures |cards| == |order| && forall i :: 0 <= i < |order| ==> cards[i] == Card(order[i], nodes(order[i]))
    {
      cards := [];
      for i := 0 to |order|
        invariant |cards| == i && forall k :: 0 <= k < i ==> cards[k] == Card(order[k], nodes(order[k]))
      {
        cards := cards + [Card(order[i], nodes(order[i]))];
      }
    }

    /** querySelector: the first card of the timeframe. */
    static method QueryCard(cards: seq<Card>, t: Timeframe) returns (i: Option<nat>)
      ensures i == Find(cards, t)
    {
      for k := 0 to |cards|
        invariant Find(cards, t) == match Find(cards[k..], t) case Some(j) => Some(k + j) case None => None
      {
        if cards[k].timeframe == t {
          return Some(k);
        }
        assert cards[k..][1..] == cards[k + 1..];
      }
      return None;
    }

    /** insertBefore the first card that comes later in the group's order, or last. */
    static method InsertCard(cards: seq<Card>, g: Group, card: Card) returns (grown: seq<Card>)
      ensures grown == Insert(cards, g, card)
    {
      hide IndexOf;
      var position := IndexOf(g, card.timeframe);
      for k := 0 to |cards|
        invariant Place(cards, g, position) == k + Place(cards[k..], g, position)
      {
        if IndexOf(g, cards[k].timeframe) > position {
          return cards[..k] + [card] + cards[k..];
        }
        assert cards[k..][1..] == cards[k + 1..];
      }
      return cards[..|cards|] + [card] + cards[|cards|..];
    }

    method SetGroup(g: Group, cards: seq<Card>)
      modifies this
      ensures Abs() == old(Abs()).With(g, cards)
    {
      if g == Tactical {
        tactical := cards;
      } else {
        regime := cards;
      }
    }

    method ReplaceTimeframeCard(card: Card, g: Group)
      modifies this
      ensures Abs() == Replace(old(Abs()), card, g)
    {
      hide Find, Insert;
      var first := QueryCard(tactical, card.timeframe);
      var second := QueryCard(regime, card.timeframe);
      var parent := if first.Some? then Some(Tactical) else if second.Some? then Some(Regime) else None;
      var at := if first.Some? then first else second;
      if parent == Some(g) {
        SetGroup(g, Abs().In(g)[at.value := card]);
        return;
      }
      if parent.Some? {
        var cards := Abs().In(parent.value);
        SetGroup(parent.value, cards[..at.value] + cards[at.value + 1..]);
      }
      var grown := InsertCard(Abs().In(g), g, card);
      SetGroup(g, grown);
    }
  }
}
