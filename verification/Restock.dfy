/**
 Restock proposals (app/ai/agents/restock.py, and the board of app/domains/po/service.py):
 what is stored for a book, whatever the model answers, and what the admins' decisions make
 of it. Quantities that the code computes with floats are exact here.
 */
module Restock {
  import opened Options

  const LEAD_TIME_DAYS := 7
  const SAFETY_DAYS := 7

  datatype Trigger = InspectionReject | SafetyStock | OrderShortage

  datatype Urgency = Critical | High | Medium | Low

  datatype CardStatus = CardPending | CardApproved | CardDismissed

  /** What the collector reads for a book. */
  datatype Facts = Facts(sales30d: nat, currentStock: nat, minSafetyStock: int, hasSalesHistory: bool)

  /** The model's answer; a field may be missing or unreadable. */
  datatype Quantity = Missing | Unreadable | Given(n: int)

  datatype Answer = NoModel | Decision(quantity: Quantity, urgency: Option<Urgency>)

  datatype Card = Card(
    book: nat, status: CardStatus, cause: Trigger,
    rejected: nat, baseline: nat, quantity: nat, urgency: Urgency)

  datatype Order = Order(card: nat, book: nat, quantity: nat)

  function Max(a: int, b: int): int {
    if a < b then b else a
  }

  function Min(a: int, b: int): int {
    if a < b then a else b
  }

  // --- Collector --------------------------------------------------------------------------------

  /** The expected sales of the lead time and the buffer, rounded up, but at least the safety stock. */
  function DemandCover(f: Facts): int {
    Max((f.sales30d * (LEAD_TIME_DAYS + SAFETY_DAYS) + 29) / 30, f.minSafetyStock)
  }

  function Baseline(f: Facts, rejected: nat): nat {
    Max(DemandCover(f) - f.currentStock, 0) + rejected
  }

  predicate StockoutRecovery(f: Facts) {
    f.currentStock == 0 && f.hasSalesHistory
  }

  /** The stock lasts fewer days than given. */
  predicate LastsLessThan(f: Facts, days: nat) {
    f.sales30d > 0 && f.currentStock * 30 < days * f.sales30d
  }

  function RuleUrgency(f: Facts, rejected: nat): Urgency {
    if StockoutRecovery(f) || f.currentStock <= 2 || LastsLessThan(f, LEAD_TIME_DAYS) then Critical
    else if f.currentStock <= 5 || LastsLessThan(f, LEAD_TIME_DAYS + SAFETY_DAYS) then High
    else if Baseline(f, rejected) > 0 then Medium
    else Low
  }

  /** Ordering the baseline covers the demand and makes up for the rejected copies, and no smaller order does both. */
  lemma BaselineIsTheLeastCover(f: Facts, rejected: nat, order: nat)
    requires order >= rejected
    ensures f.currentStock + (order - rejected) >= DemandCover(f) <==> order >= Baseline(f, rejected)
    ensures 30 * DemandCover(f) >= (LEAD_TIME_DAYS + SAFETY_DAYS) * f.sales30d
  {
  }

  /** The demand is the least number of copies that covers 14 days at the rate of the last 30 and the safety stock. */
  lemma DemandIsTheLeastCover(f: Facts, copies: int)
    ensures copies >= DemandCover(f) <==> 30 * copies >= 14 * f.sales30d && copies >= f.minSafetyStock
  {
  }

  /** The days that the stock lasts at the rate of the last 30. */
  function DaysOfStock(f: Facts): real
    requires f.sales30d > 0
  {
    f.currentStock as real / (f.sales30d as real / 30.0)
  }

  lemma LastsInDays(f: Facts, days: nat)
    requires f.sales30d > 0
    ensures LastsLessThan(f, days) <==> DaysOfStock(f) < days as real
  {
    var stock, sales := f.currentStock as real, f.sales30d as real;
    assert DaysOfStock(f) * sales == stock * 30.0 by {
      assert DaysOfStock(f) * (sales / 30.0) == stock;
    }
    if DaysOfStock(f) < days as real {
      assert DaysOfStock(f) * sales < days as real * sales;
    } else {
      assert DaysOfStock(f) * sales >= days as real * sales;
    }
    assert (days * f.sales30d) as real == days as real * sales;
  }

  /** The rule's urgency, in days of stock: under a week, or with two copies or a sold-out book of the catalogue, critical;
      under two weeks or with five copies high; otherwise medium exactly if something is to be ordered. */
  lemma UrgencyInDays(f: Facts, rejected: nat)
    ensures RuleUrgency(f, rejected) == Critical <==>
              f.currentStock <= 2 || (f.sales30d > 0 && DaysOfStock(f) < 7.0)
    ensures RuleUrgency(f, rejected) in {Critical, High} <==>
              f.currentStock <= 5 || (f.sales30d > 0 && DaysOfStock(f) < 14.0)
    ensures RuleUrgency(f, rejected) == Medium ==> rejected > 0 || 14 * f.sales30d > 30 * f.currentStock || f.minSafetyStock > f.currentStock
    ensures RuleUrgency(f, rejected) == Low ==> rejected == 0 && 14 * f.sales30d <= 30 * f.currentStock && f.minSafetyStock <= f.currentStock
  {
    if f.sales30d > 0 {
      LastsInDays(f, 7);
      LastsInDays(f, 14);
    }
    DemandIsTheLeastCover(f, f.currentStock);
  }

  /** A sold-out book that was ever sold is stored as critical, whatever the model says; otherwise the model's word counts,
      and the rule where there is none. */
  lemma SoldOutIsCritical(answer: Answer, f: Facts, rejected: nat)
    ensures var u := ValidUrgency(answer, f, rejected);
            && (f.currentStock == 0 && f.hasSalesHistory ==> u == Critical)
            && (!(f.currentStock == 0 && f.hasSalesHistory) ==>
                  (answer.Decision? && answer.urgency.Some? ==> u == answer.urgency.value)
                  && (answer.NoModel? || (answer.Decision? && answer.urgency.None?) ==> u == RuleUrgency(f, rejected)))
  {
  }

  // --- Validator ----------------------------------------------------------------------------------

  /** ceil(1.5 * max(1, baseline)). */
  function Upper(baseline: nat): nat {
    (3 * Max(1, baseline) + 1) / 2
  }

  /** The quantity that validate_decision stores. A missing or zero answer reads as the baseline. */
  function ValidQuantity(answer: Answer, baseline: nat): nat {
    var proposed :=
      match answer
      case NoModel => Max(1, baseline)
      case Decision(Given(n), _) => if n == 0 then Max(1, baseline) else n
      case Decision(_, _) => Max(1, baseline);
    Max(1, Min(proposed, Upper(baseline)))
  }

  function ValidUrgency(answer: Answer, f: Facts, rejected: nat): Urgency {
    if StockoutRecovery(f) then Critical
    else if answer.Decision? && answer.urgency.Some? then answer.urgency.value
    else RuleUrgency(f, rejected)
  }

  /** For every answer the stored quantity is at least 1 and at most one and a half times the baseline, rounded up; an
      answer in that range is stored as it is, and without one it is the baseline. */
  lemma QuantityIsClamped(answer: Answer, baseline: nat)
    ensures var (q, b) := (ValidQuantity(answer, baseline), Max(1, baseline));
            && 1 <= q && 2 * (q - 1) < 3 * b
            && (forall n: int :: 1 <= n && 2 * (n - 1) < 3 * b && answer.Decision? && answer.quantity == Given(n) ==> q == n)
            && (answer.Decision? && answer.quantity.Given? && answer.quantity.n != 0
                ==> (q < answer.quantity.n ==> 2 * q >= 3 * b) && (q > answer.quantity.n ==> q == 1))
            && (answer.NoModel? || answer.quantity.Missing? || answer.quantity.Unreadable? || answer.quantity == Given(0) ==> q == b)
  {
  }

  // --- The board ------------------------------------------------------------------------------------

  datatype Board = Board(cards: map<nat, Card>, orders: seq<Order>, nextId: nat)

  predicate IsPending(cards: map<nat, Card>, id: nat, book: nat) {
    id in cards && cards[id].book == book && cards[id].status == CardPending
  }

  ghost predicate HasPending(cards: map<nat, Card>, book: nat) {
    exists id :: IsPending(cards, id, book)
  }

  /** The waiting card of a book. */
  ghost function PendingOf(cards: map<nat, Card>, book: nat): nat
    requires HasPending(cards, book)
  {
    var id :| IsPending(cards, id, book); id
  }

  /** The rejected copies that go into the numbers: only another rejection adds to those of the waiting card. */
  function Accumulated(existing: Option<Card>, cause: Trigger, rejected: int): nat {
    Max(0, rejected) + if existing.Some? && cause == InspectionReject then existing.value.rejected else 0
  }

  /** There is something to order. */
  predicate Needed(f: Facts, rejected: nat) {
    (f.hasSalesHistory || rejected > 0) && (Baseline(f, rejected) > 0 || rejected > 0)
  }

  function Written(existing: Option<Card>, book: nat, cause: Trigger, rejected: nat, f: Facts, answer: Answer): Card {
    Card(book, CardPending, if existing.Some? && cause != InspectionReject then existing.value.cause else cause,
         rejected, Baseline(f, rejected), ValidQuantity(answer, Baseline(f, rejected)), ValidUrgency(answer, f, rejected))
  }

  ghost function Existing(b: Board, book: nat): Option<Card> {
    if HasPending(b.cards, book) then Some(b.cards[PendingOf(b.cards, book)]) else None
  }

  /** generate_and_store_proposal: nothing, the waiting card rewritten, or a new card. */
  ghost function Generated(b: Board, book: nat, cause: Trigger, rejected: int, f: Facts, answer: Answer): Board {
    var total := Accumulated(Existing(b, book), cause, rejected);
    if !Needed(f, total) then b
    else
      var card := Written(Existing(b, book), book, cause, total, f, answer);
      if HasPending(b.cards, book) then b.(cards := b.cards[PendingOf(b.cards, book) := card])
      else b.(cards := b.cards[b.nextId := card], nextId := b.nextId + 1)
  }

  /** One id of an approval: a waiting card of a known book is ordered. */
  function ApprovedOne(b: Board, id: nat, known: set<nat>): Board {
    if id in b.cards && b.cards[id].status == CardPending && b.cards[id].book in known then
      b.(cards := b.cards[id := b.cards[id].(status := CardApproved)],
         orders := b.orders + [Order(id, b.cards[id].book, Max(1, b.cards[id].quantity))])
    else b
  }

  function DismissedOne(b: Board, id: nat): Board {
    if id in b.cards && b.cards[id].status == CardPending then
      b.(cards := b.cards[id := b.cards[id].(status := CardDismissed)])
    else b
  }

  /** Waiting cards are never deleted. */
  function DeletedOne(b: Board, id: nat): Board {
    if id in b.cards && b.cards[id].status != CardPending then b.(cards := b.cards - {id}) else b
  }

  datatype Verb = ToApprove(known: set<nat>) | ToDismiss | ToDelete

  function DecidedOne(b: Board, verb: Verb, id: nat): Board {
    match verb
    case ToApprove(known) => ApprovedOne(b, id, known)
    case ToDismiss => DismissedOne(b, id)
    case ToDelete => DeletedOne(b, id)
  }

  /** A request of the admins names ids, perhaps the same one twice. */
  function Decided(b: Board, verb: Verb, ids: seq<nat>): Board {
    if ids == [] then b else DecidedOne(Decided(b, verb, ids[..|ids| - 1]), verb, ids[|ids| - 1])
  }

  class ProposalBoard {
    var cards: map<nat, Card>
    var orders: seq<Order>
    var nextId: nat

    ghost function View(): Board
      reads this
    {
      Board(cards, orders, nextId)
    }

    method GenerateAndStore(book: nat, cause: Trigger, rejected: int, f: Facts, answer: Answer)
      requires OnePending(cards)
      modifies this
      ensures View() == Generated(old(View()), book, cause, rejected, f, answer)
    {
      var total: nat := Max(0, rejected);
      var found: Option<nat> := None;
      if id :| id in cards && cards[id].book == book && cards[id].status == CardPending {
        assert IsPending(cards, id, book) && PendingOf(cards, book) == id;
        found := Some(id);
        if cause == InspectionReject {
          total := total + cards[id].rejected;
        }
      } else {
        assert forall id :: !IsPending(cards, id, book);
      }
      assert total == Accumulated(Existing(View(), book), cause, rejected);
      if !f.hasSalesHistory && total <= 0 {
        return;
      }
      var baseline := Baseline(f, total);
      if baseline <= 0 && total <= 0 {
        return;
      }
      var quantity, urgency := ValidQuantity(answer, baseline), ValidUrgency(answer, f, total);
      if found.Some? {
        var card := cards[found.value].(rejected := total, baseline := baseline, quantity := quantity, urgency := urgency);
        if cause == InspectionReject {
          card := card.(cause := InspectionReject);
        }
        cards := cards[found.value := card];
      } else {
        cards := cards[nextId := Card(book, CardPending, cause, total, baseline, quantity, urgency)];
        nextId := nextId + 1;
      }
    }

    method Decide(verb: Verb, ids: seq<nat>)
      modifies this
      ensures View() == Decided(old(View()), verb, ids)
    {
      for i := 0 to |ids|
        invariant View() == Decided(old(View()), verb, ids[..i])
      {
        var id := ids[i];
        assert ids[..i + 1][..i] == ids[..i];
        DecideOne(verb, id);
      }
      assert ids[..|ids|] == ids;
    }

    method DecideOne(verb: Verb, id: nat)
      modifies this
      ensures View() == DecidedOne(old(View()), verb, id)
    {
      if id !in cards {
        return;
      }
      var card := cards[id];
      match verb {
        case ToApprove(known) =>
          if card.status == CardPending && card.book in known {
            orders := orders + [Order(id, card.book, Max(1, card.quantity))];
            cards := cards[id := card.(status := CardApproved)];
          }
        case ToDismiss =>
          if card.status == CardPending {
            cards := cards[id := card.(status := CardDismissed)];
          }
        case ToDelete =>
          if card.status != CardPending {
            cards := cards - {id};
          }
      }
    }
  }

  /** A book has at most one waiting card. */
  ghost predicate OnePending(cards: map<nat, Card>) {
    forall a, b, book :: IsPending(cards, a, book) && IsPending(cards, b, book) ==> a == b
  }
}
