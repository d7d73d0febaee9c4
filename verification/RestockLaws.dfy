/** Restock proposals over any history of triggers and decisions. */
module RestockLaws {
  import opened Options
  import opened Restock

  datatype Event =
    | Triggered(book: nat, cause: Trigger, rejected: int, facts: Facts, answer: Answer)
    | Requested(verb: Verb, ids: seq<nat>)

  ghost function AfterEvent(b: Board, e: Event): Board {
    match e
    case Triggered(book, cause, rejected, f, answer) => Generated(b, book, cause, rejected, f, answer)
    case Requested(verb, ids) => Decided(b, verb, ids)
  }

  ghost function AfterAll(b: Board, events: seq<Event>): Board {
    if events == [] then b else AfterEvent(AfterAll(b, events[..|events| - 1]), events[|events| - 1])
  }

  const EMPTY := Board(map[], [], 0)

  // --- One waiting card, one order -----------------------------------------------------------------

  ghost predicate Numbered(b: Board) {
    && (forall id :: id in b.cards ==> id < b.nextId)
    && (forall k :: 0 <= k < |b.orders| ==> b.orders[k].card < b.nextId)
  }

  /** A card has been ordered at most once, and it is not waiting any more. */
  ghost predicate OrderedOnce(b: Board) {
    && (forall j, k :: 0 <= j < k < |b.orders| ==> b.orders[j].card != b.orders[k].card)
    && (forall k :: 0 <= k < |b.orders| && b.orders[k].card in b.cards ==> b.cards[b.orders[k].card].status == CardApproved)
  }

  /** Every approved card has an order for its book of the quantity it shows. */
  ghost predicate ApprovalsAreOrdered(b: Board) {
    forall id :: id in b.cards && b.cards[id].status == CardApproved ==>
      exists k :: 0 <= k < |b.orders| && b.orders[k] == Order(id, b.cards[id].book, Max(1, b.cards[id].quantity))
  }

  /** The stored numbers belong together. */
  ghost predicate Clamped(b: Board) {
    forall id :: id in b.cards ==> var c := b.cards[id]; 1 <= c.quantity <= Upper(c.baseline) && c.rejected <= c.baseline
  }

  ghost predicate Sound(b: Board) {
    OnePending(b.cards) && Numbered(b) && OrderedOnce(b) && ApprovalsAreOrdered(b) && Clamped(b)
  }

  /** A trigger leaves the other waiting cards alone, and gives its book one if it had none. */
  lemma WaitingAfter(b: Board, book: nat, cause: Trigger, rejected: int, f: Facts, answer: Answer)
    requires OnePending(b.cards) && Numbered(b) && Needed(f, Accumulated(Existing(b, book), cause, rejected))
    ensures var t := Generated(b, book, cause, rejected, f, answer);
            var id := if HasPending(b.cards, book) then PendingOf(b.cards, book) else b.nextId;
            && t.cards == b.cards[id := Written(Existing(b, book), book, cause, Accumulated(Existing(b, book), cause, rejected), f, answer)]
            && (forall a, k :: IsPending(t.cards, a, k) <==> if a == id then k == book else IsPending(b.cards, a, k))
            && OnePending(t.cards) && HasPending(t.cards, book) && PendingOf(t.cards, book) == id
  {
    var t := Generated(b, book, cause, rejected, f, answer);
    var id := if HasPending(b.cards, book) then PendingOf(b.cards, book) else b.nextId;
    forall a, k
      ensures IsPending(t.cards, a, k) <==> if a == id then k == book else IsPending(b.cards, a, k)
    {
    }
    assert forall a :: IsPending(b.cards, a, book) ==> a == id;
    assert IsPending(t.cards, id, book);
  }

  // --- What a trigger and an admin do, in numbers ------------------------------------------------------

  /** The rejected copies that a trigger brings, with those of a waiting card if it is a rejection too. */
  function Brought(existing: Option<Card>, cause: Trigger, rejected: int): nat {
    (if rejected > 0 then rejected else 0) + (if existing.Some? && cause == InspectionReject then existing.value.rejected else 0)
  }

  /** The stock alone covers 14 days at the rate of the last 30, and the safety stock. */
  predicate StockCovers(f: Facts, copies: int) {
    30 * copies >= 14 * f.sales30d && copies >= f.minSafetyStock
  }

  /** A trigger stores nothing exactly if no copy was rejected, and the book was never sold or its stock covers the demand. */
  lemma NothingToOrderIff(existing: Option<Card>, cause: Trigger, rejected: int, f: Facts)
    ensures Needed(f, Accumulated(existing, cause, rejected)) <==>
              Brought(existing, cause, rejected) > 0 || (f.hasSalesHistory && !StockCovers(f, f.currentStock))
  {
    DemandIsTheLeastCover(f, f.currentStock);
  }

  /** What a stored card says: the rejected copies, the least order that covers the demand and makes up for them, and the
      trigger, which only a rejection changes on a waiting card. */
  lemma CardSays(existing: Option<Card>, book: nat, cause: Trigger, rejected: int, f: Facts, answer: Answer, order: nat)
    ensures var total := Brought(existing, cause, rejected);
            var c := Written(existing, book, cause, Accumulated(existing, cause, rejected), f, answer);
            && c.book == book && c.status == CardPending && c.rejected == total
            && (order >= total ==> (order >= c.baseline <==> StockCovers(f, f.currentStock + (order - total))))
            && c.baseline >= total && c.quantity == ValidQuantity(answer, c.baseline)
            && c.urgency == ValidUrgency(answer, f, total)
            && (existing.None? || cause == InspectionReject ==> c.cause == cause)
            && (existing.Some? && cause != InspectionReject ==> c.cause == existing.value.cause)
  {
    var total := Brought(existing, cause, rejected);
    if order >= total {
      BaselineIsTheLeastCover(f, total, order);
      DemandIsTheLeastCover(f, f.currentStock + (order - total));
    }
  }

  /** An approval orders a waiting card of a known book in its quantity and nothing else; a dismissal touches waiting cards
      only, and a deletion every card but those. */
  lemma AdminsActOnWaitingCards(b: Board, verb: Verb, id: nat)
    ensures forall x :: x != id ==>
              (x in DecidedOne(b, verb, id).cards <==> x in b.cards) && (x in b.cards ==> DecidedOne(b, verb, id).cards[x] == b.cards[x])
    ensures verb.ToDelete? ==>
              var t := DecidedOne(b, verb, id);
              t.orders == b.orders && (id in t.cards <==> IsWaiting(b, id)) && (IsWaiting(b, id) ==> t.cards[id] == b.cards[id])
    ensures verb.ToDismiss? ==>
              var t := DecidedOne(b, verb, id);
              t.orders == b.orders && if IsWaiting(b, id) then t.cards == b.cards[id := b.cards[id].(status := CardDismissed)] else t == b
    ensures verb.ToApprove? ==>
              var t := DecidedOne(b, verb, id);
              if IsWaiting(b, id) && b.cards[id].book in verb.known
              then t.cards == b.cards[id := b.cards[id].(status := CardApproved)] && |t.orders| == |b.orders| + 1 && b.orders <= t.orders
                   && t.orders[|b.orders|].card == id && t.orders[|b.orders|].book == b.cards[id].book
                   && (b.cards[id].quantity >= 1 ==> t.orders[|b.orders|].quantity == b.cards[id].quantity)
              else t == b
  {
  }

  predicate IsWaiting(b: Board, id: nat) {
    id in b.cards && b.cards[id].status == CardPending
  }

  lemma GeneratingKeepsClamped(b: Board, book: nat, cause: Trigger, rejected: int, f: Facts, answer: Answer)
    requires Clamped(b)
    ensures Clamped(Generated(b, book, cause, rejected, f, answer))
  {
    var total := Accumulated(Existing(b, book), cause, rejected);
    QuantityIsClamped(answer, Baseline(f, total));
  }

  lemma GeneratingKeepsSound(b: Board, book: nat, cause: Trigger, rejected: int, f: Facts, answer: Answer)
    requires Sound(b)
    ensures Sound(Generated(b, book, cause, rejected, f, answer))
  {
    GeneratingKeepsClamped(b, book, cause, rejected, f, answer);
    if Needed(f, Accumulated(Existing(b, book), cause, rejected)) {
      WaitingAfter(b, book, cause, rejected, f, answer);
      var t := Generated(b, book, cause, rejected, f, answer);
      forall id | id in t.cards && t.cards[id].status == CardApproved
        ensures exists k :: 0 <= k < |t.orders| && t.orders[k] == Order(id, t.cards[id].book, Max(1, t.cards[id].quantity))
      {
        assert t.cards[id] == b.cards[id];
      }
    }
  }

  lemma ApprovingKeepsSound(b: Board, id: nat, known: set<nat>)
    requires Sound(b)
    ensures Sound(ApprovedOne(b, id, known))
  {
    var t := ApprovedOne(b, id, known);
    forall x | x in t.cards && t.cards[x].status == CardApproved
      ensures exists k :: 0 <= k < |t.orders| && t.orders[k] == Order(x, t.cards[x].book, Max(1, t.cards[x].quantity))
    {
      if x in b.cards && b.cards[x].status == CardApproved {
        var k :| 0 <= k < |b.orders| && b.orders[k] == Order(x, b.cards[x].book, Max(1, b.cards[x].quantity));
        assert t.orders[k] == b.orders[k];
      } else {
        assert t.orders[|b.orders|].card == id;
      }
    }
    assert forall a, book :: IsPending(t.cards, a, book) ==> IsPending(b.cards, a, book);
  }

  lemma ClearingKeepsSound(b: Board, verb: Verb, id: nat)
    requires Sound(b) && !verb.ToApprove?
    ensures Sound(DecidedOne(b, verb, id))
  {
    var t := DecidedOne(b, verb, id);
    assert forall a, book :: IsPending(t.cards, a, book) ==> IsPending(b.cards, a, book);
    forall x | x in t.cards && t.cards[x].status == CardApproved
      ensures exists k :: 0 <= k < |t.orders| && t.orders[k] == Order(x, t.cards[x].book, Max(1, t.cards[x].quantity))
    {
      assert t.cards[x] == b.cards[x];
    }
  }

  lemma {:induction false} DecidingKeepsSound(b: Board, verb: Verb, ids: seq<nat>)
    requires Sound(b)
    ensures Sound(Decided(b, verb, ids))
    decreases |ids|
  {
    if ids == [] {
    } else {
      var n := |ids| - 1;
      DecidingKeepsSound(b, verb, ids[..n]);
      if verb.ToApprove? {
        ApprovingKeepsSound(Decided(b, verb, ids[..n]), ids[n], verb.known);
      } else {
        ClearingKeepsSound(Decided(b, verb, ids[..n]), verb, ids[n]);
      }
    }
  }

  /** After every history each book has at most one waiting card, each card was ordered at most once, and every stored
      quantity is within its bounds. */
  lemma {:induction false} SoundAlways(events: seq<Event>)
    ensures Sound(AfterAll(EMPTY, events))
    decreases |events|
  {
    if events == [] {
    } else {
      var n := |events| - 1;
      SoundAlways(events[..n]);
      var b := AfterAll(EMPTY, events[..n]);
      match events[n]
      case Triggered(book, cause, rejected, f, answer) => GeneratingKeepsSound(b, book, cause, rejected, f, answer);
      case Requested(verb, ids) => DecidingKeepsSound(b, verb, ids);
    }
  }

  // --- Rejections add up ------------------------------------------------------------------------------

  /** The rejected copies on the waiting card of a book. */
  ghost function Outstanding(b: Board, book: nat): nat {
    if HasPending(b.cards, book) then b.cards[PendingOf(b.cards, book)].rejected else 0
  }

  /** A trigger that only rejections of this book, or other books, cause. */
  predicate RejectionOrElsewhere(e: Event, book: nat) {
    e.Triggered? && (e.book == book ==> e.cause == InspectionReject && e.rejected > 0)
  }

  function RejectedCopies(events: seq<Event>, book: nat): nat {
    if events == [] then 0
    else
      var e := events[|events| - 1];
      RejectedCopies(events[..|events| - 1], book) + if e.Triggered? && e.book == book then Max(0, e.rejected) else 0
  }

  lemma OneTrigger(b: Board, e: Event, book: nat)
    requires OnePending(b.cards) && Numbered(b) && e.Triggered?
    ensures var t := AfterEvent(b, e);
            if e.book != book then Outstanding(t, book) == Outstanding(b, book)
            else if e.cause == InspectionReject && e.rejected > 0 then Outstanding(t, book) == Outstanding(b, book) + e.rejected
            else if e.cause != InspectionReject && Needed(e.facts, Max(0, e.rejected)) then Outstanding(t, book) == Max(0, e.rejected)
            else e.cause != InspectionReject ==> Outstanding(t, book) == Outstanding(b, book)
  {
    if Needed(e.facts, Accumulated(Existing(b, e.book), e.cause, e.rejected)) {
      WaitingAfter(b, e.book, e.cause, e.rejected, e.facts, e.answer);
      if e.book != book {
        SamePending(b, AfterEvent(b, e), book);
      }
    }
  }

  lemma SamePending(b: Board, t: Board, book: nat)
    requires forall a :: IsPending(t.cards, a, book) <==> IsPending(b.cards, a, book)
    requires forall a :: IsPending(b.cards, a, book) ==> a in t.cards && t.cards[a] == b.cards[a]
    requires OnePending(b.cards)
    ensures Outstanding(t, book) == Outstanding(b, book)
  {
    if HasPending(b.cards, book) {
      assert IsPending(t.cards, PendingOf(b.cards, book), book);
      assert IsPending(b.cards, PendingOf(t.cards, book), book);
    }
  }

  /** Rejections of a book with nothing but rejections and other books' triggers between add up exactly on its card. */
  lemma {:induction false} RejectionsAddUp(b: Board, events: seq<Event>, book: nat)
    requires Sound(b) && forall e :: e in events ==> RejectionOrElsewhere(e, book)
    ensures Outstanding(AfterAll(b, events), book) == Outstanding(b, book) + RejectedCopies(events, book)
    ensures Sound(AfterAll(b, events))
    decreases |events|
  {
    if events == [] {
    } else {
      var n := |events| - 1;
      var e := events[n];
      RejectionsAddUp(b, events[..n], book);
      var s := AfterAll(b, events[..n]);
      assert e in events;
      OneTrigger(s, e, book);
      GeneratingKeepsSound(s, e.book, e.cause, e.rejected, e.facts, e.answer);
    }
  }

  /** A trigger of another cause keeps the outstanding rejections exactly when it stores nothing or brings as many
      copies itself: a shortage on a waiting card forgets the rejections before it. */
  lemma OtherTriggerKeepsRejectionsIff(b: Board, e: Event)
    requires Sound(b) && e.Triggered? && e.cause != InspectionReject
    ensures (Outstanding(AfterEvent(b, e), e.book) == Outstanding(b, e.book))
              <==> !Needed(e.facts, Max(0, e.rejected)) || Max(0, e.rejected) == Outstanding(b, e.book)
  {
    OneTrigger(b, e, e.book);
  }

  /** Two rejections and an order that is three copies short: the card shows three. */
  lemma ShortageForgetsRejections(f: Facts, answer: Answer)
    ensures var reject := Triggered(7, InspectionReject, 1, f, answer);
            Outstanding(AfterAll(EMPTY, [reject, reject, Triggered(7, OrderShortage, 3, f, answer)]), 7) == 3
  {
    var reject, short := Triggered(7, InspectionReject, 1, f, answer), Triggered(7, OrderShortage, 3, f, answer);
    var all := [reject, reject, short];
    SoundAlways(all[..2]);
    OneTrigger(AfterAll(EMPTY, all[..2]), short, 7);
  }
}
