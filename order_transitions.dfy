/**
 * `validateStatusTransition`: which status changes an order update may make,
 * and what follows from that table.
 */
module OrderTransitions {
  import opened OrderStatusEnum

  /** The switch in `validateStatusTransition`: true exactly for the accepted moves. */
  predicate CanTransition(current: OrderStatus, next: OrderStatus) {
    match current
    case Pending => next == Confirmed || next == Cancelled
    case Confirmed => next == Preparing || next == Cancelled
    case Preparing => next == Ready || next == Cancelled
    case Ready => next == OutForDelivery
    case OutForDelivery => next == Delivered
    case Delivered => next == Refunded
    case Cancelled => false
    case Refunded => false
  }

  /** How far along the lifecycle a status is; every accepted move raises it. */
  function Rank(s: OrderStatus): (r: nat)
    ensures r <= 6
  {
    match s
    case Pending => 0
    case Confirmed => 1
    case Preparing => 2
    case Ready => 3
    case OutForDelivery => 4
    case Delivered => 5
    case Cancelled => 6
    case Refunded => 6
  }

  lemma TransitionRaisesRank(a: OrderStatus, b: OrderStatus)
    requires CanTransition(a, b)
    ensures Rank(a) < Rank(b)
  {
  }

  /** No status may be "changed" to itself. */
  lemma NoSelfTransition(s: OrderStatus)
    ensures !CanTransition(s, s)
  {
  }

  /** CANCELLED and REFUNDED are final. */
  lemma FinalStatuses(next: OrderStatus)
    ensures !CanTransition(Cancelled, next) && !CanTransition(Refunded, next)
  {
  }

  /** Only an order not yet ready can be cancelled. */
  lemma CancelOnlyBeforeReady(s: OrderStatus)
    ensures CanTransition(s, Cancelled) <==> s == Pending || s == Confirmed || s == Preparing
  {
  }

  /** A refund is only possible for a delivered order. */
  lemma RefundOnlyAfterDelivery(s: OrderStatus)
    ensures CanTransition(s, Refunded) <==> s == Delivered
  {
  }

  /** A history of statuses in which every step is an accepted move. */
  predicate IsChain(cs: seq<OrderStatus>) {
    forall i | 0 <= i < |cs| - 1 :: CanTransition(cs[i], cs[i + 1])
  }

  lemma {:induction false} ChainRaisesRank(cs: seq<OrderStatus>)
    requires |cs| >= 1 && IsChain(cs)
    ensures Rank(cs[|cs| - 1]) >= Rank(cs[0]) + |cs| - 1
    decreases |cs|
  {
    if |cs| > 1 {
      var prefix := cs[..|cs| - 1];
      assert IsChain(prefix) by {
        forall i | 0 <= i < |prefix| - 1
          ensures CanTransition(prefix[i], prefix[i + 1])
        {
          assert prefix[i] == cs[i] && prefix[i + 1] == cs[i + 1];
        }
      }
      ChainRaisesRank(prefix);
      TransitionRaisesRank(cs[|cs| - 2], cs[|cs| - 1]);
    }
  }

  /** Any sequence of accepted status updates makes at most six moves. */
  lemma ChainAtMostSixMoves(cs: seq<OrderStatus>)
    requires IsChain(cs)
    ensures |cs| <= 7
  {
    if |cs| >= 1 {
      ChainRaisesRank(cs);
    }
  }

  /** The table has no cycles: a chain of one or more moves never returns to where it began. */
  lemma NoCycles(cs: seq<OrderStatus>)
    requires |cs| >= 2 && IsChain(cs)
    ensures cs[0] != cs[|cs| - 1]
  {
    ChainRaisesRank(cs);
  }

  /** Six moves are reachable, so the bound is tight. */
  lemma LongestLifecycle()
    ensures IsChain([Pending, Confirmed, Preparing, Ready, OutForDelivery, Delivered, Refunded])
  {
  }
}
