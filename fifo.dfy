/** The first-in-first-out lot queue shared by both matching engines.

    A lot is an open inventory unit: its remaining quantity plus whatever the
    engine records about it (spot: buy price and time; contract: opening fee
    and time). A disposal of `want` units consumes lots from the head of the
    queue: each step matches min(remaining disposal, head's remaining
    quantity), subtracts the match from both, and pops the head once its
    remaining quantity is at or below EPSILON. The loop stops when the
    disposal is used up or the queue is empty; any unmatched remainder is
    dropped. */
module Fifo {
  import opened Common

  /** Residue at or below which a lot counts as fully consumed (1e-9). */
  const EPSILON: real := 0.000000001

  datatype Lot<P> = Lot(quantity: real, info: P)

  /** One match against one lot: the lot's data, the lot's remaining quantity
      just before this match, and the matched quantity. */
  datatype Match<P> = Match(info: P, available: real, matched: real)

  datatype Outcome<P> = Outcome(matches: seq<Match<P>>, rest: seq<Lot<P>>)

  /** The matching loop, one iteration per recursive step. Nothing is
      matched when nothing is wanted or nothing is open; each lot is matched
      at most once and the queue never grows. */
  function Consume<P>(queue: seq<Lot<P>>, want: real): (r: Outcome<P>)
    ensures want <= 0.0 || queue == [] ==> r == Outcome([], queue)
    ensures |r.matches| <= |queue| && |r.rest| <= |queue|
    decreases |queue|, if want > 0.0 then 1 else 0
  {
    if want <= 0.0 || queue == [] then Outcome([], queue)
    else
      var head := queue[0];
      var matched := Min(want, head.quantity);
      var left := head.quantity - matched;
      var next := if left <= EPSILON then queue[1..] else [head.(quantity := left)] + queue[1..];
      var o := Consume(next, want - matched);
      Outcome([Match(head.info, head.quantity, matched)] + o.matches, o.rest)
  }

  function TotalMatched<P>(ms: seq<Match<P>>): real
  {
    if ms == [] then 0.0 else ms[0].matched + TotalMatched(ms[1..])
  }

  /** The loop as the engines run it: the head lot is decremented in place and
      popped once exhausted. */
  method ConsumeQueue<P>(queue: seq<Lot<P>>, want: real) returns (matches: seq<Match<P>>, rest: seq<Lot<P>>)
    ensures Outcome(matches, rest) == Consume(queue, want)
  {
    matches := [];
    rest := queue;
    var remaining := want;
    while remaining > 0.0 && rest != []
      invariant Consume(queue, want).matches == matches + Consume(rest, remaining).matches
      invariant Consume(queue, want).rest == Consume(rest, remaining).rest
      decreases |rest|, if remaining > 0.0 then 1 else 0
    {
      var head := rest[0];
      var matched := Min(remaining, head.quantity);
      ghost var before, wanted, done := rest, remaining, matches;
      ConsumeUnfold(before, wanted);
      var m := Match(head.info, head.quantity, matched);
      matches := matches + [m];
      rest := rest[0 := head.(quantity := head.quantity - matched)];
      remaining := remaining - matched;
      if rest[0].quantity <= EPSILON {
        assert rest[1..] == before[1..];
        rest := rest[1..];
      } else {
        assert rest == [head.(quantity := head.quantity - matched)] + before[1..];
      }
      ghost var tail := Consume(rest, remaining).matches;
      assert Consume(before, wanted).matches == [m] + tail;
      assert (done + [m]) + tail == done + ([m] + tail);
    }
  }

  /** One step of the loop. */
  lemma ConsumeUnfold<P>(queue: seq<Lot<P>>, want: real)
    requires want > 0.0 && queue != []
    ensures var head := queue[0];
      var matched := Min(want, head.quantity);
      var next := if head.quantity - matched <= EPSILON then queue[1..] else [head.(quantity := head.quantity - matched)] + queue[1..];
      Consume(queue, want) == Outcome([Match(head.info, head.quantity, matched)] + Consume(next, want - matched).matches,
                                      Consume(next, want - matched).rest)
  {
  }

  // -----------------------------------------------------------------------
  // Properties of the loop

  /** Nothing is matched when there is nothing to dispose of. */
  lemma NothingWanted<P>(queue: seq<Lot<P>>, want: real)
    requires want <= 0.0
    ensures Consume(queue, want) == Outcome([], queue)
  {
  }

  /** FIFO: the k-th match is against the k-th lot of the queue, seen with the
      quantity it had in the queue; so there are never more matches than lots. */
  lemma {:induction false} ConsumeIsFifo<P>(queue: seq<Lot<P>>, want: real)
    ensures var o := Consume(queue, want);
      && |o.matches| <= |queue|
      && forall k :: 0 <= k < |o.matches| ==>
           o.matches[k].info == queue[k].info && o.matches[k].available == queue[k].quantity
    decreases |queue|, if want > 0.0 then 1 else 0
  {
    if want <= 0.0 || queue == [] {
    } else {
      var head := queue[0];
      var matched := Min(want, head.quantity);
      var left := head.quantity - matched;
      if left <= EPSILON {
        ConsumeIsFifo(queue[1..], want - matched);
      } else {
        assert want - matched <= 0.0;
      }
    }
  }

  /** Each match takes min(what is still to dispose of, the lot's remaining
      quantity at that moment). */
  ghost predicate TakesMin<P>(ms: seq<Match<P>>, want: real)
  {
    forall k :: 0 <= k < |ms| ==> ms[k].matched == Min(want - TotalMatched(ms[..k]), ms[k].available)
  }

  lemma TakesMinCons<P>(m: Match<P>, tail: seq<Match<P>>, want: real)
    requires m.matched == Min(want, m.available)
    requires TakesMin(tail, want - m.matched)
    ensures TakesMin([m] + tail, want)
  {
    var ms := [m] + tail;
    forall k | 0 <= k < |ms|
      ensures ms[k].matched == Min(want - TotalMatched(ms[..k]), ms[k].available)
    {
      if k > 0 {
        assert ms[..k] == [m] + tail[..k - 1];
        assert ms[..k][1..] == tail[..k - 1];
        assert TotalMatched(ms[..k]) == m.matched + TotalMatched(tail[..k - 1]);
        assert ms[k] == tail[k - 1];
      } else {
        assert ms[..k] == [];
      }
    }
  }

  lemma {:induction false} ConsumeMatchesMin<P>(queue: seq<Lot<P>>, want: real)
    ensures TakesMin(Consume(queue, want).matches, want)
    decreases |queue|, if want > 0.0 then 1 else 0
  {
    if want <= 0.0 || queue == [] {
    } else {
      var head := queue[0];
      var matched := Min(want, head.quantity);
      var left := head.quantity - matched;
      var next := if left <= EPSILON then queue[1..] else [head.(quantity := left)] + queue[1..];
      ConsumeMatchesMin(next, want - matched);
      TakesMinCons(Match(head.info, head.quantity, matched), Consume(next, want - matched).matches, want);
    }
  }

  /** What is left behind: every matched lot has been popped, except possibly
      the last one, which stays at the head decremented by its match and with
      more than EPSILON left. A lot at or below EPSILON is never matched again. */
  lemma {:induction false} ConsumeRest<P>(queue: seq<Lot<P>>, want: real)
    ensures var o := Consume(queue, want); var n := |o.matches|;
      && n <= |queue|
      && (|| o.rest == queue[n..]
          || (&& 0 < n
              && o.rest == [queue[n - 1].(quantity := queue[n - 1].quantity - o.matches[n - 1].matched)] + queue[n..]
              && o.rest[0].quantity > EPSILON))
    decreases |queue|, if want > 0.0 then 1 else 0
  {
    if want <= 0.0 || queue == [] {
    } else {
      var head := queue[0];
      var matched := Min(want, head.quantity);
      var m := Match(head.info, head.quantity, matched);
      ConsumeUnfold(queue, want);
      if head.quantity - matched <= EPSILON {
        ConsumeRest(queue[1..], want - matched);
        PoppedRest(queue, m, Consume(queue[1..], want - matched));
      } else {
        KeptRest(queue, want);
      }
    }
  }

  /** ConsumeRest when the head lot keeps more than EPSILON: one match, and
      the decremented head stays in front. */
  lemma KeptRest<P>(queue: seq<Lot<P>>, want: real)
    requires want > 0.0 && queue != [] && queue[0].quantity - Min(want, queue[0].quantity) > EPSILON
    ensures var o := Consume(queue, want);
      && o.matches == [Match(queue[0].info, queue[0].quantity, Min(want, queue[0].quantity))]
      && o.rest == [queue[0].(quantity := queue[0].quantity - o.matches[0].matched)] + queue[1..]
      && o.rest[0].quantity > EPSILON
  {
    var head := queue[0];
    var matched := Min(want, head.quantity);
    var next := [head.(quantity := head.quantity - matched)] + queue[1..];
    ConsumeUnfold(queue, want);
    NothingWanted(next, want - matched);
  }

  /** The inductive step of ConsumeRest for a popped head lot. */
  lemma PoppedRest<P>(queue: seq<Lot<P>>, m: Match<P>, sub: Outcome<P>)
    requires queue != []
    requires var n := |sub.matches|;
      && n <= |queue[1..]|
      && (|| sub.rest == queue[1..][n..]
          || (&& 0 < n
              && sub.rest == [queue[1..][n - 1].(quantity := queue[1..][n - 1].quantity - sub.matches[n - 1].matched)] + queue[1..][n..]
              && sub.rest[0].quantity > EPSILON))
    ensures var o := Outcome([m] + sub.matches, sub.rest); var n := |o.matches|;
      && n <= |queue|
      && (|| o.rest == queue[n..]
          || (&& 0 < n
              && o.rest == [queue[n - 1].(quantity := queue[n - 1].quantity - o.matches[n - 1].matched)] + queue[n..]
              && o.rest[0].quantity > EPSILON))
  {
    var n := |sub.matches| + 1;
    assert queue[1..][n - 1..] == queue[n..];
    if n > 1 {
      assert queue[1..][n - 2] == queue[n - 1];
      assert ([m] + sub.matches)[n - 1] == sub.matches[n - 2];
    }
  }

  /** Quantity conservation: the matches never exceed the disposal, and they
      equal it unless the queue ran out first. */
  lemma {:induction false} ConsumeConserves<P>(queue: seq<Lot<P>>, want: real)
    requires want > 0.0
    ensures var o := Consume(queue, want);
      && TotalMatched(o.matches) <= want
      && (o.rest != [] ==> TotalMatched(o.matches) == want)
    decreases |queue|
  {
    if queue != [] {
      var head := queue[0];
      var matched := Min(want, head.quantity);
      var left := head.quantity - matched;
      if left <= EPSILON {
        if want - matched > 0.0 {
          ConsumeConserves(queue[1..], want - matched);
        }
      } else {
        assert want - matched <= 0.0;
      }
    }
  }

  /** Positivity is kept: from a queue of positive lots, every match is
      positive and every lot left behind is positive. */
  lemma {:induction false} ConsumeKeepsPositive<P>(queue: seq<Lot<P>>, want: real)
    requires forall k :: 0 <= k < |queue| ==> queue[k].quantity > 0.0
    ensures forall k :: 0 <= k < |Consume(queue, want).matches| ==> Consume(queue, want).matches[k].matched > 0.0
    ensures forall k :: 0 <= k < |Consume(queue, want).rest| ==> Consume(queue, want).rest[k].quantity > 0.0
    decreases |queue|, if want > 0.0 then 1 else 0
  {
    if want <= 0.0 || queue == [] {
    } else {
      var head := queue[0];
      var matched := Min(want, head.quantity);
      var left := head.quantity - matched;
      var next := if left <= EPSILON then queue[1..] else [head.(quantity := left)] + queue[1..];
      forall k | 0 <= k < |next| ensures next[k].quantity > 0.0 {
        if left > EPSILON && k > 0 {
          assert next[k] == queue[k];
        } else if left <= EPSILON {
          assert next[k] == queue[k + 1];
        }
      }
      ConsumeKeepsPositive(next, want - matched);
    }
  }

  // -----------------------------------------------------------------------
  // Quantities carried off by the matches

  /** A match exhausts its lot when what is left of the lot is at or below
      EPSILON: the loop then pops the lot. */
  predicate Exhausts<P>(m: Match<P>)
  {
    m.available - m.matched <= EPSILON
  }

  /** Sum of w(info) x quantity over the queue: whatever the lots hold per
      unit, in total. */
  function WeightedTotal<P>(queue: seq<Lot<P>>, w: P -> real): real
  {
    if queue == [] then 0.0 else w(queue[0].info) * queue[0].quantity + WeightedTotal(queue[1..], w)
  }

  /** What a match takes with it of a per-unit amount w: an exhausted lot hands
      on all it had left (the residue below EPSILON included), any other match
      only the matched part. */
  function Carried<P>(m: Match<P>, w: P -> real): real
  {
    w(m.info) * (if Exhausts(m) then m.available else m.matched)
  }

  function CarriedTotal<P>(ms: seq<Match<P>>, w: P -> real): real
  {
    if ms == [] then 0.0 else Carried(ms[0], w) + CarriedTotal(ms[1..], w)
  }

  /** Nothing is lost or made up: what the matches carry off plus what the
      remaining queue still holds is what the queue held before. */
  lemma {:induction false} ConsumeCarries<P>(queue: seq<Lot<P>>, want: real, w: P -> real)
    ensures CarriedTotal(Consume(queue, want).matches, w) + WeightedTotal(Consume(queue, want).rest, w)
         == WeightedTotal(queue, w)
    decreases |queue|, if want > 0.0 then 1 else 0
  {
    if want > 0.0 && queue != [] {
      var head := queue[0];
      var matched := Min(want, head.quantity);
      var m := Match(head.info, head.quantity, matched);
      ConsumeUnfold(queue, want);
      if head.quantity - matched <= EPSILON {
        var sub := Consume(queue[1..], want - matched);
        assert Consume(queue, want) == Outcome([m] + sub.matches, sub.rest);
        ConsumeCarries(queue[1..], want - matched, w);
        PopCarries(queue, m, sub.matches, w);
      } else {
        var next := [head.(quantity := head.quantity - matched)] + queue[1..];
        NothingWanted(next, want - matched);
        assert Consume(queue, want) == Outcome([m], next);
        assert queue == [head] + queue[1..];
        KeepCarries(head, queue[1..], m, w);
      }
    }
  }

  /** ConsumeCarries when the head lot is exhausted. */
  lemma {:induction false} PopCarries<P>(queue: seq<Lot<P>>, m: Match<P>, ms: seq<Match<P>>, w: P -> real)
    requires queue != [] && m.info == queue[0].info && m.available == queue[0].quantity && Exhausts(m)
    ensures CarriedTotal([m] + ms, w) == w(queue[0].info) * queue[0].quantity + CarriedTotal(ms, w)
    ensures WeightedTotal(queue, w) == w(queue[0].info) * queue[0].quantity + WeightedTotal(queue[1..], w)
  {
  }

  /** ConsumeCarries when the head lot stays, decremented by the match. */
  lemma {:induction false} KeepCarries<P>(head: Lot<P>, tail: seq<Lot<P>>, m: Match<P>, w: P -> real)
    requires m.info == head.info && m.available == head.quantity && !Exhausts(m)
    ensures CarriedTotal([m], w) + WeightedTotal([head.(quantity := head.quantity - m.matched)] + tail, w)
         == WeightedTotal([head] + tail, w)
  {
    var next := [head.(quantity := head.quantity - m.matched)] + tail;
    assert [m][1..] == [];
    assert next[1..] == tail;
    assert ([head] + tail)[1..] == tail;
  }

  /** WeightedTotal over two queues back to back. */
  lemma {:induction false} WeightedTotalConcat<P>(a: seq<Lot<P>>, b: seq<Lot<P>>, w: P -> real)
    ensures WeightedTotal(a + b, w) == WeightedTotal(a, w) + WeightedTotal(b, w)
    decreases |a|
  {
    if a != [] {
      assert (a + b)[1..] == a[1..] + b;
      WeightedTotalConcat(a[1..], b, w);
    } else {
      assert a + b == b;
    }
  }

  // -----------------------------------------------------------------------
  // Small queues

  /** A lot matched in full by a disposal of exactly its quantity. */
  lemma ConsumeWhole<P>(lot: Lot<P>)
    requires lot.quantity > 0.0
    ensures Consume([lot], lot.quantity) == Outcome([Match(lot.info, lot.quantity, lot.quantity)], [])
  {
    assert Consume([lot], lot.quantity)
        == Outcome([Match(lot.info, lot.quantity, lot.quantity)] + Consume([], 0.0).matches, []);
  }

  /** Two lots matched in full by a disposal of their joint quantity. */
  lemma ConsumeBoth<P>(a: Lot<P>, b: Lot<P>)
    requires a.quantity > 0.0 && b.quantity > 0.0
    ensures Consume([a, b], a.quantity + b.quantity)
      == Outcome([Match(a.info, a.quantity, a.quantity), Match(b.info, b.quantity, b.quantity)], [])
  {
    ConsumeWhole(b);
    assert [a, b][1..] == [b];
    assert Consume([a, b], a.quantity + b.quantity)
        == Outcome([Match(a.info, a.quantity, a.quantity)] + Consume([b], b.quantity).matches, Consume([b], b.quantity).rest);
  }

  /** A lot partly matched, leaving more than EPSILON. */
  lemma ConsumePart<P>(lot: Lot<P>, a: real)
    requires 0.0 < a && lot.quantity - a > EPSILON
    ensures Consume([lot], a) == Outcome([Match(lot.info, lot.quantity, a)], [lot.(quantity := lot.quantity - a)])
  {
    assert Consume([lot], a)
        == Outcome([Match(lot.info, lot.quantity, a)] + Consume([lot.(quantity := lot.quantity - a)], 0.0).matches,
                   Consume([lot.(quantity := lot.quantity - a)], 0.0).rest);
  }
}
