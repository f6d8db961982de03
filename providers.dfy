/** The grouping done by `csv_passenger_provider`: parsed rows in file order
    come in, and one batch of passengers per tick comes out. The generator is
    modelled by the list of everything it yields. */
module Providers {
  import opened Passengers

  /** The generator's locals between two rows: the batches yielded so far,
      the batch being filled (`passengers`) and the tick counter `i`. */
  datatype Grouping = Grouping(yielded: seq<seq<Passenger>>, passengers: seq<Passenger>, i: int)

  const Start: Grouping := Grouping([], [], 0)

  /** The inner `while` and the `append` of one row: while the row's time is
      past `i`, yield the batch, start an empty one and advance `i`; then add
      the row to the batch. */
  function Feed(g: Grouping, p: Passenger): (r: Grouping)
    decreases p.requestTime - g.i
  {
    if p.requestTime > g.i then Feed(Grouping(g.yielded + [g.passengers], [], g.i + 1), p)
    else g.(passengers := g.passengers + [p])
  }

  /** The `for` loop over the rows. */
  function Fed(rows: seq<Passenger>): (r: Grouping)
    decreases |rows|
  {
    if rows == [] then Start else Feed(Fed(rows[..|rows| - 1]), rows[|rows| - 1])
  }

  /** The trailing `while` and the final `yield passengers`. */
  function Finish(g: Grouping): (r: seq<seq<Passenger>>)
    decreases if g.passengers == [] then 0 else g.passengers[0].requestTime - g.i
  {
    if |g.passengers| > 0 && g.passengers[0].requestTime > g.i then Finish(g.(yielded := g.yielded + [[]], i := g.i + 1))
    else g.yielded + [g.passengers]
  }

  /** Every batch `csv_passenger_provider` yields, in order. */
  function Grouped(rows: seq<Passenger>): seq<seq<Passenger>>
  {
    Finish(Fed(rows))
  }

  // ------------------------------------------------ the generator itself

  /** `csv_passenger_provider` over already parsed rows, collecting what it
      yields. */
  method CsvPassengerProvider(rows: seq<Passenger>) returns (batches: seq<seq<Passenger>>)
    ensures batches == Grouped(rows)
    ensures Flatten(batches) == rows
  {
    var i := 0;
    var passengers := [];
    batches := [];
    for k := 0 to |rows|
      invariant Grouping(batches, passengers, i) == Fed(rows[..k])
    {
      var passenger := rows[k];
      assert rows[..k + 1][..k] == rows[..k];
      ghost var goal := Feed(Grouping(batches, passengers, i), passenger);
      while passenger.requestTime > i
        invariant Feed(Grouping(batches, passengers, i), passenger) == goal
        decreases passenger.requestTime - i
      {
        batches := batches + [passengers];
        passengers := [];
        i := i + 1;
      }
      passengers := passengers + [passenger];
    }
    assert rows[..|rows|] == rows;
    ghost var last := Finish(Grouping(batches, passengers, i));
    while |passengers| > 0 && passengers[0].requestTime > i
      invariant Finish(Grouping(batches, passengers, i)) == last
      decreases if passengers == [] then 0 else passengers[0].requestTime - i
    {
      batches := batches + [[]];
      i := i + 1;
    }
    batches := batches + [passengers];
    GroupedFlattens(rows);
  }

  // ------------------------------------------------ what the grouping promises

  /** The batches joined back into one list. */
  function Flatten(batches: seq<seq<Passenger>>): seq<Passenger>
    decreases |batches|
  {
    if batches == [] then [] else Flatten(batches[..|batches| - 1]) + batches[|batches| - 1]
  }

  /** The rows of `rows` whose request time is `t`, in their input order. */
  function At(rows: seq<Passenger>, t: int): (r: seq<Passenger>)
    decreases |rows|
  {
    if rows == [] then []
    else At(rows[..|rows| - 1], t) + (if rows[|rows| - 1].requestTime == t then [rows[|rows| - 1]] else [])
  }

  /** Rows sorted by request time, none before tick 0. */
  predicate SortedByTime(rows: seq<Passenger>)
  {
    (forall k :: 0 <= k < |rows| ==> rows[k].requestTime >= 0)
    && forall j, k :: 0 <= j < k < |rows| ==> rows[j].requestTime <= rows[k].requestTime
  }

  /** Every passenger of the batch being filled has a time no later than `i`:
      the trailing `while` of the generator never runs. */
  predicate Caught(g: Grouping)
  {
    forall k :: 0 <= k < |g.passengers| ==> g.passengers[k].requestTime <= g.i
  }

  lemma FlattenSnoc(batches: seq<seq<Passenger>>, b: seq<Passenger>)
    ensures Flatten(batches + [b]) == Flatten(batches) + b
  {
    assert (batches + [b])[..|batches|] == batches;
  }

  /** Feeding a row moves whole batches and appends the row: nothing is lost,
      duplicated or reordered. */
  lemma {:induction false} FeedKeepsRows(g: Grouping, p: Passenger)
    ensures var r := Feed(g, p); Flatten(r.yielded) + r.passengers == Flatten(g.yielded) + g.passengers + [p]
    decreases p.requestTime - g.i
  {
    if p.requestTime > g.i {
      FlattenSnoc(g.yielded, g.passengers);
      FeedKeepsRows(Grouping(g.yielded + [g.passengers], [], g.i + 1), p);
    }
  }

  /** A row is added to the batch of its own tick, or to the current batch
      when its time is already behind `i`, and the batch stays caught up. */
  lemma {:induction false} FeedCatches(g: Grouping, p: Passenger)
    requires Caught(g)
    ensures Caught(Feed(g, p))
    ensures Feed(g, p).i == if p.requestTime > g.i then p.requestTime else g.i
    decreases p.requestTime - g.i
  {
    if p.requestTime > g.i {
      FeedCatches(Grouping(g.yielded + [g.passengers], [], g.i + 1), p);
    }
  }

  /** The `for` loop leaves every row in place and the current batch caught
      up, so `Finish` only yields that batch. */
  lemma {:induction false} FedFacts(rows: seq<Passenger>)
    ensures var g := Fed(rows); Flatten(g.yielded) + g.passengers == rows && Caught(g)
    decreases |rows|
  {
    if rows != [] {
      var init, p := rows[..|rows| - 1], rows[|rows| - 1];
      var g0 := Fed(init);
      assert Fed(rows) == Feed(g0, p);
      FedFacts(init);
      FeedKeepsRows(g0, p);
      FeedCatches(g0, p);
      assert init + [p] == rows;
    }
  }

  /** The trailing `while` never yields: the last batch follows directly. */
  lemma TrailingYieldsNothing(rows: seq<Passenger>)
    ensures Grouped(rows) == Fed(rows).yielded + [Fed(rows).passengers]
  {
    FedFacts(rows);
  }

  /** Joining all batches gives back the input rows, sorted or not. */
  lemma GroupedFlattens(rows: seq<Passenger>)
    ensures Flatten(Grouped(rows)) == rows
  {
    TrailingYieldsNothing(rows);
    FlattenSnoc(Fed(rows).yielded, Fed(rows).passengers);
    FedFacts(rows);
  }

  /** An empty file yields one empty batch. */
  lemma EmptyInputOneBatch()
    ensures Grouped([]) == [[]]
  {
  }

  /** Feeding a row whose time is `t >= i` yields the current batch, then an
      empty one for each skipped tick, and starts the batch of tick `t`. */
  lemma {:induction false} FeedAhead(g: Grouping, p: Passenger)
    requires p.requestTime > g.i
    ensures var r := Feed(g, p);
      |r.yielded| == |g.yielded| + p.requestTime - g.i
      && r.yielded[..|g.yielded|] == g.yielded && r.yielded[|g.yielded|] == g.passengers
      && (forall j :: |g.yielded| < j < |r.yielded| ==> r.yielded[j] == [])
      && r.passengers == [p] && r.i == p.requestTime
    decreases p.requestTime - g.i
  {
    var h := Grouping(g.yielded + [g.passengers], [], g.i + 1);
    if p.requestTime > g.i + 1 {
      FeedAhead(h, p);
      var r := Feed(h, p);
      assert r.yielded[..|h.yielded|] == h.yielded;
      assert r.yielded[..|g.yielded|] == h.yielded[..|g.yielded|];
    }
  }

  /** No row of `rows` has time `t`. */
  lemma {:induction false} AtMissing(rows: seq<Passenger>, t: int)
    requires forall k :: 0 <= k < |rows| ==> rows[k].requestTime != t
    ensures At(rows, t) == []
    decreases |rows|
  {
    if rows != [] {
      AtMissing(rows[..|rows| - 1], t);
    }
  }

  /** `g` has yielded one batch for each tick before `last`, holding the
      rows of `rows` of that tick, and is filling the batch of tick `last`. */
  predicate GroupedUpTo(g: Grouping, rows: seq<Passenger>, last: int)
  {
    |g.yielded| == last && g.i == last && g.passengers == At(rows, last)
    && forall t :: 0 <= t < last ==> g.yielded[t] == At(rows, t)
  }

  lemma AtSnoc(rows: seq<Passenger>, p: Passenger, t: int)
    ensures At(rows + [p], t) == At(rows, t) + (if p.requestTime == t then [p] else [])
  {
    assert (rows + [p])[..|rows|] == rows;
  }

  /** The first row of a sorted file. */
  lemma FedFirst(p: Passenger)
    requires p.requestTime >= 0
    ensures GroupedUpTo(Feed(Start, p), [p], p.requestTime)
  {
    forall t ensures At([p], t) == At([], t) + (if p.requestTime == t then [p] else []) {
      AtSnoc([], p, t);
    }
    if p.requestTime > 0 {
      FeedAhead(Start, p);
    }
  }

  /** A further row of a sorted file, no earlier than the last one. */
  lemma FedNext(g: Grouping, init: seq<Passenger>, last: int, p: Passenger)
    requires GroupedUpTo(g, init, last) && p.requestTime >= last
    requires forall k :: 0 <= k < |init| ==> init[k].requestTime <= last
    ensures GroupedUpTo(Feed(g, p), init + [p], p.requestTime)
  {
    forall t ensures At(init + [p], t) == At(init, t) + (if p.requestTime == t then [p] else []) {
      AtSnoc(init, p, t);
    }
    if p.requestTime > last {
      FeedAhead(g, p);
      forall t | last < t <= p.requestTime
        ensures At(init, t) == []
      {
        AtMissing(init, t);
      }
      var r := Feed(g, p);
      forall t | 0 <= t < p.requestTime
        ensures r.yielded[t] == At(init + [p], t)
      {
        if t < last {
          assert r.yielded[t] == r.yielded[..|g.yielded|][t];
        }
      }
    }
  }

  /** For sorted rows the `for` loop has yielded exactly one batch for each
      tick before the last row's time, holding the rows of that tick, and is
      filling the batch of the last tick. */
  lemma {:induction false} FedSorted(rows: seq<Passenger>)
    requires SortedByTime(rows) && rows != []
    ensures GroupedUpTo(Fed(rows), rows, rows[|rows| - 1].requestTime)
    decreases |rows|
  {
    var init, p := rows[..|rows| - 1], rows[|rows| - 1];
    assert rows == init + [p];
    assert Fed(rows) == Feed(Fed(init), p);
    if init == [] {
      FedFirst(p);
    } else {
      assert SortedByTime(init);
      FedSorted(init);
      var last := init[|init| - 1].requestTime;
      assert forall k :: 0 <= k < |init| ==> init[k].requestTime <= last;
      FedNext(Fed(init), init, last, p);
    }
  }

  /** For rows sorted by time, batch `t` holds exactly the rows requested at
      tick `t`, in input order, and there is one batch per tick up to the
      last row's time, skipped ticks giving empty batches. */
  lemma GroupedSorted(rows: seq<Passenger>)
    requires SortedByTime(rows) && rows != []
    ensures |Grouped(rows)| == rows[|rows| - 1].requestTime + 1
    ensures forall t :: 0 <= t < |Grouped(rows)| ==> Grouped(rows)[t] == At(rows, t)
  {
    TrailingYieldsNothing(rows);
    FedSorted(rows);
  }

  /** A row whose time is behind the counter joins the batch being filled:
      times 2 then 1 give two empty batches, then both rows together. */
  lemma LateRowJoinsCurrentBatch(a: Passenger, b: Passenger)
    requires a.requestTime == 2 && b.requestTime == 1
    ensures Grouped([a, b]) == [[], [], [a, b]]
  {
    assert [a, b][..1] == [a] && [a][..0] == [];
    FeedAhead(Start, a);
    var g := Feed(Start, a);
    assert g.yielded == [[], []] && g.passengers == [a] && g.i == 2;
    assert Fed([a]) == Feed(Fed([]), a) == g;
    assert Fed([a, b]) == Feed(Fed([a]), b) == Grouping([[], []], [a, b], 2);
    TrailingYieldsNothing([a, b]);
  }

  /** Two rows at tick 0 and one at tick 10 give eleven batches: the first
      two rows together, nine empty ticks, then the third row. */
  lemma ElevenBatches(p1: Passenger, p2: Passenger, p3: Passenger)
    requires p1.requestTime == 0 && p2.requestTime == 0 && p3.requestTime == 10
    ensures var g := Grouped([p1, p2, p3]);
      |g| == 11 && g[0] == [p1, p2] && g[10] == [p3] && forall t :: 1 <= t < 10 ==> g[t] == []
  {
    var rows := [p1, p2, p3];
    GroupedSorted(rows);
    assert rows[..2] == [p1, p2] && [p1, p2][..1] == [p1] && [p1][..0] == [];
    forall t | 1 <= t < 10 ensures At(rows, t) == [] {
      AtMissing(rows, t);
    }
    assert At([p1], 10) == [] && At([p1, p2], 10) == [];
    assert At([], 0) == [];
    assert At([p1], 0) == [p1];
    assert At([p1, p2], 0) == [p1, p2];
    assert At(rows, 0) == [p1, p2];
  }
}
