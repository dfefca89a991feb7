/** From the stream of changes to the inputs of the OEE: what is counted is what the line made. */
module Production {
  import opened Basics
  import opened Facts
  import opened Restarting
  import opened Counters
  import opened Oee
  import opened OeeMeaning
  import opened Contents
  import Q = RangeQuery

  // ------------------------------------------------------------ rows in order

  /** The times at which the first n groups left a row. */
  function TimesTold<V>(gs: seq<Group>, rows: seq<Option<V>>, n: nat): seq<int>
    requires n <= |gs| == |rows|
  {
    if n == 0 then []
    else TimesTold(gs, rows, n - 1) + if rows[n - 1].Some? then [gs[n - 1].ts] else []
  }

  lemma {:induction false} TimesAre<V>(gs: seq<Group>, rows: seq<Option<V>>, n: nat)
    requires n <= |gs| == |rows| && Ordered(gs)
    ensures var times := TimesTold(gs, rows, n);
            && Increasing(times)
            && forall t :: t in times <==> exists i :: 0 <= i < n && gs[i].ts == t && rows[i].Some?
  {
    if n > 0 {
      TimesAre(gs, rows, n - 1);
      var before, times, g := TimesTold(gs, rows, n - 1), TimesTold(gs, rows, n), gs[n - 1];
      forall t | t in before ensures t < g.ts {
        var i :| 0 <= i < n - 1 && gs[i].ts == t && rows[i].Some?;
      }
      if rows[n - 1].Some? {
        forall i, j | 0 <= i < j < |times| ensures times[i] < times[j] {
          if j == |before| { assert times[i] in before; }
        }
      }
      forall t ensures t in times <==> exists i :: 0 <= i < n && gs[i].ts == t && rows[i].Some? {
        assert t in times <==> t in before || (rows[n - 1].Some? && t == g.ts);
      }
    }
  }

  /** The keys of a table in order are the times of the groups that left its rows. */
  lemma KeysAreTimes<V>(table: map<int, V>, gs: seq<Group>, rows: seq<Option<V>>)
    requires Holds(table, gs, rows) && Ordered(gs)
    ensures Sorted(table.Keys) == TimesTold(gs, rows, |gs|)
  {
    var times := TimesTold(gs, rows, |gs|);
    TimesAre(gs, rows, |gs|);
    forall t ensures t in Sorted(table.Keys) <==> t in times {
      if t in table { var i :| 0 <= i < |gs| && gs[i].ts == t; }
    }
    SortedIsUnique(Sorted(table.Keys), times);
  }

  // ------------------------------------------------------------ samples

  /** One sample for each of the first n groups that brings a counter once all four values are known: at its time,
      with the last good count, scrap count and theoretical cycle time brought up to it. */
  function SamplesTold(gs: seq<Group>, n: nat): seq<Sample>
    requires n <= |gs|
  {
    if n == 0 then []
    else
      SamplesTold(gs, n - 1)
      + match CounterRowAt(gs, n - 1)
        case None => []
        case Some(row) => [Sample(gs[n - 1].ts, row.good, row.scrap, row.cycle)]
  }

  lemma {:induction false} SamplesOfTimes(counters: map<int, CounterRow>, gs: seq<Group>, n: nat)
    requires n <= |gs| && Holds(counters, gs, CounterRows(gs))
    ensures Q.SamplesAt(counters, TimesTold(gs, CounterRows(gs), n)) == SamplesTold(gs, n)
  {
    if n > 0 {
      var ts, before := gs[n - 1].ts, TimesTold(gs, CounterRows(gs), n - 1);
      SamplesOfTimes(counters, gs, n - 1);
      assert CounterRows(gs)[n - 1] == CounterRowAt(gs, n - 1);
      if CounterRowAt(gs, n - 1).Some? {
        Q.SamplesAppend(counters, before, [ts]);
        Q.SamplesOne(counters, ts);
      } else {
        assert before + [] == before;
      }
    }
  }

  /** The samples the OEE is computed from are those the stream told. */
  lemma SamplesAreTold(db: Db, gs: seq<Group>)
    requires Told(db, gs) && Ordered(gs)
    ensures Q.AllSamples(db) == SamplesTold(gs, |gs|)
  {
    KeysAreTimes(db.counters, gs, CounterRows(gs));
    SamplesOfTimes(db.counters, gs, |gs|);
  }

  /** Where the PLC's counters are true counts taken modulo 2^32 that advance by at most the window from sample to
      sample, the good (or scrapped) parts computed from the stored history are those the line made between the
      first and the last sample of the stream. */
  lemma WhatIsMadeIsCounted(db: Db, gs: seq<Group>, which: Counter, counts: seq<nat>, window: int)
    requires Told(db, gs) && Ordered(gs)
    requires counts != [] && window < UINT32_RANGE && SlowCount(counts, window)
    requires Readings(SamplesTold(gs, |gs|), which) == Wrapped(counts)
    ensures AllRevealed(DeltasOf(Q.AllSamples(db), window), which) == counts[|counts| - 1] as int - counts[0] as int
  {
    SamplesAreTold(db, gs);
    Q.SortedSamples(db.counters, Sorted(db.counters.Keys));
    ProductionIsExact(Q.AllSamples(db), which, counts, window);
  }

  // ------------------------------------------------------------ what is collected is fit to be computed on

  lemma {:induction false} GapsListed(gaps: map<int, Option<int>>, ts: seq<int>)
    ensures forall g :: g in Q.GapsAt(gaps, ts) ==> g.start in gaps && g.end == gaps[g.start]
  {
    if ts != [] { GapsListed(gaps, ts[1..]); }
  }

  /** Stored samples are at distinct times, so wherever the stored gaps are not empty the parts that count are
      exactly those of the intervals in which every instant was observed. */
  lemma StoredFactsAreProper(db: Db, window: int)
    requires forall t :: t in db.gaps && db.gaps[t].Some? ==> t < db.gaps[t].value
    ensures Proper(DeltasOf(Q.AllSamples(db), window), Q.AllGaps(db))
  {
    var gaps, samples := Q.AllGaps(db), Q.AllSamples(db);
    GapsListed(db.gaps, Sorted(db.gaps.Keys));
    forall i | 0 <= i < |gaps| && gaps[i].end.Some? ensures gaps[i].start < gaps[i].end.value {
      assert gaps[i] in gaps;
    }
    Q.SortedSamples(db.counters, Sorted(db.counters.Keys));
    Q.SampleTimes(db.counters, Sorted(db.counters.Keys));
    DeltaTimes(None, samples, window);
  }
}
