/** Freshness of chunks by their dates (context/optimizer.ts, scoreFreshness, applyFreshnessScoring). */
module Freshness {
  import opened Options
  import opened Arithmetic
  import opened Ranking
  import opened Dedupe

  const DAY := 86400000.0

  /** What a chunk's metadata says, in milliseconds. */
  datatype Dates = Dates(expiresAt: Option<real>, updatedAt: Option<real>)

  datatype FreshOptions = FreshOptions(dates: Kept -> Dates, referenceMs: real, maxAgeDays: real)

  datatype Score = Score(freshness: real, stale: bool)

  /** Math.max(1, Math.min(3650, n)) */
  function MaxAge(asked: real): (days: real)
    ensures 1.0 <= days <= 3650.0
  {
    MaxReal(1.0, MinReal(3650.0, asked))
  }

  function ScoreFreshness(d: Dates, referenceMs: real, maxAgeDays: real): Option<Score>
    requires maxAgeDays > 0.0
  {
    if d.expiresAt.Some? && d.expiresAt.value < referenceMs then Some(Score(0.0, true))
    else
      match d.updatedAt
      case None => None
      case Some(updatedAt) =>
        var ageDays := MaxReal(0.0, (referenceMs - updatedAt) / DAY);
        Some(Score(Round4(MaxReal(0.0, 1.0 - ageDays / maxAgeDays)), ageDays > maxAgeDays))
  }

  function ScoreOf(o: FreshOptions, chunk: Kept): Option<Score> {
    ScoreFreshness(o.dates(chunk), o.referenceMs, MaxAge(o.maxAgeDays))
  }

  function Freshen(o: FreshOptions, chunk: Kept): Kept {
    match ScoreOf(o, chunk)
    case None => chunk
    case Some(s) => chunk.(freshness := Some(s.freshness), stale := s.stale)
  }

  function FreshStage(o: FreshOptions, kept: seq<Kept>): (r: seq<Kept>)
    ensures |r| == |kept|
  {
    seq(|kept|, i requires 0 <= i < |kept| => Freshen(o, kept[i]))
  }

  // ---------------------------------------------------------------- metrics

  /** The chunks that carry a usable date. */
  function DatedScores(o: FreshOptions, kept: seq<Kept>): seq<Score> {
    if kept == [] then []
    else
      var last := ScoreOf(o, kept[|kept| - 1]);
      DatedScores(o, kept[..|kept| - 1]) + if last.Some? then [last.value] else []
  }

  function Total(scores: seq<Score>): real {
    if scores == [] then 0.0 else Total(scores[..|scores| - 1]) + scores[|scores| - 1].freshness
  }

  function Stale(scores: seq<Score>): nat {
    if scores == [] then 0 else Stale(scores[..|scores| - 1]) + if scores[|scores| - 1].stale then 1 else 0
  }

  datatype FreshMetrics = FreshMetrics(average: Option<real>, stale: nat)

  function MetricsOf(scores: seq<Score>): FreshMetrics {
    FreshMetrics(if scores == [] then None else Some(Round4(Total(scores) / |scores| as real)), Stale(scores))
  }

  /** The map with its running counts. */
  method ApplyFreshness(o: FreshOptions, kept: seq<Kept>) returns (scored: seq<Kept>, metrics: FreshMetrics)
    ensures scored == FreshStage(o, kept) && metrics == MetricsOf(DatedScores(o, kept))
  {
    hide ScoreFreshness, Round4;
    scored := [];
    var scoredCount, total, staleChunks := 0, 0.0, 0;
    for i := 0 to |kept|
      invariant |scored| == i && forall k :: 0 <= k < i ==> scored[k] == Freshen(o, kept[k])
      invariant var s := DatedScores(o, kept[..i]);
                scoredCount == |s| && total == Total(s) && staleChunks == Stale(s)
    {
      assert kept[..i + 1][..i] == kept[..i];
      scored := scored + [Freshen(o, kept[i])];
      var s := ScoreOf(o, kept[i]);
      if s.Some? {
        ScoresSnoc(DatedScores(o, kept[..i]), s.value);
        scoredCount := scoredCount + 1;
        total := total + s.value.freshness;
        if s.value.stale { staleChunks := staleChunks + 1; }
      } else {
        assert DatedScores(o, kept[..i + 1]) == DatedScores(o, kept[..i]) + [] == DatedScores(o, kept[..i]);
      }
    }
    assert kept[..|kept|] == kept;
    metrics := FreshMetrics(if scoredCount == 0 then None else Some(Round4(total / scoredCount as real)), staleChunks);
  }

  lemma ScoresSnoc(scores: seq<Score>, s: Score)
    ensures Total(scores + [s]) == Total(scores) + s.freshness
    ensures Stale(scores + [s]) == Stale(scores) + if s.stale then 1 else 0
  {
    assert (scores + [s])[..|scores|] == scores;
  }

  /** Freshness lies in [0, 1], and a stale chunk has none. */
  lemma FreshnessRange(d: Dates, referenceMs: real, maxAgeDays: real)
    requires maxAgeDays > 0.0
    ensures var s := ScoreFreshness(d, referenceMs, maxAgeDays);
            s.Some? ==> 0.0 <= s.value.freshness <= 1.0 && (s.value.stale ==> s.value.freshness == 0.0)
  {
    hide Round4;
    Round4Fixed();
    if d.updatedAt.Some? {
      var ageDays := MaxReal(0.0, (referenceMs - d.updatedAt.value) / DAY);
      var share := ageDays / maxAgeDays;
      assert share * maxAgeDays == ageDays;
      CancelFactor(0.0, share, maxAgeDays);
      if ageDays > maxAgeDays { CancelFactor(1.0, share, maxAgeDays); }
      var x := MaxReal(0.0, 1.0 - share);
      Round4Monotone(0.0, x);
      Round4Monotone(x, 1.0);
    }
  }

  /** A chunk past its expiry is stale with no freshness; otherwise one without an update time is left
      unscored, and one with it is stale exactly when older than the allowed age, its freshness falling
      evenly from 1 to 0 over that age, to four places. */
  lemma FreshnessIs(d: Dates, referenceMs: real, asked: real)
    ensures var s := ScoreFreshness(d, referenceMs, MaxAge(asked));
            var span := 86400000.0 * (if asked < 1.0 then 1.0 else if asked > 3650.0 then 3650.0 else asked);
            if d.expiresAt.Some? && d.expiresAt.value < referenceMs then s == Some(Score(0.0, true))
            else if d.updatedAt.None? then s.None?
            else
              var age := referenceMs - d.updatedAt.value;
              s.Some? && (s.value.stale <==> age > span)
              && if age <= 0.0 then s.value.freshness == 1.0
                 else if age >= span then s.value.freshness == 0.0
                 else (s.value.freshness - 0.00005) * span <= span - age <= (s.value.freshness + 0.00005) * span
  {
    hide Round4;
    Round4Fixed();
    if d.updatedAt.Some? && !(d.expiresAt.Some? && d.expiresAt.value < referenceMs) {
      var age := referenceMs - d.updatedAt.value;
      Days(age, age / DAY);
      FreshByAge(age, MaxAge(asked), MaxReal(0.0, age / DAY));
    }
  }

  lemma FreshByAge(age: real, most: real, ageDays: real)
    requires most >= 1.0 && ageDays >= 0.0 && ageDays * 86400000.0 == if age > 0.0 then age else 0.0
    ensures var span, freshness := 86400000.0 * most, Round4(MaxReal(0.0, 1.0 - ageDays / most));
            (ageDays > most <==> age > span)
            && if age <= 0.0 then freshness == 1.0
               else if age >= span then freshness == 0.0
               else (freshness - 0.00005) * span <= span - age <= (freshness + 0.00005) * span
  {
    hide Round4;
    Round4Fixed();
    var share, span := ageDays / most, 86400000.0 * most;
    Faded(age, most, ageDays, share);
    var freshness := Round4(MaxReal(0.0, 1.0 - share));
    Round4Near(MaxReal(0.0, 1.0 - share));
    if 0.0 < age < span {
      ScaleBetween(freshness - 0.00005, 1.0 - share, freshness + 0.00005, span, span - age);
    }
  }

  lemma Days(age: real, days: real)
    requires days == age / DAY
    ensures days * 86400000.0 == age
  {
  }

  /** The share of the allowed age used up. */
  lemma Faded(age: real, most: real, ageDays: real, share: real)
    requires most >= 1.0 && share == ageDays / most && ageDays >= 0.0
    requires ageDays * 86400000.0 == if age > 0.0 then age else 0.0
    ensures ageDays > most <==> age > 86400000.0 * most
    ensures age <= 0.0 ==> share == 0.0
    ensures age >= 86400000.0 * most ==> share >= 1.0
    ensures 0.0 < age < 86400000.0 * most ==>
              (share <= 1.0 && (1.0 - share) * (86400000.0 * most) == 86400000.0 * most - age)
  {
    if ageDays >= most { QuotientAtLeast(ageDays, most, 1.0); } else { QuotientAtMost(ageDays, most, 1.0); }
    LeftOver(most, ageDays, share);
    var left := (1.0 - share) * most;
    assert left * 86400000.0 == 86400000.0 * most - ageDays * 86400000.0;
    Regroup(1.0 - share, most, left);
  }

  lemma LeftOver(most: real, ageDays: real, share: real)
    requires most >= 1.0 && share == ageDays / most
    ensures (1.0 - share) * most == most - ageDays
  {
    assert share * most == ageDays;
  }

  lemma Regroup(x: real, most: real, product: real)
    requires x * most == product
    ensures x * (86400000.0 * most) == product * 86400000.0
  {
  }

  // ---------------------------------------------------------------- what the metrics count

  predicate Dated(o: FreshOptions, chunk: Kept) { ScoreOf(o, chunk).Some? }

  predicate DatedStale(o: FreshOptions, chunk: Kept) { Dated(o, chunk) && ScoreOf(o, chunk).value.stale }

  lemma {:induction false} DatedCount(o: FreshOptions, kept: seq<Kept>)
    ensures |DatedScores(o, kept)| == |set i | 0 <= i < |kept| && Dated(o, kept[i])|
  {
    var dated := set i | 0 <= i < |kept| && Dated(o, kept[i]);
    if kept == [] {
      assert dated == {};
    } else {
      hide ScoreOf;
      var n := |kept| - 1;
      var before := set i | 0 <= i < n && Dated(o, kept[..n][i]);
      DatedCount(o, kept[..n]);
      assert dated == before + if Dated(o, kept[n]) then {n} else {};
    }
  }

  lemma {:induction false} StaleCount(o: FreshOptions, kept: seq<Kept>)
    ensures Stale(DatedScores(o, kept)) == |set i | 0 <= i < |kept| && DatedStale(o, kept[i])|
  {
    var stale := set i | 0 <= i < |kept| && DatedStale(o, kept[i]);
    if kept == [] {
      assert stale == {};
    } else {
      var n := |kept| - 1;
      var before := set i | 0 <= i < n && DatedStale(o, kept[..n][i]);
      StaleCount(o, kept[..n]);
      StaleSnoc(o, kept);
      hide DatedStale, DatedScores, Stale;
      assert stale == before + if DatedStale(o, kept[n]) then {n} else {};
    }
  }

  lemma StaleSnoc(o: FreshOptions, kept: seq<Kept>)
    requires kept != []
    ensures var n := |kept| - 1;
            Stale(DatedScores(o, kept)) == Stale(DatedScores(o, kept[..n])) + if DatedStale(o, kept[n]) then 1 else 0
  {
    hide ScoreOf;
    var before, last := DatedScores(o, kept[..|kept| - 1]), kept[|kept| - 1];
    assert before + [] == before;
    if Dated(o, last) { ScoresSnoc(before, ScoreOf(o, last).value); }
  }

  /** The average is over the chunks with a usable date, to four places; the count is of the stale ones
      among them. */
  lemma FreshMetricsAre(o: FreshOptions, kept: seq<Kept>)
    ensures var m := MetricsOf(DatedScores(o, kept));
            var n := |set i | 0 <= i < |kept| && Dated(o, kept[i])|;
            m.stale == |set i | 0 <= i < |kept| && DatedStale(o, kept[i])|
            && match m.average
               case None => n == 0
               case Some(average) =>
                 n > 0 && (average - 0.00005) * n as real <= Total(DatedScores(o, kept)) <= (average + 0.00005) * n as real
  {
    hide Round4, Total, Stale, Dated, DatedStale, DatedScores;
    DatedCount(o, kept);
    StaleCount(o, kept);
    var scores := DatedScores(o, kept);
    if scores != [] { AverageIs(Total(scores), |scores| as real); }
  }
}
