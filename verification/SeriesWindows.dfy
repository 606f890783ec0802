/**
  What `Registry` takes for granted of a time series' reset(), from the runs of `Seqlock`:
  each window it returns is one that a reset() step of `Registry` may take, and what
  aggregate() passes on for that step is what it makes of the returned pair.
 */
module SeriesWindows {
  import opened Words
  import opened History
  import Registry
  import Seqlock
  import SeqlockProof

  /** aggregate() on a returned count and sum: a count of zero passes nothing on. */
  function Aggregated(count: int, sum: int): Registry.Amount {
    if count == 0 then Registry.NOTHING else Registry.Amount(count, sum)
  }

  lemma ReturnsAreWindows(n: nat, acts: seq<Seqlock.Action>, i: nat, st: Registry.Stat)
    requires i < |Seqlock.Run(TWO64, n, acts).log|
    requires st.history == Seqlock.Run(TWO64, n, acts).h
    requires st.drained == Seqlock.Run(TWO64, n, acts).log[i].from
    ensures var r := Seqlock.Run(TWO64, n, acts).log[i];
      && Registry.TakesTo(st, r.started, r.to)
      && Registry.Passed(Registry.Series, st.history[st.drained..r.to]) == Aggregated(r.count, r.sum)
  {
    hide Seqlock.Run, Total, SeqlockProof.AdderInv, SeqlockProof.BaselineInv, SeqlockProof.DrainersInv;
    SeqlockProof.RunInv(TWO64, n, acts);
    var s := Seqlock.Run(TWO64, n, acts);
    assert SeqlockProof.ReturnExact(s, s.log[i]);
  }
}
