/** The equivalence check of the benchmark driver: both engines against the prediction, on one workload. */
module Equivalence {
  import PyProcessor
  import PyTables
  import NetStore
  import NetQueue
  import P = PyWorkload
  import N = NetWorkload
  import W = Workload

  /**
   * Whatever the clocks read, the check passes exactly when no second event comes late, Python's default backlog limit
   * is not reached, and every .NET action has ended, which it has when the .NET clock does not step back.
   */
  lemma EnginesMatch(n: nat, seed: int,
                     assets: seq<PyTables.Asset>, readings: seq<PyProcessor.Readings>,
                     clocks: nat -> (nat -> PyTables.Time),
                     nows: seq<NetStore.Ticks>, rounds: seq<NetQueue.Round>)
    requires n <= |readings| && P.Seeded(assets, n, W.Events(seed))
    requires n <= |nows| && N.Running(n, seed, nows, rounds) && N.TenRounds(rounds)
    ensures P.Final(assets, n, seed, readings, 10_000, clocks) == N.Final(n, seed, nows, rounds) == W.Expected(n)
            <==> P.AllWithin(readings, n) && N.AllWithin(nows, n) && n <= 66_663
                 && N.NoneOpen(N.Ended(n, seed, nows, rounds).actions)
    ensures N.InOrder(n, nows, rounds) ==>
              (P.Final(assets, n, seed, readings, 10_000, clocks) == N.Final(n, seed, nows, rounds) == W.Expected(n)
               <==> P.AllWithin(readings, n) && N.AllWithin(nows, n) && n <= 66_663)
  {
    P.DefaultLimit(assets, n, seed, readings, clocks);
    N.BenchmarkMeetsPrediction(n, seed, nows, rounds);
  }
}
