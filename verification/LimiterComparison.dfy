/** The two window policies side by side: logging refused requests can only cost
    admissions. */
module LimiterComparison {
  import opened SlidingWindow
  import A = AdmittedLogLimiter
  import D = DenyCountingLimiter

  lemma {:induction false} NothingAtNoLimit(times: seq<real>, limit: int, window: real)
    requires limit <= 0
    ensures D.MemoryAdmitted(times, limit, window) == []
  {
    if times != [] {
      NothingAtNoLimit(times[..|times| - 1], limit, window);
      D.MemoryAdmittedSplits(times, limit, window);
    }
  }

  /** On every run, and at every setting, the limiter that logs only what it admits
      admits at least as many requests as the one that logs everything, and its k-th
      admission comes no later. */
  lemma LoggingDenialsCostsAdmissions(times: seq<real>, limit: int, window: real)
    requires Sorted(times)
    ensures A.Ahead(A.Admitted(times, limit, window), D.MemoryAdmitted(times, limit, window))
  {
    if limit <= 0 {
      NothingAtNoLimit(times, limit, window);
    } else {
      D.MemoryKeepsLimit(times, limit, window);
      A.StaysAhead(times, D.MemoryDecisions(times, limit, window), limit, window);
    }
  }
}
