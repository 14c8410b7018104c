/** The generator of session ids shared by all adapters. */
module SessionId {
  /** Ids run through 1 .. PERIOD and then start again. */
  const PERIOD: nat := 0xFFFF_FFFE

  /** One call on an unsigned 32-bit counter; the id returned is the new counter. */
  function Next(counter: nat): nat {
    var incremented := (counter + 1) % 0x1_0000_0000;
    if incremented == 0xFFFF_FFFF then 1 else incremented
  }

  /** The counter, which starts at 1, after so many calls. */
  function After(calls: nat): nat {
    if calls == 0 then 1 else Next(After(calls - 1))
  }

  lemma {:induction false} CounterIsClosedForm(calls: nat)
    ensures After(calls) == calls % PERIOD + 1
  {
    if calls > 0 {
      CounterIsClosedForm(calls - 1);
      ModStep(calls - 1);
    }
  }

  lemma ModStep(n: nat)
    ensures (n + 1) % PERIOD == if n % PERIOD == PERIOD - 1 then 0 else n % PERIOD + 1
  {
  }

  lemma ModDifference(m: nat, n: nat)
    requires m <= n
    ensures m % PERIOD == n % PERIOD <==> (n - m) % PERIOD == 0
  {
  }

  /** Ids are never zero, and two calls return the same id exactly if they are a multiple
      of PERIOD apart, so any PERIOD consecutive calls return distinct ids. */
  lemma IdsAreFreshWithinAPeriod(m: nat, n: nat)
    requires m < n
    ensures 1 <= After(n) <= PERIOD
    ensures After(m) == After(n) <==> (n - m) % PERIOD == 0
    ensures n - m < PERIOD ==> After(m) != After(n)
  {
    CounterIsClosedForm(m);
    CounterIsClosedForm(n);
    ModDifference(m, n);
  }
}
