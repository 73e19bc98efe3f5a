/**
 * The global loading indicator: a counter of requests in flight that
 * `startLoading` increments and `stopLoading` decrements without going below
 * zero.
 */
module LoaderStore {

  datatype Op = Start | Stop

  /** The counter after one operation. */
  function Step(count: nat, op: Op): (r: nat)
    ensures op.Start? ==> r == count + 1
    ensures op.Stop? ==> r + 1 == count || (count == 0 && r == 0)
  {
    match op
    case Start => count + 1
    case Stop => if count == 0 then 0 else count - 1
  }

  /** The counter after a sequence of operations. */
  function Run(count: nat, ops: seq<Op>): nat
    decreases |ops|
  {
    if ops == [] then count else Run(Step(count, ops[0]), ops[1..])
  }

  function Repeat(op: Op, n: nat): (ops: seq<Op>)
    ensures |ops| == n && forall i :: 0 <= i < n ==> ops[i] == op
  {
    if n == 0 then [] else [op] + Repeat(op, n - 1)
  }

  lemma {:induction false} RunAppend(count: nat, a: seq<Op>, b: seq<Op>)
    ensures Run(count, a + b) == Run(Run(count, a), b)
    decreases |a|
  {
    if a == [] {
      assert a + b == b;
    } else {
      assert (a + b)[1..] == a[1..] + b;
      RunAppend(Step(count, a[0]), a[1..], b);
    }
  }

  /** n starts add n. */
  lemma {:induction false} Starts(count: nat, n: nat)
    ensures Run(count, Repeat(Start, n)) == count + n
    decreases n
  {
    if n > 0 {
      Starts(count + 1, n - 1);
    }
  }

  /** m stops subtract m, saturating at 0. */
  lemma {:induction false} Stops(count: nat, m: nat)
    ensures Run(count, Repeat(Stop, m)) == if count >= m then count - m else 0
    decreases m
  {
    if m > 0 {
      Stops(Step(count, Stop), m - 1);
    }
  }

  /** From any count, n starts followed by n stops restore it; from 0 the store is idle again. */
  lemma StartsThenStops(count: nat, n: nat)
    ensures Run(count, Repeat(Start, n) + Repeat(Stop, n)) == count
    ensures Run(0, Repeat(Start, n) + Repeat(Stop, n)) == 0
  {
    RunAppend(count, Repeat(Start, n), Repeat(Stop, n));
    Starts(count, n);
    Stops(count + n, n);
    RunAppend(0, Repeat(Start, n), Repeat(Stop, n));
    Starts(0, n);
    Stops(n, n);
  }

  class Loader {
    var loadingCount: nat

    constructor ()
      ensures loadingCount == 0 && !IsLoading()
    {
      loadingCount := 0;
    }

    method StartLoading()
      modifies this
      ensures loadingCount == Step(old(loadingCount), Start)
      ensures IsLoading()
    {
      loadingCount := loadingCount + 1;
    }

    method StopLoading()
      modifies this
      ensures loadingCount == Step(old(loadingCount), Stop)
      ensures old(loadingCount) == 0 ==> loadingCount == 0
    {
      loadingCount := if loadingCount - 1 < 0 then 0 else loadingCount - 1;
    }

    function IsLoading(): (r: bool)
      reads this
      ensures r <==> loadingCount > 0
    {
      loadingCount > 0
    }

    /** Applies each operation in turn: the counter ends where the pure run says. */
    method Apply(ops: seq<Op>)
      modifies this
      ensures loadingCount == Run(old(loadingCount), ops)
    {
      var i := 0;
      while i < |ops|
        invariant 0 <= i <= |ops|
        invariant Run(old(loadingCount), ops) == Run(loadingCount, ops[i..])
      {
        assert ops[i..][1..] == ops[i + 1..];
        if ops[i].Start? {
          StartLoading();
        } else {
          StopLoading();
        }
        i := i + 1;
      }
    }
  }
}
