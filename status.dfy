/*
 * Status codes returned by the messaging library, the first-failure chain the
 * programs use to run their setup steps, the fixed-width unsigned conversions
 * of C, and the status-line test shared by every counter in the programs.
 */
module RvStatus {

  /** The library status codes the programs tell apart; every other code is `Failed`. */
  datatype Status = Ok | NotFound | Timeout | Failed(code: nat)

  datatype Option<T> = None | Some(value: T)

  /** What a step does to the process: carry on, or end it through `exit(code)`. */
  datatype Flow = Continue | Exit(code: int)

  const U32_MODULUS: nat := 0x1_0000_0000
  const U16_MODULUS: nat := 0x1_0000

  /** The C conversion of an integer to `tibrv_u32`/`unsigned int`: reduction modulo 2^32. */
  function ToU32(v: int): (r: nat)
    ensures r < U32_MODULUS
    ensures 0 <= v < U32_MODULUS ==> r == v
    ensures (v - r) % U32_MODULUS == 0
  {
    v % U32_MODULUS
  }

  /** The C conversion of an integer to `tibrv_u16`: reduction modulo 2^16. */
  function ToU16(v: int): (r: nat)
    ensures r < U16_MODULUS
    ensures 0 <= v < U16_MODULUS ==> r == v
    ensures (v - r) % U16_MODULUS == 0
  {
    v % U16_MODULUS
  }

  /** Adding two values already cast to 32 bits wraps to the same result as casting their exact sum. */
  lemma {:induction false} AddU32(a: int, b: int)
    ensures ToU32(ToU32(a) + ToU32(b)) == ToU32(a + b)
  {
    var qa, qb := a / U32_MODULUS, b / U32_MODULUS;
    assert a == qa * U32_MODULUS + ToU32(a);
    assert b == qb * U32_MODULUS + ToU32(b);
    assert a + b == (qa + qb) * U32_MODULUS + (ToU32(a) + ToU32(b));
    ShiftU32(ToU32(a) + ToU32(b), qa + qb);
  }

  /** Adding a multiple of 2^32 does not change the 32-bit value. */
  lemma {:induction false} ShiftU32(v: int, q: int)
    ensures ToU32(q * U32_MODULUS + v) == ToU32(v)
  {
    var r := ToU32(v);
    assert v == (v / U32_MODULUS) * U32_MODULUS + r;
    assert q * U32_MODULUS + v == (q + v / U32_MODULUS) * U32_MODULUS + r;
    assert 0 <= r < U32_MODULUS;
  }

  /** `n++` on a 32-bit unsigned counter. */
  function Inc32(n: nat): (r: nat)
    requires n < U32_MODULUS
    ensures r < U32_MODULUS
    ensures n + 1 < U32_MODULUS ==> r == n + 1
    ensures n + 1 == U32_MODULUS ==> r == 0
  {
    ToU32(n + 1)
  }

  /** The status-line test written `if (f > 0) { if ((n / f) * f == n) ... }` throughout the programs. */
  predicate StatusDue(n: nat, f: nat)
  {
    f > 0 && (n / f) * f == n
  }

  /** The test holds exactly when `f` is positive and divides `n`; with `f == 0` nothing is printed. */
  lemma StatusDueIffMultiple(n: nat, f: nat)
    ensures StatusDue(n, f) <==> f > 0 && n % f == 0
  {
  }

  /**
   * A series of steps run in order, each only when every earlier one returned
   * `Ok` (`if (rc == TIBRV_OK) rc = step();`): the status of the first step
   * that failed, or `Ok` when all succeeded.
   */
  function Chain(steps: seq<Status>): (r: Status)
    ensures r == Ok <==> forall k :: 0 <= k < |steps| ==> steps[k] == Ok
    ensures r != Ok ==> exists k :: 0 <= k < |steps| && steps[k] == r && AllOk(steps[..k])
  {
    if steps == [] then Ok
    else if steps[0] != Ok then (assert AllOk(steps[..0]); steps[0])
    else
      var r := Chain(steps[1..]);
      if r != Ok then
        var k :| 0 <= k < |steps[1..]| && steps[1..][k] == r && AllOk(steps[1..][..k]);
        assert steps[..k + 1] == [steps[0]] + steps[1..][..k];
        assert steps[k + 1] == r;
        r
      else r
  }

  predicate AllOk(steps: seq<Status>)
  {
    forall k :: 0 <= k < |steps| ==> steps[k] == Ok
  }

  /** One step of the chain: a failed first step decides, a successful one hands over to the rest. */
  lemma ChainCons(first: Status, rest: seq<Status>)
    ensures Chain([first] + rest) == if first != Ok then first else Chain(rest)
  {
    assert ([first] + rest)[1..] == rest;
  }

  /** Steps after the first failure have no influence on the chain's result. */
  lemma {:induction false} ChainStopsAtFirstFailure(steps: seq<Status>, rest: seq<Status>)
    requires Chain(steps) != Ok
    ensures Chain(steps + rest) == Chain(steps)
  {
    if steps[0] != Ok {
      assert (steps + rest)[0] == steps[0];
    } else {
      assert (steps + rest)[1..] == steps[1..] + rest;
      ChainStopsAtFirstFailure(steps[1..], rest);
    }
  }

  /** Steps that all succeeded leave the decision to the steps after them. */
  lemma {:induction false} ChainSkipsOk(steps: seq<Status>, rest: seq<Status>)
    requires AllOk(steps)
    ensures Chain(steps + rest) == Chain(rest)
  {
    if steps != [] {
      assert steps[0] == Ok;
      assert steps + rest == [steps[0]] + (steps[1..] + rest);
      ChainCons(steps[0], steps[1..] + rest);
      assert Chain(steps + rest) == Chain(steps[1..] + rest);
      assert AllOk(steps[1..]) by {
        forall k | 0 <= k < |steps[1..]| ensures steps[1..][k] == Ok {
          assert steps[1..][k] == steps[k + 1];
        }
      }
      ChainSkipsOk(steps[1..], rest);
    } else {
      assert steps + rest == rest;
    }
  }

  /** Two chains run one after the other: the second runs only when the first succeeded. */
  lemma ChainConcat(first: seq<Status>, second: seq<Status>)
    ensures Chain(first + second) == if Chain(first) != Ok then Chain(first) else Chain(second)
  {
    if Chain(first) != Ok {
      ChainStopsAtFirstFailure(first, second);
    } else {
      ChainSkipsOk(first, second);
    }
  }

  /** The status each helper returns when it runs its own group of steps as a chain. */
  function Heads(groups: seq<seq<Status>>): (r: seq<Status>)
    ensures |r| == |groups|
  {
    if groups == [] then [] else [Chain(groups[0])] + Heads(groups[1..])
  }

  /** All the groups' steps, in order. */
  function Flatten(groups: seq<seq<Status>>): seq<Status>
  {
    if groups == [] then [] else groups[0] + Flatten(groups[1..])
  }

  /**
   * A chain of helpers that each run a chain of their own returns what one
   * chain over all their steps would: the first failing step's status.
   */
  lemma {:induction false} ChainOfChains(groups: seq<seq<Status>>)
    ensures Chain(Heads(groups)) == Chain(Flatten(groups))
  {
    if groups != [] {
      ChainOfChains(groups[1..]);
      ChainCons(Chain(groups[0]), Heads(groups[1..]));
      ChainConcat(groups[0], Flatten(groups[1..]));
    }
  }

  /** The counts at which a status line is printed as a counter runs from 1 to `n`: the multiples of `f`. */
  function Multiples(f: nat, n: nat): seq<nat>
  {
    if n == 0 then [] else Multiples(f, n - 1) + (if StatusDue(n, f) then [n] else [])
  }

  /** Each multiple of `f` from 1 to `n` is listed exactly once, in increasing order, and nothing else is. */
  lemma {:induction false} MultiplesExactlyOnce(f: nat, n: nat)
    ensures forall m :: m in Multiples(f, n) <==> 1 <= m <= n && f > 0 && m % f == 0
    ensures forall i, j :: 0 <= i < j < |Multiples(f, n)| ==> Multiples(f, n)[i] < Multiples(f, n)[j]
  {
    if n > 0 {
      MultiplesExactlyOnce(f, n - 1);
      StatusDueIffMultiple(n, f);
      var prev := Multiples(f, n - 1);
      assert forall i :: 0 <= i < |prev| ==> prev[i] in prev;
    }
  }

  /** The index of the first failed call among calls `i .. n - 1` of a loop that stops at a failure, or `n` when none failed. */
  function FirstFailure(sends: nat -> Status, i: nat, n: nat): (r: nat)
    requires i <= n
    ensures i <= r <= n
    ensures forall k :: i <= k < r ==> sends(k) == Ok
    ensures r < n ==> sends(r) != Ok
    decreases n - i
  {
    if i == n then n
    else if sends(i) != Ok then i
    else FirstFailure(sends, i + 1, n)
  }

  /** A setup that exits with status 1 at its first failing step: `if (err != TIBRV_OK) { ...; exit(1); }` after each call. */
  function SetupFlow(steps: seq<Status>): (flow: Flow)
    ensures flow == Continue || flow == Exit(1)
    ensures flow == Continue <==> AllOk(steps)
  {
    if Chain(steps) != Ok then Exit(1) else Continue
  }
}
