/** What threads hold, counted from the waits that end: for critical sections and reader/writer locks. */
module Holding {
  import opened Dispatcher
  import opened Handover

  /** A wait on x that ended acquired the lock. */
  function Woken(k: Ke, r: Ke, x: nat, holds: seq<nat>): seq<nat>
    requires |holds| == |k.threads| == |r.threads|
  {
    seq(|holds|, i requires 0 <= i < |holds| =>
      if WaitsOn(k.threads[i], x) && !WaitsOn(r.threads[i], x) then holds[i] + 1 else holds[i])
  }

  lemma NothingWoken(k: Ke, x: nat, holds: seq<nat>)
    requires |holds| == |k.threads|
    ensures Woken(k, k, x, holds) == holds
  {
  }

  // ---- Totals ----

  function Sum(s: seq<nat>, n: nat): nat
    requires n <= |s|
  {
    if n == 0 then 0 else Sum(s, n - 1) + s[n - 1]
  }

  lemma {:induction false} SumSame(s: seq<nat>, t: seq<nat>, n: nat)
    requires n <= |s| && n <= |t| && s[..n] == t[..n]
    ensures Sum(s, n) == Sum(t, n)
  {
    if n > 0 {
      assert s[n - 1] == s[..n][n - 1] == t[..n][n - 1] == t[n - 1];
      assert s[..n - 1] == s[..n][..n - 1] == t[..n][..n - 1] == t[..n - 1];
      SumSame(s, t, n - 1);
    }
  }

  lemma {:induction false} SumUpdate(s: seq<nat>, i: nat, v: nat, n: nat)
    requires i < n <= |s|
    ensures Sum(s[i := v], n) == Sum(s, n) - s[i] + v
  {
    if i == n - 1 { SumSame(s, s[i := v], n - 1); } else { SumUpdate(s, i, v, n - 1); }
  }

  lemma {:induction false} SumMember(s: seq<nat>, i: nat, n: nat)
    requires i < n <= |s|
    ensures Sum(s, n) >= s[i]
  {
    if i < n - 1 { SumMember(s, i, n - 1); }
  }

  /** Two members' worth. */
  lemma SumPair(s: seq<nat>, i: nat, j: nat)
    requires i < |s| && j < |s| && i != j
    ensures Sum(s, |s|) >= s[i] + s[j]
  {
    SumUpdate(s, i, 0, |s|);
    SumMember(s[i := 0], j, |s|);
  }

  lemma {:induction false} SumNone(s: seq<nat>, n: nat)
    requires n <= |s| && forall i :: 0 <= i < n ==> s[i] == 0
    ensures Sum(s, n) == 0
  {
    if n > 0 { SumNone(s, n - 1); }
  }

  lemma SumOne(s: seq<nat>, i: nat)
    requires i < |s| && forall j :: 0 <= j < |s| && j != i ==> s[j] == 0
    ensures Sum(s, |s|) == s[i]
  {
    SumUpdate(s, i, 0, |s|);
    SumNone(s[i := 0], |s|);
  }

  /** What the holders gain the waiters lose. */
  lemma {:induction false} SumWoken(k: Ke, r: Ke, x: nat, holds: seq<nat>, n: nat)
    requires |holds| == |k.threads| == |r.threads| && n <= |holds|
    requires forall i :: 0 <= i < |holds| && WaitsOn(r.threads[i], x) ==> WaitsOn(k.threads[i], x)
    ensures Sum(Woken(k, r, x, holds), n) == Sum(holds, n) + Waiters(k, x, n) - Waiters(r, x, n)
  {
    if n > 0 { SumWoken(k, r, x, holds, n - 1); }
  }
}
