/** client/src/services/api.ts: the retry wrapper with exponential back-off, and the bookkeeping of
    abort controllers by request key. */
module ApiClient {
  import opened Wrappers

  // ---------------------------------------------------------------------------------------------
  // withRetry

  function Pow2(n: nat): (r: nat)
    ensures r >= 1
  {
    if n == 0 then 1 else 2 * Pow2(n - 1)
  }

  /** The waits after the first `n` failed attempts: `delay * 2^i` after attempt `i`. */
  function Backoff(delay: int, n: nat): (w: seq<int>)
    ensures |w| == n
    ensures forall i :: 0 <= i < n ==> w[i] == delay * Pow2(i)
  {
    if n == 0 then [] else Backoff(delay, n - 1) + [delay * Pow2(n - 1)]
  }

  function Sum(s: seq<int>): int {
    if s == [] then 0 else Sum(s[..|s| - 1]) + s[|s| - 1]
  }

  lemma Distribute(d: int, p: int)
    ensures d * (p - 1) + d * p == d * (2 * p - 1)
  {
  }

  /** The waits add up to `delay * (2^n - 1)`. */
  lemma {:induction false} BackoffTotal(delay: int, n: nat)
    ensures Sum(Backoff(delay, n)) == delay * (Pow2(n) - 1)
  {
    if n > 0 {
      var prev := Backoff(delay, n - 1);
      var p := Pow2(n - 1);
      var w := prev + [delay * p];
      assert Backoff(delay, n) == w;
      assert w[..n - 1] == prev;
      BackoffTotal(delay, n - 1);
      assert Sum(w) == delay * (p - 1) + delay * p;
      Distribute(delay, p);
      assert Pow2(n) == 2 * p;
    }
  }

  const Exhausted: string := "重试次数已用完"

  /** `withRetry(fn, retries, delay)`, with `attempt(i)` the outcome of the `i`-th call of `fn` (Err: it
      threw). The first success is returned; the last attempt's error is rethrown; between attempts it
      waits `delay * 2^i` after attempt `i`. With no attempts allowed, `fn` is never called. Besides the
      outcome, the number of calls and the waits are returned. */
  method WithRetry<T>(attempt: nat -> Result<T>, retries: int, delay: int)
    returns (r: Result<T>, calls: nat, waits: seq<int>)
    ensures retries <= 0 ==> r == Err(Exhausted) && calls == 0 && waits == []
    ensures retries > 0 ==> 1 <= calls <= retries && waits == Backoff(delay, calls - 1)
    ensures retries > 0 ==> r == attempt(calls - 1)
    ensures forall j :: 0 <= j < calls - 1 ==> attempt(j).Err?
    ensures r.Ok? <==> exists j :: 0 <= j < retries && attempt(j).Ok?
    ensures retries > 0 && r.Err? ==> calls == retries
  {
    calls := 0;
    waits := [];
    var i := 0;
    while i < retries
      invariant 0 <= i && (i == 0 || i < retries)
      invariant retries > 0 ==> i < retries
      invariant calls == i && waits == Backoff(delay, i)
      invariant forall j :: 0 <= j < i ==> attempt(j).Err?
      decreases retries - i
    {
      var outcome := attempt(i);
      calls := calls + 1;
      if outcome.Ok? {
        return outcome, calls, waits;
      }
      if i == retries - 1 {
        return outcome, calls, waits;
      }
      waits := waits + [delay * Pow2(i)];
      i := i + 1;
    }
    r := Err(Exhausted);
  }

  // ---------------------------------------------------------------------------------------------
  // CancelTokenManager

  /** The map from request keys to abort controllers; a controller is named by the number it was
      created under, and `aborted` holds those whose `abort()` was called. */
  class CancelTokenManager {
    var tokens: map<string, nat>
    var aborted: set<nat>
    var next: nat

    /** Every controller was created before `next`; a live one is not aborted and belongs to one key
        only. */
    ghost predicate Valid()
      reads this
    {
      (forall a :: a in aborted ==> a < next)
      && (forall k :: k in tokens ==> tokens[k] < next && tokens[k] !in aborted)
      && (forall k1, k2 :: k1 in tokens && k2 in tokens && k1 != k2 ==> tokens[k1] != tokens[k2])
    }

    constructor()
      ensures Valid() && tokens == map[] && aborted == {}
    {
      tokens := map[];
      aborted := {};
      next := 0;
    }

    /** `cancel(key)`: the key's controller, if any, is aborted and forgotten; other keys are untouched,
        and an absent key changes nothing. */
    method Cancel(key: string)
      requires Valid()
      modifies this
      ensures Valid()
      ensures tokens == old(tokens) - {key} && next == old(next)
      ensures aborted == old(aborted) + (if key in old(tokens) then {old(tokens)[key]} else {})
    {
      if key in tokens {
        var id := tokens[key];
        assert forall k :: k in tokens && k != key ==> tokens[k] != id;
        aborted := aborted + {id};
        tokens := tokens - {key};
      }
    }

    /** `create(key)`: the key's previous controller is cancelled and a fresh one takes its place; its
        signal is returned, not aborted. */
    method Create(key: string) returns (signal: nat)
      requires Valid()
      modifies this
      ensures Valid()
      ensures signal == old(next) && next == old(next) + 1
      ensures tokens == old(tokens)[key := signal]
      ensures aborted == old(aborted) + (if key in old(tokens) then {old(tokens)[key]} else {})
      ensures signal !in aborted
    {
      Cancel(key);
      signal := next;
      tokens := tokens[key := signal];
      next := next + 1;
    }

    /** `cancelAll()`: every controller is aborted, then the map is cleared. */
    method CancelAll()
      requires Valid()
      modifies this
      ensures Valid()
      ensures tokens == map[] && next == old(next)
      ensures aborted == old(aborted) + old(tokens).Values
    {
      var keys := tokens.Keys;
      while keys != {}
        invariant keys <= tokens.Keys
        invariant tokens == old(tokens) && next == old(next)
        invariant aborted == old(aborted) + Image(tokens, tokens.Keys - keys)
        decreases keys
      {
        var k :| k in keys;
        ImageAdd(tokens, tokens.Keys - keys, k);
        assert tokens.Keys - (keys - {k}) == (tokens.Keys - keys) + {k};
        aborted := aborted + {tokens[k]};
        keys := keys - {k};
      }
      ImageKeys(tokens);
      tokens := map[];
    }
  }

  /** The controllers held under the keys `ks`. */
  ghost function Image(m: map<string, nat>, ks: set<string>): set<nat> {
    set k | k in ks && k in m :: m[k]
  }

  lemma ImageAdd(m: map<string, nat>, ks: set<string>, k: string)
    requires k in m
    ensures Image(m, ks + {k}) == Image(m, ks) + {m[k]}
  {
  }

  lemma ImageKeys(m: map<string, nat>)
    ensures Image(m, m.Keys) == m.Values
  {
    forall v | v in m.Values
      ensures v in Image(m, m.Keys)
    {
      var k :| k in m && m[k] == v;
    }
  }

  /** Creating a second signal for the same key aborts the first and leaves the second live. */
  method ReplaceAbortsPrevious(m: CancelTokenManager, key: string) returns (first: nat, second: nat)
    requires m.Valid()
    modifies m
    ensures m.Valid()
    ensures first in m.aborted && second !in m.aborted && first != second
    ensures m.tokens == old(m.tokens)[key := second]
  {
    first := m.Create(key);
    second := m.Create(key);
  }
}
