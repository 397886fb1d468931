/** Go's dynamic values (`any`, as a JSON decoder produces them), Go maps read
    as sequences of (key, value) pairs in one fixed iteration order, and the
    outcomes shared by the other modules. */
module Dynamic {

  datatype Option<T> = None | Some(value: T)

  /** A Go `(value, error)` pair of which only one side is meaningful. */
  datatype Result<T> = Success(value: T) | Failure(error: string)

  /** The outcome of Go code that may panic (a failed type assertion, an index
      out of range): a panic ends the computation and returns nothing. */
  datatype Outcome<T> = Ok(value: T) | Panic

  /** A value of Go type `any`. */
  datatype Val =
    | Num(x: real)                      // float64
    | Float32(f: real)                  // float32
    | Str(s: string)                    // string
    | Arr(items: seq<Val>)              // []any
    | Obj(fields: seq<(string, Val)>)   // map[string]any, in iteration order
    | Other                             // bool, nil, the integer types: nothing in the core matches them

  /** A Go map has one binding per key. */
  predicate DistinctKeys<V>(m: seq<(string, V)>) {
    forall i, j :: 0 <= i < j < |m| ==> m[i].0 != m[j].0
  }

  /** The position of the first binding of `k` in `m`, or -1. */
  function IndexOf<V>(m: seq<(string, V)>, k: string): (r: int)
    ensures -1 <= r < |m|
    ensures r == -1 <==> forall i :: 0 <= i < |m| ==> m[i].0 != k
    ensures r >= 0 ==> m[r].0 == k && forall i :: 0 <= i < r ==> m[i].0 != k
  {
    if m == [] then -1
    else if m[0].0 == k then 0
    else
      var j := IndexOf(m[1..], k);
      if j == -1 then -1 else j + 1
  }

  /** `m[k]` with Go's comma-ok: the value bound to `k`, if any. */
  function Lookup<V>(m: seq<(string, V)>, k: string): (r: Option<V>)
    ensures r.None? <==> forall i :: 0 <= i < |m| ==> m[i].0 != k
    ensures r.Some? ==> 0 <= IndexOf(m, k) < |m| && m[IndexOf(m, k)] == (k, r.value)
  {
    var i := IndexOf(m, k);
    if i == -1 then None else Some(m[i].1)
  }

  /** `j` is the first binding of `k`. */
  lemma IndexOfAt<V>(m: seq<(string, V)>, k: string, j: nat)
    requires j < |m| && m[j].0 == k
    requires forall i :: 0 <= i < j ==> m[i].0 != k
    ensures IndexOf(m, k) == j
  {
  }

  /** Appending a binding leaves the positions of the other keys alone. */
  lemma IndexOfExtend<V>(m: seq<(string, V)>, e: (string, V))
    ensures forall k :: k != e.0 ==> IndexOf(m + [e], k) == IndexOf(m, k)
  {
    forall k | k != e.0
      ensures IndexOf(m + [e], k) == IndexOf(m, k)
    {
      var j := IndexOf(m + [e], k);
      assert forall i :: 0 <= i < |m| ==> (m + [e])[i] == m[i];
      if j >= 0 {
        assert j < |m|;
        IndexOfAt(m, k, j);
      }
    }
  }

  /** Two maps with the same key at every position find every key at the same position. */
  lemma IndexOfSameKeys<V>(m: seq<(string, V)>, n: seq<(string, V)>)
    requires |m| == |n|
    requires forall i :: 0 <= i < |m| ==> m[i].0 == n[i].0
    ensures forall k :: IndexOf(n, k) == IndexOf(m, k)
  {
    forall k
      ensures IndexOf(n, k) == IndexOf(m, k)
    {
      var j := IndexOf(n, k);
      if j >= 0 {
        IndexOfAt(m, k, j);
      }
    }
  }

  lemma LookupCons<V>(m: seq<(string, V)>, k: string)
    requires m != []
    ensures Lookup(m, k) == if m[0].0 == k then Some(m[0].1) else Lookup(m[1..], k)
  {
  }

  /** A Go `for ... range s` loop from state `init` whose body is `step` and may
      panic: the first panic ends the loop. */
  function Fold<S, E>(step: (S, E) -> Outcome<S>, init: S, s: seq<E>): Outcome<S>
    decreases |s|
  {
    if s == [] then Ok(init)
    else
      match step(init, s[0])
      case Panic => Panic
      case Ok(next) => Fold(step, next, s[1..])
  }

  /** Running a loop over `a + b` is running it over `a`, then over `b`. */
  lemma {:induction false} FoldAppend<S, E>(step: (S, E) -> Outcome<S>, init: S, a: seq<E>, b: seq<E>)
    ensures Fold(step, init, a + b) ==
            match Fold(step, init, a)
            case Panic => Panic
            case Ok(mid) => Fold(step, mid, b)
  {
    if a == [] {
      assert a + b == b;
    } else {
      assert (a + b)[0] == a[0];
      assert (a + b)[1..] == a[1..] + b;
      match step(init, a[0])
      case Panic =>
      case Ok(next) => FoldAppend(step, next, a[1..], b);
    }
  }

  /** One loop iteration: the state after `s[..i]` and before `s[i..]`. */
  lemma FoldStep<S, E>(step: (S, E) -> Outcome<S>, init: S, s: seq<E>, i: nat)
    requires i < |s|
    ensures Fold(step, init, s[i..]) ==
            match step(init, s[i])
            case Panic => Panic
            case Ok(next) => Fold(step, next, s[i + 1..])
  {
    assert s[i..][1..] == s[i + 1..];
  }

  /** A loop over one element runs its body once. */
  lemma FoldSingle<S, E>(step: (S, E) -> Outcome<S>, init: S, e: E)
    ensures Fold(step, init, [e]) == step(init, e)
  {
    assert [e][1..] == [];
  }
}
