/** Options, results and sums over maps, shared by every other module. */
module Base {

  datatype Option<+T> = None | Some(value: T) {
    function GetOr(default: T): T {
      match this
      case Some(v) => v
      case None => default
    }
  }

  datatype Result<+T, +E> = Success(value: T) | Failure(error: E) {
    predicate IsFailure() {
      Failure?
    }

    function PropagateFailure<U>(): Result<U, E>
      requires Failure?
    {
      Failure(error)
    }

    function Extract(): T
      requires Success?
    {
      value
    }
  }

  function Get<K, V>(m: map<K, V>, k: K, default: V): V {
    if k in m then m[k] else default
  }

  // The balance of an account; accounts that were never written hold nothing.
  function Bal(m: map<string, real>, account: string): real {
    Get(m, account, 0.0)
  }

  ghost predicate NonNegative(m: map<string, real>) {
    forall a :: Bal(m, a) >= 0.0
  }

  ghost function Sum(m: map<string, real>): real {
    if m == map[] then 0.0 else var k :| k in m; m[k] + Sum(m - {k})
  }

  lemma {:induction false} SumRemove(m: map<string, real>, k: string)
    requires k in m
    ensures Sum(m) == m[k] + Sum(m - {k})
    decreases |m|
  {
    var p :| p in m && Sum(m) == m[p] + Sum(m - {p});
    if p != k {
      var rest := m - {p};
      assert (m - {k}) - {p} == rest - {k};
      SumRemove(rest, k);
      SumRemove(m - {k}, p);
    }
  }

  // Writing one entry moves the sum by exactly the change of that entry.
  lemma SumUpdate(m: map<string, real>, k: string, v: real)
    ensures Sum(m[k := v]) == Sum(m) - Bal(m, k) + v
  {
    SumRemove(m[k := v], k);
    if k in m {
      SumRemove(m, k);
      assert m[k := v] - {k} == m - {k};
    } else {
      assert m[k := v] - {k} == m;
    }
  }
}
