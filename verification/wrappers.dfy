/** Option for the client's nullable state slots, and the outcome of one
    awaited call into a collaborator the client cannot see (contract, wallet,
    encryption SDK): either the value it resolved to, or the message of the
    error it rejected with. */
module Wrappers {

  datatype Option<+T> = None | Some(value: T)

  datatype Outcome<+T> = Ok(value: T) | Err(message: string)

  /** All-or-nothing collection of the calls `f(0)`, ..., `f(n - 1)`, awaited in
      index order: the first rejection aborts the whole loop. */
  function FetchAll<T>(f: nat -> Outcome<T>, n: nat): (r: Outcome<seq<T>>)
    ensures r.Ok? <==> forall i :: 0 <= i < n ==> f(i).Ok?
    ensures r.Ok? ==> |r.value| == n && forall i :: 0 <= i < n ==> r.value[i] == f(i).value
    ensures r.Err? ==> exists k :: 0 <= k < n && f(k).Err? && f(k).message == r.message &&
                                   forall j :: 0 <= j < k ==> f(j).Ok?
  {
    if n == 0 then Ok([])
    else
      match FetchAll(f, n - 1)
      case Err(m) => Err(m)
      case Ok(prefix) =>
        match f(n - 1)
        case Err(m) => Err(m)
        case Ok(v) => Ok(prefix + [v])
  }

  /** Once the first `m` calls have failed, calling more of them does not
      change the outcome: the loop has already thrown. */
  lemma {:induction false} FetchAllFailureSticks<T>(f: nat -> Outcome<T>, m: nat, n: nat)
    requires m <= n && FetchAll(f, m).Err?
    ensures FetchAll(f, n) == FetchAll(f, m)
  {
    if m < n {
      FetchAllFailureSticks(f, m, n - 1);
    }
  }

  /** The loop `for (let i = 0; i < n; i++) list.push(await f(i))` inside a
      `try`: the list of all results, or the first rejection. */
  method Collect<T>(f: nat -> Outcome<T>, n: nat) returns (r: Outcome<seq<T>>)
    ensures r == FetchAll(f, n)
  {
    var list: seq<T> := [];
    var i := 0;
    while i < n
      invariant 0 <= i <= n
      invariant FetchAll(f, i) == Ok(list)
    {
      var item := f(i);
      if item.Err? {
        FetchAllFailureSticks(f, i + 1, n);
        return Err(item.message);
      }
      list := list + [item.value];
      i := i + 1;
    }
    return Ok(list);
  }

  /** All-or-nothing collection of `f(xs[0])`, ..., `f(xs[|xs| - 1])`, awaited
      in order: the first rejection aborts. */
  function FetchEach<A, T>(xs: seq<A>, f: A -> Outcome<T>): (r: Outcome<seq<T>>)
    ensures r.Ok? <==> forall i :: 0 <= i < |xs| ==> f(xs[i]).Ok?
    ensures r.Ok? ==> |r.value| == |xs| && forall i :: 0 <= i < |xs| ==> r.value[i] == f(xs[i]).value
    ensures r.Err? ==> exists k :: 0 <= k < |xs| && f(xs[k]).Err? && f(xs[k]).message == r.message &&
                                   forall j :: 0 <= j < k ==> f(xs[j]).Ok?
  {
    if xs == [] then Ok([])
    else
      var init := xs[..|xs| - 1];
      assert forall i :: 0 <= i < |init| ==> init[i] == xs[i];
      match FetchEach(init, f)
      case Err(m) => Err(m)
      case Ok(prefix) =>
        match f(xs[|xs| - 1])
        case Err(m) => Err(m)
        case Ok(v) => Ok(prefix + [v])
  }

  /** A failure among the first `m` elements is the failure of the whole loop. */
  lemma {:induction false} FetchEachFailureSticks<A, T>(xs: seq<A>, f: A -> Outcome<T>, m: nat)
    requires m <= |xs| && FetchEach(xs[..m], f).Err?
    ensures FetchEach(xs, f) == FetchEach(xs[..m], f)
  {
    if m < |xs| {
      assert xs[..|xs| - 1][..m] == xs[..m];
      FetchEachFailureSticks(xs[..|xs| - 1], f, m);
    } else {
      assert xs[..m] == xs;
    }
  }
}
