/** The `Ok`/`Err` result pair and its helpers (libs/error/src/ErrorService.ts). */
module ErrorService {

  /** `T | undefined` of the source. */
  datatype Option<+T> = None | Some(value: T)

  /** `Result<T, E> = Err<T, E> | Ok<T, E>`: `ok(v)` is `Ok(v)`, `err(e)` is `Err(e)`. */
  datatype Result<+T, +E> = Ok(value: T) | Err(error: E) {

    predicate IsOk() {
      Ok?
    }

    /** Both classes define `isErr` as the negation of their own `isOk`. */
    predicate IsErr() {
      !IsOk()
    }
  }

  lemma OkIsOk<T, E>(v: T)
    ensures Result<T, E>.Ok(v).IsOk() && !Result<T, E>.Ok(v).IsErr()
    ensures Result<T, E>.Ok(v).value == v
  {
  }

  lemma ErrIsErr<T, E>(e: E)
    ensures !Result<T, E>.Err(e).IsOk() && Result<T, E>.Err(e).IsErr()
    ensures Result<T, E>.Err(e).error == e
  {
  }

  lemma IsErrIsNotIsOk<T, E>(r: Result<T, E>)
    ensures r.IsErr() == !r.IsOk()
  {
  }

  /** `values.filter(isOk).map(value)`: the values of the `Ok` entries. */
  function KeepOnlyOkValues<T, E>(rs: seq<Result<T, E>>): (vs: seq<T>)
    ensures |vs| <= |rs|
    ensures forall i :: 0 <= i < |rs| && rs[i].IsOk() ==> rs[i].value in vs
    ensures forall j :: 0 <= j < |vs| ==> Ok(vs[j]) in rs
  {
    if rs == [] then []
    else
      var rest := KeepOnlyOkValues(rs[1..]);
      assert forall i :: 1 <= i < |rs| ==> rs[i] == rs[1..][i - 1];
      if rs[0].IsOk() then [rs[0].value] + rest else rest
  }

  /** Keeping the `Ok` values commutes with concatenation, so their order is kept. */
  lemma {:induction false} KeepOnlyOkValuesConcat<T, E>(a: seq<Result<T, E>>, b: seq<Result<T, E>>)
    ensures KeepOnlyOkValues(a + b) == KeepOnlyOkValues(a) + KeepOnlyOkValues(b)
    decreases |a|
  {
    if a == [] {
      assert a + b == b;
    } else {
      assert (a + b)[1..] == a[1..] + b;
      KeepOnlyOkValuesConcat(a[1..], b);
    }
  }

  /** On a single entry, `Ok(v)` keeps `v` and `Err(e)` keeps nothing. */
  lemma KeepOnlyOkValuesSingle<T, E>(v: T, e: E)
    ensures KeepOnlyOkValues([Result<T, E>.Ok(v)]) == [v]
    ensures KeepOnlyOkValues([Result<T, E>.Err(e)]) == []
  {
  }

  /** `values[0]`, which is `undefined` on an empty array. */
  function KeepFirstItem<T>(xs: seq<T>): (r: Option<T>)
    ensures r.Some? <==> |xs| > 0
    ensures r.Some? ==> r.value == xs[0]
  {
    if |xs| == 0 then None else Some(xs[0])
  }

  /** `assertItIsOk`: passes an `Ok` through, throws "Not an Ok result" otherwise. */
  function AssertItIsOk<T, E>(r: Result<T, E>): (a: Result<T, string>)
    ensures a.Ok? <==> r.IsOk()
    ensures r.IsOk() ==> a.value == r.value
    ensures r.IsErr() ==> a.error == "Not an Ok result"
  {
    match r
    case Ok(v) => Ok(v)
    case Err(_) => Err("Not an Ok result")
  }

  /** `assertItIsErr`: passes an `Err` through, throws "Not an Err result" otherwise. */
  function AssertItIsErr<T, E>(r: Result<T, E>): (a: Result<E, string>)
    ensures a.Ok? <==> r.IsErr()
    ensures r.IsErr() ==> a.value == r.error
    ensures r.IsOk() ==> a.error == "Not an Err result"
  {
    match r
    case Err(e) => Ok(e)
    case Ok(_) => Err("Not an Err result")
  }
}
