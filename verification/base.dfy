/** Shared vocabulary: optional values, results of operations that can raise,
    and Python's `str.join`. */
module Base {

  /** A value that may be absent: Python's `None`, or a dictionary key that is not there. */
  datatype Option<+T> = None | Some(value: T)

  /** The outcome of an operation that can raise: its value, or the error it raised. */
  datatype Result<+T, +E> = Success(value: T) | Failure(error: E)

  /** `d.get(key, default)` once the lookup has produced `o`. */
  function GetOr<T>(o: Option<T>, default: T): T
  {
    match o
    case Some(v) => v
    case None => default
  }

  /** Runs two list-producing steps one after the other: the first failure wins,
      otherwise the outputs are concatenated in order. */
  function Chain<T, E>(first: Result<seq<T>, E>, second: Result<seq<T>, E>): Result<seq<T>, E>
  {
    match first
    case Failure(e) => Failure(e)
    case Success(a) =>
      match second
      case Failure(e) => Failure(e)
      case Success(b) => Success(a + b)
  }

  /** Runs `step` on each element in order, as a loop that lets the first exception
      propagate: the first failure wins, otherwise the outputs are concatenated. */
  function ChainMap<A, T, E>(step: A -> Result<seq<T>, E>, xs: seq<A>): (r: Result<seq<T>, E>)
    ensures r.Success? <==> forall i :: 0 <= i < |xs| ==> step(xs[i]).Success?
    ensures r.Failure? ==>
      exists k ::
        && 0 <= k < |xs|
        && step(xs[k]) == Failure(r.error)
        && forall j :: 0 <= j < k ==> step(xs[j]).Success?
    decreases |xs|
  {
    if |xs| == 0 then Success([])
    else
      assert forall i :: 1 <= i < |xs| ==> xs[i] == xs[1..][i - 1];
      Chain(step(xs[0]), ChainMap(step, xs[1..]))
  }

  /** Running the steps over `a + b` is running them over `a` and then over `b`. */
  lemma {:induction false} ChainMapAppend<A, T, E>(step: A -> Result<seq<T>, E>, a: seq<A>, b: seq<A>)
    ensures ChainMap(step, a + b) == Chain(ChainMap(step, a), ChainMap(step, b))
    decreases |a|
  {
    if |a| == 0 {
      assert a + b == b;
      if ChainMap(step, b).Success? {
        assert [] + ChainMap(step, b).value == ChainMap(step, b).value;
      }
    } else {
      assert (a + b)[0] == a[0];
      assert (a + b)[1..] == a[1..] + b;
      ChainMapAppend(step, a[1..], b);
      var head := step(a[0]);
      var tailA := ChainMap(step, a[1..]);
      var tailB := ChainMap(step, b);
      if head.Success? && tailA.Success? && tailB.Success? {
        assert head.value + (tailA.value + tailB.value) == (head.value + tailA.value) + tailB.value;
      }
    }
  }

  /** When every step succeeds with exactly one output, the outputs line up with the inputs. */
  lemma {:induction false} ChainMapSingletons<A, T, E>(step: A -> Result<seq<T>, E>, xs: seq<A>)
    requires forall i :: 0 <= i < |xs| ==> step(xs[i]).Success? && |step(xs[i]).value| == 1
    ensures ChainMap(step, xs).Success?
    ensures |ChainMap(step, xs).value| == |xs|
    ensures forall i :: 0 <= i < |xs| ==> ChainMap(step, xs).value[i] == step(xs[i]).value[0]
    decreases |xs|
  {
    if |xs| > 0 {
      assert forall i :: 1 <= i < |xs| ==> xs[i] == xs[1..][i - 1];
      ChainMapSingletons(step, xs[1..]);
      var r := ChainMap(step, xs);
      assert r.value == step(xs[0]).value + ChainMap(step, xs[1..]).value;
    }
  }

  /** Python's `sep.join(parts)`. */
  function Join(sep: string, parts: seq<string>): string
  {
    if |parts| == 0 then ""
    else if |parts| == 1 then parts[0]
    else parts[0] + sep + Join(sep, parts[1..])
  }

  lemma JoinCons(sep: string, head: string, tail: seq<string>)
    requires |tail| > 0
    ensures Join(sep, [head] + tail) == head + sep + Join(sep, tail)
  {
    assert ([head] + tail)[1..] == tail;
  }
}
