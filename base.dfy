/**
  Shared vocabulary of the model: optional values, results that carry the
  errors the controller throws, and the JavaScript number operations the
  source relies on (Math.floor, Math.ceil, Math.round, the `%` operator and
  ramda's clamp), written out over Dafny's exact `real` and `int`.
 */
module Base {

  datatype Option<+T> = None | Some(value: T) {
    function GetOr(default: T): T {
      match this
      case Some(v) => v
      case None => default
    }
  }

  /** What kind of entity an id failed to name. */
  datatype Kind = LuminaireKind | GroupKind | SceneKind | LuminaireOrGroupKind | BridgeLightKind

  /** The errors the source throws. */
  datatype Error =
    | NotInitialized               // 'Plugin not yet initialized'
    | NotFound(kind: Kind, id: string)
    | DuplicateId(id: string)      // 'Luminaire already exists with id ...'
    | UnknownEffect(id: string)    // require() of an effect module that does not exist
    | TypeError(what: string)      // a JavaScript TypeError raised by the code as written

  datatype Result<+T> = Ok(value: T) | Err(error: Error) {
    predicate IsFailure() { Err? }

    function PropagateFailure<U>(): Result<U>
      requires Err?
    {
      Err(error)
    }

    function Extract(): T
      requires Ok?
    {
      value
    }
  }

  /**
    `xs.map(f)` where f may throw: the results in order when every call
    succeeds, otherwise the error of the first call that throws.
   */
  function MapAll<A, B>(f: A -> Result<B>, xs: seq<A>): (r: Result<seq<B>>)
    ensures r.Err? ==> exists k :: 0 <= k < |xs| && f(xs[k]).Err? && r.error == f(xs[k]).error
                                   && forall j :: 0 <= j < k ==> f(xs[j]).Ok?
    ensures (forall k :: 0 <= k < |xs| ==> f(xs[k]).Ok?) ==> r.Ok?
    ensures r.Ok? ==> |r.value| == |xs|
    ensures r.Ok? ==> forall k :: 0 <= k < |xs| ==> f(xs[k]).Ok? && r.value[k] == f(xs[k]).value
    decreases |xs|
  {
    if xs == [] then Ok([])
    else
      var first := f(xs[0]);
      var rest := MapAll(f, xs[1..]);
      assert forall k :: 1 <= k < |xs| ==> xs[k] == xs[1..][k - 1];
      if first.Err? then Err(first.error)
      else if rest.Err? then
        var k :| 0 <= k < |xs[1..]| && f(xs[1..][k]).Err? && rest.error == f(xs[1..][k]).error
                 && forall j :: 0 <= j < k ==> f(xs[1..][j]).Ok?;
        assert f(xs[k + 1]).Err? && forall j :: 0 <= j < k + 1 ==> f(xs[j]).Ok?;
        Err(rest.error)
      else
        var out := [first.value] + rest.value;
        assert forall k :: 1 <= k < |xs| ==> out[k] == rest.value[k - 1];
        Ok(out)
  }

  /** `flatten(xs.map(f))`: the pieces of every element, in the elements' order. */
  function FlatMap<A, B>(f: A -> seq<B>, xs: seq<A>): seq<B>
    decreases |xs|
  {
    if xs == [] then [] else FlatMap(f, xs[..|xs| - 1]) + f(xs[|xs| - 1])
  }

  /** One element flattens to its own pieces. */
  lemma FlatMapSingleton<A, B>(f: A -> seq<B>, x: A)
    ensures FlatMap(f, [x]) == f(x)
  {
    assert [x][..0] == [];
    assert FlatMap(f, [x][..0]) == [];
  }

  /** Flattening two runs of elements gives the first run's pieces followed by the second's. */
  lemma {:induction false} FlatMapAppend<A, B>(f: A -> seq<B>, a: seq<A>, b: seq<A>)
    ensures FlatMap(f, a + b) == FlatMap(f, a) + FlatMap(f, b)
    decreases |b|
  {
    if b == [] {
      assert a + b == a;
    } else {
      var b' := b[..|b| - 1];
      FlatMapAppend(f, a, b');
      assert (a + b)[..|a + b| - 1] == a + b';
      assert (a + b)[|a + b| - 1] == b[|b| - 1];
    }
  }

  /** The outcome of an operation that returns nothing but may throw. */
  datatype Outcome = Pass | Fail(error: Error)

  /** Math.floor */
  function Floor(x: real): int {
    x.Floor
  }

  /** Math.ceil */
  function Ceil(x: real): (r: int)
    ensures x <= r as real < x + 1.0
    ensures r == Floor(x) <==> x == Floor(x) as real
  {
    -((-x).Floor)
  }

  /** Math.round: halves round up, towards +infinity. */
  function Round(x: real): (r: int)
    ensures x - 0.5 < r as real <= x + 0.5
  {
    (x + 0.5).Floor
  }

  /** Truncation toward zero, as JavaScript's `%` uses it. */
  function Trunc(x: real): (r: int)
    ensures 0.0 <= x ==> r == Floor(x)
    ensures x < 0.0 ==> r == Ceil(x)
  {
    if 0.0 <= x then Floor(x) else Ceil(x)
  }

  /** JavaScript's `x % m` on numbers: x minus the multiple of m that truncating x / m gives. */
  function JsRem(x: real, m: real): real
    requires m > 0.0
  {
    Times(m, FracPart(x / m))
  }

  /** Real multiplication under a name, so that equal operands give equal products by congruence. */
  function Times(a: real, b: real): real {
    a * b
  }

  /** The remainder takes the sign of x and is smaller than m in magnitude. */
  lemma JsRemBounds(x: real, m: real)
    requires m > 0.0
    ensures 0.0 <= x ==> 0.0 <= JsRem(x, m) < m
    ensures x < 0.0 ==> -m < JsRem(x, m) <= 0.0
  {
    var q := x / m;
    var f := FracPart(q);
    assert JsRem(x, m) == Times(m, f);
    QuotientSign(x, m);
    if 0.0 <= x {
      FractionScalesBelow(m, f);
    } else {
      FractionScalesBelow(m, -f);
      assert Times(m, -f) == -Times(m, f);
    }
  }

  lemma FractionScalesBelow(m: real, f: real)
    requires m > 0.0 && 0.0 <= f < 1.0
    ensures 0.0 <= Times(m, f) < m
  {
    assert m - m * f == m * (1.0 - f);
  }

  /** Scaling a non-negative value by a factor in [0, 1] keeps it in [0, v]. */
  lemma ScaleWithinValue(v: real, b: real)
    requires 0.0 <= v && 0.0 <= b <= 1.0
    ensures 0.0 <= Times(v, b) <= v
  {
    assert v - v * b == v * (1.0 - b);
    assert 0.0 <= v * (1.0 - b);
  }

  /** The part of q that truncation drops, of q's sign and below 1 in magnitude. */
  function FracPart(q: real): (f: real)
    ensures 0.0 <= q ==> 0.0 <= f < 1.0
    ensures q < 0.0 ==> -1.0 < f <= 0.0
  {
    q - Trunc(q) as real
  }

  lemma QuotientSign(x: real, m: real)
    requires m > 0.0
    ensures 0.0 <= x <==> 0.0 <= x / m
  {
    assert x == (x / m) * m;
  }

  /** JavaScript's `a % m` on integral numbers. */
  function JsRemInt(a: int, m: int): (r: int)
    requires m > 0
    ensures 0 <= a ==> r == a % m
    ensures -m < r < m
    ensures a < 0 ==> r <= 0
  {
    if 0 <= a then a % m else -((-a) % m)
  }

  /** ramda's clamp(lo, hi, x), for lo <= hi. */
  function Clamp(lo: real, hi: real, x: real): (r: real)
    requires lo <= hi
    ensures lo <= r <= hi
    ensures lo <= x <= hi ==> r == x
    ensures x <= lo ==> r == lo
    ensures hi <= x ==> r == hi
  {
    if x < lo then lo else if x > hi then hi else x
  }
}
