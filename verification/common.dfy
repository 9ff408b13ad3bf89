/** Shared vocabulary of the control plane: optional values, the JSON values
    that request bodies carry, JavaScript truthiness, HTTP error replies and
    a few helpers over finite sets. */
module Common {

  /** A database-generated row id. The database hands out uuids; the model
      uses a serial number, which only needs to be fresh. */
  type Id = nat

  datatype Option<+T> = None | Some(value: T) {
    function GetOr(default: T): T {
      match this
      case Some(v) => v
      case None => default
    }
  }

  /** A JSON value as it arrives in a request body. */
  datatype Json =
    | JNull
    | JBool(b: bool)
    | JNum(n: real)
    | JStr(s: string)
    | JArr(items: seq<Json>)
    | JObj(fields: map<string, Json>)

  /** JavaScript truthiness of a JSON value: `null`, `false`, `0` and `""`
      are falsy; every array and object, even an empty one, is truthy. */
  predicate Truthy(j: Json) {
    match j
    case JNull => false
    case JBool(b) => b
    case JNum(n) => n != 0.0
    case JStr(s) => s != ""
    case JArr(_) => true
    case JObj(_) => true
  }

  /** `!!body.field` for a field that may be missing (`undefined`). */
  predicate Present(o: Option<Json>) {
    o.Some? && Truthy(o.value)
  }

  /** `reduce((a, b) => a + b, 0)` over numbers: a left fold. */
  function Sum(xs: seq<real>): real {
    if |xs| == 0 then 0.0 else Sum(xs[..|xs| - 1]) + xs[|xs| - 1]
  }

  /** The error replies a handler returns, by HTTP status. */
  datatype HttpError =
    | BadRequest(message: string)
    | NotFound(message: string)
    | Conflict(message: string)
    | ServerError(message: string)
  {
    function Status(): int {
      match this
      case BadRequest(_) => 400
      case NotFound(_) => 404
      case Conflict(_) => 409
      case ServerError(_) => 500
    }
  }

  /** A handler's reply: a success status with its payload, or an error.
      An error carries no store, so a failing request changes nothing. */
  datatype Result<+T> = Ok(code: int, value: T) | Err(error: HttpError)

  /** A finite set of integers is empty or has a member. */
  lemma Inhabited(s: set<int>)
    ensures s == {} || exists y :: y in s
  {
    if forall y :: y !in s {
      assert s == {};
    }
  }

  /** Every non-empty finite set of integers has a largest element. */
  lemma {:induction false} MaxExists(s: set<int>)
    requires s != {}
    ensures exists m :: m in s && forall x :: x in s ==> x <= m
  {
    Inhabited(s);
    var y :| y in s;
    if s != {y} {
      MaxExists(s - {y});
      var m :| m in s - {y} && forall x :: x in s - {y} ==> x <= m;
      var best := if y > m then y else m;
      forall x | x in s
        ensures x <= best
      {
        if x != y {
          assert x in s - {y};
        }
      }
    }
  }

  function MaxOf(s: set<int>): (m: int)
    requires s != {}
    ensures m in s
    ensures forall x :: x in s ==> x <= m
  {
    MaxExists(s);
    var m :| m in s && forall x :: x in s ==> x <= m;
    m
  }

  function MinOf(s: set<int>): (m: int)
    requires s != {}
    ensures m in s
    ensures forall x :: x in s ==> m <= x
  {
    Inhabited(s);
    var neg := set x | x in s :: -x;
    assert -(var y :| y in s; y) in neg;
    var top := MaxOf(neg);
    assert forall x :: x in s ==> -x in neg;
    -top
  }

  /** The member of a one-element set: what a query ending in `.single()`
      returns when exactly one row matches. */
  function TheOnly(s: set<int>): (x: int)
    requires |s| == 1
    ensures s == {x}
  {
    Inhabited(s);
    var y :| y in s;
    assert |s - {y}| == 0;
    assert s == {y};
    y
  }

  /** The first components of a list of pairs, in order (`Object.keys`). */
  function Firsts<A, B>(ps: seq<(A, B)>): (xs: seq<A>)
    ensures |xs| == |ps|
    ensures forall i :: 0 <= i < |xs| ==> xs[i] == ps[i].0
  {
    seq(|ps|, i requires 0 <= i < |ps| => ps[i].0)
  }

  /** The second components of a list of pairs, in order (`Object.values`). */
  function Seconds<A, B>(ps: seq<(A, B)>): (ys: seq<B>)
    ensures |ys| == |ps|
    ensures forall i :: 0 <= i < |ys| ==> ys[i] == ps[i].1
  {
    seq(|ps|, i requires 0 <= i < |ps| => ps[i].1)
  }

  /** `a` is `b` with some elements dropped and the rest kept in order. */
  predicate Subsequence<T(==)>(a: seq<T>, b: seq<T>)
    decreases |b|
  {
    if |a| == 0 then true
    else if |b| == 0 then false
    else (a[0] == b[0] && Subsequence(a[1..], b[1..])) || Subsequence(a, b[1..])
  }

  /** Every list is a subsequence of itself. */
  lemma {:induction false} SubsequenceOfItself<T>(s: seq<T>)
    ensures Subsequence(s, s)
  {
    if |s| > 0 {
      SubsequenceOfItself(s[1..]);
    }
  }

  /** Appending the same element to both sides keeps a subsequence, and so
      does appending to the longer list alone. */
  lemma {:induction false} SubsequenceSnoc<T>(a: seq<T>, b: seq<T>, x: T)
    requires Subsequence(a, b)
    ensures Subsequence(a + [x], b + [x])
    ensures Subsequence(a, b + [x])
    decreases |b|
  {
    if |b| == 0 {
      assert a == [];
      assert (a + [x])[1..] == [];
    } else if |a| == 0 {
      SubsequenceSnoc(a, b[1..], x);
      assert (b + [x])[1..] == b[1..] + [x];
    } else {
      assert (b + [x])[1..] == b[1..] + [x];
      assert (a + [x])[1..] == a[1..] + [x];
      if a[0] == b[0] && Subsequence(a[1..], b[1..]) {
        SubsequenceSnoc(a[1..], b[1..], x);
      } else {
        SubsequenceSnoc(a, b[1..], x);
      }
    }
  }
}
