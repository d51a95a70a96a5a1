/**
  Shared shapes: optional values and results, the shapes of JSON request-body
  fields that the handlers test for JavaScript truthiness, and the chain of
  early-return guards every handler starts with.
*/
module Basics {

  datatype Option<+T> = None | Some(value: T)

  datatype Result<+T, +E> = Success(value: T) | Failure(error: E)

  /** The outcome of a handler that answers with a status and changes state. */
  datatype Outcome<+E> = Pass | Fail(error: E)

  /** Database identifiers, compared by their string form (`id.toString()`). */
  type UserId = string

  /** A string field of a request body; `None` stands for `undefined` and `null`. */
  predicate Given(s: Option<string>) {
    s.Some? && s.value != ""
  }

  /** The length of a string field that has passed a `Given` test (0 otherwise). */
  function Length(s: Option<string>): nat {
    if s.Some? then |s.value| else 0
  }

  /** A numeric body field; `None` stands for `undefined` and `null` (NaN is not modelled). */
  predicate NumGiven(x: Option<real>) {
    x.Some? && x.value != 0.0
  }

  /** A numeric value where the source tells `undefined` apart from `null` (`!== undefined`). */
  datatype NumField = Undefined | Null | Num(n: real) {
    predicate Truthy() {
      Num? && n != 0.0
    }
    /** The number a relational comparison reads: `null` is read as 0. */
    function AsNumber(): real
      requires !Undefined?
    {
      if Null? then 0.0 else n
    }
  }

  /**
    A body field the source expects to be an array of URLs: missing, some
    non-array value (with its truthiness), or an array.
  */
  datatype ArrayField = Absent | Scalar(truthy: bool) | Array(items: seq<string>) {
    predicate Truthy() {
      Array? || (Scalar? && truthy)
    }
  }

  /** A result from the media host: the hosted URLs, or a failure message. */
  datatype UploadResult = Uploaded(urls: seq<string>) | UploadFailed(message: string)

  /** One `if (<failed>) return <reason>` of a handler's guard chain. */
  datatype Check<+E> = Check(failed: bool, reason: E)

  /**
    The answer of a chain of early returns: the reason of the first check
    that fails, or `None` when every check passes.
  */
  function FirstFailure<E>(checks: seq<Check<E>>): (r: Option<E>)
    ensures r.None? <==> forall i :: 0 <= i < |checks| ==> !checks[i].failed
    ensures r.Some? ==> exists i :: 0 <= i < |checks| && checks[i].failed && checks[i].reason == r.value
                                    && forall j :: 0 <= j < i ==> !checks[j].failed
  {
    if |checks| == 0 then None
    else if checks[0].failed then Some(checks[0].reason)
    else
      var r := FirstFailure(checks[1..]);
      assert forall i :: 1 <= i < |checks| ==> checks[i] == checks[1..][i - 1];
      r
  }

  /** The first failing check decides the answer, whatever the later checks say. */
  lemma FirstFailureIs<E>(checks: seq<Check<E>>, i: nat)
    requires i < |checks| && checks[i].failed
    requires forall j :: 0 <= j < i ==> !checks[j].failed
    ensures FirstFailure(checks) == Some(checks[i].reason)
  {
    var r := FirstFailure(checks);
    var k :| 0 <= k < |checks| && checks[k].failed && checks[k].reason == r.value
             && forall j :: 0 <= j < k ==> !checks[j].failed;
    assert k == i;
  }

  /** `s` is `t` with some elements left out, the rest kept in their order. */
  predicate Subsequence<T(==)>(s: seq<T>, t: seq<T>)
    decreases |t|
  {
    if s == [] then true
    else if t == [] then false
    else (s[0] == t[0] && Subsequence(s[1..], t[1..])) || Subsequence(s, t[1..])
  }

  /**
    The records a `find` with a filter returns: every record that matches and
    no other (`WhereCounts` and `WhereInOrder` add: each as often as it is
    stored, in stored order).
  */
  function Where<T>(docs: seq<T>, p: T -> bool): (r: seq<T>)
    ensures |r| <= |docs|
    ensures forall k :: 0 <= k < |r| ==> p(r[k]) && r[k] in docs
    ensures forall k :: 0 <= k < |docs| && p(docs[k]) ==> docs[k] in r
  {
    if docs == [] then []
    else
      var rest := Where(docs[1..], p);
      assert forall k :: 1 <= k < |docs| ==> docs[k] == docs[1..][k - 1];
      if p(docs[0]) then [docs[0]] + rest else rest
  }

  /** A matching record is returned as many times as it is stored; any other, never. */
  lemma {:induction false} WhereCounts<T>(docs: seq<T>, p: T -> bool, x: T)
    ensures multiset(Where(docs, p))[x] == if p(x) then multiset(docs)[x] else 0
  {
    if docs != [] {
      WhereCounts(docs[1..], p, x);
      assert docs == [docs[0]] + docs[1..];
      assert multiset(docs) == multiset([docs[0]]) + multiset(docs[1..]);
      if p(docs[0]) {
        assert multiset(Where(docs, p)) == multiset([docs[0]]) + multiset(Where(docs[1..], p));
      }
    }
  }

  /** The returned records keep the order in which they are stored. */
  lemma {:induction false} WhereInOrder<T>(docs: seq<T>, p: T -> bool)
    ensures Subsequence(Where(docs, p), docs)
  {
    if docs != [] {
      WhereInOrder(docs[1..], p);
      var rest := Where(docs[1..], p);
      if p(docs[0]) {
        assert ([docs[0]] + rest)[1..] == rest;
      }
    }
  }
}
