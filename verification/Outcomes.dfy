/** Optional values, the error returns of the services, and the loops that stop at or skip an element. */
module Outcomes {

  datatype Option<+T> = None | Some(value: T)

  datatype Result<+T, +E> = Success(value: T) | Failure(error: E)

  /** The fault of the first faulty element, as a loop that returns on the first bad element reports it. */
  function FirstFault<T, E>(s: seq<T>, fault: T -> Option<E>): Option<E> {
    if s == [] then None
    else match fault(s[0])
      case Some(e) => Some(e)
      case None => FirstFault(s[1..], fault)
  }

  /** No fault is reported exactly when no element has one. */
  lemma {:induction false} NoFirstFault<T, E>(s: seq<T>, fault: T -> Option<E>)
    ensures FirstFault(s, fault) == None <==> forall x <- s :: fault(x) == None
  {
    if s != [] {
      NoFirstFault(s[1..], fault);
      assert s == [s[0]] + s[1..];
    }
  }

  /** The reported fault is the one at the first faulty position. */
  lemma {:induction false} FirstFaultAt<T, E>(s: seq<T>, fault: T -> Option<E>, i: nat)
    requires i < |s| && fault(s[i]).Some?
    requires forall j | 0 <= j < i :: fault(s[j]) == None
    ensures FirstFault(s, fault) == fault(s[i])
  {
    if i > 0 {
      assert fault(s[0]) == None;
      forall j | 0 <= j < i - 1 ensures fault(s[1..][j]) == None {
        assert s[1..][j] == s[j + 1];
      }
      FirstFaultAt(s[1..], fault, i - 1);
    }
  }

  /** A reported fault is the fault of some element. */
  lemma {:induction false} FaultOfElement<T, E>(s: seq<T>, fault: T -> Option<E>)
    ensures FirstFault(s, fault).Some? ==> exists x <- s :: fault(x) == FirstFault(s, fault)
  {
    if s != [] {
      FaultOfElement(s[1..], fault);
      assert s == [s[0]] + s[1..];
    }
  }

  /** The elements a loop keeps when it skips those that fail a test. */
  function Where<T>(s: seq<T>, keep: T -> bool): seq<T> {
    if s == [] then []
    else
      var n := |s| - 1;
      Where(s[..n], keep) + if keep(s[n]) then [s[n]] else []
  }

  /** When every element passes, none is skipped. */
  lemma {:induction false} WhereAll<T>(s: seq<T>, keep: T -> bool)
    requires forall x <- s :: keep(x)
    ensures Where(s, keep) == s
  {
    if s != [] {
      var n := |s| - 1;
      WhereAll(s[..n], keep);
      assert s == s[..n] + [s[n]];
    }
  }
}
