/** Facts about finite sequences shared by the models: concatenation, projection, counting, and the
    "obtained by deleting elements" order.  Recursion is on the last element because every history in
    this project grows at its end. */
module Sequences {
  datatype Option<+T> = None | Some(value: T)

  datatype Result<+T, +E> = Ok(value: T) | Err(error: E)

  /** The concatenation of all parts, in order. */
  function Concat<T>(parts: seq<seq<T>>): seq<T> {
    if parts == [] then [] else Concat(parts[..|parts| - 1]) + parts[|parts| - 1]
  }

  lemma ConcatSnoc<T>(parts: seq<seq<T>>, last: seq<T>)
    ensures Concat(parts + [last]) == Concat(parts) + last
  {
    assert (parts + [last])[..|parts|] == parts;
  }

  /** Extending one part, when every later part is empty, extends the concatenation at its end. */
  lemma {:induction false} ConcatExtend<T>(parts: seq<seq<T>>, at: nat, more: seq<T>)
    requires at < |parts|
    requires forall j :: at < j < |parts| ==> parts[j] == []
    ensures Concat(parts[at := parts[at] + more]) == Concat(parts) + more
  {
    var n := |parts| - 1;
    var longer := parts[at := parts[at] + more];
    if at == n {
      assert longer[..n] == parts[..n];
      assert Concat(parts[..n]) + (parts[n] + more) == Concat(parts[..n]) + parts[n] + more;
    } else {
      assert longer[..n] == parts[..n][at := parts[..n][at] + more];
      ConcatExtend(parts[..n], at, more);
      assert parts[n] == [] && longer[n] == [];
    }
  }

  function Sum(ns: seq<nat>): nat {
    if ns == [] then 0 else Sum(ns[..|ns| - 1]) + ns[|ns| - 1]
  }

  lemma SumSnoc(ns: seq<nat>, last: nat)
    ensures Sum(ns + [last]) == Sum(ns) + last
  {
    assert (ns + [last])[..|ns|] == ns;
  }

  lemma {:induction false} SumUpdate(ns: seq<nat>, at: nat, value: nat)
    requires at < |ns|
    ensures Sum(ns[at := value]) + ns[at] == Sum(ns) + value
  {
    var n := |ns| - 1;
    if at == n {
      assert ns[at := value][..n] == ns[..n];
    } else {
      assert ns[at := value][..n] == ns[..n][at := value];
      SumUpdate(ns[..n], at, value);
    }
  }

  /** How many elements satisfy `p`. */
  function Count<T>(s: seq<T>, p: T -> bool): nat {
    if s == [] then 0 else Count(s[..|s| - 1], p) + if p(s[|s| - 1]) then 1 else 0
  }

  /** The elements that satisfy `p`, in order. */
  function Filter<T>(s: seq<T>, p: T -> bool): seq<T> {
    if s == [] then []
    else Filter(s[..|s| - 1], p) + if p(s[|s| - 1]) then [s[|s| - 1]] else []
  }

  lemma FilterSnoc<T>(s: seq<T>, p: T -> bool, last: T)
    ensures Filter(s + [last], p) == Filter(s, p) + if p(last) then [last] else []
  {
    assert (s + [last])[..|s|] == s;
  }

  lemma CountSnoc<T>(s: seq<T>, p: T -> bool, last: T)
    ensures Count(s + [last], p) == Count(s, p) + if p(last) then 1 else 0
  {
    assert (s + [last])[..|s|] == s;
  }

  lemma {:induction false} CountAppend<T>(s: seq<T>, t: seq<T>, p: T -> bool)
    ensures Count(s + t, p) == Count(s, p) + Count(t, p)
  {
    if t == [] {
      assert s + t == s;
    } else {
      var n := |t| - 1;
      CountAppend(s, t[..n], p);
      assert (s + t)[..|s + t| - 1] == s + t[..n];
    }
  }

  lemma {:induction false} CountUpdate<T>(s: seq<T>, p: T -> bool, at: nat, value: T)
    requires at < |s|
    ensures Count(s[at := value], p) + (if p(s[at]) then 1 else 0) == Count(s, p) + if p(value) then 1 else 0
  {
    var n := |s| - 1;
    if at == n {
      assert s[at := value][..n] == s[..n];
    } else {
      assert s[at := value][..n] == s[..n][at := value];
      CountUpdate(s[..n], p, at, value);
    }
  }

  function Last<T>(s: seq<T>): T
    requires s != []
  {
    s[|s| - 1]
  }
}
