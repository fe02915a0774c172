/** `URLSearchParams` as an ordered list of (name, value) pairs, values
    already percent-decoded. */
module SearchParams {
  import opened Js

  type Query = seq<(string, string)>

  /** Index `i` holds the first pair called `name`. */
  predicate IsFirst(q: Query, name: string, i: int)
  {
    0 <= i < |q| && q[i].0 == name && forall j :: 0 <= j < i ==> q[j].0 != name
  }

  /** `params.get(name)`: the value of the first pair called `name`, or null. */
  function Get(q: Query, name: string): Option<string>
  {
    if q == [] then None
    else if q[0].0 == name then Some(q[0].1)
    else Get(q[1..], name)
  }

  /** Get yields null exactly when no pair has the name, and otherwise the
      value of the first pair that has it. */
  lemma {:induction false} GetIsFirst(q: Query, name: string)
    ensures Get(q, name).None? <==> forall i :: 0 <= i < |q| ==> q[i].0 != name
    ensures Get(q, name).Some? ==> exists i :: IsFirst(q, name, i) && q[i].1 == Get(q, name).value
  {
    if q != [] {
      if q[0].0 == name {
        assert IsFirst(q, name, 0);
      } else {
        GetIsFirst(q[1..], name);
        assert forall i :: 1 <= i < |q| ==> q[i] == q[1..][i - 1];
        if Get(q, name).Some? {
          var i :| IsFirst(q[1..], name, i) && q[1..][i].1 == Get(q, name).value;
          assert IsFirst(q, name, i + 1);
        }
      }
    }
  }

  /** The values of every pair called `name`, in order: a specification
      helper that says what deletion leaves of each name. */
  function GetAll(q: Query, name: string): (r: seq<string>)
    ensures |r| <= |q|
  {
    if q == [] then []
    else if q[0].0 == name then [q[0].1] + GetAll(q[1..], name)
    else GetAll(q[1..], name)
  }

  /** `params.delete(name)`: every pair called `name` removed. */
  function Delete(q: Query, name: string): (r: Query)
    ensures forall p :: p in r <==> p in q && p.0 != name
    ensures |r| <= |q|
  {
    if q == [] then []
    else if q[0].0 == name then Delete(q[1..], name)
    else [q[0]] + Delete(q[1..], name)
  }

  /** The deletions `params.delete(n)` for each n in `names`, in order. */
  function DeleteEach(q: Query, names: seq<string>): Query
    decreases |names|
  {
    if names == [] then q else DeleteEach(Delete(q, names[0]), names[1..])
  }

  /** `a` is `b` with some pairs left out, the rest in their order. */
  predicate IsSubsequence(a: Query, b: Query)
    decreases |b|
  {
    if a == [] then true
    else if b == [] then false
    else (a[0] == b[0] && IsSubsequence(a[1..], b[1..])) || IsSubsequence(a, b[1..])
  }

  lemma {:induction false} SubsequenceTransitive(a: Query, b: Query, c: Query)
    requires IsSubsequence(a, b) && IsSubsequence(b, c)
    ensures IsSubsequence(a, c)
    decreases |c|
  {
    if a != [] {
      if IsSubsequence(b, c[1..]) {
        SubsequenceTransitive(a, b, c[1..]);
      } else if a[0] == b[0] && IsSubsequence(a[1..], b[1..]) {
        SubsequenceTransitive(a[1..], b[1..], c[1..]);
      } else {
        SubsequenceTransitive(a, b[1..], c[1..]);
      }
    }
  }

  /** Deleting a name keeps every other pair, in order, and leaves the values
      of every other name exactly as they were. */
  lemma {:induction false} DeleteKeepsOthers(q: Query, name: string)
    ensures IsSubsequence(Delete(q, name), q)
    ensures GetAll(Delete(q, name), name) == []
    ensures forall m :: m != name ==> GetAll(Delete(q, name), m) == GetAll(q, m)
  {
    if q != [] {
      DeleteKeepsOthers(q[1..], name);
      var r := Delete(q, name);
      if q[0].0 != name {
        assert r[0] == q[0] && r[1..] == Delete(q[1..], name);
      }
    }
  }

  /** Deleting a name that is absent changes nothing. */
  lemma {:induction false} DeleteAbsent(q: Query, name: string)
    requires Get(q, name).None?
    ensures Delete(q, name) == q
  {
    if q != [] {
      DeleteAbsent(q[1..], name);
    }
  }

  /** After the deletions a deleted name is absent, the other pairs keep their
      order, and every name not deleted has the values it had before. */
  lemma {:induction false} DeleteEachKeepsOthers(q: Query, names: seq<string>)
    ensures IsSubsequence(DeleteEach(q, names), q)
    ensures forall n :: n in names ==> Get(DeleteEach(q, names), n).None?
    ensures forall m :: m !in names ==> GetAll(DeleteEach(q, names), m) == GetAll(q, m)
    decreases |names|
  {
    if names == [] {
      SubsequenceReflexive(q);
    } else {
      var q' := Delete(q, names[0]);
      DeleteKeepsOthers(q, names[0]);
      DeleteEachKeepsOthers(q', names[1..]);
      SubsequenceTransitive(DeleteEach(q', names[1..]), q', q);
      forall n | n in names ensures Get(DeleteEach(q, names), n).None? {
        if n == names[0] {
          DeleteEachSubset(q', names[1..]);
          GetIsFirst(DeleteEach(q, names), n);
        }
      }
    }
  }

  lemma {:induction false} SubsequenceReflexive(q: Query)
    ensures IsSubsequence(q, q)
  {
    if q != [] {
      SubsequenceReflexive(q[1..]);
    }
  }

  /** Further deletions never bring back a pair. */
  lemma {:induction false} DeleteEachSubset(q: Query, names: seq<string>)
    ensures forall p :: p in DeleteEach(q, names) ==> p in q
    decreases |names|
  {
    if names != [] {
      DeleteEachSubset(Delete(q, names[0]), names[1..]);
    }
  }
}
