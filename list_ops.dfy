/** The three list idioms the sheet uses for every list it keeps: append a new entry
    (`[...xs, x]`), remove by id (`xs.filter(x => x.id !== id)`) and edit by id
    (`xs.map(x => x.id === id ? f(x) : x)`). Ids are not assumed to be unique: the
    application draws them from the clock, so two entries may share one. */
module ListOps {

  /** `xs.filter(x => x.id !== id)` */
  function RemoveById<T(==,!new)>(xs: seq<T>, idOf: T -> string, id: string): (r: seq<T>)
    ensures |r| <= |xs|
    ensures forall i :: 0 <= i < |r| ==> idOf(r[i]) != id
    ensures forall x :: x in r <==> x in xs && idOf(x) != id
    ensures forall x :: multiset(r)[x] == if idOf(x) != id then multiset(xs)[x] else 0
  {
    if |xs| == 0 then []
    else
      assert xs == xs[..|xs| - 1] + [xs[|xs| - 1]];
      if idOf(xs[|xs| - 1]) == id then RemoveById(xs[..|xs| - 1], idOf, id)
      else RemoveById(xs[..|xs| - 1], idOf, id) + [xs[|xs| - 1]]
  }

  /** `s` keeps the elements of `xs` in their relative order. */
  ghost predicate IsSubsequence<T>(s: seq<T>, xs: seq<T>) {
    exists pos: seq<nat> ::
      |pos| == |s|
      && (forall i :: 0 <= i < |pos| ==> pos[i] < |xs| && xs[pos[i]] == s[i])
      && (forall i, j :: 0 <= i < j < |pos| ==> pos[i] < pos[j])
  }

  /** Every list keeps its own order. */
  lemma SubsequenceOfItself<T>(xs: seq<T>)
    ensures IsSubsequence(xs, xs)
  {
    var pos := seq(|xs|, i requires 0 <= i < |xs| => i as nat);
    assert forall i :: 0 <= i < |pos| ==> pos[i] < |xs| && xs[pos[i]] == xs[i];
  }

  /** An element added at the end of the list may be skipped... */
  lemma SubsequenceSnocRight<T>(s: seq<T>, xs: seq<T>, x: T)
    requires IsSubsequence(s, xs)
    ensures IsSubsequence(s, xs + [x])
  {
    var pos: seq<nat> :| |pos| == |s|
      && (forall i :: 0 <= i < |pos| ==> pos[i] < |xs| && xs[pos[i]] == s[i])
      && (forall i, j :: 0 <= i < j < |pos| ==> pos[i] < pos[j]);
    assert forall i :: 0 <= i < |pos| ==> pos[i] < |xs + [x]| && (xs + [x])[pos[i]] == s[i];
  }

  /** ...or kept at the end of the subsequence. */
  lemma SubsequenceSnocBoth<T>(s: seq<T>, xs: seq<T>, x: T)
    requires IsSubsequence(s, xs)
    ensures IsSubsequence(s + [x], xs + [x])
  {
    var pos: seq<nat> :| |pos| == |s|
      && (forall i :: 0 <= i < |pos| ==> pos[i] < |xs| && xs[pos[i]] == s[i])
      && (forall i, j :: 0 <= i < j < |pos| ==> pos[i] < pos[j]);
    var pos' := pos + [|xs|];
    assert forall i :: 0 <= i < |pos'| ==> pos'[i] < |xs + [x]| && (xs + [x])[pos'[i]] == (s + [x])[i];
  }

  /** Removing by id keeps the relative order of what stays. */
  lemma {:induction false} RemoveByIdKeepsOrder<T(!new)>(xs: seq<T>, idOf: T -> string, id: string)
    ensures IsSubsequence(RemoveById(xs, idOf, id), xs)
  {
    if |xs| == 0 {
      var pos: seq<nat> := [];
      assert |pos| == 0;
    } else {
      var init := xs[..|xs| - 1];
      var last := xs[|xs| - 1];
      assert xs == init + [last];
      RemoveByIdKeepsOrder(init, idOf, id);
      if idOf(last) == id {
        SubsequenceSnocRight(RemoveById(init, idOf, id), init, last);
      } else {
        SubsequenceSnocBoth(RemoveById(init, idOf, id), init, last);
      }
    }
  }

  /** An id that no entry carries removes nothing. */
  lemma {:induction false} RemoveAbsentId<T(!new)>(xs: seq<T>, idOf: T -> string, id: string)
    requires forall i :: 0 <= i < |xs| ==> idOf(xs[i]) != id
    ensures RemoveById(xs, idOf, id) == xs
  {
    if |xs| > 0 {
      RemoveAbsentId(xs[..|xs| - 1], idOf, id);
    }
  }

  /** `xs.map(x => x.id === id ? f(x) : x)` */
  function UpdateById<T>(xs: seq<T>, idOf: T -> string, id: string, f: T -> T): (r: seq<T>)
    ensures |r| == |xs|
    ensures forall i :: 0 <= i < |xs| ==> r[i] == if idOf(xs[i]) == id then f(xs[i]) else xs[i]
  {
    seq(|xs|, i requires 0 <= i < |xs| => if idOf(xs[i]) == id then f(xs[i]) else xs[i])
  }

  /** Appending then removing every entry of the new id leaves the old entries of
      other ids: the appended entry is the only one added. */
  lemma {:induction false} RemoveAfterAppend<T(!new)>(xs: seq<T>, x: T, idOf: T -> string)
    ensures RemoveById(xs + [x], idOf, idOf(x)) == RemoveById(xs, idOf, idOf(x))
  {
    assert (xs + [x])[..|xs|] == xs;
  }

  /** Editing the entries of an id and then removing that id is the same as removing
      it straight away, provided the edit keeps the id. */
  lemma {:induction false} RemoveAfterUpdate<T(!new)>(xs: seq<T>, idOf: T -> string, id: string, f: T -> T)
    requires forall i :: 0 <= i < |xs| && idOf(xs[i]) == id ==> idOf(f(xs[i])) == id
    ensures RemoveById(UpdateById(xs, idOf, id, f), idOf, id) == RemoveById(xs, idOf, id)
  {
    if |xs| > 0 {
      var n := |xs| - 1;
      var u := UpdateById(xs, idOf, id, f);
      assert u[..n] == UpdateById(xs[..n], idOf, id, f);
      RemoveAfterUpdate(xs[..n], idOf, id, f);
    }
  }

  /** Editing the entries of one id leaves the result of removing any other id
      edited the same way: removal and edit of different ids commute. */
  lemma {:induction false} RemoveOtherAfterUpdate<T(!new)>(xs: seq<T>, idOf: T -> string, id: string,
                                                           other: string, f: T -> T)
    requires id != other
    requires forall i :: 0 <= i < |xs| && idOf(xs[i]) == id ==> idOf(f(xs[i])) == id
    ensures RemoveById(UpdateById(xs, idOf, id, f), idOf, other)
            == UpdateById(RemoveById(xs, idOf, other), idOf, id, f)
  {
    if |xs| > 0 {
      var n := |xs| - 1;
      var u := UpdateById(xs, idOf, id, f);
      assert u[..n] == UpdateById(xs[..n], idOf, id, f);
      RemoveOtherAfterUpdate(xs[..n], idOf, id, other, f);
      var r := RemoveById(xs[..n], idOf, other);
      if idOf(xs[n]) != other {
        assert UpdateById(r + [xs[n]], idOf, id, f) == UpdateById(r, idOf, id, f) + [u[n]];
      }
    }
  }
}
