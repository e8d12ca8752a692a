/** Fixed tables of slots: the linear scan for a first match, and the multiset of
    tags that the slots of a table contribute. Both tables of the system are read
    through these two functions. */
module Slots {

  /** Least index whose slot satisfies p, or |s| when there is none. */
  function First<T>(s: seq<T>, p: T -> bool): (i: nat)
    ensures i <= |s|
    ensures forall j :: 0 <= j < i ==> !p(s[j])
    ensures i < |s| ==> p(s[i])
  {
    if s == [] then 0
    else
      var i := First(s[..|s| - 1], p);
      if i < |s| - 1 then assert s[..|s| - 1][i] == s[i]; i
      else if p(s[|s| - 1]) then |s| - 1
      else |s|
  }

  /** All tags contributed by the slots, with multiplicity. */
  ghost function Tally<T>(s: seq<T>, tag: T -> multiset<nat>): multiset<nat> {
    if s == [] then multiset{} else Tally(s[..|s| - 1], tag) + tag(s[|s| - 1])
  }

  /** Overwriting one slot exchanges its contribution and nothing else. */
  lemma {:induction false} TallyUpdate<T>(s: seq<T>, i: nat, v: T, tag: T -> multiset<nat>)
    requires i < |s|
    ensures Tally(s[i := v], tag) + tag(s[i]) == Tally(s, tag) + tag(v)
  {
    var n := |s| - 1;
    if i == n {
      assert s[i := v][..n] == s[..n];
    } else {
      TallyUpdate(s[..n], i, v, tag);
      assert s[i := v][..n] == s[..n][i := v];
      var a, b := Tally(s[..n][i := v], tag), Tally(s[..n], tag);
      assert s[..n][i] == s[i];
      assert (a + tag(s[n])) + tag(s[i]) == (a + tag(s[i])) + tag(s[n]);
      assert (b + tag(s[n])) + tag(v) == (b + tag(v)) + tag(s[n]);
    }
  }

  lemma {:induction false} TallySame<T>(s: seq<T>, i: nat, v: T, tag: T -> multiset<nat>)
    requires i < |s| && tag(v) == tag(s[i])
    ensures Tally(s[i := v], tag) == Tally(s, tag)
  {
    TallyUpdate(s, i, v, tag);
    var a, b, x := Tally(s[i := v], tag), Tally(s, tag), tag(v);
    assert forall n :: (a + x)[n] == a[n] + x[n] && (b + x)[n] == b[n] + x[n];
  }

  lemma {:induction false} TallyHas<T>(s: seq<T>, i: nat, tag: T -> multiset<nat>)
    requires i < |s|
    ensures tag(s[i]) <= Tally(s, tag)
  {
    var n := |s| - 1;
    if i < n {
      TallyHas(s[..n], i, tag);
    }
  }

  /** Every tag in the tally comes from some slot. */
  lemma {:induction false} TallySource<T>(s: seq<T>, x: nat, tag: T -> multiset<nat>) returns (i: nat)
    requires x in Tally(s, tag)
    ensures i < |s| && x in tag(s[i])
  {
    var n := |s| - 1;
    if x in tag(s[n]) {
      i := n;
    } else {
      i := TallySource(s[..n], x, tag);
    }
  }

  lemma {:induction false} TallyEmpty<T>(s: seq<T>, tag: T -> multiset<nat>)
    requires forall i :: 0 <= i < |s| ==> tag(s[i]) == multiset{}
    ensures Tally(s, tag) == multiset{}
  {
    if s != [] {
      TallyEmpty(s[..|s| - 1], tag);
    }
  }

  /** When each slot contributes at most one tag, the tally counts the contributors;
      it reaches the table size exactly when no slot is idle. */
  lemma {:induction false} TallySize<T>(s: seq<T>, tag: T -> multiset<nat>)
    requires forall i :: 0 <= i < |s| ==> |tag(s[i])| <= 1
    ensures |Tally(s, tag)| <= |s|
    ensures |Tally(s, tag)| == |s| <==> forall i :: 0 <= i < |s| ==> |tag(s[i])| == 1
  {
    if s != [] {
      var n := |s| - 1;
      TallySize(s[..n], tag);
      assert forall i :: 0 <= i < n ==> s[..n][i] == s[i];
    }
  }

  /** Splitting the contribution of every slot splits the tally. */
  lemma {:induction false} TallySplit<T, U>(s: seq<T>, a: T -> multiset<nat>,
      t: seq<U>, b: U -> multiset<nat>, c: T -> multiset<nat>)
    requires |s| == |t|
    requires forall i :: 0 <= i < |s| ==> a(s[i]) == b(t[i]) + c(s[i])
    ensures Tally(s, a) == Tally(t, b) + Tally(s, c)
  {
    if s != [] {
      var n := |s| - 1;
      assert forall i :: 0 <= i < n ==> s[..n][i] == s[i] && t[..n][i] == t[i];
      TallySplit(s[..n], a, t[..n], b, c);
    }
  }
}
