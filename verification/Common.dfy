/** What several components share. */
module Common {
  datatype Option<T> = None | Some(value: T)

  /** The last n elements, or all of them. */
  function Last<T>(s: seq<T>, n: nat): (r: seq<T>)
    ensures |r| == if |s| < n then |s| else n
  {
    if |s| <= n then s else s[|s| - n..]
  }

  /** Positions rise, so each is named once. */
  predicate Rising(at: seq<nat>) {
    forall i, j | 0 <= i < j < |at| :: at[i] < at[j]
  }

  /** These are the elements of s at these positions, in this order. */
  ghost predicate PickedAt<T>(picked: seq<T>, s: seq<T>, at: seq<nat>) {
    |picked| == |at| && forall i | 0 <= i < |at| :: at[i] < |s| && picked[i] == s[at[i]]
  }

  /** The positions are those from k on at which keep holds. */
  ghost predicate AllWhere<T>(s: seq<T>, k: nat, at: seq<nat>, keep: T -> bool) {
    Rising(at) && forall i: nat :: i in at <==> k <= i < |s| && keep(s[i])
  }

  lemma OneInFront<T>(picked: seq<T>, s: seq<T>, k: nat, at: seq<nat>, keep: T -> bool)
    requires k < |s| && AllWhere(s, k + 1, at, keep) && PickedAt(picked, s, at)
    ensures keep(s[k]) ==> AllWhere(s, k, [k] + at, keep) && PickedAt([s[k]] + picked, s, [k] + at)
    ensures !keep(s[k]) ==> AllWhere(s, k, at, keep)
  {
    assert forall i | 0 <= i < |at| :: at[i] in at;
    assert forall i: nat :: i in [k] + at <==> i == k || i in at;
  }

  lemma OneBehind<T>(s: seq<T>, at: seq<nat>, keep: T -> bool)
    requires s != [] && AllWhere(s[..|s| - 1], 0, at, keep)
    ensures var n := |s| - 1;
            if keep(s[n]) then AllWhere(s, 0, at + [n], keep) else AllWhere(s, 0, at, keep)
  {
    assert forall i | 0 <= i < |at| :: at[i] in at;
    assert forall i: nat :: i in at + [|s| - 1] <==> i == |s| - 1 || i in at;
  }

  lemma FirstIsIn<T>(s: seq<T>)
    ensures s != [] ==> s[0] in s
  {
  }

  /** Rising positions are determined by which they are. */
  lemma {:induction false} RisingIsUnique(a: seq<nat>, b: seq<nat>)
    requires Rising(a) && Rising(b) && forall i: nat :: i in a <==> i in b
    ensures a == b
    decreases |a|
  {
    FirstIsIn(a);
    FirstIsIn(b);
    if a != [] && b != [] {
      RestHolds(a);
      RestHolds(b);
      RisingIsUnique(a[1..], b[1..]);
    }
  }

  lemma RestHolds(a: seq<nat>)
    requires Rising(a) && a != []
    ensures forall i | i in a :: a[0] <= i
    ensures forall i: nat :: i in a[1..] <==> i in a && i != a[0]
  {
    assert a == [a[0]] + a[1..];
  }

  lemma Regroup<T>(a: seq<T>, b: seq<T>, c: seq<T>)
    ensures (a + b) + c == a + (b + c)
  {
  }

  lemma OneMore<T>(s: seq<T>, i: nat)
    requires i < |s|
    ensures s[..i + 1] == s[..i] + [s[i]]
  {
  }
}
