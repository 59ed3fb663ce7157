/** Toggling an identifier in a multi-selection. LaboratoryReservation.tsx
    (selected materials) and LaboratoriesManagement.tsx (selected
    laboratories) use the same rule: a present id is filtered out, an
    absent one is appended. */
module Selection {
  import opened Prelude

  /** `s.filter(y => y !== x)`. */
  function Without(s: seq<string>, x: string): (r: seq<string>)
    ensures multiset(r) == multiset(s)[x := 0]
    decreases |s|
  {
    if s == [] then []
    else
      assert s == [s[0]] + s[1..];
      if s[0] == x then Without(s[1..], x) else [s[0]] + Without(s[1..], x)
  }

  /** Filtering out `x` removes `x` and keeps every other id present. */
  lemma WithoutMembership(s: seq<string>, x: string)
    ensures x !in Without(s, x)
    ensures forall y :: y != x ==> (y in Without(s, x) <==> y in s)
  {
    assert forall y :: y in Without(s, x) <==> y in multiset(Without(s, x));
    assert forall y :: y in s <==> y in multiset(s);
  }

  /** Filtering keeps a duplicate-free selection duplicate-free. */
  lemma {:induction false} WithoutNoDup(s: seq<string>, x: string)
    requires NoDup(s)
    ensures NoDup(Without(s, x))
    decreases |s|
  {
    if s != [] {
      assert s == [s[0]] + s[1..];
      WithoutNoDup(s[1..], x);
      if s[0] != x {
        WithoutMembership(s[1..], x);
        assert s[0] !in s[1..];
        assert s[0] !in Without(s[1..], x);
      }
    }
  }

  /** Removing from a concatenation removes from each part. */
  lemma {:induction false} WithoutAppend(a: seq<string>, b: seq<string>, x: string)
    ensures Without(a + b, x) == Without(a, x) + Without(b, x)
    decreases |a|
  {
    if a == [] {
      assert a + b == b;
    } else {
      assert (a + b)[1..] == a[1..] + b;
      WithoutAppend(a[1..], b, x);
    }
  }

  /** A value that does not occur is removed without effect. */
  lemma {:induction false} WithoutAbsent(s: seq<string>, x: string)
    requires x !in s
    ensures Without(s, x) == s
    decreases |s|
  {
    if s != [] {
      assert s == [s[0]] + s[1..];
      WithoutAbsent(s[1..], x);
    }
  }

  /** The toggle of `handleMaterialToggle` / `handleSelectLaboratory`. */
  function Toggle(s: seq<string>, x: string): (r: seq<string>)
    ensures x in r <==> x !in s
    ensures forall y :: y != x ==> (y in r <==> y in s)
  {
    WithoutMembership(s, x);
    if x in s then Without(s, x) else s + [x]
  }

  /** Toggling flips the membership of `x` and of nothing else, and never
      introduces a duplicate. */
  lemma ToggleMembership(s: seq<string>, x: string)
    ensures x in Toggle(s, x) <==> x !in s
    ensures forall y :: y != x ==> (y in Toggle(s, x) <==> y in s)
    ensures NoDup(s) ==> NoDup(Toggle(s, x))
  {
    WithoutMembership(s, x);
    if NoDup(s) {
      WithoutNoDup(s, x);
    }
  }

  /** An absent id is appended at the end, after the others in their order;
      a present id loses every occurrence and the others keep their order. */
  lemma {:induction false} ToggleShape(s: seq<string>, x: string)
    ensures x !in s ==> Toggle(s, x) == s + [x]
    ensures x in s ==> Toggle(s, x) == Without(s, x) && x !in Toggle(s, x)
    ensures x in s ==> |Toggle(s, x)| == |s| - multiset(s)[x]
  {
    if x in s {
      WithoutMembership(s, x);
      assert |multiset(Without(s, x))| == |multiset(s)| - multiset(s)[x];
    }
  }

  /** Toggling an absent id twice restores the selection exactly. */
  lemma {:induction false} ToggleTwiceAbsent(s: seq<string>, x: string)
    requires x !in s
    ensures Toggle(Toggle(s, x), x) == s
  {
    assert x in s + [x];
    WithoutAppend(s, [x], x);
    WithoutAbsent(s, x);
    assert Without([x], x) == [];
  }

  /** Toggling a present id twice in a duplicate-free selection moves it to
      the end: the same ids, still duplicate-free. */
  lemma {:induction false} ToggleTwicePresent(s: seq<string>, x: string)
    requires NoDup(s) && x in s
    ensures Toggle(Toggle(s, x), x) == Without(s, x) + [x]
    ensures multiset(Toggle(Toggle(s, x), x)) == multiset(s)
    ensures NoDup(Toggle(Toggle(s, x), x))
  {
    var w := Without(s, x);
    WithoutMembership(s, x);
    assert Toggle(s, x) == w;
    assert Toggle(w, x) == w + [x];
    OccursOnce(s, x);
    assert multiset(w + [x]) == multiset(s)[x := 0] + multiset{x};
    WithoutNoDup(s, x);
    NoDupSnoc(w, x);
  }

  /** In a duplicate-free selection a present id occurs exactly once. */
  lemma OccursOnce(s: seq<string>, x: string)
    requires NoDup(s) && x in s
    ensures multiset(s)[x] == 1
  {
    var i :| 0 <= i < |s| && s[i] == x;
    assert s == s[..i] + [x] + s[i + 1..];
    assert x !in s[..i] && x !in s[i + 1..];
  }

  /** Appending an absent id keeps a selection duplicate-free. */
  lemma NoDupSnoc(s: seq<string>, x: string)
    requires NoDup(s) && x !in s
    ensures NoDup(s + [x])
  {
  }
}
