/** Normalising the product selection of a cloud viewer. */
module ViewerScope {
  import opened Wrappers
  import opened Text

  const ALL_PRODUCTS := "all_products"
  const SELECTED_PRODUCTS := "selected_products"

  /** A scope as a value; None stands for a nil list. */
  datatype Scope = Scope(kind: string, productIDs: Option<seq<string>>)

  function Lowered(ids: seq<string>): (r: seq<string>)
    ensures |r| == |ids| && forall i :: 0 <= i < |ids| ==> r[i] == ToLower(ids[i])
  {
    seq(|ids|, i requires 0 <= i < |ids| => ToLower(ids[i]))
  }

  predicate AllUUIDs(ids: seq<string>) {
    forall i :: 0 <= i < |ids| ==> IsUUID(ids[i])
  }

  predicate Repeats(s: seq<string>) {
    exists i :: 1 <= i < |s| && s[i] == s[i - 1]
  }

  /** What Normalized computes; None for the invalid-scope error. */
  function Normal(s: Scope): Option<Scope> {
    if s.kind == ALL_PRODUCTS && s.productIDs.None? then Some(s)
    else if s.kind != SELECTED_PRODUCTS || s.productIDs.None? || s.productIDs.value == [] || !AllUUIDs(s.productIDs.value) then None
    else
      var sorted := Sort(Lowered(s.productIDs.value));
      if Repeats(sorted) then None else Some(Scope(s.kind, Some(sorted)))
  }

  /** sort.Strings, by its effect. */
  method SortStrings(a: array<string>)
    modifies a
    ensures a[..] == Sort(old(a[..]))
  {
    var s := Sort(a[..]);
    SortSorts(a[..]);
    forall i | 0 <= i < a.Length { a[i] := s[i]; }
  }

  /** Normalized. The caller's list is copied first and never written to. */
  method Normalized(kind: string, ids: array?<string>) returns (ok: bool, outKind: string, outIDs: array?<string>)
    ensures var r := Normal(Scope(kind, if ids == null then None else Some(ids[..])));
      && (ok <==> r.Some?)
      && (ok ==> r.value == Scope(outKind, if outIDs == null then None else Some(outIDs[..])))
    ensures outIDs != null ==> fresh(outIDs)
  {
    hide Sort, Lowered, ToLower, IsUUID;
    if kind == ALL_PRODUCTS && ids == null { return true, kind, null; }
    if kind != SELECTED_PRODUCTS || ids == null || ids.Length == 0 { return false, "", null; }
    ghost var given := ids[..];
    var copy := new string[ids.Length](_ => "");
    forall i | 0 <= i < ids.Length { copy[i] := ids[i]; }
    for i := 0 to copy.Length
      invariant ids[..] == given
      invariant forall k :: 0 <= k < i ==> IsUUID(given[k]) && copy[k] == ToLower(given[k])
      invariant forall k :: i <= k < copy.Length ==> copy[k] == given[k]
    {
      if !IsUUID(copy[i]) {
        assert !IsUUID(given[i]);
        return false, "", null;
      }
      copy[i] := ToLower(copy[i]);
    }
    assert copy[..] == Lowered(given);
    SortStrings(copy);
    ghost var sorted := copy[..];
    assert ids[..] == given && sorted == Sort(Lowered(given)) && AllUUIDs(given);
    for i := 1 to copy.Length
      invariant copy[..] == sorted && forall k :: 1 <= k < i ==> sorted[k] != sorted[k - 1]
    {
      if copy[i] == copy[i - 1] {
        assert sorted[i] == sorted[i - 1] && Repeats(sorted);
        return false, "", null;
      }
    }
    assert !Repeats(sorted);
    return true, kind, copy;
  }

  /** In sorted order a repeat shows next to its twin. */
  lemma {:induction false} SortedRepeats(s: seq<string>)
    requires Sorted(s)
    ensures Repeats(s) <==> !Distinct(s)
  {
    if Repeats(s) {
      var i :| 1 <= i < |s| && s[i] == s[i - 1];
    } else {
      forall i, j | 0 <= i < j < |s| ensures s[i] != s[j] {
        assert s[i + 1] != s[i];
        if s[i] == s[j] {
          LessTotal(s[i], s[i + 1]);
        }
      }
    }
  }

  /** Accepted: every product with no list at all, or a selection that is non-empty, all well-formed and free of
      duplicates once case is ignored. */
  lemma AcceptsExactly(s: Scope)
    ensures Normal(s).Some? <==>
      || (s.kind == ALL_PRODUCTS && s.productIDs.None?)
      || (s.kind == SELECTED_PRODUCTS && s.productIDs.Some? && s.productIDs.value != [] && AllUUIDs(s.productIDs.value)
          && Distinct(Lowered(s.productIDs.value)))
  {
    if s.productIDs.Some? {
      var lowered := Lowered(s.productIDs.value);
      SortSorts(lowered);
      SortedRepeats(Sort(lowered));
      if Distinct(lowered) { DistinctByMultiset(lowered, Sort(lowered)); }
      if Distinct(Sort(lowered)) { DistinctByMultiset(Sort(lowered), lowered); }
    }
  }

  lemma LoweredFixed(s: seq<string>, ids: seq<string>)
    requires multiset(s) == multiset(Lowered(ids)) && AllUUIDs(ids)
    ensures Lowered(s) == s && AllUUIDs(s)
  {
    forall i | 0 <= i < |s| ensures ToLower(s[i]) == s[i] && IsUUID(s[i]) {
      assert s[i] in multiset(s);
      var k :| 0 <= k < |ids| && s[i] == Lowered(ids)[k];
      ToLowerIdempotent(ids[k]);
      LowerUUID(ids[k]);
    }
  }

  lemma LowerUUID(s: string)
    requires IsUUID(s)
    ensures IsUUID(ToLower(s))
  {}

  /** The output is strictly increasing and in lower case, and normalising it again changes nothing. */
  lemma Canonical(s: Scope)
    requires Normal(s).Some?
    ensures var r := Normal(s).value; Normal(r) == Some(r)
    ensures var r := Normal(s).value; r.productIDs.Some? ==>
      StrictlySorted(r.productIDs.value) && Lowered(r.productIDs.value) == r.productIDs.value
  {
    if s.productIDs.Some? {
      var ids := s.productIDs.value;
      var sorted := Sort(Lowered(ids));
      SortSorts(Lowered(ids));
      SortedRepeats(sorted);
      SortedDistinctIsStrict(sorted);
      LoweredFixed(sorted, ids);
      SortFixed(sorted);
    }
  }

  function LoweredSet(ids: seq<string>): set<string> {
    set i | 0 <= i < |ids| :: ToLower(ids[i])
  }

  lemma LoweredSetMembers(ids: seq<string>, x: string)
    ensures x in LoweredSet(ids) <==> x in Sort(Lowered(ids))
  {
    SortSorts(Lowered(ids));
    assert x in Sort(Lowered(ids)) <==> x in multiset(Sort(Lowered(ids)));
    assert x in Lowered(ids) <==> x in multiset(Lowered(ids));
    if x in Lowered(ids) {
      var i :| 0 <= i < |ids| && Lowered(ids)[i] == x;
      assert ToLower(ids[i]) == x;
    }
    if x in LoweredSet(ids) {
      var i :| 0 <= i < |ids| && ToLower(ids[i]) == x;
      assert Lowered(ids)[i] == x;
    }
  }

  /** Two accepted selections normalise to the same scope exactly when they select the same products. */
  lemma SameSelection(a: Scope, b: Scope)
    requires Normal(a).Some? && Normal(b).Some? && a.productIDs.Some? && b.productIDs.Some?
    ensures Normal(a) == Normal(b) <==> LoweredSet(a.productIDs.value) == LoweredSet(b.productIDs.value)
  {
    hide Sort, Lowered, LoweredSet, StrictlySorted;
    var s, t := Normal(a).value.productIDs.value, Normal(b).value.productIDs.value;
    Canonical(a);
    Canonical(b);
    forall x ensures (x in LoweredSet(a.productIDs.value) <==> x in s) && (x in LoweredSet(b.productIDs.value) <==> x in t) {
      LoweredSetMembers(a.productIDs.value, x);
      LoweredSetMembers(b.productIDs.value, x);
    }
    if LoweredSet(a.productIDs.value) == LoweredSet(b.productIDs.value) {
      SameMembers(s, t);
    }
  }
}
