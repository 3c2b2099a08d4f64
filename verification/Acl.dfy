/** Object ACLs: the test that skips the metadata write when an ACL has not changed, and when skipping
    loses a change. */
module Acl {
  import opened Wrappers
  import opened Sequences

  /** A canned ACL, and for each kind of grant the list of its grantees. */
  datatype Acl = Acl(canned: Option<string>, grants: map<string, seq<string>>)

  /** One grantee in the grant headers of a request. */
  datatype HeaderGrant = HeaderGrant(grantType: string, identifier: string)

  // ----- _aclGrantDidNotChange

  /** The test: as many grantees as before, and every old one is still there. */
  predicate GrantDidNotChange(before: seq<string>, after: seq<string>) {
    |before| == |after| && forall i :: 0 <= i < |before| ==> before[i] in after
  }

  predicate SameGrantees(before: seq<string>, after: seq<string>) {
    ToSet(before) == ToSet(after)
  }

  /** Without its first element, and with one occurrence of that taken out of the other list. */
  function Remove(s: seq<string>, x: string): seq<string>
    requires x in s
  {
    if s[0] == x then s[1..] else [s[0]] + Remove(s[1..], x)
  }

  lemma {:induction false} RemoveTakesOne(s: seq<string>, x: string)
    requires x in s
    ensures multiset(s) == multiset(Remove(s, x)) + multiset{x} && |Remove(s, x)| == |s| - 1
  {
    assert s == [s[0]] + s[1..];
    if s[0] != x {
      RemoveTakesOne(s[1..], x);
    }
  }

  /** The pigeonhole: a duplicate-free list inside another one of the same length is that list, in
      some order. */
  lemma {:induction false} SameLengthInside(before: seq<string>, after: seq<string>)
    requires NoDuplicates(before) && GrantDidNotChange(before, after)
    ensures multiset(before) == multiset(after)
  {
    if before != [] {
      var x, rest, others := before[0], before[1..], Remove(after, before[0]);
      RemoveTakesOne(after, x);
      forall i | 0 <= i < |rest|
        ensures rest[i] in others
      {
        assert rest[i] == before[i + 1] && before[i + 1] in after && before[i + 1] != x;
        assert rest[i] in multiset(after) && rest[i] in multiset(others);
      }
      assert NoDuplicates(rest);
      SameLengthInside(rest, others);
      assert before == [x] + rest;
    }
  }

  lemma SameMultisetSameSet(a: seq<string>, b: seq<string>)
    requires multiset(a) == multiset(b)
    ensures ToSet(a) == ToSet(b) && |a| == |b|
  {
    assert |multiset(a)| == |a| && |multiset(b)| == |b|;
    forall x
      ensures x in a <==> x in b
    {
      assert x in a <==> x in multiset(a);
      assert x in b <==> x in multiset(b);
    }
  }

  /** With a duplicate-free old list the test holds for the reorderings of the old list, and for no
      other list. */
  lemma UnchangedMeansReordered(before: seq<string>, after: seq<string>)
    requires NoDuplicates(before)
    ensures GrantDidNotChange(before, after) <==> multiset(before) == multiset(after)
  {
    if GrantDidNotChange(before, after) {
      SameLengthInside(before, after);
    }
    if multiset(before) == multiset(after) {
      SameMultisetSameSet(before, after);
      forall i | 0 <= i < |before|
        ensures before[i] in after
      {
        assert before[i] in multiset(before);
      }
    }
  }

  lemma {:induction false} DuplicateFreeSets(a: seq<string>, b: seq<string>)
    requires NoDuplicates(a) && NoDuplicates(b) && ToSet(a) == ToSet(b)
    ensures |a| == |b|
  {
    CountOfSet(a);
    CountOfSet(b);
  }

  lemma {:induction false} CountOfSet(a: seq<string>)
    requires NoDuplicates(a)
    ensures |ToSet(a)| == |a|
  {
    if a != [] {
      CountOfSet(a[1..]);
      assert ToSet(a) == ToSet(a[1..]) + {a[0]};
      assert a[0] !in a[1..];
    }
  }

  /** With both lists duplicate-free, the test is equality of sets. */
  lemma UnchangedMeansSameGrantees(before: seq<string>, after: seq<string>)
    requires NoDuplicates(before) && NoDuplicates(after)
    ensures GrantDidNotChange(before, after) <==> SameGrantees(before, after)
  {
    UnchangedMeansReordered(before, after);
    if SameGrantees(before, after) {
      DuplicateFreeSets(before, after);
      forall i | 0 <= i < |before|
        ensures before[i] in after
      {
        assert before[i] in ToSet(before);
      }
    } else if GrantDidNotChange(before, after) {
      SameMultisetSameSet(before, after);
    }
  }

  /** A string that is not in the list. */
  function Unlike(s: seq<string>): string {
    if s == [] then "" else LongerOf(s[|s| - 1], Unlike(s[..|s| - 1])) + "x"
  }

  function LongerOf(a: string, b: string): string {
    if |a| > |b| then a else b
  }

  lemma {:induction false} UnlikeIsLonger(s: seq<string>, i: nat)
    requires i < |s|
    ensures |s[i]| < |Unlike(s)|
  {
    var k := |s| - 1;
    if i < k {
      UnlikeIsLonger(s[..k], i);
    }
  }

  lemma UnlikeIsNew(s: seq<string>)
    ensures Unlike(s) !in s
  {
    forall i: nat | i < |s|
      ensures s[i] != Unlike(s)
    {
      UnlikeIsLonger(s, i);
    }
  }

  /** The lists for which the test never hides a change. */
  ghost predicate NeverHidesChange(before: seq<string>) {
    forall after :: GrantDidNotChange(before, after) ==> SameGrantees(before, after)
  }

  /** The test never hides a change of an old list exactly when that list has no duplicates. */
  lemma TestIsSoundExactly(before: seq<string>)
    ensures NeverHidesChange(before) <==> NoDuplicates(before)
  {
    if NoDuplicates(before) {
      forall after | GrantDidNotChange(before, after)
        ensures SameGrantees(before, after)
      {
        UnchangedMeansReordered(before, after);
        SameMultisetSameSet(before, after);
      }
    } else {
      var i, j :| 0 <= i < j < |before| && before[i] == before[j];
      HiddenChange(before, i, j);
    }
  }

  lemma HiddenChange(before: seq<string>, i: nat, j: nat)
    requires i < j < |before| && before[i] == before[j]
    ensures GrantDidNotChange(before, before[j := Unlike(before)]) && !SameGrantees(before, before[j := Unlike(before)])
  {
    var after := before[j := Unlike(before)];
    UnlikeIsNew(before);
    forall k | 0 <= k < |before|
      ensures before[k] in after
    {
      assert after[if k == j then i else k] == before[k];
    }
    assert after[j] in ToSet(after) && after[j] !in ToSet(before);
  }

  // ----- addObjectACL

  function KeyCount(acl: Acl): nat {
    |acl.grants| + if acl.canned.Some? then 1 else 0
  }

  /** The new ACL has every kind of grant that the old one has; looking a missing one up would throw. */
  predicate HasGrantsOf(before: Acl, after: Acl) {
    KeyCount(before) == KeyCount(after) ==> before.grants.Keys <= after.grants.Keys
  }

  predicate IsUnchanged(before: Acl, after: Acl)
    requires HasGrantsOf(before, after)
  {
    && KeyCount(before) == KeyCount(after)
    && (before.canned.Some? ==> before.canned == after.canned)
    && forall g <- before.grants :: GrantDidNotChange(before.grants[g], after.grants[g])
  }

  predicate DuplicateFree(acl: Acl) {
    forall g <- acl.grants :: NoDuplicates(acl.grants[g])
  }

  /** The same canned ACL, and the same grantees for each kind of grant. */
  predicate SameAcl(a: Acl, b: Acl) {
    && a.canned == b.canned && a.grants.Keys == b.grants.Keys
    && forall g <- a.grants :: multiset(a.grants[g]) == multiset(b.grants[g])
  }

  lemma SubsetCount(a: set<string>, b: set<string>)
    requires a <= b
    ensures |a| <= |b| && (|a| == |b| ==> a == b)
  {
    assert b == a + (b - a);
  }

  /** With duplicate-free old grants, an ACL counts as unchanged exactly when it says the same. */
  lemma UnchangedMeansSameAcl(before: Acl, after: Acl)
    requires HasGrantsOf(before, after) && DuplicateFree(before)
    ensures IsUnchanged(before, after) <==> SameAcl(before, after)
  {
    assert |before.grants.Keys| == |before.grants| && |after.grants.Keys| == |after.grants|;
    if KeyCount(before) == KeyCount(after) && (before.canned.Some? ==> before.canned == after.canned) {
      GrantKeysAgree(before, after);
      forall g | g in before.grants
        ensures GrantDidNotChange(before.grants[g], after.grants[g])
                <==> multiset(before.grants[g]) == multiset(after.grants[g])
      {
        UnchangedMeansReordered(before.grants[g], after.grants[g]);
      }
    }
  }

  lemma GrantKeysAgree(before: Acl, after: Acl)
    requires HasGrantsOf(before, after) && KeyCount(before) == KeyCount(after)
    requires before.canned.Some? ==> before.canned == after.canned
    ensures before.grants.Keys == after.grants.Keys && before.canned == after.canned
  {
    assert |before.grants.Keys| == |before.grants| && |after.grants.Keys| == |after.grants|;
    SubsetCount(before.grants.Keys, after.grants.Keys);
  }

  /** An object, as the request holds it, and as metadata stores it. */
  class ObjectMD {
    var acl: Acl
    var originOp: string
    var stored: Acl

    /** The write is skipped when nothing changed. With duplicate-free old grants, an ACL that says
        what the request says is stored in the end, unless the write fails. */
    method AddObjectACL(addACLParams: Acl, writeFails: bool) returns (r: Result<()>)
      requires HasGrantsOf(acl, addACLParams) && stored == acl
      modifies this
      ensures r.Err? <==> writeFails && !old(IsUnchanged(acl, addACLParams))
      ensures r.Err? ==> r.error == "InternalError"
      ensures old(IsUnchanged(acl, addACLParams)) ==> acl == old(acl) && stored == old(stored) && originOp == old(originOp)
      ensures !old(IsUnchanged(acl, addACLParams)) ==> acl == addACLParams && originOp == "s3:ObjectAcl:Put"
      ensures !old(IsUnchanged(acl, addACLParams)) ==> stored == if r.Ok? then addACLParams else old(stored)
      ensures old(DuplicateFree(acl)) && r.Ok? ==> SameAcl(stored, addACLParams)
    {
      if DuplicateFree(acl) {
        UnchangedMeansSameAcl(acl, addACLParams);
      }
      if IsUnchanged(acl, addACLParams) {
        return Ok(());
      }
      acl := addACLParams;
      originOp := "s3:ObjectAcl:Put";
      if writeFails {
        return Err("InternalError");
      }
      stored := addACLParams;
      return Ok(());
    }
  }

  // ----- sortHeaderGrants: how duplicates come into a list

  /** The grantees of one kind, in the order of the headers. */
  function GranteesOf(headers: seq<HeaderGrant>, grantType: string): seq<string> {
    if headers == [] then []
    else
      var k := |headers| - 1;
      GranteesOf(headers[..k], grantType) + if headers[k].grantType == grantType then [headers[k].identifier] else []
  }

  /** Each grantee is appended to the list of its kind, without a look at who is in it already. */
  method SortHeaderGrants(headers: seq<HeaderGrant>, acl: Acl) returns (r: Acl)
    requires forall h <- headers :: h.grantType in acl.grants
    ensures r.canned == acl.canned && r.grants.Keys == acl.grants.Keys
    ensures forall g <- acl.grants :: r.grants[g] == acl.grants[g] + GranteesOf(headers, g)
  {
    r := acl;
    for i := 0 to |headers|
      invariant r.canned == acl.canned && r.grants.Keys == acl.grants.Keys
      invariant forall g <- acl.grants :: r.grants[g] == acl.grants[g] + GranteesOf(headers[..i], g)
    {
      var h := headers[i];
      assert h in headers;
      assert headers[..i + 1][..i] == headers[..i];
      r := r.(grants := r.grants[h.grantType := r.grants[h.grantType] + [h.identifier]]);
    }
    assert headers[..|headers|] == headers;
  }

  lemma {:induction false} GranteeComesFrom(headers: seq<HeaderGrant>, g: string, x: string)
    ensures x in GranteesOf(headers, g) <==> HeaderGrant(g, x) in headers
  {
    if headers != [] {
      var k := |headers| - 1;
      GranteeComesFrom(headers[..k], g, x);
      assert headers == headers[..k] + [headers[k]];
    }
  }

  predicate NoRepeatedGrant(headers: seq<HeaderGrant>) {
    forall i, j :: 0 <= i < j < |headers| ==> headers[i] != headers[j]
  }

  ghost predicate MakesNoDuplicates(headers: seq<HeaderGrant>) {
    forall g :: NoDuplicates(GranteesOf(headers, g))
  }

  /** The lists that a request makes are duplicate-free exactly when its headers repeat no grant. */
  lemma {:induction false} DuplicateFreeExactly(headers: seq<HeaderGrant>)
    ensures MakesNoDuplicates(headers) <==> NoRepeatedGrant(headers)
  {
    if headers != [] {
      DuplicateFreeExactly(headers[..|headers| - 1]);
      LastGrant(headers);
      LastRepeated(headers);
    }
  }

  lemma LastRepeated(headers: seq<HeaderGrant>)
    requires headers != []
    ensures var k := |headers| - 1;
            NoRepeatedGrant(headers) <==> NoRepeatedGrant(headers[..k]) && headers[k] !in headers[..k]
  {
  }

  /** What the last header adds to one kind of grant. */
  lemma LastOfKind(headers: seq<HeaderGrant>, g: string)
    requires headers != []
    ensures var k := |headers| - 1;
            NoDuplicates(GranteesOf(headers, g))
            <==> NoDuplicates(GranteesOf(headers[..k], g)) && (g == headers[k].grantType ==> headers[k] !in headers[..k])
  {
    var k := |headers| - 1;
    GranteeComesFrom(headers[..k], g, headers[k].identifier);
    AppendedOnce(GranteesOf(headers[..k], g), headers[k].identifier);
    if g == headers[k].grantType {
      assert HeaderGrant(g, headers[k].identifier) == headers[k];
    } else {
      assert GranteesOf(headers, g) == GranteesOf(headers[..k], g);
    }
  }

  lemma LastGrant(headers: seq<HeaderGrant>)
    requires headers != []
    ensures var k := |headers| - 1;
            MakesNoDuplicates(headers) <==> MakesNoDuplicates(headers[..k]) && headers[k] !in headers[..k]
  {
    var k := |headers| - 1;
    var init, h := headers[..k], headers[k];
    LastOfKind(headers, h.grantType);
    if MakesNoDuplicates(headers) {
      assert NoDuplicates(GranteesOf(headers, h.grantType));
      forall g
        ensures NoDuplicates(GranteesOf(init, g))
      {
        LastOfKind(headers, g);
        assert NoDuplicates(GranteesOf(headers, g));
      }
    }
    if MakesNoDuplicates(init) && h !in init {
      forall g
        ensures NoDuplicates(GranteesOf(headers, g))
      {
        LastOfKind(headers, g);
        assert NoDuplicates(GranteesOf(init, g));
      }
    }
  }

  lemma AppendedOnce(s: seq<string>, x: string)
    ensures NoDuplicates(s + [x]) <==> NoDuplicates(s) && x !in s
  {
    var t := s + [x];
    assert forall i :: 0 <= i < |s| ==> t[i] == s[i];
    if NoDuplicates(t) {
      forall i | 0 <= i < |s|
        ensures s[i] != x
      {
        assert t[i] != t[|s|];
      }
    }
  }
}
