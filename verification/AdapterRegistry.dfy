/** Which detected adapters become active: rivals for an exclusive capability exclude each other, and then
    adapters whose requirements nobody active provides are pruned until nothing changes. */
module AdapterRegistry {
  type Capability = string

  datatype Adapter = Adapter(id: string, offers: seq<Capability>, needs: seq<Capability>)

  datatype Finding =
    | Ambiguous(capability: Capability, providers: seq<string>)
    | Conflict(adapter: string, capability: Capability)

  predicate DistinctIds(s: seq<Adapter>) {
    forall i, j :: 0 <= i < j < |s| ==> s[i].id != s[j].id
  }

  predicate Provided(active: seq<Adapter>, capability: Capability) {
    exists a :: a in active && capability in a.offers
  }

  /** Every requirement of a member is provided by a member. */
  predicate Closed(active: seq<Adapter>) {
    forall a :: a in active ==> forall c :: c in a.needs ==> Provided(active, c)
  }

  /** Those of s whose identifier is not in `out`, in order. */
  function Without(s: seq<Adapter>, out: set<string>): seq<Adapter> {
    if s == [] then []
    else Without(s[..|s| - 1], out) + if s[|s| - 1].id in out then [] else [s[|s| - 1]]
  }

  lemma {:induction false} WithoutMembers(s: seq<Adapter>, out: set<string>)
    ensures forall a :: a in Without(s, out) <==> a in s && a.id !in out
    ensures |Without(s, out)| <= |s|
  {
    if s != [] {
      WithoutMembers(s[..|s| - 1], out);
      assert s == s[..|s| - 1] + [s[|s| - 1]];
    }
  }

  lemma {:induction false} WithoutTwice(s: seq<Adapter>, a: set<string>, b: set<string>)
    ensures Without(Without(s, a), b) == Without(s, a + b)
  {
    if s != [] {
      var init, last := s[..|s| - 1], s[|s| - 1];
      WithoutTwice(init, a, b);
      if last.id in a {
        assert Without(s, a) == Without(init, a) && Without(s, a + b) == Without(init, a + b);
      } else {
        var kept := Without(init, a) + [last];
        assert kept[..|kept| - 1] == Without(init, a);
      }
    }
  }

  lemma {:induction false} WithoutShrinks(s: seq<Adapter>, out: set<string>, a: Adapter)
    requires a in s && a.id in out
    ensures |Without(s, out)| < |s|
  {
    var init, last := s[..|s| - 1], s[|s| - 1];
    WithoutMembers(init, out);
    if last != a {
      assert a in init;
      WithoutShrinks(init, out, a);
    }
  }

  /** Names the adapter as a rival, or as one with an unmet requirement. */
  predicate Blames(f: Finding, id: string) {
    match f
    case Ambiguous(_, providers) => id in providers
    case Conflict(adapter, _) => adapter == id
  }

  /** `out` are exactly the identifiers some finding names. */
  ghost predicate Explained(out: set<string>, findings: seq<Finding>) {
    forall id :: id in out <==> exists f :: f in findings && Blames(f, id)
  }

  /** Names a member and a requirement of it that no member provides. */
  predicate Unmet(active: seq<Adapter>, f: Finding) {
    && f.Conflict? && !Provided(active, f.capability)
    && exists a :: a in active && a.id == f.adapter && f.capability in a.needs
  }

  /** Every requirement of these adapters that nobody active provides has its own finding. */
  ghost predicate EveryUnmet(these: seq<Adapter>, active: seq<Adapter>, findings: seq<Finding>) {
    forall a, c :: a in these && c in a.needs && !Provided(active, c) ==> Conflict(a.id, c) in findings
  }

  /** Every conflict names a candidate and a requirement of it that nobody active provides. */
  ghost predicate ConflictsHold(candidates: seq<Adapter>, active: seq<Adapter>, findings: seq<Finding>) {
    forall f :: f in findings && f.Conflict? ==>
      !Provided(active, f.capability) && exists a :: a in candidates && a.id == f.adapter && f.capability in a.needs
  }

  /** Every contested capability has its finding, which names all its providers, and there is no other of the kind. */
  ghost predicate RivalsNamed(detected: seq<Adapter>, exclusive: seq<Capability>, findings: seq<Finding>) {
    && (forall c :: c in exclusive && 2 <= |ProvidersOf(detected, c)| ==>
          Ambiguous(c, ProvidersOf(detected, c)) in findings)
    && (forall f :: f in findings && f.Ambiguous? ==>
          f.capability in exclusive && f.providers == ProvidersOf(detected, f.capability) && 2 <= |f.providers|)
  }

  function ProvidersOf(detected: seq<Adapter>, capability: Capability): (ids: seq<string>)
    ensures forall id :: id in ids <==> exists a :: a in detected && a.id == id && capability in a.offers
  {
    if detected == [] then []
    else
      var last := detected[|detected| - 1];
      ProvidersOf(detected[..|detected| - 1], capability) + if capability in last.offers then [last.id] else []
  }

  lemma {:induction false} OnlyProvider(detected: seq<Adapter>, capability: Capability, a: Adapter, b: Adapter)
    requires DistinctIds(detected) && |ProvidersOf(detected, capability)| < 2
    requires a in detected && b in detected && capability in a.offers && capability in b.offers
    ensures a == b
  {
    var init, last := detected[..|detected| - 1], detected[|detected| - 1];
    if a in init && b in init {
      OnlyProvider(init, capability, a, b);
    } else if a != b {
      assert a in init || b in init;
      assert ProvidersOf(init, capability) != [] by {
        var other := if a in init then a else b;
        assert other.id in ProvidersOf(init, capability);
      }
    }
  }

  /** The identifiers of rivals, one finding for each contested capability. */
  method ExcludeRivals(detected: seq<Adapter>, exclusive: seq<Capability>)
      returns (ambiguous: set<string>, findings: seq<Finding>)
    requires DistinctIds(detected)
    ensures Explained(ambiguous, findings)
    ensures forall f :: f in findings ==>
      f.Ambiguous? && f.capability in exclusive && f.providers == ProvidersOf(detected,
      f.capability) && 2 <= |f.providers|
    ensures forall c :: c in exclusive && 2 <= |ProvidersOf(detected, c)| ==>
      Ambiguous(c, ProvidersOf(detected, c)) in findings
  {
    ambiguous, findings := {}, [];
    for i := 0 to |exclusive|
      invariant forall id :: id in ambiguous <==> exists f :: f in findings && Blames(f, id)
      invariant forall f :: f in findings ==>
        f.Ambiguous? && f.capability in exclusive && f.providers == ProvidersOf(detected,
        f.capability) && 2 <= |f.providers|
      invariant forall c :: c in exclusive[..i] && 2 <= |ProvidersOf(detected, c)| ==>
        Ambiguous(c, ProvidersOf(detected, c)) in findings
    {
      var capability := exclusive[i];
      var providers := ProvidersOf(detected, capability);
      assert exclusive[..i + 1] == exclusive[..i] + [capability];
      if |providers| < 2 { continue; }
      ghost var before := findings;
      var finding := Ambiguous(capability, providers);
      findings := findings + [finding];
      ambiguous := ambiguous + set id | id in providers;
      assert finding in findings && forall f :: f in before ==> f in findings;
    }
    assert exclusive[..|exclusive|] == exclusive;
  }

  /** The requirements of members that nobody active provides, as findings, and whose they are. */
  method FindBlocked(active: seq<Adapter>) returns (blocked: seq<Finding>, ids: set<string>)
    ensures Explained(ids, blocked)
    ensures forall f :: f in blocked ==> Unmet(active, f)
    ensures EveryUnmet(active, active, blocked)
  {
    blocked, ids := [], {};
    for i := 0 to |active|
      invariant forall id :: id in ids <==> exists f :: f in blocked && Blames(f, id)
      invariant forall f :: f in blocked ==> Unmet(active, f)
      invariant EveryUnmet(active[..i], active, blocked)
    {
      var a := active[i];
      assert active[..i + 1] == active[..i] + [a];
      for k := 0 to |a.needs|
        invariant forall id :: id in ids <==> exists f :: f in blocked && Blames(f, id)
        invariant forall f :: f in blocked ==> Unmet(active, f)
        invariant EveryUnmet(active[..i], active, blocked)
        invariant forall m :: 0 <= m < k && !Provided(active, a.needs[m]) ==> Conflict(a.id, a.needs[m]) in blocked
      {
        if !Provided(active, a.needs[k]) {
          ghost var before := blocked;
          var finding := Conflict(a.id, a.needs[k]);
          blocked, ids := blocked + [finding], ids + {a.id};
          assert finding in blocked && forall f :: f in before ==> f in blocked;
        }
      }
    }
    assert active[..|active|] == active;
  }

  /** Every closed set of candidates is inside `active`. */
  ghost predicate HoldsEveryClosed(candidates: seq<Adapter>, active: seq<Adapter>) {
    forall s: seq<Adapter> :: (forall a :: a in s ==> a in candidates) && Closed(s) ==>
      forall a :: a in s ==> a in active
  }

  /** Nobody in it shares an exclusive capability with another detected adapter, and everybody else does. */
  ghost predicate Unambiguous(detected: seq<Adapter>, exclusive: seq<Capability>, candidates: seq<Adapter>) {
    forall a :: a in candidates <==>
      a in detected && forall c :: c in a.offers && c in exclusive ==> |ProvidersOf(detected, c)| < 2
  }

  ghost predicate OneProviderEach(exclusive: seq<Capability>, active: seq<Adapter>) {
    forall c, a, b :: c in exclusive && a in active && b in active && c in a.offers && c in b.offers ==> a == b
  }

  /** The greatest closed part of the unambiguous adapters, in their order; a finding for every adapter
      dropped and for no other; and one provider at most for an exclusive capability. */
  method DetectBuiltInAdapters(detected: seq<Adapter>, exclusive: seq<Capability>)
      returns (active: seq<Adapter>, findings: seq<Finding>, ghost out: set<string>, ghost candidates: seq<Adapter>)
    requires DistinctIds(detected)
    ensures active == Without(detected, out) && Explained(out, findings)
    ensures Unambiguous(detected, exclusive, candidates)
    ensures Closed(active) && (forall a :: a in active ==> a in candidates) && HoldsEveryClosed(candidates, active)
    ensures OneProviderEach(exclusive, active)
    ensures RivalsNamed(detected, exclusive, findings) && ConflictsHold(candidates, active, findings)
    ensures EveryUnmet(candidates, candidates, findings)
  {
    hide Unambiguous, OneProviderEach, Closed, Without, DistinctIds, HoldsEveryClosed, Explained, Provided;
    hide RivalsNamed, ConflictsHold, EveryUnmet;
    var ambiguous: set<string>;
    ambiguous, findings := ExcludeRivals(detected, exclusive);
    active, candidates, out := Without(detected, ambiguous), Without(detected, ambiguous), ambiguous;
    RivalsFirst(detected, exclusive, findings, candidates);
    RivalsExactly(detected, exclusive, ambiguous, findings, candidates);
    WithoutMembers(detected, ambiguous);
    EverythingAtFirst(candidates);
    while true
      invariant active == Without(detected, out) && Explained(out, findings)
      invariant (forall a :: a in active ==> a in candidates) && HoldsEveryClosed(candidates, active)
      invariant RivalsNamed(detected, exclusive, findings) && ConflictsHold(candidates, active, findings)
      invariant active == candidates || EveryUnmet(candidates, candidates, findings)
      decreases |active|
    {
      var blocked, ids := FindBlocked(active);
      if blocked == [] {
        NothingBlocked(candidates, active, blocked, findings);
        break;
      }
      WithoutMembers(detected, out);
      Round(detected, candidates, active, blocked, ids);
      WithoutTwice(detected, out, ids);
      WithoutMembers(active, ids);
      MoreFindings(detected, exclusive, candidates, active, Without(active, ids), findings, blocked);
      SplitBlame(out, findings, ids, blocked);
      findings, active, out := findings + blocked, Without(active, ids), out + ids;
    }
    FewerProviders(exclusive, candidates, active);
  }

  lemma EverythingAtFirst(candidates: seq<Adapter>)
    ensures HoldsEveryClosed(candidates, candidates)
  {
  }

  lemma NothingBlocked(candidates: seq<Adapter>, active: seq<Adapter>, blocked: seq<Finding>, findings: seq<Finding>)
    requires blocked == [] && EveryUnmet(active, active, blocked)
    requires active == candidates || EveryUnmet(candidates, candidates, findings)
    ensures Closed(active) && EveryUnmet(candidates, candidates, findings)
  {
  }

  lemma RivalsFirst(detected: seq<Adapter>, exclusive: seq<Capability>, findings: seq<Finding>,
      candidates: seq<Adapter>)
    requires forall f :: f in findings ==>
      f.Ambiguous? && f.capability in exclusive && f.providers == ProvidersOf(detected,
      f.capability) && 2 <= |f.providers|
    requires forall c :: c in exclusive && 2 <= |ProvidersOf(detected, c)| ==>
      Ambiguous(c, ProvidersOf(detected, c)) in findings
    ensures RivalsNamed(detected, exclusive, findings) && ConflictsHold(candidates, candidates, findings)
  {
  }

  /** The findings of one round go on holding when fewer adapters are active. */
  lemma MoreFindings(detected: seq<Adapter>, exclusive: seq<Capability>, candidates: seq<Adapter>, active: seq<Adapter>,
      fewer: seq<Adapter>, findings: seq<Finding>, blocked: seq<Finding>)
    requires (forall a :: a in active ==> a in candidates) && (forall a :: a in fewer ==> a in active)
    requires RivalsNamed(detected, exclusive, findings) && ConflictsHold(candidates, active, findings)
    requires (forall f :: f in blocked ==> Unmet(active, f)) && EveryUnmet(active, active, blocked)
    requires active == candidates || EveryUnmet(candidates, candidates, findings)
    ensures RivalsNamed(detected, exclusive, findings + blocked)
    ensures ConflictsHold(candidates, fewer, findings + blocked)
    ensures EveryUnmet(candidates, candidates, findings + blocked)
  {
  }

  lemma FewerProviders(exclusive: seq<Capability>, candidates: seq<Adapter>, active: seq<Adapter>)
    requires OneProviderEach(exclusive, candidates) && forall a :: a in active ==> a in candidates
    ensures OneProviderEach(exclusive, active)
  {
  }

  lemma SplitBlame(a: set<string>, f: seq<Finding>, b: set<string>, g: seq<Finding>)
    requires Explained(a, f) && Explained(b, g)
    ensures Explained(a + b, f + g)
  {
  }

  /** One round of pruning drops somebody, and nobody who is in a closed set of candidates. */
  lemma Round(detected: seq<Adapter>, candidates: seq<Adapter>, active: seq<Adapter>, blocked: seq<Finding>,
      ids: set<string>)
    requires DistinctIds(detected) && forall x :: x in active ==> x in detected
    requires (forall a :: a in active ==> a in candidates) && HoldsEveryClosed(candidates, active) && blocked != []
    requires Explained(ids, blocked)
    requires forall f :: f in blocked ==> Unmet(active, f)
    ensures |Without(active, ids)| < |active|
    ensures (forall a :: a in Without(active, ids) ==> a in candidates)
    ensures HoldsEveryClosed(candidates, Without(active, ids))
  {
    WithoutMembers(active, ids);
    assert Unmet(active, blocked[0]) && Blames(blocked[0], blocked[0].adapter);
    var culprit :| culprit in active && culprit.id == blocked[0].adapter && blocked[0].capability in culprit.needs;
    WithoutShrinks(active, ids, culprit);
    forall s: seq<Adapter>, a | (forall x :: x in s ==> x in candidates) && Closed(s) && a in s ensures a.id !in ids {
      ClosedIsNotBlocked(detected, active, blocked, ids, s, a);
    }
  }

  /** A closed set whose members are all still active loses none of them in a round of pruning. */
  lemma ClosedIsNotBlocked(detected: seq<Adapter>, active: seq<Adapter>, blocked: seq<Finding>, ids: set<string>,
      s: seq<Adapter>, a: Adapter)
    requires DistinctIds(detected) && (forall x :: x in active ==> x in detected)
    requires (forall x :: x in s ==> x in active) && Closed(s) && a in s
    requires Explained(ids, blocked)
    requires forall f :: f in blocked ==> Unmet(active, f)
    ensures a.id !in ids
  {
  }

  lemma RivalsExactly(detected: seq<Adapter>, exclusive: seq<Capability>, ambiguous: set<string>,
      findings: seq<Finding>, candidates: seq<Adapter>)
    requires DistinctIds(detected) && candidates == Without(detected, ambiguous)
    requires Explained(ambiguous, findings)
    requires forall f :: f in findings ==>
      f.Ambiguous? && f.capability in exclusive && f.providers == ProvidersOf(detected,
      f.capability) && 2 <= |f.providers|
    requires forall c :: c in exclusive && 2 <= |ProvidersOf(detected, c)| ==>
      Ambiguous(c, ProvidersOf(detected, c)) in findings
    ensures Unambiguous(detected, exclusive, candidates) && OneProviderEach(exclusive, candidates)
  {
    WithoutMembers(detected, ambiguous);
    forall a | a in detected
      ensures a.id !in ambiguous <==> forall c :: c in a.offers && c in exclusive ==> |ProvidersOf(detected, c)| < 2
    {
      forall c | c in a.offers && c in exclusive && 2 <= |ProvidersOf(detected, c)| ensures a.id in ambiguous {
        assert Blames(Ambiguous(c, ProvidersOf(detected, c)), a.id);
      }
      if f :| f in findings && Blames(f, a.id) {
        var b :| b in detected && b.id == a.id && f.capability in b.offers;
        SameId(detected, a, b);
      }
    }
    forall c, a, b | c in exclusive && a in detected && b in detected && c in a.offers && c in b.offers
        && a.id !in ambiguous && b.id !in ambiguous
      ensures a == b
    {
      OnlyProvider(detected, c, a, b);
    }
  }

  lemma SameId(s: seq<Adapter>, a: Adapter, b: Adapter)
    requires DistinctIds(s) && a in s && b in s && a.id == b.id
    ensures a == b
  {
  }
}
