/** A source that could not be read is no peer in a contest of states, and is one in every other
    (`console/index/merge.py:173-182`, `309-313`). */
module BlindSources {
  import opened Wrappers
  import opened Model
  import opened Merge
  import opened MergeOrder
  import opened RowOrder

  /** `c` and `d` stand foremost among those that hold `k`, and hold different values. */
  ghost predicate Contest(peers: set<Claim>, k: Key, c: Claim, d: Claim) {
    && Foremost(HoldersOf(peers, k), c) && Foremost(HoldersOf(peers, k), d)
    && c.entity.fields[k] != d.entity.fields[k]
  }

  /** Two sources that were read disagree on `k`, and nobody, read or not, outranks them on it. */
  ghost predicate SeenContest(peers: set<Claim>, k: Key) {
    exists c, d :: Contest(peers, k, c, d) && c.reachable && d.reachable
  }

  /** A source that was not read disagrees on `k`, and nobody outranks it. */
  ghost predicate BlindContest(peers: set<Claim>, k: Key) {
    exists c, d :: Contest(peers, k, c, d) && !c.reachable
  }

  lemma {:induction false} ContestIsDisagreement(peers: set<Claim>, k: Key, c: Claim, d: Claim)
    ensures Contest(peers, k, c, d) <==> Disagree(peers, c, d, k)
  {
    if Contest(peers, k, c, d) {
      ForemostHoldersDisagree(peers, c, d, k);
    }
    if Disagree(peers, c, d, k) {
      DisagreeingAreForemost(peers, c, d, k);
    }
    hide Foremost, HoldersOf;
  }

  lemma {:induction false} ConflictNeedsNoReach(peers: set<Claim>, k: Key)
    ensures Of(k) in Conflicts(peers) <==> SeenContest(peers, k) || BlindContest(peers, k)
  {
    ConflictAt(peers, k);
    forall c, d ensures Contest(peers, k, c, d) <==> Disagree(peers, c, d, k) {
      ContestIsDisagreement(peers, k, c, d);
    }
    forall c, d ensures Contest(peers, k, c, d) <==> Contest(peers, k, d, c) {
      ContestIsMutual(peers, k, c, d);
    }
    hide Conflicts, Disagree, Contest;
    if c, d :| Disagree(peers, c, d, k) {
      assert Contest(peers, k, c, d) && Contest(peers, k, d, c);
    }
  }

  lemma {:induction false} ContestIsMutual(peers: set<Claim>, k: Key, c: Claim, d: Claim)
    ensures Contest(peers, k, c, d) <==> Contest(peers, k, d, c)
  {
    hide Foremost, HoldersOf;
  }

  /** A key is in conflict exactly when two foremost holders that were read differ, or one that was
      not read differs from another: a blind source is enough. */
  lemma {:induction false} ConflictOfTheBlindIff(claims: seq<Claim>, k: Key)
    requires Peered(claims)
    ensures Resolve(claims).Merged?
    ensures Of(k) in Resolve(claims).entity.conflicts <==> SeenContest(Line(claims), k) || BlindContest(Line(claims), k)
  {
    MergeMeaning(claims);
    hide Resolve, Line, SeenContest, BlindContest, Conflicts, Peered, IsVerdict, IsLatest;
    ConflictNeedsNoReach(Line(claims), k);
  }

  ghost function ReadOf(peers: set<Claim>): set<Claim> { set c | c in peers && c.reachable }

  /** Sources that were not read stand above all that were on `k`, and hold one value for it. */
  ghost predicate Covered(peers: set<Claim>, k: Key) {
    && (forall b :: Foremost(HoldersOf(peers, k), b) ==> !b.reachable)
    && forall b, c :: Foremost(HoldersOf(peers, k), b) && Foremost(HoldersOf(peers, k), c) ==>
      b.entity.fields[k] == c.entity.fields[k]
  }

  lemma {:induction false} CoveredContest(peers: set<Claim>, k: Key)
    requires SeenContest(ReadOf(peers), k)
    ensures Of(k) !in Conflicts(peers) <==> Covered(peers, k)
  {
    ConflictNeedsNoReach(peers, k);
    var c, d :| Contest(ReadOf(peers), k, c, d) && c.reachable && d.reachable;
    hide Conflicts;
    forall b | Foremost(HoldersOf(peers, k), b) && b.reachable ensures Contest(peers, k, c, d) {
      ReadForemost(peers, k, b, c);
      ReadForemost(peers, k, b, d);
    }
    hide Foremost, HoldersOf;
    if !SeenContest(peers, k) && !BlindContest(peers, k) {
      forall b, e | Foremost(HoldersOf(peers, k), b) && Foremost(HoldersOf(peers, k), e)
        ensures b.entity.fields[k] == e.entity.fields[k]
      {
        assert !Contest(peers, k, b, e);
      }
    }
  }

  /** A read holder that stands foremost sets the rank the read ones are contested at. */
  lemma {:induction false} ReadForemost(peers: set<Claim>, k: Key, b: Claim, c: Claim)
    requires Foremost(HoldersOf(peers, k), b) && b.reachable && Foremost(HoldersOf(ReadOf(peers), k), c)
    ensures Foremost(HoldersOf(peers, k), c)
  {
  }

  /** And a contest among those that were read is no conflict exactly when sources that were not read
      outrank them on the key and agree on it among themselves. */
  lemma {:induction false} BlindSourcesHideIff(claims: seq<Claim>, k: Key)
    requires Peered(claims) && SeenContest(ReadOf(Line(claims)), k)
    ensures Resolve(claims).Merged?
    ensures Of(k) !in Resolve(claims).entity.conflicts <==> Covered(Line(claims), k)
  {
    MergeMeaning(claims);
    hide Resolve, Line, SeenContest, Covered, Conflicts, Peered, IsVerdict, IsLatest;
    CoveredContest(Line(claims), k);
  }

  /** Nobody who was read disagrees with anybody who was. */
  ghost predicate SeenAgree(peers: set<Claim>) {
    (forall k :: !SeenContest(peers, k)) && forall c, d :: !StatesDisagree(peers, c, d)
  }

  lemma {:induction false} OnlyBlindConflicts(peers: set<Claim>)
    requires SeenAgree(peers)
    ensures Conflicts(peers) != {} <==> exists k :: BlindContest(peers, k)
  {
    forall k ensures Of(k) in Conflicts(peers) <==> BlindContest(peers, k) {
      assert !SeenContest(peers, k);
      hide SeenContest, BlindContest, Conflicts;
      ConflictNeedsNoReach(peers, k);
    }
    hide SeenContest, BlindContest;
    if f :| f in Conflicts(peers) {
      assert f != StateField;
      assert f.Of?;
      assert BlindContest(peers, f.key);
    }
  }

  lemma {:induction false} LeadersShareState(peers: set<Claim>, lead: Claim, other: Claim)
    requires Leads(peers, lead) && Leads(peers, other) && lead.reachable && !StatesDisagree(peers, lead, other)
    ensures other.entity.state == lead.entity.state
  {
  }

  /** What that does to the row: everybody who was read agreeing, it is DEGRADED, whatever they say
      short of a declared lifecycle, exactly when a source that was not read contests some field. */
  lemma {:induction false} BlindSourcesDegrade(claims: seq<Claim>, lead: Claim)
    requires Mergeable(claims) && Leads(Line(claims), lead) && lead.reachable && SeenAgree(Line(claims))
    ensures Resolve(claims).Merged?
    ensures Resolve(claims).entity.state ==
      if (exists k :: BlindContest(Line(claims), k)) && !DeclaredOnly(lead.entity.state) then Known(Degraded)
      else lead.entity.state
  {
    var peers := Line(claims);
    MergeMeaning(claims);
    OnlyBlindConflicts(peers);
    LineMeaning(claims);
    assert lead.entity.state.Known?;
    hide Resolve, Line, BlindContest, Peered, IsLatest, Conflicts, Mergeable;
    assert lead in peers && Admissible(lead);
    var c :| Leads(peers, c) && Resolve(claims).entity.state == Verdict(c.entity.state, Conflicts(peers) != {});
    assert !StatesDisagree(peers, lead, c);
    LeadersShareState(peers, lead, c);
  }

  /** One outage is enough: a component its own source reads HEALTHY is DEGRADED as soon as a second
      one, not read this pass, last held another value for some field. */
  lemma {:induction false} OutageDegrades(c: Claim, d: Claim, k: Key)
    requires Mergeable([c, d]) && c.cls == Observation && d.cls == Observation
    requires c.reachable && c.entity.state == Known(Healthy) && !d.reachable
    requires k in c.entity.fields && k in d.entity.fields && c.entity.fields[k] != d.entity.fields[k]
    ensures Resolve([c]) == Merged(c.entity)
    ensures Resolve([c, d]).Merged? && Resolve([c, d]).entity.state == Known(Degraded)
  {
    var peers := {c, d};
    TwoObservations(c, d);
    LoneClaim([c]);
    assert Contest(peers, k, d, c);
    assert SeenAgree(peers) by {
      OneSeen(c, d);
    }
    assert Leads(peers, c);
    hide Resolve, Mergeable, Line, SeenAgree, Leads, Contest;
    assert BlindContest(peers, k);
    BlindSourcesDegrade([c, d], c);
  }

  lemma {:induction false} OneSeen(c: Claim, d: Claim)
    requires c.reachable && !d.reachable
    ensures SeenAgree({c, d})
  {
    forall k, a, b ensures !(Contest({c, d}, k, a, b) && a.reachable && b.reachable) {
      assert a in {c, d} && a.reachable ==> a == c;
    }
  }
}
