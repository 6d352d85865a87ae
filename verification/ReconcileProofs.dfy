/** What reconciliation promises about each candidate: how its publisher id is
    resolved, when it mints, what the metadata ends up holding, and that the
    drawn ids are fresh. */
module ReconcileProofs {
  import opened Wrappers
  import opened Types
  import opened Reconcile

  /** How candidate `i` is resolved. Let `known` be the roster followed by the
      publishers minted before `i`. If the candidate is marked new, or no entry
      of `known` lowercases to its lowercased name, exactly one publisher is
      minted with the candidate's own (original-case) name and the next drawn
      id, and the report points to it. Otherwise nothing is minted and the
      report points to the LAST entry of `known` with that lowercased name. */
  lemma ResolvedAt(env: Env, existing: seq<Publisher>, cands: seq<Candidate>, i: nat)
    requires i < |cands|
    ensures var before := Fold(env, existing, cands[..i]);
      var upto := Fold(env, existing, cands[..i + 1]);
      var after := Fold(env, existing, cands);
      var known := existing + before.newPublishers;
      var key := env.lower(cands[i].name);
      if cands[i].isNew || !NameKnown(env.lower, known, key) then
        && upto.newPublishers
          == before.newPublishers + [Publisher(env.uuid(before.next), cands[i].name, env.now)]
        && after.reports[i].publisherId == env.uuid(before.next)
      else
        && upto.newPublishers == before.newPublishers
        && exists j :: IsLastNamed(env.lower, known, key, j)
             && after.reports[i].publisherId == known[j].id
  {
    var before := Fold(env, existing, cands[..i]);
    var known := existing + before.newPublishers;
    var key := env.lower(cands[i].name);
    assert cands[..i + 1][..i] == cands[..i];
    assert cands[..i + 1][i] == cands[i];
    var upto := Fold(env, existing, cands[..i + 1]);
    var after := Fold(env, existing, cands);
    FoldLast(env, existing, cands[..i + 1]);
    FoldLookup(env, existing, cands[..i]);
    LookupLastWins(env.lower, known, key);
    FoldPrefix(env, existing, cands, i + 1);
    StepDraws(env, before, cands[i]);
    assert after.reports[i] == upto.reports[i];
    assert upto.reports[i].publisherId == ResolvedId(env, before, cands[i]);
  }

  /** Candidate `i` mints exactly when it is marked new or its lowercased name
      matches neither the roster nor an earlier minted publisher. */
  lemma MintsIff(env: Env, existing: seq<Publisher>, cands: seq<Candidate>, i: nat)
    requires i < |cands|
    ensures var before := Fold(env, existing, cands[..i]);
      var upto := Fold(env, existing, cands[..i + 1]);
      |upto.newPublishers| == |before.newPublishers| + 1
      <==> (cands[i].isNew
            || !NameKnown(env.lower, existing + before.newPublishers, env.lower(cands[i].name)))
  {
    ResolvedAt(env, existing, cands, i);
  }

  /** Metadata is last-write-wins per publisher id: the entry for a report's
      publisher holds the provenance of the last candidate resolved to it. */
  lemma {:induction false} MetadataLastWins(env: Env, existing: seq<Publisher>, cands: seq<Candidate>, i: nat)
    requires i < |cands|
    requires forall k :: i < k < |cands| ==>
      Fold(env, existing, cands).reports[k].publisherId != Fold(env, existing, cands).reports[i].publisherId
    ensures var acc := Fold(env, existing, cands);
      acc.reports[i].publisherId in acc.metadata
      && acc.metadata[acc.reports[i].publisherId] == MetadataOf(cands[i])
    decreases |cands|
  {
    var n := |cands| - 1;
    var prev := Fold(env, existing, cands[..n]);
    var acc := Fold(env, existing, cands);
    FoldLast(env, existing, cands);
    if i < n {
      assert acc.reports[..n] == prev.reports;
      forall k | i < k < n
        ensures prev.reports[k].publisherId != prev.reports[i].publisherId
      {
        assert acc.reports[k] == prev.reports[k];
      }
      MetadataLastWins(env, existing, cands[..n], i);
      assert cands[..n][i] == cands[i];
      assert acc.reports[i] == prev.reports[i];
      assert acc.reports[n].publisherId != acc.reports[i].publisherId;
    }
  }

  /** The metadata of `Convert`: keyed by exactly the reports' publisher ids,
      each value the provenance of the last candidate resolved to that id. */
  lemma ConvertMetadata(env: Env, resp: AIResponse, existing: seq<Publisher>, i: nat)
    requires i < |resp.reports|
    requires forall k :: i < k < |resp.reports| ==>
      Convert(env, resp, existing).reports[k].publisherId
        != Convert(env, resp, existing).reports[i].publisherId
    ensures var r := Convert(env, resp, existing);
      r.metadata.Keys == ReportedIds(r.reports)
      && r.metadata[r.reports[i].publisherId] == MetadataOf(resp.reports[i])
  {
    assert Convert(env, resp, existing).reports == Fold(env, existing, resp.reports).reports;
    MetadataLastWins(env, existing, resp.reports, i);
  }

  // ---------------------------------------------------------------------
  // freshness of drawn ids

  /** The id supply never repeats itself. */
  ghost predicate Injective(uuid: nat -> Id) {
    forall m, n :: m != n ==> uuid(m) != uuid(n)
  }

  /** The id supply never produces an id of the roster. */
  ghost predicate FreshFor(uuid: nat -> Id, existing: seq<Publisher>) {
    forall m :: uuid(m) !in PublisherIds(existing)
  }

  ghost predicate DrawnBelow(uuid: nat -> Id, x: Id, bound: nat) {
    exists m: nat :: m < bound && x == uuid(m)
  }

  /** What one step appends and draws: the report, and before it the
      publisher when the candidate mints, with ids drawn at `next` on. */
  lemma StepDraws(env: Env, prev: Acc, c: Candidate)
    ensures var s := Step(env, prev, c);
      var m := |prev.newPublishers|;
      var n := |prev.reports|;
      && |s.reports| == n + 1 && s.reports[..n] == prev.reports
      && m <= |s.newPublishers| && s.newPublishers[..m] == prev.newPublishers
      && (Mints(env, prev, c) ==>
            && |s.newPublishers| == m + 1 && s.next == prev.next + 2
            && s.newPublishers[m].id == env.uuid(prev.next) && s.reports[n].id == env.uuid(prev.next + 1))
      && (!Mints(env, prev, c) ==>
            && s.newPublishers == prev.newPublishers && s.next == prev.next + 1
            && s.reports[n].id == env.uuid(prev.next))
  {
  }

  /** Every id of the two lists was drawn below `next`. */
  ghost predicate AllDrawnBelow(uuid: nat -> Id, pubs: seq<Publisher>, reports: seq<Report>, next: nat) {
    && (forall k :: 0 <= k < |pubs| ==> DrawnBelow(uuid, pubs[k].id, next))
    && (forall i :: 0 <= i < |reports| ==> DrawnBelow(uuid, reports[i].id, next))
  }

  /** Every minted publisher id and every report id was drawn from the supply
      below `next`. */
  lemma {:induction false} FoldDrawsBelow(env: Env, existing: seq<Publisher>, cands: seq<Candidate>)
    ensures var acc := Fold(env, existing, cands);
      && (forall k :: 0 <= k < |acc.newPublishers| ==> DrawnBelow(env.uuid, acc.newPublishers[k].id, acc.next))
      && (forall i :: 0 <= i < |acc.reports| ==> DrawnBelow(env.uuid, acc.reports[i].id, acc.next))
    decreases |cands|
  {
    if |cands| > 0 {
      var n := |cands| - 1;
      var prev := Fold(env, existing, cands[..n]);
      var acc := Fold(env, existing, cands);
      FoldLast(env, existing, cands);
      FoldDrawsBelow(env, existing, cands[..n]);
      StepDraws(env, prev, cands[n]);
      DrawsExtend(env.uuid, prev.newPublishers, prev.reports, prev.next, acc.newPublishers, acc.reports, acc.next);
    }
  }

  /** Appending ids drawn at `next` and `next + 1`, and moving the bound past
      them, keeps every id drawn below the bound. */
  lemma DrawsExtend(uuid: nat -> Id, pubs: seq<Publisher>, reports: seq<Report>, next: nat,
                    pubs': seq<Publisher>, reports': seq<Report>, next': nat)
    requires AllDrawnBelow(uuid, pubs, reports, next)
    requires |reports'| == |reports| + 1 && reports'[..|reports|] == reports
    requires |pubs| <= |pubs'| && pubs'[..|pubs|] == pubs
    requires || (pubs' == pubs && next' == next + 1 && reports'[|reports|].id == uuid(next))
             || (&& |pubs'| == |pubs| + 1 && next' == next + 2
                 && pubs'[|pubs|].id == uuid(next) && reports'[|reports|].id == uuid(next + 1))
    ensures AllDrawnBelow(uuid, pubs', reports', next')
  {
    forall x | DrawnBelow(uuid, x, next)
      ensures DrawnBelow(uuid, x, next')
    {
      var q: nat :| q < next && x == uuid(q);
    }
    assert forall i :: 0 <= i < |reports| ==> reports'[i] == reports[i];
    assert forall k :: 0 <= k < |pubs| ==> pubs'[k] == pubs[k];
    assert DrawnBelow(uuid, uuid(next), next');
    if next' == next + 2 {
      assert DrawnBelow(uuid, uuid(next + 1), next');
    }
  }

  /** An injective supply's next draws differ from everything drawn before. */
  lemma NextDrawsDiffer(uuid: nat -> Id, next: nat, x: Id)
    requires Injective(uuid) && DrawnBelow(uuid, x, next)
    ensures x != uuid(next) && x != uuid(next + 1)
  {
    var q: nat :| q < next && x == uuid(q);
  }

  /** Minted publisher ids and report ids are pairwise distinct, among
      themselves and from each other. */
  ghost predicate IdsDistinct(pubs: seq<Publisher>, reports: seq<Report>) {
    && (forall k1, k2 :: 0 <= k1 < k2 < |pubs| ==> pubs[k1].id != pubs[k2].id)
    && (forall i1, i2 :: 0 <= i1 < i2 < |reports| ==> reports[i1].id != reports[i2].id)
    && (forall k, i :: 0 <= k < |pubs| && 0 <= i < |reports| ==> pubs[k].id != reports[i].id)
  }

  /** With an injective supply, minted publisher ids and report ids are
      pairwise distinct, among themselves and from each other. */
  lemma {:induction false} FoldDrawsDistinct(env: Env, existing: seq<Publisher>, cands: seq<Candidate>)
    requires Injective(env.uuid)
    ensures IdsDistinct(Fold(env, existing, cands).newPublishers, Fold(env, existing, cands).reports)
    decreases |cands|
  {
    if |cands| > 0 {
      var n := |cands| - 1;
      var prev := Fold(env, existing, cands[..n]);
      var acc := Fold(env, existing, cands);
      FoldLast(env, existing, cands);
      FoldDrawsDistinct(env, existing, cands[..n]);
      FoldDrawsBelow(env, existing, cands[..n]);
      StepDraws(env, prev, cands[n]);
      FreshDraws(env.uuid, prev.newPublishers, prev.reports, prev.next);
      ExtendDistinct(prev.newPublishers, prev.reports, acc.newPublishers, acc.reports,
                     env.uuid(prev.next), env.uuid(prev.next + 1));
    }
  }

  /** Under an injective supply, the next two draws are new. */
  lemma FreshDraws(uuid: nat -> Id, pubs: seq<Publisher>, reports: seq<Report>, next: nat)
    requires Injective(uuid) && AllDrawnBelow(uuid, pubs, reports, next)
    ensures uuid(next) != uuid(next + 1)
    ensures forall k :: 0 <= k < |pubs| ==> pubs[k].id != uuid(next) && pubs[k].id != uuid(next + 1)
    ensures forall i :: 0 <= i < |reports| ==> reports[i].id != uuid(next) && reports[i].id != uuid(next + 1)
  {
    forall k | 0 <= k < |pubs|
      ensures pubs[k].id != uuid(next) && pubs[k].id != uuid(next + 1)
    {
      NextDrawsDiffer(uuid, next, pubs[k].id);
    }
    forall i | 0 <= i < |reports|
      ensures reports[i].id != uuid(next) && reports[i].id != uuid(next + 1)
    {
      NextDrawsDiffer(uuid, next, reports[i].id);
    }
  }

  /** One fold step keeps the ids distinct: it appends a report, and perhaps
      a publisher before it, with ids `a` and then `b`, both unused. */
  lemma ExtendDistinct(pubs: seq<Publisher>, reports: seq<Report>, pubs': seq<Publisher>, reports': seq<Report>, a: Id, b: Id)
    requires IdsDistinct(pubs, reports) && a != b
    requires forall k :: 0 <= k < |pubs| ==> pubs[k].id != a && pubs[k].id != b
    requires forall i :: 0 <= i < |reports| ==> reports[i].id != a && reports[i].id != b
    requires |reports'| == |reports| + 1 && reports'[..|reports|] == reports
    requires |pubs| <= |pubs'| && pubs'[..|pubs|] == pubs
    requires || (pubs' == pubs && reports'[|reports|].id == a)
             || (|pubs'| == |pubs| + 1 && pubs'[|pubs|].id == a && reports'[|reports|].id == b)
    ensures IdsDistinct(pubs', reports')
  {
    assert forall i :: 0 <= i < |reports| ==> reports'[i] == reports[i];
    assert forall k :: 0 <= k < |pubs| ==> pubs'[k] == pubs[k];
  }

  /** A supply that avoids the roster's ids gives minted publishers and
      reports ids outside the roster. */
  lemma {:induction false} FoldIdsFresh(env: Env, existing: seq<Publisher>, cands: seq<Candidate>)
    requires FreshFor(env.uuid, existing)
    ensures forall k :: 0 <= k < |Fold(env, existing, cands).newPublishers| ==>
      Fold(env, existing, cands).newPublishers[k].id !in PublisherIds(existing)
    ensures forall i :: 0 <= i < |Fold(env, existing, cands).reports| ==>
      Fold(env, existing, cands).reports[i].id !in PublisherIds(existing)
    decreases |cands|
  {
    if |cands| > 0 {
      var n := |cands| - 1;
      var prev := Fold(env, existing, cands[..n]);
      var acc := Fold(env, existing, cands);
      FoldLast(env, existing, cands);
      FoldIdsFresh(env, existing, cands[..n]);
      assert forall i :: 0 <= i < n ==> acc.reports[i] == prev.reports[i];
      assert forall k :: 0 <= k < |prev.newPublishers| ==> acc.newPublishers[k] == prev.newPublishers[k];
      assert env.uuid(prev.next) !in PublisherIds(existing);
      assert env.uuid(prev.next + 1) !in PublisherIds(existing);
    }
  }

  /** Under a fresh, injective supply, `Convert` mints publishers whose ids are
      pairwise distinct and clash with no roster id, and gives every report a
      distinct id that is no publisher's id. */
  lemma ConvertIdsFresh(env: Env, resp: AIResponse, existing: seq<Publisher>)
    requires Injective(env.uuid) && FreshFor(env.uuid, existing)
    ensures var r := Convert(env, resp, existing);
      && (forall k :: 0 <= k < |r.newPublishers| ==> r.newPublishers[k].id !in PublisherIds(existing))
      && (forall i :: 0 <= i < |r.reports| ==> r.reports[i].id !in PublisherIds(existing))
      && IdsDistinct(r.newPublishers, r.reports)
  {
    var acc := Fold(env, existing, resp.reports);
    assert Convert(env, resp, existing).reports == acc.reports;
    assert Convert(env, resp, existing).newPublishers == acc.newPublishers;
    FoldDrawsDistinct(env, existing, resp.reports);
    FoldIdsFresh(env, existing, resp.reports);
  }

  // ---------------------------------------------------------------------
  // scenarios

  /** A single non-new candidate whose lowercased name matches a roster entry
      resolves to that entry, choosing the LAST roster entry with that key,
      and mints nothing. */
  lemma CaseInsensitiveMatch(env: Env, existing: seq<Publisher>, c: Candidate, reasoning: string, j: nat)
    requires !c.isNew
    requires IsLastNamed(env.lower, existing, env.lower(c.name), j)
    ensures var r := Convert(env, AIResponse([c], reasoning), existing);
      r.newPublishers == [] && r.reports[0].publisherId == existing[j].id
  {
    var cands := [c];
    ResolvedAt(env, existing, cands, 0);
    assert cands[..0] == [] && cands[..1] == cands;
    var known := existing + Fold(env, existing, cands[..0]).newPublishers;
    assert known == existing;
    assert NameKnown(env.lower, existing, env.lower(c.name));
    var j2 :| IsLastNamed(env.lower, known, env.lower(c.name), j2)
      && Fold(env, existing, cands).reports[0].publisherId == known[j2].id;
    LastNamedUnique(env.lower, existing, env.lower(c.name), j, j2);
  }

  /** Two roster entries that lowercase alike: a matching candidate resolves
      to the later one. */
  lemma LaterRosterEntryWins(env: Env, p1: Publisher, p2: Publisher, c: Candidate, reasoning: string)
    requires !c.isNew
    requires env.lower(p1.name) == env.lower(c.name) && env.lower(p2.name) == env.lower(c.name)
    ensures Convert(env, AIResponse([c], reasoning), [p1, p2]).reports[0].publisherId == p2.id
  {
    CaseInsensitiveMatch(env, [p1, p2], c, reasoning, 1);
  }

  /** A candidate that mints, followed by a non-new candidate with the same
      lowercased name: one publisher is minted with the first candidate's
      original-case name, and both reports point to it. This holds even when
      the roster already has that name and the first candidate is marked new:
      the lookup is re-pointed at the duplicate. */
  lemma MintedNameReused(env: Env, existing: seq<Publisher>, c1: Candidate, c2: Candidate, reasoning: string)
    requires c1.isNew || !NameKnown(env.lower, existing, env.lower(c1.name))
    requires !c2.isNew && env.lower(c2.name) == env.lower(c1.name)
    ensures var r := Convert(env, AIResponse([c1, c2], reasoning), existing);
      && |r.newPublishers| == 1
      && r.newPublishers[0].name == c1.name
      && r.reports[0].publisherId == r.newPublishers[0].id
      && r.reports[1].publisherId == r.newPublishers[0].id
  {
    var cands := [c1, c2];
    assert cands[..0] == [] && cands[..2] == cands;
    ResolvedAt(env, existing, cands, 0);
    ResolvedAt(env, existing, cands, 1);
    var before := Fold(env, existing, cands[..1]);
    var known := existing + before.newPublishers;
    var key := env.lower(c1.name);
    assert before.newPublishers == [Publisher(env.uuid(0), c1.name, env.now)];
    assert IsLastNamed(env.lower, known, key, |existing|);
    assert NameKnown(env.lower, known, key);
    var j :| IsLastNamed(env.lower, known, key, j)
      && Fold(env, existing, cands).reports[1].publisherId == known[j].id;
    LastNamedUnique(env.lower, known, key, j, |existing|);
    FoldPrefix(env, existing, cands, 1);
  }

  /** A candidate marked new mints a fresh publisher even when the roster
      already holds its name. */
  lemma IsNewAlwaysMints(env: Env, existing: seq<Publisher>, c: Candidate, reasoning: string)
    requires c.isNew
    requires Injective(env.uuid) && FreshFor(env.uuid, existing)
    ensures var r := Convert(env, AIResponse([c], reasoning), existing);
      && |r.newPublishers| == 1
      && r.newPublishers[0].name == c.name
      && r.newPublishers[0].id !in PublisherIds(existing)
      && r.reports[0].publisherId == r.newPublishers[0].id
  {
    var cands := [c];
    assert cands[..0] == [] && cands[..1] == cands;
    ResolvedAt(env, existing, cands, 0);
    ConvertIdsFresh(env, AIResponse(cands, reasoning), existing);
  }
}
