/** The reconciliation step shared by the GitHub Models and Anthropic adapters
    (`convertAIResponseToParseResult`): merge the provider's structured answer
    into the current publisher roster, minting publishers for new or unmatched
    names, emitting one report per candidate and collecting non-persisted
    provenance metadata.

    The impure parts of a call are inputs: `Env.lower` stands for
    `String.prototype.toLowerCase`, `Env.uuid` is the supply that
    `crypto.randomUUID` draws from (in call order), and `Env.now` is the
    `new Date()` of the call. */
module Reconcile {
  import opened Wrappers
  import opened Types

  datatype Confidence = High | Medium | Low

  /** One row of the provider's answer. */
  datatype Candidate = Candidate(
    name: string,
    isActive: bool,
    hours: Option<real>,
    studies: Option<real>,
    comment: Option<string>,
    originalText: Option<string>,
    isNew: bool,
    matchConfidence: Confidence,
    reportedBy: string,
    reasoning: string)

  /** The parsed answer: candidates plus a global explanation. */
  datatype AIResponse = AIResponse(reports: seq<Candidate>, reasoning: string)

  /** Provenance of one candidate; never persisted. */
  datatype ReportMetadata = ReportMetadata(
    originalText: Option<string>,
    matchConfidence: Confidence,
    reportedBy: string,
    reasoning: string)

  datatype ParseResult = ParseResult(
    newPublishers: seq<Publisher>,
    reports: seq<Report>,
    metadata: map<Id, ReportMetadata>,
    globalReasoning: string)

  datatype Env = Env(lower: string -> string, uuid: nat -> Id, now: Timestamp)

  // ---------------------------------------------------------------------
  // the name -> id lookup

  /** The roster folded into a map from lowercased name to id, each entry
      overwriting the previous one with the same key. */
  function BuildLookup(lower: string -> string, pubs: seq<Publisher>): map<string, Id>
    decreases |pubs|
  {
    if |pubs| == 0 then map[]
    else
      var last := pubs[|pubs| - 1];
      BuildLookup(lower, pubs[..|pubs| - 1])[lower(last.name) := last.id]
  }

  /** Some entry of `pubs` lowercases to `key`. */
  ghost predicate NameKnown(lower: string -> string, pubs: seq<Publisher>, key: string) {
    exists j :: 0 <= j < |pubs| && lower(pubs[j].name) == key
  }

  /** `pubs[j]` is the last entry of `pubs` that lowercases to `key`. */
  ghost predicate IsLastNamed(lower: string -> string, pubs: seq<Publisher>, key: string, j: int) {
    && 0 <= j < |pubs| && lower(pubs[j].name) == key
    && forall k :: j < k < |pubs| ==> lower(pubs[k].name) != key
  }

  lemma BuildLookupSnoc(lower: string -> string, pubs: seq<Publisher>, p: Publisher)
    ensures BuildLookup(lower, pubs + [p]) == BuildLookup(lower, pubs)[lower(p.name) := p.id]
  {
    assert (pubs + [p])[..|pubs|] == pubs;
  }

  /** The lookup has a key exactly when some roster entry lowercases to it,
      and it maps that key to the LAST such entry's id. */
  lemma {:induction false} LookupLastWins(lower: string -> string, pubs: seq<Publisher>, key: string)
    ensures key in BuildLookup(lower, pubs) <==> NameKnown(lower, pubs, key)
    ensures key in BuildLookup(lower, pubs) ==>
      exists j :: IsLastNamed(lower, pubs, key, j) && BuildLookup(lower, pubs)[key] == pubs[j].id
    decreases |pubs|
  {
    if |pubs| > 0 {
      var n := |pubs| - 1;
      var init := pubs[..n];
      assert pubs == init + [pubs[n]];
      LookupLastWins(lower, init, key);
      LastWinsStep(lower, init, pubs[n], key, BuildLookup(lower, init));
    }
  }

  /** One entry more: it takes its key, and every other key keeps its entry. */
  lemma LastWinsStep(lower: string -> string, init: seq<Publisher>, last: Publisher, key: string, m: map<string, Id>)
    requires key in m <==> NameKnown(lower, init, key)
    requires key in m ==> exists j :: IsLastNamed(lower, init, key, j) && m[key] == init[j].id
    ensures var pubs := init + [last];
      var m' := m[lower(last.name) := last.id];
      && (key in m' <==> NameKnown(lower, pubs, key))
      && (key in m' ==> exists j :: IsLastNamed(lower, pubs, key, j) && m'[key] == pubs[j].id)
  {
    var pubs := init + [last];
    var n := |init|;
    assert pubs[n] == last;
    assert forall k :: 0 <= k < n ==> pubs[k] == init[k];
    if lower(last.name) == key {
      assert IsLastNamed(lower, pubs, key, n);
    } else {
      if NameKnown(lower, pubs, key) {
        var j :| 0 <= j < |pubs| && lower(pubs[j].name) == key;
        assert j < n;
      }
      if NameKnown(lower, init, key) {
        var j :| 0 <= j < |init| && lower(init[j].name) == key;
        assert pubs[j] == init[j];
      }
      if key in m {
        var j :| IsLastNamed(lower, init, key, j) && m[key] == init[j].id;
        assert IsLastNamed(lower, pubs, key, j);
      }
    }
  }

  /** Only one entry can be the last one with a given key. */
  lemma LastNamedUnique(lower: string -> string, pubs: seq<Publisher>, key: string, j1: int, j2: int)
    requires IsLastNamed(lower, pubs, key, j1) && IsLastNamed(lower, pubs, key, j2)
    ensures j1 == j2
  {
  }

  // ---------------------------------------------------------------------
  // one candidate

  /** The state threaded through the `forEach`: the lookup, the outputs so far
      and how many fresh ids have been drawn. */
  datatype Acc = Acc(
    lookup: map<string, Id>,
    newPublishers: seq<Publisher>,
    reports: seq<Report>,
    metadata: map<Id, ReportMetadata>,
    next: nat)

  /** `aiReport.isNew || !publisherMap.has(normalizedName)`. */
  predicate Mints(env: Env, acc: Acc, c: Candidate) {
    c.isNew || env.lower(c.name) !in acc.lookup
  }

  function MetadataOf(c: Candidate): ReportMetadata {
    ReportMetadata(c.originalText, c.matchConfidence, c.reportedBy, c.reasoning)
  }

  /** The report for candidate `c`, with id `id`, resolved to `pid`. */
  function ReportFor(c: Candidate, id: Id, pid: Id, now: Timestamp): Report {
    Report(id, pid, Some(c.isActive), c.hours, c.studies, Some(c.comment.GetOr("")), now)
  }

  /** The id candidate `c` resolves to: a freshly drawn one when it mints,
      otherwise the lookup's entry for its lowercased name. */
  function ResolvedId(env: Env, acc: Acc, c: Candidate): Id {
    if Mints(env, acc, c) then env.uuid(acc.next) else acc.lookup[env.lower(c.name)]
  }

  /** One turn of the `forEach`. A minting candidate draws the publisher id and
      then the report id; otherwise only the report id is drawn. */
  function Step(env: Env, acc: Acc, c: Candidate): Acc {
    var pid := ResolvedId(env, acc, c);
    var mints := Mints(env, acc, c);
    var reportIdx := if mints then acc.next + 1 else acc.next;
    Acc(if mints then acc.lookup[env.lower(c.name) := pid] else acc.lookup,
        if mints then acc.newPublishers + [Publisher(pid, c.name, env.now)] else acc.newPublishers,
        acc.reports + [ReportFor(c, env.uuid(reportIdx), pid, env.now)],
        acc.metadata[pid := MetadataOf(c)],
        reportIdx + 1)
  }

  function Initial(env: Env, existing: seq<Publisher>): Acc {
    Acc(BuildLookup(env.lower, existing), [], [], map[], 0)
  }

  /** The accumulator after the candidates `cands`, processed in order: one
      report per candidate, and one id drawn per report plus one per minted
      publisher. */
  function Fold(env: Env, existing: seq<Publisher>, cands: seq<Candidate>): (acc: Acc)
    ensures |acc.reports| == |cands|
    ensures acc.next == |cands| + |acc.newPublishers|
    decreases |cands|
  {
    if |cands| == 0 then Initial(env, existing)
    else Step(env, Fold(env, existing, cands[..|cands| - 1]), cands[|cands| - 1])
  }

  /** At every point the lookup is exactly the lookup of the roster extended
      by the publishers minted so far, in minting order. */
  lemma {:induction false} FoldLookup(env: Env, existing: seq<Publisher>, cands: seq<Candidate>)
    ensures var acc := Fold(env, existing, cands);
      acc.lookup == BuildLookup(env.lower, existing + acc.newPublishers)
    decreases |cands|
  {
    if |cands| == 0 {
      assert existing + [] == existing;
    } else {
      var prev := Fold(env, existing, cands[..|cands| - 1]);
      var c := cands[|cands| - 1];
      var acc := Step(env, prev, c);
      FoldLookup(env, existing, cands[..|cands| - 1]);
      if Mints(env, prev, c) {
        var p := Publisher(env.uuid(prev.next), c.name, env.now);
        BuildLookupSnoc(env.lower, existing + prev.newPublishers, p);
        assert existing + acc.newPublishers == (existing + prev.newPublishers) + [p];
      }
    }
  }

  /** The last candidate of a non-empty batch is one `Step` after the rest. */
  lemma FoldLast(env: Env, existing: seq<Publisher>, cands: seq<Candidate>)
    requires |cands| > 0
    ensures Fold(env, existing, cands)
      == Step(env, Fold(env, existing, cands[..|cands| - 1]), cands[|cands| - 1])
  {
  }

  /** The report `rep` carries the activity fields of candidate `c`: `active`
      is the candidate's flag, hours and studies are copied, a missing comment
      becomes `''`, and the timestamp is the call's. */
  predicate CarriesCandidate(rep: Report, c: Candidate, now: Timestamp) {
    && rep.active == Some(c.isActive)
    && rep.hours == c.hours
    && rep.studies == c.studies
    && rep.comment == Some(if c.comment.Some? then c.comment.value else "")
    && rep.updatedAt == now
  }

  /** The set of publisher ids the reports point to. */
  function ReportedIds(reports: seq<Report>): set<Id> {
    set i | 0 <= i < |reports| :: reports[i].publisherId
  }

  /** Processing more candidates only extends what was produced before. */
  lemma {:induction false} FoldPrefix(env: Env, existing: seq<Publisher>, cands: seq<Candidate>, i: nat)
    requires i <= |cands|
    ensures var before := Fold(env, existing, cands[..i]);
      var after := Fold(env, existing, cands);
      && before.reports == after.reports[..i]
      && |before.newPublishers| <= |after.newPublishers|
      && before.newPublishers == after.newPublishers[..|before.newPublishers|]
    decreases |cands|
  {
    if i < |cands| {
      var n := |cands| - 1;
      assert cands[..n][..i] == cands[..i];
      FoldPrefix(env, existing, cands[..n], i);
    } else {
      assert cands[..i] == cands;
    }
  }

  /** Every report carries the activity fields of its own candidate. */
  lemma {:induction false} FoldCarries(env: Env, existing: seq<Publisher>, cands: seq<Candidate>)
    ensures var acc := Fold(env, existing, cands);
      forall i :: 0 <= i < |cands| ==> CarriesCandidate(acc.reports[i], cands[i], env.now)
    decreases |cands|
  {
    if |cands| > 0 {
      var n := |cands| - 1;
      var prev := Fold(env, existing, cands[..n]);
      var acc := Fold(env, existing, cands);
      FoldCarries(env, existing, cands[..n]);
      FoldLast(env, existing, cands);
      StepCarries(env, prev, cands[n]);
      CarriesExtend(prev.reports, acc.reports, cands, env.now);
    }
  }

  /** Appending a report that carries the next candidate keeps every report
      carrying its own candidate. */
  lemma CarriesExtend(before: seq<Report>, after: seq<Report>, cands: seq<Candidate>, now: Timestamp)
    requires |cands| == |before| + 1 == |after| && after[..|before|] == before
    requires forall i :: 0 <= i < |before| ==> CarriesCandidate(before[i], cands[..|before|][i], now)
    requires CarriesCandidate(after[|before|], cands[|before|], now)
    ensures forall i :: 0 <= i < |cands| ==> CarriesCandidate(after[i], cands[i], now)
  {
    forall i | 0 <= i < |cands|
      ensures CarriesCandidate(after[i], cands[i], now)
    {
      if i < |before| {
        assert after[i] == before[i];
        assert cands[..|before|][i] == cands[i];
      }
    }
  }

  /** A step keeps the reports so far and appends one carrying the
      candidate. */
  lemma StepCarries(env: Env, acc: Acc, c: Candidate)
    ensures var s := Step(env, acc, c);
      && |s.reports| == |acc.reports| + 1 && s.reports[..|acc.reports|] == acc.reports
      && CarriesCandidate(s.reports[|acc.reports|], c, env.now)
  {
  }

  /** The id a non-minting candidate resolves to belongs to the roster or to a
      publisher minted earlier in the batch. */
  lemma ResolvedIdKnown(env: Env, existing: seq<Publisher>, acc: Acc, key: string)
    requires acc.lookup == BuildLookup(env.lower, existing + acc.newPublishers)
    requires key in acc.lookup
    ensures acc.lookup[key] in PublisherIds(existing) + PublisherIds(acc.newPublishers)
  {
    var all := existing + acc.newPublishers;
    LookupLastWins(env.lower, all, key);
    var j :| IsLastNamed(env.lower, all, key, j) && acc.lookup[key] == all[j].id;
    if j < |existing| {
      assert all[j] == existing[j];
    } else {
      assert all[j] == acc.newPublishers[j - |existing|];
    }
  }

  /** Referential integrity: every report points into the roster or the
      minted publishers. */
  lemma {:induction false} FoldIntegrity(env: Env, existing: seq<Publisher>, cands: seq<Candidate>)
    ensures var acc := Fold(env, existing, cands);
      forall i :: 0 <= i < |cands| ==>
        acc.reports[i].publisherId in PublisherIds(existing) + PublisherIds(acc.newPublishers)
    decreases |cands|
  {
    if |cands| > 0 {
      var n := |cands| - 1;
      var c := cands[n];
      var prev := Fold(env, existing, cands[..n]);
      var acc := Fold(env, existing, cands);
      FoldLast(env, existing, cands);
      FoldIntegrity(env, existing, cands[..n]);
      var known := PublisherIds(existing) + PublisherIds(acc.newPublishers);
      assert PublisherIds(prev.newPublishers) <= PublisherIds(acc.newPublishers) by {
        forall k | 0 <= k < |prev.newPublishers|
          ensures prev.newPublishers[k].id in PublisherIds(acc.newPublishers)
        {
          assert acc.newPublishers[k] == prev.newPublishers[k];
        }
      }
      forall i | 0 <= i < n
        ensures acc.reports[i].publisherId in known
      {
        assert acc.reports[i] == prev.reports[i];
      }
      if Mints(env, prev, c) {
        assert acc.reports[n].publisherId == acc.newPublishers[|prev.newPublishers|].id;
      } else {
        FoldLookup(env, existing, cands[..n]);
        ResolvedIdKnown(env, existing, prev, env.lower(c.name));
      }
    }
  }

  /** The metadata is keyed by exactly the ids the reports point to. */
  lemma {:induction false} FoldMetadataKeys(env: Env, existing: seq<Publisher>, cands: seq<Candidate>)
    ensures var acc := Fold(env, existing, cands);
      acc.metadata.Keys == ReportedIds(acc.reports)
    decreases |cands|
  {
    if |cands| > 0 {
      var n := |cands| - 1;
      var prev := Fold(env, existing, cands[..n]);
      var acc := Fold(env, existing, cands);
      FoldLast(env, existing, cands);
      FoldMetadataKeys(env, existing, cands[..n]);
      var pid := acc.reports[n].publisherId;
      assert acc.metadata.Keys == prev.metadata.Keys + {pid};
      forall x | x in ReportedIds(acc.reports)
        ensures x in ReportedIds(prev.reports) + {pid}
      {
        var i :| 0 <= i < |acc.reports| && acc.reports[i].publisherId == x;
        if i < n {
          assert acc.reports[i] == prev.reports[i];
        }
      }
      forall x | x in ReportedIds(prev.reports) + {pid}
        ensures x in ReportedIds(acc.reports)
      {
        if x != pid {
          var i :| 0 <= i < |prev.reports| && prev.reports[i].publisherId == x;
          assert acc.reports[i] == prev.reports[i];
        }
      }
    }
  }

  /** Every minted publisher bears the name of some candidate, in its
      original case, and the call's timestamp. */
  lemma {:induction false} FoldMintedNames(env: Env, existing: seq<Publisher>, cands: seq<Candidate>)
    ensures var acc := Fold(env, existing, cands);
      forall k :: 0 <= k < |acc.newPublishers| ==>
        && acc.newPublishers[k].createdAt == env.now
        && exists i :: 0 <= i < |cands| && acc.newPublishers[k].name == cands[i].name
    decreases |cands|
  {
    if |cands| > 0 {
      var n := |cands| - 1;
      var init := cands[..n];
      var prev := Fold(env, existing, init);
      var acc := Fold(env, existing, cands);
      FoldLast(env, existing, cands);
      FoldMintedNames(env, existing, init);
      var m := |prev.newPublishers|;
      assert acc.newPublishers[..m] == prev.newPublishers;
      forall k | 0 <= k < |acc.newPublishers|
        ensures acc.newPublishers[k].createdAt == env.now
        ensures exists i :: 0 <= i < |cands| && acc.newPublishers[k].name == cands[i].name
      {
        if k < m {
          assert acc.newPublishers[k] == prev.newPublishers[k];
          var i :| 0 <= i < |init| && prev.newPublishers[k].name == init[i].name;
          assert init[i] == cands[i];
        } else {
          assert acc.newPublishers[k] == Publisher(env.uuid(prev.next), cands[n].name, env.now);
        }
      }
    }
  }

  /** `convertAIResponseToParseResult` of the GitHub Models and Anthropic
      adapters. */
  function Convert(env: Env, resp: AIResponse, existing: seq<Publisher>): (r: ParseResult)
    ensures |r.reports| == |resp.reports|
    ensures forall i :: 0 <= i < |r.reports| ==> CarriesCandidate(r.reports[i], resp.reports[i], env.now)
    ensures forall i :: 0 <= i < |r.reports| ==>
      r.reports[i].publisherId in PublisherIds(existing) + PublisherIds(r.newPublishers)
    ensures r.metadata.Keys == ReportedIds(r.reports)
    ensures r.globalReasoning == resp.reasoning
    ensures |resp.reports| == 0 ==> r.newPublishers == [] && r.reports == [] && r.metadata == map[]
  {
    var acc := Fold(env, existing, resp.reports);
    FoldCarries(env, existing, resp.reports);
    FoldIntegrity(env, existing, resp.reports);
    FoldMetadataKeys(env, existing, resp.reports);
    ParseResult(acc.newPublishers, acc.reports, acc.metadata, resp.reasoning)
  }

  /** The first `forEach`: the roster entered into the lookup in order. */
  method LookupLoop(lower: string -> string, existing: seq<Publisher>) returns (publisherMap: map<string, Id>)
    ensures publisherMap == BuildLookup(lower, existing)
  {
    publisherMap := map[];
    var i := 0;
    while i < |existing|
      invariant 0 <= i <= |existing|
      invariant publisherMap == BuildLookup(lower, existing[..i])
    {
      assert existing[..i + 1][..i] == existing[..i];
      publisherMap := publisherMap[lower(existing[i].name) := existing[i].id];
      i := i + 1;
    }
    assert existing[..i] == existing;
  }

  /** The adapters' code as written: a `forEach` over the roster filling the
      lookup, then a `forEach` over the candidates pushing onto the outputs.
      It computes `Convert`. */
  method ConvertLoop(env: Env, resp: AIResponse, existing: seq<Publisher>) returns (r: ParseResult)
    ensures r == Convert(env, resp, existing)
  {
    var publisherMap := LookupLoop(env.lower, existing);
    var newPublishers: seq<Publisher> := [];
    var reports: seq<Report> := [];
    var metadata: map<Id, ReportMetadata> := map[];
    var drawn: nat := 0;
    var k := 0;
    while k < |resp.reports|
      invariant 0 <= k <= |resp.reports|
      invariant Acc(publisherMap, newPublishers, reports, metadata, drawn)
        == Fold(env, existing, resp.reports[..k])
    {
      assert resp.reports[..k + 1][..k] == resp.reports[..k];
      FoldLast(env, existing, resp.reports[..k + 1]);
      publisherMap, newPublishers, reports, metadata, drawn :=
        PushCandidate(env, publisherMap, newPublishers, reports, metadata, drawn, resp.reports[k]);
      k := k + 1;
    }
    assert resp.reports[..k] == resp.reports;
    r := ParseResult(newPublishers, reports, metadata, resp.reasoning);
  }

  /** The body of the second `forEach`, on the loop's variables: it performs
      one `Step`. */
  method PushCandidate(env: Env, publisherMap: map<string, Id>, newPublishers: seq<Publisher>, reports: seq<Report>,
                       metadata: map<Id, ReportMetadata>, drawn: nat, aiReport: Candidate)
    returns (publisherMap': map<string, Id>, newPublishers': seq<Publisher>, reports': seq<Report>,
             metadata': map<Id, ReportMetadata>, drawn': nat)
    ensures Acc(publisherMap', newPublishers', reports', metadata', drawn')
         == Step(env, Acc(publisherMap, newPublishers, reports, metadata, drawn), aiReport)
  {
    ghost var before := Acc(publisherMap, newPublishers, reports, metadata, drawn);
    publisherMap', newPublishers', drawn' := publisherMap, newPublishers, drawn;
    var publisherId: Id;
    var normalizedName := env.lower(aiReport.name);
    if aiReport.isNew || normalizedName !in publisherMap {
      assert Mints(env, before, aiReport);
      publisherId := env.uuid(drawn');
      drawn' := drawn' + 1;
      newPublishers' := newPublishers' + [Publisher(publisherId, aiReport.name, env.now)];
      publisherMap' := publisherMap'[normalizedName := publisherId];
    } else {
      assert !Mints(env, before, aiReport);
      publisherId := publisherMap[normalizedName];
    }
    assert publisherId == ResolvedId(env, before, aiReport);
    reports' := reports + [ReportFor(aiReport, env.uuid(drawn'), publisherId, env.now)];
    drawn' := drawn' + 1;
    metadata' := metadata[publisherId := MetadataOf(aiReport)];
  }
}
