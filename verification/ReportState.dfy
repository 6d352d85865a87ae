/** The report store of `src/lib/state/ReportState.svelte.ts` as pure
    transitions on the list of reports. Saving to storage is left out; the
    id `crypto.randomUUID()` draws and the `new Date()` of each call are
    parameters. */
module ReportState {
  import opened Wrappers
  import opened Types

  /** `Partial<Pick<Report, 'active' | 'hours' | 'studies' | 'comment'>>`.
      For each field: `None` when the key is absent; `Some(v)` when it is
      present with value `v`, and `Some(None)` when it is present and
      `undefined`, which a spread copies like any other value. */
  datatype ReportPatch = ReportPatch(
    active: Option<Option<bool>>,
    hours: Option<Option<real>>,
    studies: Option<Option<real>>,
    comment: Option<Option<string>>)

  /** One field of `{ ...base, ...data }`: a present key wins. */
  function Overlay<T>(supplied: Option<Option<T>>, base: Option<T>): (v: Option<T>)
    ensures supplied.Some? ==> v == supplied.value
    ensures supplied.None? ==> v == base
  {
    match supplied
    case Some(x) => x
    case None => base
  }

  /** `{ ...r, ...data, updatedAt: now }`. */
  function Merge(r: Report, d: ReportPatch, now: Timestamp): Report {
    Report(r.id, r.publisherId,
      Overlay(d.active, r.active), Overlay(d.hours, r.hours),
      Overlay(d.studies, r.studies), Overlay(d.comment, r.comment), now)
  }

  /** `{ id, publisherId, ...data, updatedAt: now }`: an absent key leaves the
      field undefined. */
  function Fresh(id: Id, publisherId: Id, d: ReportPatch, now: Timestamp): Report {
    Report(id, publisherId,
      Overlay(d.active, None), Overlay(d.hours, None),
      Overlay(d.studies, None), Overlay(d.comment, None), now)
  }

  /** The report carries every field the patch supplies. */
  predicate Carries(r: Report, d: ReportPatch) {
    && (d.active.Some? ==> r.active == d.active.value)
    && (d.hours.Some? ==> r.hours == d.hours.value)
    && (d.studies.Some? ==> r.studies == d.studies.value)
    && (d.comment.Some? ==> r.comment == d.comment.value)
  }

  /** `findIndex` on `publisherId`: the first match, or `-1`. */
  function FindIndex(reports: seq<Report>, publisherId: Id): (i: int)
    ensures -1 <= i < |reports|
    ensures i == -1 <==> forall k :: 0 <= k < |reports| ==> reports[k].publisherId != publisherId
    ensures i >= 0 ==> reports[i].publisherId == publisherId
    ensures forall k :: 0 <= k < i ==> reports[k].publisherId != publisherId
    decreases |reports|
  {
    if |reports| == 0 then -1
    else if reports[0].publisherId == publisherId then 0
    else
      var j := FindIndex(reports[1..], publisherId);
      if j == -1 then -1 else j + 1
  }

  /** `updateReport`: merge the patch into the first report of the
      publisher, or append a new one for it. */
  function UpdateReport(reports: seq<Report>, publisherId: Id, d: ReportPatch, freshId: Id, now: Timestamp): (r: seq<Report>)
    ensures FindIndex(reports, publisherId) >= 0 ==>
      var i := FindIndex(reports, publisherId);
      && |r| == |reports|
      && (forall k :: 0 <= k < |r| && k != i ==> r[k] == reports[k])
      && r[i].id == reports[i].id && r[i].publisherId == publisherId
      && Carries(r[i], d) && r[i].updatedAt == now
      && (d.active.None? ==> r[i].active == reports[i].active)
      && (d.hours.None? ==> r[i].hours == reports[i].hours)
      && (d.studies.None? ==> r[i].studies == reports[i].studies)
      && (d.comment.None? ==> r[i].comment == reports[i].comment)
    ensures FindIndex(reports, publisherId) == -1 ==>
      && |r| == |reports| + 1 && r[..|reports|] == reports
      && r[|reports|].id == freshId && r[|reports|].publisherId == publisherId
      && Carries(r[|reports|], d) && r[|reports|].updatedAt == now
      && (d.active.None? ==> r[|reports|].active.None?)
      && (d.hours.None? ==> r[|reports|].hours.None?)
      && (d.studies.None? ==> r[|reports|].studies.None?)
      && (d.comment.None? ==> r[|reports|].comment.None?)
  {
    var i := FindIndex(reports, publisherId);
    if i != -1 then reports[i := Merge(reports[i], d, now)]
    else reports + [Fresh(freshId, publisherId, d, now)]
  }

  /** `clearReportsData`: every report keeps its place, id and publisher;
      its four data fields become undefined and its timestamp `now`. */
  function ClearReportsData(reports: seq<Report>, now: Timestamp): (r: seq<Report>)
    ensures |r| == |reports|
    ensures forall k :: 0 <= k < |r| ==>
      && r[k].id == reports[k].id && r[k].publisherId == reports[k].publisherId
      && r[k].active.None? && r[k].hours.None? && r[k].studies.None? && r[k].comment.None?
      && r[k].updatedAt == now
  {
    seq(|reports|, k requires 0 <= k < |reports| =>
      reports[k].(active := None, hours := None, studies := None, comment := None, updatedAt := now))
  }

  /** `getReportByPublisher`: `find` on `publisherId`. */
  function GetReportByPublisher(reports: seq<Report>, publisherId: Id): (r: Option<Report>)
    ensures r.None? <==> forall k :: 0 <= k < |reports| ==> reports[k].publisherId != publisherId
    ensures r.Some? ==> r.value.publisherId == publisherId
    ensures r.Some? ==> r.value in reports
    decreases |reports|
  {
    if |reports| == 0 then None
    else if reports[0].publisherId == publisherId then Some(reports[0])
    else
      GetReportByPublisher(reports[1..], publisherId)
  }

  /** `deleteReportsByPublisher`: `filter` on a different `publisherId`. */
  function DeleteReportsByPublisher(reports: seq<Report>, publisherId: Id): (r: seq<Report>)
    ensures |r| <= |reports|
    ensures forall k :: 0 <= k < |r| ==> r[k].publisherId != publisherId
    ensures forall x :: x in r <==> x in reports && x.publisherId != publisherId
    decreases |reports|
  {
    if |reports| == 0 then []
    else
      var rest := DeleteReportsByPublisher(reports[..|reports| - 1], publisherId);
      var last := reports[|reports| - 1];
      assert reports == reports[..|reports| - 1] + [last];
      if last.publisherId != publisherId then rest + [last] else rest
  }

  /** The lookup finds the report `findIndex` points at: the first one of
      the publisher. */
  lemma {:induction false} GetIsFindIndex(reports: seq<Report>, publisherId: Id)
    ensures var i := FindIndex(reports, publisherId);
      GetReportByPublisher(reports, publisherId) == if i == -1 then None else Some(reports[i])
    decreases |reports|
  {
    if |reports| > 0 && reports[0].publisherId != publisherId {
      GetIsFindIndex(reports[1..], publisherId);
    }
  }

  /** After an update the lookup returns a report of that publisher carrying
      the supplied fields. */
  lemma GetAfterUpdate(reports: seq<Report>, publisherId: Id, d: ReportPatch, freshId: Id, now: Timestamp)
    ensures var g := GetReportByPublisher(UpdateReport(reports, publisherId, d, freshId, now), publisherId);
      g.Some? && g.value.publisherId == publisherId && Carries(g.value, d) && g.value.updatedAt == now
  {
    var r := UpdateReport(reports, publisherId, d, freshId, now);
    GetIsFindIndex(r, publisherId);
    var i := FindIndex(reports, publisherId);
    if i >= 0 {
      assert FindIndex(r, publisherId) == i;
    } else {
      assert forall k :: 0 <= k < |reports| ==> r[k] == reports[k];
      assert FindIndex(r, publisherId) == |reports|;
    }
  }

  /** An update for one publisher does not change what the lookup returns for
      any other. */
  lemma UpdateLeavesOthers(reports: seq<Report>, publisherId: Id, d: ReportPatch, freshId: Id, now: Timestamp, other: Id)
    requires other != publisherId
    ensures GetReportByPublisher(UpdateReport(reports, publisherId, d, freshId, now), other)
         == GetReportByPublisher(reports, other)
  {
    var r := UpdateReport(reports, publisherId, d, freshId, now);
    GetIsFindIndex(r, other);
    GetIsFindIndex(reports, other);
    var j := FindIndex(reports, other);
    if FindIndex(reports, publisherId) == -1 {
      assert forall k :: 0 <= k < |reports| ==> r[k] == reports[k];
    }
    if j >= 0 {
      assert FindIndex(r, other) == j;
    } else {
      assert FindIndex(r, other) == -1;
    }
  }

  /** No publisher has more than one report. */
  ghost predicate OnePerPublisher(reports: seq<Report>) {
    forall k1, k2 :: 0 <= k1 < k2 < |reports| ==> reports[k1].publisherId != reports[k2].publisherId
  }

  /** Updates keep one report per publisher, so a list built by updates has
      no report the lookup can never reach. */
  lemma UpdateKeepsOnePerPublisher(reports: seq<Report>, publisherId: Id, d: ReportPatch, freshId: Id, now: Timestamp)
    requires OnePerPublisher(reports)
    ensures OnePerPublisher(UpdateReport(reports, publisherId, d, freshId, now))
  {
  }

  /** Deleting removes exactly the publisher's reports, keeping the others in
      their order: it distributes over concatenation. */
  lemma {:induction false} DeleteDistributes(a: seq<Report>, b: seq<Report>, publisherId: Id)
    ensures DeleteReportsByPublisher(a + b, publisherId)
         == DeleteReportsByPublisher(a, publisherId) + DeleteReportsByPublisher(b, publisherId)
    decreases |b|
  {
    if |b| == 0 {
      assert a + b == a;
    } else {
      var b' := b[..|b| - 1];
      assert (a + b)[..|a + b| - 1] == a + b';
      assert (a + b)[|a + b| - 1] == b[|b| - 1];
      DeleteDistributes(a, b', publisherId);
    }
  }

  /** The lookup in a concatenation: the first part, then the second. */
  lemma {:induction false} GetConcat(a: seq<Report>, b: seq<Report>, publisherId: Id)
    ensures GetReportByPublisher(a + b, publisherId)
         == if GetReportByPublisher(a, publisherId).Some? then GetReportByPublisher(a, publisherId)
            else GetReportByPublisher(b, publisherId)
    decreases |a|
  {
    if |a| == 0 {
      assert a + b == b;
    } else {
      assert (a + b)[0] == a[0] && (a + b)[1..] == a[1..] + b;
      GetConcat(a[1..], b, publisherId);
    }
  }

  /** After deleting, the publisher has no report and every other
      publisher's lookup is unchanged. */
  lemma {:induction false} GetAfterDelete(reports: seq<Report>, publisherId: Id, other: Id)
    ensures GetReportByPublisher(DeleteReportsByPublisher(reports, publisherId), publisherId).None?
    ensures other != publisherId ==>
      GetReportByPublisher(DeleteReportsByPublisher(reports, publisherId), other) == GetReportByPublisher(reports, other)
    decreases |reports|
  {
    if |reports| > 0 {
      var init := reports[..|reports| - 1];
      var last := reports[|reports| - 1];
      assert reports == init + [last];
      GetAfterDelete(init, publisherId, other);
      var tail := if last.publisherId != publisherId then [last] else [];
      assert DeleteReportsByPublisher(reports, publisherId) == DeleteReportsByPublisher(init, publisherId) + tail;
      GetConcat(DeleteReportsByPublisher(init, publisherId), tail, publisherId);
      GetConcat(DeleteReportsByPublisher(init, publisherId), tail, other);
      GetConcat(init, [last], other);
    }
  }

  /** Clearing twice is clearing once, with the later timestamp. */
  lemma ClearIdempotent(reports: seq<Report>, t1: Timestamp, t2: Timestamp)
    ensures ClearReportsData(ClearReportsData(reports, t1), t2) == ClearReportsData(reports, t2)
  {
  }

  /** Clearing keeps every publisher's lookup pointing at its same report,
      now emptied. */
  lemma GetAfterClear(reports: seq<Report>, publisherId: Id, now: Timestamp)
    ensures var g := GetReportByPublisher(ClearReportsData(reports, now), publisherId);
      var h := GetReportByPublisher(reports, publisherId);
      && (g.Some? <==> h.Some?)
      && (g.Some? ==> g.value.id == h.value.id && g.value.active.None? && g.value.comment.None?)
  {
    var c := ClearReportsData(reports, now);
    GetIsFindIndex(c, publisherId);
    GetIsFindIndex(reports, publisherId);
    var i := FindIndex(reports, publisherId);
    if i >= 0 {
      assert FindIndex(c, publisherId) == i;
    } else {
      assert FindIndex(c, publisherId) == -1;
    }
  }
}
