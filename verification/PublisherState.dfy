/** The publisher store of `src/lib/state/PublisherState.svelte.ts` as pure
    transitions on the roster and the edit-mode flag. Saving to storage is
    left out; the id `crypto.randomUUID()` draws and the `new Date()` of an
    addition are parameters. */
module PublisherState {
  import opened Wrappers
  import opened Strings
  import opened Types

  datatype PublisherStore = PublisherStore(publishers: seq<Publisher>, isEditMode: bool)

  /** A store as constructed: no publishers, not editing. */
  const Initial := PublisherStore([], false)

  /** `Partial<Publisher>`: each key absent (`None`) or given. */
  datatype PublisherPatch = PublisherPatch(id: Option<Id>, name: Option<string>, createdAt: Option<Timestamp>)

  /** `{ ...p, ...data }`. */
  function Merge(p: Publisher, d: PublisherPatch): (q: Publisher)
    ensures q.id == d.id.GetOr(p.id) && q.name == d.name.GetOr(p.name) && q.createdAt == d.createdAt.GetOr(p.createdAt)
  {
    Publisher(d.id.GetOr(p.id), d.name.GetOr(p.name), d.createdAt.GetOr(p.createdAt))
  }

  /** `findIndex` on `id`: the first match, or `-1`. */
  function FindIndex(pubs: seq<Publisher>, id: Id): (i: int)
    ensures -1 <= i < |pubs|
    ensures i == -1 <==> id !in PublisherIds(pubs)
    ensures i >= 0 ==> pubs[i].id == id
    ensures forall k :: 0 <= k < i ==> pubs[k].id != id
    decreases |pubs|
  {
    if |pubs| == 0 then -1
    else if pubs[0].id == id then 0
    else
      var j := FindIndex(pubs[1..], id);
      assert PublisherIds(pubs) == {pubs[0].id} + PublisherIds(pubs[1..]) by {
        assert forall k :: 0 < k < |pubs| ==> pubs[k] == pubs[1..][k - 1];
      }
      if j == -1 then -1 else j + 1
  }

  /** `addPublisher`: append one publisher with the trimmed name. */
  function AddPublisher(s: PublisherStore, name: string, freshId: Id, now: Timestamp): (s': PublisherStore)
    ensures |s'.publishers| == |s.publishers| + 1 && s'.publishers[..|s.publishers|] == s.publishers
    ensures var p := s'.publishers[|s.publishers|];
      p.id == freshId && p.createdAt == now && (exists i: nat :: TrimmedSliceAt(name, p.name, i))
      && (|p.name| > 0 ==> !IsWhitespace(p.name[0]) && !IsWhitespace(p.name[|p.name| - 1]))
    ensures s'.isEditMode == s.isEditMode
  {
    s.(publishers := s.publishers + [Publisher(freshId, Trim(name), now)])
  }

  /** `deletePublisher`: `filter` on a different id. */
  function Remove(pubs: seq<Publisher>, id: Id): (r: seq<Publisher>)
    ensures |r| <= |pubs|
    ensures forall x :: x in r <==> x in pubs && x.id != id
    decreases |pubs|
  {
    if |pubs| == 0 then []
    else
      var rest := Remove(pubs[..|pubs| - 1], id);
      var last := pubs[|pubs| - 1];
      assert pubs == pubs[..|pubs| - 1] + [last];
      if last.id != id then rest + [last] else rest
  }

  function DeletePublisher(s: PublisherStore, id: Id): (s': PublisherStore)
    ensures id !in PublisherIds(s'.publishers)
    ensures PublisherIds(s'.publishers) == PublisherIds(s.publishers) - {id}
    ensures |s'.publishers| <= |s.publishers|
    ensures forall p :: p in s'.publishers <==> p in s.publishers && p.id != id
    ensures s'.isEditMode == s.isEditMode
  {
    var r := Remove(s.publishers, id);
    assert forall x :: x in PublisherIds(r) ==> exists k :: 0 <= k < |r| && r[k].id == x;
    s.(publishers := r)
  }

  /** `updatePublisher`: merge the patch into the first entry with the id;
      an unknown id changes nothing. */
  function UpdatePublisher(s: PublisherStore, id: Id, d: PublisherPatch): (s': PublisherStore)
    ensures id !in PublisherIds(s.publishers) ==> s' == s
    ensures |s'.publishers| == |s.publishers| && s'.isEditMode == s.isEditMode
    ensures var i := FindIndex(s.publishers, id);
      i >= 0 ==> (s'.publishers[i] == Merge(s.publishers[i], d)
        && forall k :: 0 <= k < |s.publishers| && k != i ==> s'.publishers[k] == s.publishers[k])
  {
    var i := FindIndex(s.publishers, id);
    if i != -1 then s.(publishers := s.publishers[i := Merge(s.publishers[i], d)]) else s
  }

  /** `toggleEditMode`. */
  function ToggleEditMode(s: PublisherStore): (s': PublisherStore)
    ensures s'.isEditMode != s.isEditMode && s'.publishers == s.publishers
  {
    s.(isEditMode := !s.isEditMode)
  }

  /** Toggling twice restores the store. */
  lemma ToggleTwice(s: PublisherStore)
    ensures ToggleEditMode(ToggleEditMode(s)) == s
  {
  }

  /** Deleting distributes over concatenation, so the survivors keep their
      relative order. */
  lemma {:induction false} RemoveDistributes(a: seq<Publisher>, b: seq<Publisher>, id: Id)
    ensures Remove(a + b, id) == Remove(a, id) + Remove(b, id)
    decreases |b|
  {
    if |b| == 0 {
      assert a + b == a;
    } else {
      var b' := b[..|b| - 1];
      assert (a + b)[..|a + b| - 1] == a + b';
      assert (a + b)[|a + b| - 1] == b[|b| - 1];
      RemoveDistributes(a, b', id);
    }
  }

  /** A list without the id is left as it is by deleting the id. */
  lemma {:induction false} RemoveAbsent(pubs: seq<Publisher>, id: Id)
    requires id !in PublisherIds(pubs)
    ensures Remove(pubs, id) == pubs
    decreases |pubs|
  {
    if |pubs| > 0 {
      var init := pubs[..|pubs| - 1];
      assert pubs == init + [pubs[|pubs| - 1]];
      assert pubs[|pubs| - 1].id in PublisherIds(pubs);
      assert PublisherIds(init) <= PublisherIds(pubs) by {
        assert forall k :: 0 <= k < |init| ==> init[k] == pubs[k];
      }
      RemoveAbsent(init, id);
    }
  }

  /** Deleting the publisher just added with a fresh id gives back the roster
      as it was. */
  lemma AddThenDelete(s: PublisherStore, name: string, freshId: Id, now: Timestamp)
    requires freshId !in PublisherIds(s.publishers)
    ensures DeletePublisher(AddPublisher(s, name, freshId, now), freshId) == s
  {
    var p := Publisher(freshId, Trim(name), now);
    RemoveDistributes(s.publishers, [p], freshId);
    RemoveAbsent(s.publishers, freshId);
    assert [p][..0] == [];
  }

  /** An update that gives no id keeps every entry's id. */
  lemma UpdateKeepsIds(s: PublisherStore, id: Id, d: PublisherPatch)
    requires d.id.None?
    ensures forall k :: 0 <= k < |s.publishers| ==> UpdatePublisher(s, id, d).publishers[k].id == s.publishers[k].id
    ensures PublisherIds(UpdatePublisher(s, id, d).publishers) == PublisherIds(s.publishers)
  {
    var s1 := UpdatePublisher(s, id, d);
    assert forall k :: 0 <= k < |s.publishers| ==> s1.publishers[k].id == s.publishers[k].id;
    forall x | x in PublisherIds(s.publishers) ensures x in PublisherIds(s1.publishers) {
      var k :| 0 <= k < |s.publishers| && s.publishers[k].id == x;
      assert s1.publishers[k].id == x;
    }
  }

  /** Merging the same patch twice is merging it once. */
  lemma MergeIdempotent(p: Publisher, d: PublisherPatch)
    ensures Merge(Merge(p, d), d) == Merge(p, d)
  {
  }

  /** An update that gives no id, repeated, changes nothing more. */
  lemma UpdateIdempotent(s: PublisherStore, id: Id, d: PublisherPatch)
    requires d.id.None?
    ensures UpdatePublisher(UpdatePublisher(s, id, d), id, d) == UpdatePublisher(s, id, d)
  {
    var s1 := UpdatePublisher(s, id, d);
    var i := FindIndex(s.publishers, id);
    if i >= 0 {
      UpdateKeepsIds(s, id, d);
      assert FindIndex(s1.publishers, id) == i;
      MergeIdempotent(s.publishers[i], d);
    }
  }
}
