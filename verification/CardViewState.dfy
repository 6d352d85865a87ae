/** The card expansion state of `src/lib/state/CardViewState.svelte.ts`: the
    set of expanded publisher ids, of which the view keeps at most one. */
module CardViewState {
  import opened Types

  /** `isExpanded`. */
  predicate IsExpanded(expanded: set<Id>, publisherId: Id) {
    publisherId in expanded
  }

  /** `toggleExpansion`: an expanded id collapses; any other id becomes the
      only expanded one. */
  function ToggleExpansion(expanded: set<Id>, publisherId: Id): (r: set<Id>)
    ensures IsExpanded(r, publisherId) <==> !IsExpanded(expanded, publisherId)
    ensures forall x :: x != publisherId && IsExpanded(r, x) ==> IsExpanded(expanded, x)
    ensures IsExpanded(expanded, publisherId) ==> forall x :: x != publisherId ==> (IsExpanded(r, x) <==> IsExpanded(expanded, x))
    ensures !IsExpanded(expanded, publisherId) ==> forall x :: IsExpanded(r, x) <==> x == publisherId
  {
    if publisherId in expanded then expanded - {publisherId} else {publisherId}
  }

  /** `collapseAll`. */
  function CollapseAll(expanded: set<Id>): (r: set<Id>)
    ensures forall x :: !IsExpanded(r, x)
  {
    {}
  }

  datatype CardOp = Toggle(publisherId: Id) | Collapse

  function Apply(expanded: set<Id>, op: CardOp): set<Id> {
    match op
    case Toggle(p) => ToggleExpansion(expanded, p)
    case Collapse => CollapseAll(expanded)
  }

  /** The state after running `ops` in order. */
  function Run(expanded: set<Id>, ops: seq<CardOp>): set<Id>
    decreases |ops|
  {
    if |ops| == 0 then expanded else Run(Apply(expanded, ops[0]), ops[1..])
  }

  /** A set of at most one element that holds `x` is `{x}`. */
  lemma OnlyMember(s: set<Id>, x: Id)
    requires |s| <= 1 && x in s
    ensures s == {x}
  {
    var rest := s - {x};
    assert s == rest + {x};
    assert |rest| == 0;
  }

  /** Each operation keeps at most one card expanded. */
  lemma ApplyKeepsSingle(expanded: set<Id>, op: CardOp)
    requires |expanded| <= 1
    ensures |Apply(expanded, op)| <= 1
  {
    if op.Toggle? && op.publisherId in expanded {
      OnlyMember(expanded, op.publisherId);
      assert Apply(expanded, op) == {};
    }
  }

  /** Starting from none expanded, any sequence of toggles and collapses
      leaves at most one card expanded. */
  lemma {:induction false} SingleExpansion(ops: seq<CardOp>, expanded: set<Id>)
    requires |expanded| <= 1
    ensures |Run(expanded, ops)| <= 1
    decreases |ops|
  {
    if |ops| > 0 {
      ApplyKeepsSingle(expanded, ops[0]);
      SingleExpansion(ops[1..], Apply(expanded, ops[0]));
    }
  }

  /** Toggling the same card twice: from a state with that card expanded it
      comes back, from any other state every card ends collapsed. */
  lemma ToggleTwice(expanded: set<Id>, publisherId: Id)
    requires |expanded| <= 1
    ensures ToggleExpansion(ToggleExpansion(expanded, publisherId), publisherId)
         == if IsExpanded(expanded, publisherId) then expanded else {}
  {
    if publisherId in expanded {
      OnlyMember(expanded, publisherId);
    }
  }
}
