/** The persisted entities and configuration records of `src/lib/types/index.ts`.
    A TypeScript optional field `x?: T` is an `Option<T>`; `Date` is an opaque
    timestamp; every identifier is a string. */
module Types {
  import opened Wrappers

  type Id = string

  /** A `Date` value, never inspected by the model. */
  datatype Timestamp = Timestamp(millis: int)

  /** A tracked named person. */
  datatype Publisher = Publisher(id: Id, name: string, createdAt: Timestamp)

  /** One period's status for a publisher. Numbers are JavaScript numbers. */
  datatype Report = Report(
    id: Id,
    publisherId: Id,
    active: Option<bool>,
    hours: Option<real>,
    studies: Option<real>,
    comment: Option<string>,
    updatedAt: Timestamp)

  /** The configuration handed to a provider adapter. The Azure-only fields and
      the extra headers are carried by no code this model covers. */
  datatype ProviderConfig = ProviderConfig(
    provider: string,
    apiKey: string,
    model: string,
    endpoint: Option<string>)

  /** One row handed to the exporters: a publisher joined with its report. */
  datatype CombinedData = CombinedData(
    name: string,
    active: Option<bool>,
    hours: Option<real>,
    studies: Option<real>,
    comment: Option<string>)

  function PublisherIds(pubs: seq<Publisher>): (ids: set<Id>)
    ensures forall i :: 0 <= i < |pubs| ==> pubs[i].id in ids
    ensures forall x :: x in ids ==> exists i :: 0 <= i < |pubs| && pubs[i].id == x
  {
    set i | 0 <= i < |pubs| :: pubs[i].id
  }

  function Names(pubs: seq<Publisher>): (names: seq<string>)
    ensures |names| == |pubs|
    ensures forall i :: 0 <= i < |pubs| ==> names[i] == pubs[i].name
  {
    seq(|pubs|, i requires 0 <= i < |pubs| => pubs[i].name)
  }
}
