/** The queries slice of the store: phone queries awaiting conversion into
    jobs. Pure; the clock reading is passed in. No audit entries are written. */
module QueryReducer {
  import opened Base
  import opened Model
  import opened Lists

  datatype QueryState = QueryState(queries: seq<Query>)

  const InitialQueryState := QueryState([])

  datatype QueryAction =
    | AddQuery(query: Query)
    | UpdateQuery(query: Query)
    | DeleteQuery(id: string, deletedAt: string)
    | SetQueries(queries: seq<Query>)
    | ReplaceQueries(queries: seq<Query>)
    | Other

  function QueryId(q: Query): string { q.id }

  function QueryIds(qs: seq<Query>): seq<string> { Map(qs, QueryId) }

  function WithUpdatedAt(q: Query, now: string): Query {
    q.(updatedAt := Some(now))
  }

  /** A query after DELETE_QUERY: a soft delete, restamped. */
  function SoftDeleted(q: Query, deletedAt: string, now: string): (r: Query)
    ensures r.isDeleted == Some(true) && r.deletedAt == Some(deletedAt) && r.updatedAt == Some(now)
    ensures r.(isDeleted := q.isDeleted, deletedAt := q.deletedAt, updatedAt := q.updatedAt) == q
  {
    WithUpdatedAt(q.(isDeleted := Some(true), deletedAt := Some(deletedAt)), now)
  }

  /** A query of a SET_QUERIES payload as stored: only a missing `updatedAt` is filled. */
  function Imported(q: Query, now: string): (r: Query)
    ensures Truthy(q.updatedAt) ==> r == q
    ensures !Truthy(q.updatedAt) ==> r == q.(updatedAt := Some(now))
  {
    q.(updatedAt := Some(OrString(q.updatedAt, now)))
  }

  function Reduce(s: QueryState, a: QueryAction, now: string): (r: QueryState)
    ensures a.AddQuery? ==> |r.queries| == |s.queries| + 1
    ensures a.UpdateQuery? || a.DeleteQuery? || a.SetQueries? ==>
      |r.queries| == |if a.SetQueries? then a.queries else s.queries|
    ensures a.ReplaceQueries? ==> r.queries == a.queries
    ensures a.Other? ==> r == s
  {
    match a
    case AddQuery(q) => QueryState([WithUpdatedAt(q, now)] + s.queries)
    case UpdateQuery(q) => QueryState(MapWhere(s.queries, QueryId, q.id, _ => WithUpdatedAt(q, now)))
    case DeleteQuery(id, deletedAt) => QueryState(MapWhere(s.queries, QueryId, id, q => SoftDeleted(q, deletedAt, now)))
    case SetQueries(qs) => QueryState(Map(qs, (q: Query) => Imported(q, now)))
    case ReplaceQueries(qs) => QueryState(qs)
    case Other => s
  }

  /** ADD_QUERY puts the stamped query in front and keeps the rest in order. */
  lemma AddQueryPrepends(s: QueryState, q: Query, now: string)
    ensures Reduce(s, AddQuery(q), now).queries == [q.(updatedAt := Some(now))] + s.queries
  {
  }

  /** UPDATE_QUERY replaces only the queries with the payload's id, restamped. */
  lemma UpdateQueryOnlyMatching(s: QueryState, q: Query, now: string, i: nat)
    requires i < |s.queries|
    ensures Reduce(s, UpdateQuery(q), now).queries[i] ==
      if s.queries[i].id == q.id then q.(updatedAt := Some(now)) else s.queries[i]
  {
  }

  /** DELETE_QUERY keeps the length and every id; the queries with the id are
      soft-deleted and restamped, every other query is left as it is. */
  lemma {:induction false} DeleteQueryKeepsIds(s: QueryState, id: string, at: string, now: string)
    ensures QueryIds(Reduce(s, DeleteQuery(id, at), now).queries) == QueryIds(s.queries)
    ensures forall i :: 0 <= i < |s.queries| && s.queries[i].id == id ==>
      Reduce(s, DeleteQuery(id, at), now).queries[i] == SoftDeleted(s.queries[i], at, now)
    ensures forall i :: 0 <= i < |s.queries| && s.queries[i].id != id ==>
      Reduce(s, DeleteQuery(id, at), now).queries[i] == s.queries[i]
  {
    var r := Reduce(s, DeleteQuery(id, at), now).queries;
    assert forall i :: 0 <= i < |r| ==> r[i].id == s.queries[i].id;
    assert QueryIds(r) == QueryIds(s.queries);
  }

  /** SET_QUERIES keeps order and length and only fills missing `updatedAt`. */
  lemma SetQueriesFillsStamps(s: QueryState, qs: seq<Query>, now: string, i: nat)
    requires i < |qs|
    ensures Reduce(s, SetQueries(qs), now).queries[i] == Imported(qs[i], now)
    ensures Reduce(s, SetQueries(qs), now).queries[i].updatedAt.Some?
  {
  }
}
