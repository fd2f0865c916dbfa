/** The customer list offered for autocompletion: one entry per customer
    name, compared trimmed and lower-cased, the first record met winning and
    blank names skipped. The job creation screen collects it from the jobs,
    the queries screen from the jobs and then the queries. */
module Customers {
  import opened Base
  import opened Model
  import opened Lists

  /** The key a name is filed under. */
  function CustomerKey(name: string): string {
    Lower(Trim(name))
  }

  function FromJob(j: Job): Customer {
    Customer(j.customerName, j.phoneNumber, j.address)
  }

  /** A query has no address; its customer gets an empty one. */
  function FromQuery(q: Query): Customer {
    Customer(q.customerName, q.phoneNumber, "")
  }

  /** The key a customer is filed under. */
  function KeyOf(c: Customer): string {
    CustomerKey(c.name)
  }

  /** The candidates in scan order, kept when their key is non-blank and not
      yet seen. */
  function Dedup<T>(cands: seq<T>, key: T -> string, seen: set<string>): seq<T>
    decreases |cands|
  {
    if cands == [] then []
    else
      var k := key(cands[0]);
      if k != "" && k !in seen then [cands[0]] + Dedup(cands[1..], key, seen + {k})
      else Dedup(cands[1..], key, seen)
  }

  /** The loop that fills the `Map` keyed by customer key; the list is the
      map's values in insertion order. Both screens run it with `KeyOf`. */
  method CollectFirst<T>(cands: seq<T>, key: T -> string) returns (customers: seq<T>)
    ensures customers == Dedup(cands, key, {})
  {
    var byKey: map<string, T> := map[];
    customers := [];
    assert cands[0..] == cands && byKey.Keys == {};
    for i := 0 to |cands|
      invariant customers + Dedup(cands[i..], key, byKey.Keys) == Dedup(cands, key, {})
    {
      var c := cands[i];
      var k := key(c);
      ghost var rest := Dedup(cands[i + 1..], key, byKey.Keys + {k});
      DedupStep(cands[i..], key, byKey.Keys);
      assert cands[i..][0] == c && cands[i..][1..] == cands[i + 1..];
      if k != "" && k !in byKey {
        assert customers + Dedup(cands[i..], key, byKey.Keys) == customers + [c] + rest;
        ghost var seen := byKey.Keys;
        byKey := byKey[k := c];
        assert byKey.Keys == seen + {k};
        customers := customers + [c];
      }
    }
    assert cands[|cands|..] == [];
  }

  /** One step of the scan. */
  lemma DedupStep<T>(cands: seq<T>, key: T -> string, seen: set<string>)
    requires cands != []
    ensures Dedup(cands, key, seen) ==
      if key(cands[0]) != "" && key(cands[0]) !in seen then [cands[0]] + Dedup(cands[1..], key, seen + {key(cands[0])})
      else Dedup(cands[1..], key, seen)
  {
  }

  /** Every kept candidate has a non-blank key not seen before. */
  lemma {:induction false} DedupKeysFresh<T>(cands: seq<T>, key: T -> string, seen: set<string>)
    ensures forall i :: 0 <= i < |Dedup(cands, key, seen)| ==>
      key(Dedup(cands, key, seen)[i]) != "" && key(Dedup(cands, key, seen)[i]) !in seen
    decreases |cands|
  {
    if cands != [] {
      var k := key(cands[0]);
      if k != "" && k !in seen {
        DedupKeysFresh(cands[1..], key, seen + {k});
      } else {
        DedupKeysFresh(cands[1..], key, seen);
      }
    }
  }

  /** No two kept candidates share a key. */
  lemma {:induction false} DedupKeysDistinct<T>(cands: seq<T>, key: T -> string, seen: set<string>)
    ensures forall i, j :: 0 <= i < j < |Dedup(cands, key, seen)| ==>
      key(Dedup(cands, key, seen)[i]) != key(Dedup(cands, key, seen)[j])
    decreases |cands|
  {
    if cands != [] {
      var k := key(cands[0]);
      if k != "" && k !in seen {
        DedupKeysDistinct(cands[1..], key, seen + {k});
        DedupKeysFresh(cands[1..], key, seen + {k});
        var r := Dedup(cands, key, seen);
        assert forall i :: 1 <= i < |r| ==> r[i] == Dedup(cands[1..], key, seen + {k})[i - 1];
      } else {
        DedupKeysDistinct(cands[1..], key, seen);
      }
    }
  }

  /** Candidate i is the first with its key. */
  predicate FirstOfKey<T>(cands: seq<T>, key: T -> string, i: int)
    requires 0 <= i < |cands|
  {
    forall k :: 0 <= k < i ==> key(cands[k]) != key(cands[i])
  }

  /** The first candidate with each non-blank, unseen key is kept. */
  lemma {:induction false} DedupKeepsFirst<T>(cands: seq<T>, key: T -> string, seen: set<string>, i: int)
    requires 0 <= i < |cands| && FirstOfKey(cands, key, i)
    requires key(cands[i]) != "" && key(cands[i]) !in seen
    ensures cands[i] in Dedup(cands, key, seen)
    decreases |cands|
  {
    if i > 0 {
      var k := key(cands[0]);
      var rest := cands[1..];
      assert rest[i - 1] == cands[i];
      assert FirstOfKey(rest, key, i - 1) by {
        forall j | 0 <= j < i - 1 ensures key(rest[j]) != key(rest[i - 1]) {
          assert rest[j] == cands[j + 1];
        }
      }
      if k != "" && k !in seen {
        assert k != key(cands[i]);
        DedupKeepsFirst(rest, key, seen + {k}, i - 1);
      } else {
        DedupKeepsFirst(rest, key, seen, i - 1);
      }
    }
  }

  /** Only the first candidate with a key can be kept. */
  lemma {:induction false} DedupOnlyFirst<T>(cands: seq<T>, key: T -> string, seen: set<string>, c: T)
    requires c in Dedup(cands, key, seen)
    ensures exists i :: 0 <= i < |cands| && cands[i] == c && FirstOfKey(cands, key, i)
    decreases |cands|
  {
    var k := key(cands[0]);
    var rest := cands[1..];
    if k != "" && k !in seen && c == cands[0] {
      assert FirstOfKey(cands, key, 0);
    } else {
      var seen' := if k != "" && k !in seen then seen + {k} else seen;
      assert c in Dedup(rest, key, seen');
      DedupOnlyFirst(rest, key, seen', c);
      var i :| 0 <= i < |rest| && rest[i] == c && FirstOfKey(rest, key, i);
      assert key(c) != k by {
        DedupKeysFresh(rest, key, seen');
        var j :| 0 <= j < |Dedup(rest, key, seen')| && Dedup(rest, key, seen')[j] == c;
        assert key(c) != "" && key(c) !in seen';
      }
      assert cands[i + 1] == c;
      forall j | 0 <= j < i + 1 ensures key(cands[j]) != key(cands[i + 1]) {
        if j > 0 { assert cands[j] == rest[j - 1]; }
      }
    }
  }

  /** The queries screen's list: jobs first, then queries. */
  method QueriesScreenCustomers(jobs: seq<Job>, queries: seq<Query>) returns (customers: seq<Customer>)
    ensures customers == Dedup(Map(jobs, FromJob) + Map(queries, FromQuery), KeyOf, {})
  {
    customers := CollectFirst(Map(jobs, FromJob) + Map(queries, FromQuery), KeyOf);
  }

  /** The job creation screen's list, from the jobs alone. */
  method JobCreationCustomers(jobs: seq<Job>) returns (customers: seq<Customer>)
    ensures customers == Dedup(Map(jobs, FromJob), KeyOf, {})
  {
    customers := CollectFirst(Map(jobs, FromJob), KeyOf);
  }

  /** A job's customer wins over a query's with the same key: the first job
      with a non-blank key is always kept. */
  lemma JobsBeforeQueries(jobs: seq<Job>, queries: seq<Query>, i: int)
    requires 0 <= i < |jobs| && CustomerKey(jobs[i].customerName) != ""
    requires forall k :: 0 <= k < i ==> CustomerKey(jobs[k].customerName) != CustomerKey(jobs[i].customerName)
    ensures FromJob(jobs[i]) in Dedup(Map(jobs, FromJob) + Map(queries, FromQuery), KeyOf, {})
  {
    var cands := Map(jobs, FromJob) + Map(queries, FromQuery);
    assert cands[i] == FromJob(jobs[i]);
    assert forall k :: 0 <= k < i ==> cands[k] == FromJob(jobs[k]);
    DedupKeepsFirst(cands, KeyOf, {}, i);
  }
}
