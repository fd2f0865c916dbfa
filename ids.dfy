/** Id allocation shared by the calendar, the queries screen and the job
    creation screen: the next id is one more than the largest id that
    `Number.parseInt` can read, counting every record (deleted ones too). */
module Ids {
  import opened Base
  import opened Model
  import opened Lists

  /** One step of the `reduce`: ids that do not parse are skipped. */
  function MaxStep(max: int, id: string): (r: int)
    ensures r >= max
    ensures ParseIntPrefix(id).Some? ==> r >= ParseIntPrefix(id).value
    ensures r == max || r == ParseIntPrefix(id).GetOr(max)
  {
    var numericId := ParseIntPrefix(id);
    if numericId.None? then max
    else if numericId.value > max then numericId.value
    else max
  }

  /** `ids.reduce(MaxStep, -1)`, folding from the left. */
  function MaxParsedId(ids: seq<string>): int
  {
    if ids == [] then -1 else MaxStep(MaxParsedId(ids[..|ids| - 1]), ids[|ids| - 1])
  }

  /** The fold is at least -1 and at least every readable id. */
  lemma MaxParsedIdAbove(ids: seq<string>)
    ensures MaxParsedId(ids) >= -1
    ensures forall i :: 0 <= i < |ids| && ParseIntPrefix(ids[i]).Some? ==> ParseIntPrefix(ids[i]).value <= MaxParsedId(ids)
  {
    MaxParsedIdAtLeastInit(ids);
    forall i | 0 <= i < |ids| && ParseIntPrefix(ids[i]).Some?
      ensures ParseIntPrefix(ids[i]).value <= MaxParsedId(ids)
    {
      MaxParsedIdAtLeast(ids, i);
    }
  }

  lemma {:induction false} MaxParsedIdAtLeastInit(ids: seq<string>)
    ensures MaxParsedId(ids) >= -1
  {
    if ids != [] {
      MaxParsedIdAtLeastInit(ids[..|ids| - 1]);
    }
  }

  lemma {:induction false} MaxParsedIdAtLeast(ids: seq<string>, i: int)
    requires 0 <= i < |ids| && ParseIntPrefix(ids[i]).Some?
    ensures ParseIntPrefix(ids[i]).value <= MaxParsedId(ids)
  {
    var init := ids[..|ids| - 1];
    if i < |ids| - 1 {
      assert ids[i] == init[i];
      MaxParsedIdAtLeast(init, i);
    }
  }

  /** The fold is -1 or the value of one of the ids. */
  lemma {:induction false} MaxParsedIdAttained(ids: seq<string>)
    ensures MaxParsedId(ids) == -1 || exists i :: 0 <= i < |ids| && ParseIntPrefix(ids[i]) == Some(MaxParsedId(ids))
  {
    if ids != [] {
      var init := ids[..|ids| - 1];
      var m := MaxParsedId(init);
      if MaxParsedId(ids) != m {
        assert ParseIntPrefix(ids[|ids| - 1]) == Some(MaxParsedId(ids));
      } else if m != -1 {
        MaxParsedIdAttained(init);
        var i :| 0 <= i < |init| && ParseIntPrefix(init[i]) == Some(m);
        assert ids[i] == init[i];
      }
    }
  }

  /** `String(maxId + 1)`. */
  function NextId(ids: seq<string>): (r: string)
    ensures |r| >= 1
  {
    IntToString(MaxParsedId(ids) + 1)
  }

  /** With no readable id the next id is "0". */
  lemma NextIdOfNone(ids: seq<string>)
    requires forall i :: 0 <= i < |ids| ==> ParseIntPrefix(ids[i]).None?
    ensures NextId(ids) == "0"
  {
    MaxParsedIdAbove(ids);
    MaxParsedIdAttained(ids);
  }

  /** The next id reads back as a number above every readable id, so it is
      none of the existing ids. */
  lemma NextIdIsNew(ids: seq<string>)
    ensures ParseIntPrefix(NextId(ids)).Some?
    ensures forall i :: 0 <= i < |ids| && ParseIntPrefix(ids[i]).Some? ==>
      ParseIntPrefix(ids[i]).value < ParseIntPrefix(NextId(ids)).value
    ensures NextId(ids) !in ids
  {
    MaxParsedIdAbove(ids);
    var n := MaxParsedId(ids) + 1;
    ParseIntOfNatToString(n);
    assert NextId(ids) == NatToString(n);
  }

  /** The next id over the ids of any list of records: it reads back as a
      number above every readable id, it is no record's id, and it is "0"
      for an empty list. */
  lemma NextIdFresh<T>(xs: seq<T>, id: T -> string)
    ensures ParseIntPrefix(NextId(Map(xs, id))).Some?
    ensures forall i :: 0 <= i < |xs| ==> id(xs[i]) != NextId(Map(xs, id))
    ensures forall i :: 0 <= i < |xs| && ParseIntPrefix(id(xs[i])).Some? ==>
      ParseIntPrefix(id(xs[i])).value < ParseIntPrefix(NextId(Map(xs, id))).value
    ensures xs == [] ==> NextId(Map(xs, id)) == "0"
  {
    var ids := Map(xs, id);
    NextIdIsNew(ids);
    assert forall i :: 0 <= i < |xs| ==> ids[i] == id(xs[i]);
    if xs == [] {
      NextIdOfNone(ids);
    }
  }

  /** `nextJobId` of the queries and job creation screens, over every job,
      deleted and archived ones included. */
  function NextJobId(jobs: seq<Job>): string {
    NextId(Map(jobs, (j: Job) => j.id))
  }

  /** The new job id is no existing job's id and is above every readable
      one; "0" when there are no jobs. */
  lemma NextJobIdIsNew(jobs: seq<Job>)
    ensures ParseIntPrefix(NextJobId(jobs)).Some?
    ensures forall i :: 0 <= i < |jobs| ==> jobs[i].id != NextJobId(jobs)
    ensures forall i :: 0 <= i < |jobs| && ParseIntPrefix(jobs[i].id).Some? ==>
      ParseIntPrefix(jobs[i].id).value < ParseIntPrefix(NextJobId(jobs)).value
    ensures jobs == [] ==> NextJobId(jobs) == "0"
  {
    NextIdFresh(jobs, (j: Job) => j.id);
  }
}
