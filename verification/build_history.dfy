/** BuildStore: the build history kept in memory and mirrored, as a whole,
    into one file. The file's JSON encoding is abstracted: a `Document`
    either holds exactly the list of builds written into it, or is empty,
    or is text that does not decode to a list of builds. */
module BuildHistory {
  import opened Wrappers
  import opened Builds

  datatype Document =
    | Empty
    | Encoded(builds: seq<Build>)
    | Malformed

  /** The backing file: absent, present but unreadable, or holding a
      document. */
  datatype Disk =
    | Missing
    | Unreadable
    | Stored(doc: Document)

  datatype Store = Store(builds: seq<Build>, disk: Disk)

  /** The constructor's load: a file that is missing, empty, unreadable
      or malformed leaves the history empty (the failure is only printed);
      otherwise the history is what the file holds. The file is not
      touched. */
  function Load(disk: Disk): (s: Store)
    ensures s.disk == disk
    ensures |s.builds| > 0 ==> disk == Stored(Encoded(s.builds))
  {
    match disk
    case Stored(Encoded(bs)) => Store(bs, disk)
    case _ => Store([], disk)
  }

  /** save: the whole list is written, replacing whatever the file held,
      so the earlier file is no input. `fault` is None when the write
      succeeds and otherwise what the failed write left behind; the
      failure is only printed. */
  function Save(builds: seq<Build>, fault: Option<Disk>): (d: Disk)
    ensures fault.None? ==> d == Stored(Encoded(builds))
    ensures fault.None? ==> Load(d).builds == builds
    ensures fault.Some? ==> d == fault.value
  {
    if fault.Some? then fault.value else Stored(Encoded(builds))
  }

  /** add: append, then persist the entire history. */
  function Add(s: Store, b: Build, fault: Option<Disk>): (r: Store)
    ensures |r.builds| == |s.builds| + 1
    ensures r.builds[..|s.builds|] == s.builds && r.builds[|s.builds|] == b
    ensures fault.None? ==> r.disk == Stored(Encoded(r.builds))
  {
    var builds := s.builds + [b];
    Store(builds, Save(builds, fault))
  }

  /** getById's answer. The lookup compares `b.id.equals(id)` build by
      build, so reaching a build whose id is null throws. */
  datatype Lookup =
    | Found(build: Build)
    | Absent
    | NullIdFault

  /** The index of the first build the lookup stops at: one whose id is
      null or equals `id`. */
  predicate StopsAt(builds: seq<Build>, id: string, i: int) {
    && 0 <= i < |builds|
    && (builds[i].id.None? || builds[i].id == Some(id))
    && forall k | 0 <= k < i :: builds[k].id.Some? && builds[k].id != Some(id)
  }

  /** No build has a null id or the id sought. */
  predicate PassesAll(builds: seq<Build>, id: string) {
    forall k | 0 <= k < |builds| :: builds[k].id.Some? && builds[k].id != Some(id)
  }

  /** getById: the first build whose id equals `id`, null when none does,
      and a fault when a null id is met before any match. */
  function FindById(builds: seq<Build>, id: string): (r: Lookup)
    ensures r.Absent? <==> PassesAll(builds, id)
    ensures r.Found? <==> exists i :: StopsAt(builds, id, i) && builds[i].id == Some(id)
    ensures r.NullIdFault? <==> exists i :: StopsAt(builds, id, i) && builds[i].id.None?
    ensures r.Found? ==> r.build.id == Some(id) && r.build in builds
    ensures r.Found? ==> exists i :: StopsAt(builds, id, i) && r.build == builds[i]
    decreases |builds|
  {
    if |builds| == 0 then Absent
    else if builds[0].id.None? then
      assert StopsAt(builds, id, 0);
      NullIdFault
    else if builds[0].id == Some(id) then
      assert StopsAt(builds, id, 0);
      Found(builds[0])
    else
      var r := FindById(builds[1..], id);
      ShiftStop(builds, id);
      r
  }

  lemma ShiftStop(builds: seq<Build>, id: string)
    requires |builds| > 0 && builds[0].id.Some? && builds[0].id != Some(id)
    ensures forall i :: StopsAt(builds[1..], id, i) <==> StopsAt(builds, id, i + 1)
    ensures PassesAll(builds, id) <==> PassesAll(builds[1..], id)
    ensures !StopsAt(builds, id, 0)
  {
    forall i
      ensures StopsAt(builds[1..], id, i) <==> StopsAt(builds, id, i + 1)
    {
      if StopsAt(builds, id, i + 1) {
        forall k | 0 <= k < i
          ensures builds[1..][k].id.Some? && builds[1..][k].id != Some(id)
        {
          assert builds[1..][k] == builds[k + 1];
        }
      }
      if StopsAt(builds[1..], id, i) {
        forall k | 0 <= k < i + 1
          ensures builds[k].id.Some? && builds[k].id != Some(id)
        {
          if k > 0 {
            assert builds[k] == builds[1..][k - 1];
          }
        }
      }
    }
    if PassesAll(builds[1..], id) {
      forall k | 0 <= k < |builds|
        ensures builds[k].id.Some? && builds[k].id != Some(id)
      {
        if k > 0 {
          assert builds[k] == builds[1..][k - 1];
        }
      }
    }
  }

  /** At most one index satisfies StopsAt. */
  /* ---------------------------------------------------------------
     Properties
     --------------------------------------------------------------- */

  /** A fresh store over a missing, empty, unreadable or malformed file
      holds no builds. */
  lemma UnusableFileGivesEmptyHistory(disk: Disk)
    requires disk in {Missing, Unreadable, Stored(Empty), Stored(Malformed)}
    ensures Load(disk).builds == []
  {
  }

  /** Restart round trip: a store constructed over the file a successful
      add wrote holds the same builds in the same order. */
  lemma RestartAfterAdd(s: Store, b: Build)
    ensures Load(Add(s, b, None).disk).builds == Add(s, b, None).builds
  {
  }

  /** A failed save loses nothing in memory: the build is still added. */
  lemma FailedSaveKeepsBuild(s: Store, b: Build, left: Disk)
    ensures Add(s, b, Some(left)).builds == Add(s, b, None).builds
    ensures Add(s, b, Some(left)).disk == left
  {
  }

  /** A run of adds, each with its own save outcome. */
  function AddAll(s: Store, bs: seq<Build>, faults: seq<Option<Disk>>): (r: Store)
    requires |faults| == |bs|
    decreases |bs|
  {
    if |bs| == 0 then s else AddAll(Add(s, bs[0], faults[0]), bs[1..], faults[1..])
  }

  /** Adds only ever append: the history grows by exactly the added builds,
      in order, whatever the saves did. */
  lemma {:induction false} AddAllAppends(s: Store, bs: seq<Build>, faults: seq<Option<Disk>>)
    requires |faults| == |bs|
    ensures AddAll(s, bs, faults).builds == s.builds + bs
    decreases |bs|
  {
    if |bs| > 0 {
      var s' := Add(s, bs[0], faults[0]);
      assert s'.builds == s.builds + [bs[0]];
      AddAllAppends(s', bs[1..], faults[1..]);
      assert s.builds + [bs[0]] + bs[1..] == s.builds + bs;
    }
  }

  /** When the last save succeeds, a restart recovers the whole history,
      even if earlier saves failed: each save rewrites everything. */
  lemma {:induction false} LastSaveRecoversAll(s: Store, bs: seq<Build>, faults: seq<Option<Disk>>)
    requires |faults| == |bs| && |bs| > 0
    requires faults[|bs| - 1].None?
    ensures Load(AddAll(s, bs, faults).disk).builds == s.builds + bs
    decreases |bs|
  {
    AddAllAppends(s, bs, faults);
    LastSaveWritesAll(s, bs, faults);
  }

  lemma {:induction false} LastSaveWritesAll(s: Store, bs: seq<Build>, faults: seq<Option<Disk>>)
    requires |faults| == |bs| && |bs| > 0
    requires faults[|bs| - 1].None?
    ensures AddAll(s, bs, faults).disk == Stored(Encoded(AddAll(s, bs, faults).builds))
    decreases |bs|
  {
    if |bs| > 1 {
      LastSaveWritesAll(Add(s, bs[0], faults[0]), bs[1..], faults[1..]);
    }
  }

  /** After adding a build whose id no stored build has (and no stored id
      is null), looking that id up finds the new build. */
  lemma FindAddedBuild(s: Store, b: Build, fault: Option<Disk>, id: string)
    requires b.id == Some(id)
    requires PassesAll(s.builds, id)
    ensures FindById(Add(s, b, fault).builds, id) == Found(b)
  {
    var bs := Add(s, b, fault).builds;
    assert StopsAt(bs, id, |s.builds|);
    FoundIsAtStop(bs, id, |s.builds|);
  }

  lemma {:induction false} FoundIsAtStop(builds: seq<Build>, id: string, i: int)
    requires StopsAt(builds, id, i) && builds[i].id == Some(id)
    ensures FindById(builds, id) == Found(builds[i])
    decreases |builds|
  {
    if i > 0 {
      ShiftStop(builds, id);
      FoundIsAtStop(builds[1..], id, i - 1);
    }
  }

  /** Adding never changes an answer the earlier builds already gave: a
      found build or a null-id fault stays as it was. */
  lemma {:induction false} AddKeepsEarlierAnswers(builds: seq<Build>, b: Build, id: string)
    requires !FindById(builds, id).Absent?
    ensures FindById(builds + [b], id) == FindById(builds, id)
    decreases |builds|
  {
    assert (builds + [b])[0] == builds[0];
    if builds[0].id.Some? && builds[0].id != Some(id) {
      assert (builds + [b])[1..] == builds[1..] + [b];
      AddKeepsEarlierAnswers(builds[1..], b, id);
    }
  }

  /** Ids made from distinct UUIDs, as newBuild makes them, keep every
      build of the history reachable by its id. */
  predicate DistinctIds(builds: seq<Build>) {
    && (forall k | 0 <= k < |builds| :: builds[k].id.Some?)
    && forall k, m | 0 <= k < m < |builds| :: builds[k].id != builds[m].id
  }

  lemma EveryBuildReachable(builds: seq<Build>, k: int)
    requires DistinctIds(builds) && 0 <= k < |builds|
    ensures FindById(builds, builds[k].id.value) == Found(builds[k])
  {
    assert StopsAt(builds, builds[k].id.value, k);
    FoundIsAtStop(builds, builds[k].id.value, k);
  }

  /* ---------------------------------------------------------------
     The store object
     --------------------------------------------------------------- */

  /** The BuildStore object: its history and the backing file it mirrors.
      getAll and getById read it without changing it. */
  class BuildStore {
    var state: Store

    constructor (disk: Disk)
      ensures state == Load(disk)
    {
      state := Load(disk);
    }

    method GetAll() returns (all: seq<Build>)
      ensures all == state.builds
    {
      all := state.builds;
    }

    method GetById(id: string) returns (r: Lookup)
      ensures r == FindById(state.builds, id)
    {
      r := FindById(state.builds, id);
    }

    method AddBuild(b: Build, fault: Option<Disk>)
      modifies this
      ensures state.builds == old(state.builds) + [b]
      ensures fault.None? ==> state.disk == Stored(Encoded(state.builds))
      ensures fault.Some? ==> state.disk == fault.value
    {
      state := Add(state, b, fault);
    }
  }
}
