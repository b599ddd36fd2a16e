/**
  Per-channel high-water marks of monitor update ids, used to refuse a start on channel state that is
  behind a point the wallet durably reached.
 */
module Highwater {

  type Channel = string
  type Marks = map<Channel, nat>

  datatype Summary = Summary(channel: Channel, latest: nat)
  datatype Regression = NoRegression | Regressed(channel: Channel, loaded: nat, highwater: nat)

  /** The mark of one channel raised to `id`, never lowered. */
  function Raise(marks: Marks, channel: Channel, id: nat): Marks {
    if channel !in marks || id > marks[channel] then marks[channel := id] else marks
  }

  /** What merging the loaded monitors into the stored marks amounts to. */
  function Merged(stored: Marks, summaries: seq<Summary>): Marks {
    if summaries == [] then stored
    else
      var last := summaries[|summaries| - 1];
      Raise(Merged(stored, summaries[..|summaries| - 1]), last.channel, last.latest)
  }

  /** The value `v` for channel `c` was stored or was loaded. */
  ghost predicate Attained(c: Channel, v: nat, stored: Marks, summaries: seq<Summary>) {
    (c in stored && stored[c] == v) || Summary(c, v) in summaries
  }

  /** `m` is the least map that is above `stored` and above every summary. */
  ghost predicate IsLeastUpperBound(m: Marks, stored: Marks, summaries: seq<Summary>) {
    && (forall c :: c in stored ==> c in m && stored[c] <= m[c])
    && (forall s :: s in summaries ==> s.channel in m && s.latest <= m[s.channel])
    && (forall c :: c in m ==> Attained(c, m[c], stored, summaries))
  }

  lemma {:induction false} MergedIsLeastUpperBound(stored: Marks, summaries: seq<Summary>)
    ensures IsLeastUpperBound(Merged(stored, summaries), stored, summaries)
    decreases |summaries|
  {
    if summaries != [] {
      var n := |summaries| - 1;
      var before := Merged(stored, summaries[..n]);
      MergedIsLeastUpperBound(stored, summaries[..n]);
      assert summaries == summaries[..n] + [summaries[n]];
      assert forall c, v :: Attained(c, v, stored, summaries[..n]) ==> Attained(c, v, stored, summaries);
    }
  }

  method MergeHighwater(stored: Marks, summaries: seq<Summary>) returns (next: Marks)
    ensures next == Merged(stored, summaries)
    ensures IsLeastUpperBound(next, stored, summaries)
  {
    next := stored;
    for i := 0 to |summaries|
      invariant next == Merged(stored, summaries[..i])
    {
      assert summaries[..i + 1][..i] == summaries[..i];
      var s := summaries[i];
      if s.channel !in next || s.latest > next[s.channel] {
        next := next[s.channel := s.latest];
      }
    }
    assert summaries[..|summaries|] == summaries;
    MergedIsLeastUpperBound(stored, summaries);
  }

  predicate Behind(s: Summary, stored: Marks) {
    s.channel in stored && s.latest < stored[s.channel]
  }

  /**
    The start guard: it stops on the first loaded monitor below its mark and only then. A mark without a
    loaded monitor is a closed channel and never stops the start.
   */
  method FindRegression(summaries: seq<Summary>, stored: Marks) returns (r: Regression)
    ensures r.NoRegression? <==> forall s :: s in summaries && s.channel in stored ==> stored[s.channel] <= s.latest
    ensures r.Regressed? ==>
              exists i :: 0 <= i < |summaries| && Behind(summaries[i], stored)
                          && (forall j :: 0 <= j < i ==> !Behind(summaries[j], stored))
                          && r == Regressed(summaries[i].channel, summaries[i].latest, stored[summaries[i].channel])
  {
    for i := 0 to |summaries|
      invariant forall j :: 0 <= j < i ==> !Behind(summaries[j], stored)
    {
      var s := summaries[i];
      if s.channel in stored && s.latest < stored[s.channel] {
        assert Behind(summaries[i], stored) && summaries[i] in summaries;
        return Regressed(s.channel, s.latest, stored[s.channel]);
      }
    }
    return NoRegression;
  }

  /** The wallet's in-memory marks. */
  class MarkKeeper {
    var monitorHighwater: Marks

    constructor (stored: Marks, summaries: seq<Summary>)
      ensures monitorHighwater == Merged(stored, summaries)
    {
      var merged := MergeHighwater(stored, summaries);
      monitorHighwater := merged;
    }

    /** `write` tells whether the advanced marks must be written back to storage. */
    method RecordDurableHighwater(channel: Channel, updateId: nat) returns (write: bool)
      modifies this
      ensures monitorHighwater == Raise(old(monitorHighwater), channel, updateId)
      ensures write <==> monitorHighwater != old(monitorHighwater)
    {
      if channel in monitorHighwater && updateId <= monitorHighwater[channel] {
        return false;
      }
      ghost var before := monitorHighwater;
      monitorHighwater := monitorHighwater[channel := updateId];
      assert channel in before ==> before[channel] != monitorHighwater[channel];
      assert channel in monitorHighwater;
      return true;
    }
  }
}
