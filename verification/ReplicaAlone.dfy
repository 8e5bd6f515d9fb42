/** One run of replication taken alone, step by step, against what a caller may expect of it. */
module ReplicaAlone {
  import opened Statements
  import opened ReplicaStore

  /** The steps of a run that nothing interrupts, up to its end. */
  function Carried(h: Hash, s: State, p: nat, r: Receipt, temp: string, source: string, stable: bool): State
    requires AllValid(s) && Enabled(s, Begin(p, r)) && TempFor(s, r, temp)
  {
    var checked := Apply(h, Apply(h, s, Begin(p, r)), Check(p));
    if !checked.runs[p].pc.Opening? then checked
    else
      var copied := Apply(h, Apply(h, checked, MakeTemp(p, temp)), CopyAll(p, source, stable));
      if copied.runs[p].pc.Failing? then Apply(h, copied, RemoveTemp(p, true))
      else
        var linked := Apply(h, copied, Link(p));
        var removed := Apply(h, linked, RemoveTemp(p, true));
        if removed.runs[p].pc.Verifying? then Apply(h, removed, Verify(p)) else removed
  }

  /** The place of an object, by its digest. */
  function Place(sha: string): string {
    "aaa-replica-v1/objects/sha256/" + (if |sha| >= 2 then sha[..2] else sha) + "/" + sha
  }

  /** These bytes are what the receipt is about. */
  predicate Right(h: Hash, content: string, r: Receipt) {
    h(content) == r.sha && |content| == r.size
  }

  /**
   A run alone ends successfully exactly if the object is there and right, or is missing and the source is stable and right; only
   a missing object is added, and nothing else is left behind.
   */
  lemma {:induction false} RunAlone(h: Hash, s: State, p: nat, r: Receipt, temp: string, source: string, stable: bool)
    requires AllValid(s) && Enabled(s, Begin(p, r)) && TempFor(s, r, temp)
    ensures var e := Carried(h, s, p, r, temp, source, stable);
            && p in e.runs && HasEnded(e.runs[p].pc) && e.runs == s.runs[p := e.runs[p]]
            && (e.runs[p].pc.Succeeded? <==>
                  if Place(r.sha) in s.files then Right(h, s.files[Place(r.sha)], r) else stable && Right(h, source, r))
            && e.files == if Place(r.sha) !in s.files && stable && Right(h, source, r) then s.files[Place(r.sha) := source] else s.files
  {
    assert Place(r.sha) == ObjectName(r.sha);
    TempIsNoObject(r.sha, temp, r.sha);
    hide IsSha256, ObjectDir, Place;
    if ObjectName(r.sha) in s.files {
      FoundAlone(h, s, p, r, temp, source, stable);
    } else if stable && Right(h, source, r) {
      CopiedAlone(h, s, p, r, temp, source);
    } else {
      RefusedAlone(h, s, p, r, temp, source, stable);
    }
  }

  lemma {:induction false} FoundAlone(h: Hash, s: State, p: nat, r: Receipt, temp: string, source: string, stable: bool)
    requires AllValid(s) && Enabled(s, Begin(p, r)) && TempFor(s, r, temp) && ObjectName(r.sha) in s.files
    ensures var e := Carried(h, s, p, r, temp, source, stable);
            && p in e.runs && HasEnded(e.runs[p].pc) && e.runs == s.runs[p := e.runs[p]] && e.files == s.files
            && (e.runs[p].pc.Succeeded? <==> Right(h, s.files[ObjectName(r.sha)], r))
  {
    hide IsSha256, ObjectName, ObjectDir;
  }

  lemma {:induction false} RefusedAlone(h: Hash, s: State, p: nat, r: Receipt, temp: string, source: string, stable: bool)
    requires AllValid(s) && Enabled(s, Begin(p, r)) && TempFor(s, r, temp) && ObjectName(r.sha) !in s.files
    requires temp != ObjectName(r.sha) && !(stable && Right(h, source, r))
    ensures var e := Carried(h, s, p, r, temp, source, stable);
            && p in e.runs && e.runs[p].pc.Refused? && e.runs == s.runs[p := e.runs[p]] && e.files == s.files
  {
    hide IsSha256, ObjectName, ObjectDir;
    assert s.files[temp := ""][temp := source] - {temp} == s.files;
  }

  lemma {:induction false} CopiedAlone(h: Hash, s: State, p: nat, r: Receipt, temp: string, source: string)
    requires AllValid(s) && Enabled(s, Begin(p, r)) && TempFor(s, r, temp) && ObjectName(r.sha) !in s.files
    requires temp != ObjectName(r.sha) && Right(h, source, r)
    ensures var e := Carried(h, s, p, r, temp, source, true);
            && p in e.runs && e.runs[p].pc.Succeeded? && e.runs == s.runs[p := e.runs[p]]
            && e.files == s.files[ObjectName(r.sha) := source]
  {
    hide IsSha256, ObjectName, ObjectDir;
    assert s.files[temp := ""][temp := source][ObjectName(r.sha) := source] - {temp} == s.files[ObjectName(r.sha) := source];
  }
}
