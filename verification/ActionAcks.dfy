/** What confirms of actions ask for and acknowledge. */
module ActionAcks {
  import opened Ranges
  import opened Streams
  import opened StreamLaws
  import opened Engines
  import opened Confluence
  import opened Histories
  import opened StoryPacks
  import opened Recents
  import opened ActionProtocol

  // ---- what a confirm asks for ----

  /**
   * A confirm names the last number passed. It asks for everything that is missing when that is at most 32 ranges.
   * Otherwise it asks for 32 ranges, and what it leaves out lies below all that it asks for.
   */
  lemma ConfirmAsks(s: Server, pack: seq<Entry>, now: int, slice: seq<Range>, confirm: Confirm, s': Server)
    requires Handles(s, pack, now, slice, confirm, s')
    ensures confirm.lastSeq == s'.stream.lastSeq && Denote(confirm.missing) <= s'.missing
    ensures |slice| <= 32 ==> Denote(confirm.missing) == s'.missing
    ensures |slice| > 32 ==> |confirm.missing| == 32
    ensures forall m, n :: m in s'.missing && m !in Denote(confirm.missing) && n in Denote(confirm.missing) ==> m < n
  {
    hide Kept, Outstanding, Streams.Push;
    if |slice| > 32 { LastOnes(slice, |slice| - 32); }
  }

  lemma LastOnes(rs: seq<Range>, k: nat)
    requires Canonical(rs) && k <= |rs|
    ensures Denote(rs[k..]) <= Denote(rs)
    ensures forall m, n :: m in Denote(rs) && m !in Denote(rs[k..]) && n in Denote(rs[k..]) ==> m < n
  {
    assert rs == rs[..k] + rs[k..];
    DenoteConcat(rs[..k], rs[k..]);
    forall m, n | m in Denote(rs[..k]) && n in Denote(rs[k..]) ensures m < n {
      var i :| 0 <= i < k && m in rs[..k][i].Seqs();
      var j :| 0 <= j < |rs| - k && n in rs[k..][j].Seqs();
      assert rs[i].To() + 1 < rs[k + j].From();
    }
  }

  // ---- what a client sends on its own ----

  /** The recent actions: the last live ones, of at most 384 bytes and three seconds, and no fewer. */
  lemma RecentActions(ring: seq<Slot>, pack: seq<Entry>)
    requires SendsRecent(ring, pack)
    ensures var es, cs := Entries(ring), Cumulatives(ring); var n := |es| - |pack|;
      && |cs| == |es| && n >= 0 && pack == es[n..]
      && (pack != [] ==> TotalSize(pack) <= 384 && cs[n] <= 3_000_000_000)
      && (n > 0 ==> TotalSize(es[n - 1..]) > 384 || cs[n - 1] > 3_000_000_000)
  {
    CumulativesMatch(ring);
    var es := Entries(ring);
    if pack != [] { assert Recents.Within(ring, |pack|, ACTION_EXPIRE_DURATION, ACTION_BYTE_LIMIT); }
    hide Entries, Cumulatives, TotalSize;
  }

  // ---- what a confirm does to the ring ----

  lemma {:induction false} EntriesExact(ring: seq<Slot>, e: Entry)
    ensures e in Entries(ring) <==> exists i :: 0 <= i < |ring| && ring[i].Live? && ring[i].entry == e
  {
    if ring != [] {
      var n := |ring| - 1;
      EntriesExact(ring[..n], e);
      if i :| 0 <= i < n && ring[..n][i].Live? && ring[..n][i].entry == e { assert ring[i].entry == e; }
      if i :| 0 <= i < |ring| && ring[i].Live? && ring[i].entry == e {
        if i < n { assert ring[..n][i].entry == e; }
      }
    }
  }

  /** Of the live entries exactly those stay whose number is beyond the acknowledged one. */
  lemma AcknowledgedExact(ring: seq<Slot>, lastSeq: nat, e: Entry)
    ensures e in Entries(Acknowledged(ring, lastSeq)) <==> e in Entries(ring) && e.seqNo > lastSeq
  {
    var after := Acknowledged(ring, lastSeq);
    EntriesExact(ring, e);
    EntriesExact(after, e);
    if i :| 0 <= i < |ring| && ring[i].Live? && ring[i].entry == e {
      if e.seqNo > lastSeq { assert after[i].Live? && after[i].entry == e; }
    }
    if i :| 0 <= i < |after| && after[i].Live? && after[i].entry == e {
      assert ring[i].Live? && ring[i].entry == e;
    }
  }

  // ---- over runs ----

  ghost predicate TakesConfirm(ws: seq<World>, steps: seq<Step>, j: nat, c: Confirm) {
    IsRun(ws, steps) && j < |steps| && steps[j] == Confirmed(c)
  }

  /** After a confirm the client keeps exactly what it kept and the confirm does not acknowledge. */
  lemma ConfirmedLeaves(ws: seq<World>, steps: seq<Step>, j: nat, c: Confirm, e: Entry)
    requires TakesConfirm(ws, steps, j, c)
    ensures e in Entries(ws[j + 1].ring) <==> e in Entries(ws[j].ring) && e.seqNo > c.lastSeq
  {
    assert Next(ws[j], steps[j], ws[j + 1]);
    hide Acknowledged, Requested, IsRun;
    AcknowledgedExact(ws[j].ring, c.lastSeq, e);
  }

  lemma KeptInOrder(ws: seq<World>, steps: seq<Step>, j: nat)
    requires IsRun(ws, steps) && j < |ws|
    ensures PackOk(Entries(ws[j].ring), ws[j].log)
  {
    RunOk(ws, steps);
    assert Ok(ws[j]);
    RingPack(ws[j].ring, ws[j].log, ws[j].server.stream.lastSeq);
  }

  lemma SomeAreKept(ws: seq<World>, steps: seq<Step>, j: nat, c: Confirm)
    requires TakesConfirm(ws, steps, j, c) && Entries(ws[j + 1].ring) != []
    ensures var es := Entries(ws[j].ring); es != [] && es[|es| - 1].seqNo > c.lastSeq
  {
    KeptInOrder(ws, steps, j);
    hide *;
    var es, e := Entries(ws[j].ring), Entries(ws[j + 1].ring)[0];
    assert e in Entries(ws[j + 1].ring);
    ConfirmedLeaves(ws, steps, j, c, e);
    var i :| 0 <= i < |es| && es[i] == e;
    NewestIsGreatest(es, ws[j].log, i);
  }

  /** It keeps nothing, and is idle, exactly when it kept nothing or its newest live action is acknowledged. */
  lemma IdleIff(ws: seq<World>, steps: seq<Step>, j: nat, c: Confirm)
    requires TakesConfirm(ws, steps, j, c)
    ensures var es := Entries(ws[j].ring);
      Entries(ws[j + 1].ring) == [] <==> es == [] || es[|es| - 1].seqNo <= c.lastSeq
  {
    assert IsRun(ws, steps) && j + 1 < |ws|;
    hide *;
    var es := Entries(ws[j].ring);
    if Entries(ws[j + 1].ring) != [] { SomeAreKept(ws, steps, j, c); }
    if es != [] { ConfirmedLeaves(ws, steps, j, c, es[|es| - 1]); }
  }

  lemma NewestIsGreatest(es: seq<Entry>, log: seq<Payload>, i: nat)
    requires PackOk(es, log) && i < |es|
    ensures es[i].seqNo <= es[|es| - 1].seqNo
  {
  }

  /** Every kept action that the confirm asks for goes out in a pack. */
  lemma AskedIsSent(ws: seq<World>, steps: seq<Step>, j: nat, c: Confirm, e: Entry)
    requires TakesConfirm(ws, steps, j, c)
    requires e in Entries(ws[j].ring) && e.seqNo > c.lastSeq && e.seqNo in Denote(c.missing)
    ensures exists p :: p in ws[j + 1].packs && e in p
  {
    assert Next(ws[j], steps[j], ws[j + 1]);
    RunOk(ws, steps);
    assert Ok(ws[j + 1]);
    RingPack(ws[j + 1].ring, ws[j + 1].log, ws[j + 1].server.stream.lastSeq);
    ConfirmedLeaves(ws, steps, j, c, e);
    var kept := Entries(ws[j + 1].ring);
    var asked := Requested(kept, c.missing);
    RequestedExact(kept, c.missing);
    var k :| 0 <= k < |c.missing| && e.seqNo in c.missing[k].Seqs();
    assert c.missing[k].In(e.seqNo);
    assert asked in ws[j + 1].packs && e in asked;
  }

  /**
   * A lost action is sent again: when a confirm that was sent after some pack asks for it, and the client takes the
   * confirm while the action is among its last 32 and the server has not passed it, the action goes out with the
   * payload that it was numbered with.
   */
  lemma LostIsSentAgain(ws: seq<World>, steps: seq<Step>, i: nat, j: nat, n: nat)
    requires IsRun(ws, steps) && i < j < |steps| && steps[i].Receive? && steps[j] == Confirmed(steps[i].confirm)
    requires n in Denote(steps[i].confirm.missing)
    requires ws[j].server.stream.lastSeq < n && |ws[j].log| - 32 < n
    ensures exists p, e ::
      p in ws[j + 1].packs && e in p && e.seqNo == n <= |ws[j].log| && e.payload == ws[j].log[n - 1]
  {
    var c := steps[i].confirm;
    assert Next(ws[i], steps[i], ws[i + 1]);
    ConfirmAsks(ws[i].server, steps[i].pack, steps[i].now, steps[i].slice, c, ws[i + 1].server);
    MissingWasNumbered(ws, steps, i + 1, n);
    LogGrows(ws, steps, i + 1, j);
    UnpassedIsKept(ws, steps, j, n);
    assert TakesConfirm(ws, steps, j, c);
    hide *;
    var e :| e in Entries(ws[j].ring) && e.seqNo == n && e.payload == ws[j].log[n - 1];
    AskedIsSent(ws, steps, j, c, e);
  }

  lemma MissingWasNumbered(ws: seq<World>, steps: seq<Step>, i: nat, n: nat)
    requires IsRun(ws, steps) && i < |ws| && n in ws[i].server.missing
    ensures ws[i].server.stream.lastSeq < n <= |ws[i].log|
  {
    RunOk(ws, steps);
    assert Ok(ws[i]);
    var a := ws[i].server.stream.ahead;
    assert a[|a| - 1].seqNo <= |ws[i].log|;
  }

  lemma LogGrowsOnce(ws: seq<World>, steps: seq<Step>, i: nat)
    requires IsRun(ws, steps) && i < |steps|
    ensures i + 1 < |ws| && ws[i].log <= ws[i + 1].log
    ensures ws[i].server.stream.lastSeq <= ws[i + 1].server.stream.lastSeq
  {
    RunOk(ws, steps);
    assert Ok(ws[i]) && Next(ws[i], steps[i], ws[i + 1]);
    hide Ok, Next;
    StepOk(ws[i], steps[i], ws[i + 1]);
  }

  lemma RunLength(ws: seq<World>, steps: seq<Step>)
    requires IsRun(ws, steps)
    ensures |ws| == |steps| + 1
  {
  }

  lemma {:induction false} LogGrows(ws: seq<World>, steps: seq<Step>, i: nat, j: nat)
    requires IsRun(ws, steps) && i <= j < |ws|
    ensures ws[i].log <= ws[j].log && ws[i].server.stream.lastSeq <= ws[j].server.stream.lastSeq
    decreases j
  {
    hide *;
    RunLength(ws, steps);
    if i < j {
      LogGrows(ws, steps, i, j - 1);
      LogGrowsOnce(ws, steps, j - 1);
    }
  }
}
