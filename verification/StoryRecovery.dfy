/** How a client of the story protocol catches up. */
module StoryRecovery {
  import opened Ranges
  import opened Seqs
  import opened Streams
  import opened StreamLaws
  import opened StreamGaps
  import opened Engines
  import opened Confluence
  import opened Arrivals
  import opened Histories
  import opened StoryPacks
  import opened StoryProtocol

  // ---- what is sent for a request ----

  /** answers[i] are the packs the server sends for confirm cs[i]. */
  ghost predicate Answered(log: seq<Entry>, cs: seq<Confirm>, answers: seq<seq<seq<Entry>>>) {
    |answers| == |cs| && forall i :: 0 <= i < |cs| ==> IsPacking(answers[i], Requested(log, cs[i].missing))
  }

  lemma {:induction false} RequestedConcat(es: seq<Entry>, a: seq<Range>, b: seq<Range>)
    ensures Requested(es, a + b) == Requested(es, a) + Requested(es, b)
  {
    if b == [] {
      assert a + b == a;
    } else {
      RequestedConcat(es, a, b[..|b| - 1]);
      assert (a + b)[..|a + b| - 1] == a + b[..|b| - 1] && (a + b)[|a + b| - 1] == b[|b| - 1];
      RequestedLast(es, a + b);
      RequestedLast(es, b);
      hide Requested, InRange;
    }
  }

  lemma RequestedLast(es: seq<Entry>, rs: seq<Range>)
    requires rs != []
    ensures Requested(es, rs) == Requested(es, rs[..|rs| - 1]) + InRange(es, rs[|rs| - 1])
  {
    hide InRange;
  }

  /** The packs of all answers together carry all that was asked for. */
  lemma {:induction false} AnswersPack(log: seq<Entry>, cs: seq<Confirm>, answers: seq<seq<seq<Entry>>>)
    requires Answered(log, cs, answers)
    ensures IsPacking(Flat(answers), Requested(log, Flat(Missings(cs))))
  {
    if cs == [] {
      NothingAsked(log);
    } else {
      var n := |cs| - 1;
      AnswersPack(log, cs[..n], answers[..n]);
      assert Missings(cs)[..n] == Missings(cs[..n]);
      var all, last := Flat(answers[..n]), answers[n];
      RequestedConcat(log, Flat(Missings(cs)[..n]), cs[n].missing);
      FlatConcat(all, last);
      PacksJoin(all, last);
      hide GoodPack, Requested;
    }
  }

  lemma NothingAsked(log: seq<Entry>)
    ensures IsPacking(Flat<seq<Entry>>([]), Requested(log, Flat(Missings([]))))
  {
    assert Missings([]) == [];
  }

  lemma PacksJoin(a: seq<seq<Entry>>, b: seq<seq<Entry>>)
    requires forall i :: 0 <= i < |a| ==> GoodPack(a[i])
    requires forall i :: 0 <= i < |b| ==> GoodPack(b[i])
    ensures forall i :: 0 <= i < |a + b| ==> GoodPack((a + b)[i])
  {
    hide GoodPack;
  }

  /** A client asks for what it misses, and all of it is found in the log. */
  lemma AskedIsFound(log: seq<Entry>, cl: Client, slice: seq<Range>)
    requires Numbered(log) && ClientOk(cl, log) && Canonical(slice) && Denote(slice) == cl.missing
    ensures Sorted(Requested(log, slice)) && forall n :: Has(Requested(log, slice), n) <==> n in cl.missing
    ensures forall e :: e in Requested(log, slice) ==> e in log
  {
    var es := Requested(log, slice);
    RequestedSorted(log, slice);
    RequestedExact(log, slice);
    forall n ensures Has(es, n) <==> n in cl.missing {
      if i :| 0 <= i < |es| && es[i].seqNo == n {
        assert es[i] in es;
        var k :| 0 <= k < |slice| && slice[k].In(n);
        assert n in slice[k].Seqs();
      }
      if n in cl.missing {
        var k :| 0 <= k < |slice| && n in slice[k].Seqs();
        MissingIsPublished(cl, log, n);
        assert log[n - 1] in log && slice[k].In(n);
        assert log[n - 1] in es;
      }
    }
  }

  lemma MissingIsPublished(cl: Client, log: seq<Entry>, n: int)
    requires ClientOk(cl, log) && n in cl.missing
    ensures 1 <= n <= |log|
  {
    var a := cl.stream.ahead;
    assert a[|a| - 1].seqNo <= |Payloads(log)|;
  }

  // ---- what arrives ----

  ghost predicate Arrives(h: seq<PushCall>, pack: seq<Entry>) {
    exists j :: 0 <= j < |h| && h[j].feed == pack
  }

  /** All the packs arrive, in any order, any number of times, and perhaps among others. */
  ghost predicate AllArrive(packs: seq<seq<Entry>>, h: seq<PushCall>) {
    forall k :: 0 <= k < |packs| ==> Arrives(h, packs[k])
  }

  /** Nothing else arrives. */
  ghost predicate OnlyArrive(packs: seq<seq<Entry>>, h: seq<PushCall>) {
    forall j :: 0 <= j < |h| ==> h[j].feed in packs
  }

  ghost predicate AllFromLog(h: seq<PushCall>, log: seq<Entry>) {
    forall j :: 0 <= j < |h| ==> FromLog(h[j].feed, log)
  }

  /** Whatever number is in a pack that arrives as it was packed passes. */
  lemma PackedPasses(packs: seq<seq<Entry>>, k: nat, h: seq<PushCall>, n: int)
    requires Sorted(Flat(packs)) && k < |packs| && Arrives(h, packs[k]) && Has(packs[k], n)
    ensures SomePasses(h, n)
  {
    SortedAt(packs, k);
    SortedPasses(packs[k], n);
    hide PassesIn;
  }

  /** So all numbers pass when all packs arrive as they were packed. */
  lemma UnchangedSuffice(packs: seq<seq<Entry>>, h: seq<PushCall>, n: int)
    requires Sorted(Flat(packs)) && AllArrive(packs, h) && Has(Flat(packs), n)
    ensures SomePasses(h, n)
  {
    var es := Flat(packs);
    var i :| 0 <= i < |es| && es[i].seqNo == n;
    FlatMember(packs, es[i]);
    var k :| 0 <= k < |packs| && es[i] in packs[k];
    hide Flat, Sorted, SomePasses, Arrives;
    PackedPasses(packs, k, h, n);
  }

  lemma PacksInOrder(packs: seq<seq<Entry>>, i: nat, k: nat, e: Entry, f: Entry)
    requires Sorted(Flat(packs)) && i < k < |packs| && e in packs[i] && f in packs[k]
    ensures e.seqNo < f.seqNo
  {
    SortedAt(packs, i);
    assert packs[i + 1..][k - i - 1] == packs[k];
    FlatMember(packs[i + 1..], f);
  }

  /** Of the first pack that does not arrive as it was packed a number is lost. */
  lemma ChangedIsMissed(packs: seq<seq<Entry>>, written: seq<seq<Entry>>, h: seq<PushCall>, i: nat) returns (n: int)
    requires Sorted(Flat(packs)) && AllWrittenAs(packs, written) && OnlyArrive(written, h)
    requires i < |packs| && written[i] != packs[i] && forall k :: 0 <= k < i ==> written[k] == packs[k]
    ensures Has(Flat(packs), n) && !SomePasses(h, n)
  {
    assert WrittenAs(packs[i], written[i]);
    var j :| 0 <= j < |packs[i]| && written[i][j] != packs[i][j];
    var lost := packs[i][j];
    n := lost.seqNo;
    assert lost in packs[i];
    FlatMember(packs, lost);
    var x :| 0 <= x < |Flat(packs)| && Flat(packs)[x] == lost;
    hide Sorted, Flat;
    if SomePasses(h, n) {
      var c :| 0 <= c < |h| && PassesIn(h[c].feed, n);
      var k :| 0 <= k < |written| && written[k] == h[c].feed;
      var y :| 0 <= y < |written[k]| && written[k][y].seqNo == n;
      NotWritten(packs, written, i, j, k, y);
    }
  }

  /** The number of an entry that was overwritten in the first changed pack stands nowhere. */
  lemma NotWritten(packs: seq<seq<Entry>>, written: seq<seq<Entry>>, i: nat, j: nat, k: nat, y: nat)
    requires Sorted(Flat(packs)) && AllWrittenAs(packs, written)
    requires i < |packs| && j < |packs[i]| && written[i][j] != packs[i][j]
    requires forall m :: 0 <= m < i ==> written[m] == packs[m]
    requires k < |packs| && y < |packs[k]|
    ensures written[k][y].seqNo != packs[i][j].seqNo
  {
    var lost, found, last := packs[i][j], packs[k][y], packs[k][|packs[k]| - 1];
    assert lost in packs[i] && found in packs[k] && last in packs[k];
    assert WrittenAs(packs[k], written[k]) && WrittenAs(packs[i], written[i]);
    if k < i {
      PacksInOrder(packs, k, i, found, lost);
    } else if k > i {
      PacksInOrder(packs, i, k, lost, found);
      PacksInOrder(packs, i, k, lost, last);
    } else {
      SortedAt(packs, i);
    }
  }

  lemma FirstChanged(packs: seq<seq<Entry>>, written: seq<seq<Entry>>) returns (i: nat)
    requires |packs| == |written| && packs != written
    ensures i < |packs| && written[i] != packs[i] && forall k :: 0 <= k < i ==> written[k] == packs[k]
  {
    i := 0;
    while i < |packs| && written[i] == packs[i]
      invariant i <= |packs| && forall k :: 0 <= k < i ==> written[k] == packs[k]
    {
      i := i + 1;
    }
    assert i == |packs| ==> packs == written;
  }

  // ---- one client ----

  /** A client has delivered just the log up to its last number. */
  lemma WhatClientHas(cl: Client, log: seq<Entry>)
    requires ClientOk(cl, log)
    ensures WellFormed(cl.stream) && cl.stream.maxWait == 0 && cl.missing == Outstanding(cl.stream)
    ensures cl.stream.lastSeq <= |log| == |Payloads(log)| && cl.out == Payloads(log)[..cl.stream.lastSeq]
  {
  }

  lemma MissingIsBelow(s: StreamState)
    requires WellFormed(s) && s.ahead != []
    ensures forall n :: n in Outstanding(s) ==> n < s.ahead[|s.ahead| - 1].seqNo
  {
  }

  /** Whatever arrives: the client passes all that it held exactly when every number that it misses passes. */
  lemma CaughtUp(log: seq<Entry>, cl: Client, h: seq<PushCall>)
    requires ClientOk(cl, log) && cl.stream.ahead != []
    ensures cl.stream.ahead[|cl.stream.ahead| - 1].seqNo <= Run(cl.stream, h).0.lastSeq <==>
            forall n :: n in cl.missing ==> SomePasses(h, n)
  {
    hide *;
    var s := cl.stream;
    WhatClientHas(cl, log);
    GreatestHeld(s);
    MissingIsBelow(s);
    CaughtUpIff(s, h, s.ahead[|s.ahead| - 1].seqNo);
  }

  /** With all packs as they were packed, whatever else arrives, it does. */
  lemma CatchUpAmongOthers(log: seq<Entry>, cl: Client, slice: seq<Range>, packs: seq<seq<Entry>>, h: seq<PushCall>)
    requires Numbered(log) && ClientOk(cl, log) && cl.stream.ahead != []
    requires Canonical(slice) && Denote(slice) == cl.missing
    requires IsPacking(packs, Requested(log, slice)) && AllArrive(packs, h)
    ensures cl.stream.ahead[|cl.stream.ahead| - 1].seqNo <= Run(cl.stream, h).0.lastSeq
  {
    AskedIsFound(log, cl, slice);
    CaughtUp(log, cl, h);
    hide ClientOk, Canonical, Denote, Requested, GoodPack, AllArrive, SomePasses, Run, Has, Numbered, Sorted;
    forall n | n in cl.missing ensures SomePasses(h, n) {
      UnchangedSuffice(packs, h, n);
    }
  }

  /**
   * When just the packs arrive, whatever is left of them, the client catches up if and only if every pack is
   * written before anything in it is overwritten.
   */
  lemma CatchUp(log: seq<Entry>, cl: Client, slice: seq<Range>, packs: seq<seq<Entry>>, written: seq<seq<Entry>>,
                h: seq<PushCall>)
    requires Numbered(log) && ClientOk(cl, log) && cl.stream.ahead != []
    requires Canonical(slice) && Denote(slice) == cl.missing
    requires IsPacking(packs, Requested(log, slice)) && AllWrittenAs(packs, written)
    requires AllArrive(written, h) && OnlyArrive(written, h)
    ensures cl.stream.ahead[|cl.stream.ahead| - 1].seqNo <= Run(cl.stream, h).0.lastSeq <==> written == packs
  {
    AskedIsFound(log, cl, slice);
    CaughtUp(log, cl, h);
    hide ClientOk, Canonical, Denote, Requested, GoodPack, AllArrive, OnlyArrive, SomePasses, Run, Has, Numbered;
    hide Sorted;
    if written == packs {
      CatchUpAmongOthers(log, cl, slice, packs, h);
    } else {
      var i := FirstChanged(packs, written);
      var n := ChangedIsMissed(packs, written, h, i);
    }
  }

  ghost predicate AllUpTo(h: seq<PushCall>, top: nat) {
    forall j, i :: 0 <= j < |h| && 0 <= i < |h[j].feed| ==> h[j].feed[i].seqNo <= top
  }

  lemma AskedEntry(log: seq<Entry>, cl: Client, slice: seq<Range>, e: Entry)
    requires Numbered(log) && ClientOk(cl, log) && cl.stream.ahead != []
    requires Canonical(slice) && Denote(slice) == cl.missing && e in Requested(log, slice)
    ensures e in log && e.seqNo <= cl.stream.ahead[|cl.stream.ahead| - 1].seqNo
  {
    AskedIsFound(log, cl, slice);
    WhatClientHas(cl, log);
    MissingIsBelow(cl.stream);
    var es := Requested(log, slice);
    var x :| 0 <= x < |es| && es[x] == e;
    hide ClientOk, Canonical, Denote, Requested, Outstanding, WellFormed, Sorted, Numbered;
    assert Has(es, e.seqNo);
  }

  lemma ArrivalsFromLog(log: seq<Entry>, cl: Client, slice: seq<Range>, packs: seq<seq<Entry>>,
                        written: seq<seq<Entry>>, h: seq<PushCall>)
    requires Numbered(log) && ClientOk(cl, log) && cl.stream.ahead != []
    requires Canonical(slice) && Denote(slice) == cl.missing && OnlyArrive(written, h)
    requires Rewritten(packs, written, Requested(log, slice))
    ensures AllFromLog(h, log) && AllUpTo(h, cl.stream.ahead[|cl.stream.ahead| - 1].seqNo)
  {
    hide ClientOk, Canonical, Denote, Requested, AllWrittenAs, Numbered;
    var top := cl.stream.ahead[|cl.stream.ahead| - 1].seqNo;
    forall j, i | 0 <= j < |h| && 0 <= i < |h[j].feed| ensures h[j].feed[i] in log && h[j].feed[i].seqNo <= top {
      assert h[j].feed in written && h[j].feed[i] in h[j].feed;
      AskedEntry(log, cl, slice, h[j].feed[i]);
    }
    assert AllUpTo(h, top);
    forall j | 0 <= j < |h| ensures FromLog(h[j].feed, log) { EntriesFromLog(h[j].feed, log); }
  }

  lemma EntriesFromLog(es: seq<Entry>, log: seq<Entry>)
    requires Numbered(log) && forall i :: 0 <= i < |es| ==> es[i] in log
    ensures FromLog(es, log)
  {
  }

  /** After a run that brings nothing beyond what was held. */
  lemma EndsAtTop(s: StreamState, h: seq<PushCall>, top: nat)
    requires WellFormed(s) && s.ahead != [] && top == s.ahead[|s.ahead| - 1].seqNo
    requires AllUpTo(h, top)
    ensures var t := Run(s, h).0;
      t.lastSeq <= top && (t.lastSeq == top ==> t.ahead == [] && Outstanding(t) == {})
  {
    GreatestHeld(s);
    assert forall i :: 0 <= i < |s.ahead| ==> s.ahead[i].seqNo <= top;
    RunWellFormed(s, h);
    StaysBelow(s, h, top);
    NothingBeyond(Run(s, h).0, top);
  }

  lemma NothingBeyond(t: StreamState, top: nat)
    requires WellFormed(t) && forall i :: 0 <= i < |t.ahead| ==> t.ahead[i].seqNo <= top
    ensures t.lastSeq == top ==> t.ahead == [] && Outstanding(t) == {}
  {
    assert t.ahead != [] ==> t.lastSeq + 1 < t.ahead[0].seqNo;
  }

  lemma AreWrittenAs(packs: seq<seq<Entry>>, written: seq<seq<Entry>>, es: seq<Entry>)
    requires Rewritten(packs, written, es)
    ensures AllWrittenAs(packs, written)
  {
  }

  lemma RecoveryFrom(log: seq<Entry>, cl: Client, slice: seq<Range>, packs: seq<seq<Entry>>, written: seq<seq<Entry>>,
                     h: seq<PushCall>)
    requires Numbered(log) && ClientOk(cl, log) && cl.stream.ahead != []
    requires Canonical(slice) && Denote(slice) == cl.missing
    requires IsPacking(packs, Requested(log, slice)) && Rewritten(packs, written, Requested(log, slice))
    requires AllArrive(written, h) && OnlyArrive(written, h)
    ensures var s := cl.stream; var top := s.ahead[|s.ahead| - 1].seqNo; var (t, out) := Run(s, h);
      && (t.lastSeq == top <==> written == packs)
      && (t.lastSeq == top ==> t.ahead == [] && Outstanding(t) == {})
      && t.lastSeq <= top && t.lastSeq <= |log| && cl.out + Payloads(out) == Payloads(log)[..t.lastSeq]
  {
    hide *;
    AreWrittenAs(packs, written, Requested(log, slice));
    var top := cl.stream.ahead[|cl.stream.ahead| - 1].seqNo;
    ArrivalsFromLog(log, cl, slice, packs, written, h);
    CatchUp(log, cl, slice, packs, written, h);
    WhatClientHas(cl, log);
    EndsAtTop(cl.stream, h, top);
    RunGivesLog(cl, log, h);
  }

  /** What a client has after any arrivals from the log is the log up to its last number. */
  lemma RunGivesLog(cl: Client, log: seq<Entry>, h: seq<PushCall>)
    requires ClientOk(cl, log) && AllFromLog(h, log)
    ensures var (t, out) := Run(cl.stream, h);
      t.lastSeq <= |log| == |Payloads(log)| && cl.out + Payloads(out) == Payloads(log)[..t.lastSeq]
  {
    hide *;
    RunClientOk(cl, log, h);
    var (t, out) := Run(cl.stream, h);
    WhatClientHas(Client(t, Outstanding(t), cl.out + Payloads(out)), log);
  }

  lemma {:induction false} RunClientOk(cl: Client, log: seq<Entry>, h: seq<PushCall>)
    requires ClientOk(cl, log) && AllFromLog(h, log)
    ensures var (t, out) := Run(cl.stream, h);
      ClientOk(Client(t, Outstanding(t), cl.out + Payloads(out)), log)
  {
    if h == [] {
      assert cl.out + Payloads([]) == cl.out;
    } else {
      var init, last := h[..|h| - 1], h[|h| - 1];
      assert FromLog(last.feed, log);
      RunClientOk(cl, log, init);
      hide ClientOk, FromLog, Missing, Push, Kept;
      var (t, out) := Run(cl.stream, init);
      StepClientOk(cl.out, t, out, log, last);
    }
  }

  lemma StepClientOk(had: seq<Payload>, t: StreamState, out: seq<Entry>, log: seq<Entry>, call: PushCall)
    requires ClientOk(Client(t, Outstanding(t), had + Payloads(out)), log) && FromLog(call.feed, log)
    ensures var (u, r) := Push(t, call.now, call.feed);
      ClientOk(Client(u, Outstanding(u), had + Payloads(out + r)), log)
  {
    ReceiveOk(Client(t, Outstanding(t), had + Payloads(out)), log, call.feed, call.now);
    assert WellFormed(t);
    hide ClientOk, FromLog, Missing, Push, Kept, WellFormed;
    Agreement(t, call.now, call.feed);
    var r := Push(t, call.now, call.feed).1;
    assert had + Payloads(out) + Payloads(r) == had + Payloads(out + r);
  }

  lemma {:induction false} MuchLongerLog(cl: Client, log: seq<Entry>, longer: seq<Entry>)
    requires ClientOk(cl, log) && log <= longer
    ensures ClientOk(cl, longer)
    decreases |longer|
  {
    if |log| == |longer| {
      assert log == longer;
    } else {
      var init := longer[..|longer| - 1];
      MuchLongerLog(cl, log, init);
      LongerLog(cl, init, longer[|longer| - 1]);
      assert longer == init + [longer[|longer| - 1]];
    }
  }

  // ---- at any moment of a run ----

  lemma ClientAt(ws: seq<World>, steps: seq<Step>, at: nat, c: nat)
    requires IsRun(ws, steps) && at < |ws| && c < |ws[at].clients|
    ensures Numbered(ws[at].log) && ClientOk(ws[at].clients[c], ws[at].log)
  {
    RunOk(ws, steps);
    hide IsRun, ClientOk, Numbered;
    assert Ok(ws[at]);
  }

  /** Every confirm is answered out of the log that the server has by then. */
  ghost predicate AnsweredFrom(log: seq<Entry>, logs: seq<seq<Entry>>, cs: seq<Confirm>,
                               answers: seq<seq<seq<Entry>>>) {
    && |logs| == |answers| == |cs|
    && (forall i :: 0 <= i < |cs| ==> log <= logs[i] && Numbered(logs[i]))
    && (forall i :: 0 <= i < |cs| ==> IsPacking(answers[i], Requested(logs[i], cs[i].missing)))
  }

  /** A longer log answers a request for old entries in the same way. */
  lemma {:induction false} RequestedLonger(log: seq<Entry>, longer: seq<Entry>, rs: seq<Range>)
    requires log <= longer && Numbered(longer) && forall k :: 0 <= k < |rs| ==> rs[k].To() <= |log|
    ensures Requested(longer, rs) == Requested(log, rs)
  {
    if rs != [] {
      var last := rs[|rs| - 1];
      RequestedLonger(log, longer, rs[..|rs| - 1]);
      assert longer == log + longer[|log|..];
      InRangeConcat(log, longer[|log|..], last);
      InRangeNone(longer[|log|..], last);
    }
  }

  /** Every range asked for ends at or below the greatest number the client holds. */
  lemma AskedBelow(cl: Client, log: seq<Entry>, slice: seq<Range>, cs: seq<Confirm>, i: nat)
    requires ClientOk(cl, log) && Canonical(slice) && Denote(slice) == cl.missing
    requires Flat(Missings(cs)) == slice && i < |cs|
    ensures forall k :: 0 <= k < |cs[i].missing| ==> cs[i].missing[k].To() <= |log|
  {
    forall k | 0 <= k < |cs[i].missing| ensures cs[i].missing[k].To() <= |log| {
      var r := cs[i].missing[k];
      assert r in Missings(cs)[i];
      FlatMember(Missings(cs), r);
      var j :| 0 <= j < |slice| && slice[j] == r;
      assert r.To() in slice[j].Seqs();
      MissingIsPublished(cl, log, r.To());
    }
  }

  /** Answers out of longer logs are answers out of the log of the moment when the client asked. */
  lemma AnsweredThen(log: seq<Entry>, cl: Client, slice: seq<Range>, cs: seq<Confirm>,
                     logs: seq<seq<Entry>>, answers: seq<seq<seq<Entry>>>)
    requires ClientOk(cl, log) && Canonical(slice) && Denote(slice) == cl.missing
    requires IsSplit(cs, cl.stream.lastSeq, slice) && AnsweredFrom(log, logs, cs, answers)
    ensures Answered(log, cs, answers) && IsPacking(Flat(answers), Requested(log, slice))
  {
    assert Flat(Missings(cs)) == slice;
    hide ClientOk, Canonical, Denote, IsSplit, IsPacking, Numbered;
    forall i | 0 <= i < |cs| ensures IsPacking(answers[i], Requested(log, cs[i].missing)) {
      AskedBelow(cl, log, slice, cs, i);
      RequestedLonger(log, logs[i], cs[i].missing);
    }
    AnswersPack(log, cs, answers);
  }

  /**
   * Recovery: from any state that a run reaches, when the confirms built from all that a client misses are
   * answered, each out of the log the server has by then, and just the packs of all answers arrive in any order,
   * whatever is left of them, the client catches up with the greatest number it held and misses nothing if and
   * only if every pack was written before anything in it was overwritten. What it has is the log in any case.
   */
  lemma Recovery(ws: seq<World>, steps: seq<Step>, at: nat, c: nat, slice: seq<Range>, cs: seq<Confirm>,
                 logs: seq<seq<Entry>>, answers: seq<seq<seq<Entry>>>, written: seq<seq<Entry>>, h: seq<PushCall>)
    requires IsRun(ws, steps) && at < |ws| && c < |ws[at].clients| && ws[at].clients[c].stream.ahead != []
    requires Canonical(slice) && Denote(slice) == ws[at].clients[c].missing
    requires IsSplit(cs, ws[at].clients[c].stream.lastSeq, slice) && AnsweredFrom(ws[at].log, logs, cs, answers)
    requires Rewritten(Flat(answers), written, Requested(ws[at].log, slice))
    requires AllArrive(written, h) && OnlyArrive(written, h)
    ensures var s := ws[at].clients[c].stream; var top := s.ahead[|s.ahead| - 1].seqNo; var (t, out) := Run(s, h);
      && (t.lastSeq == top <==> written == Flat(answers))
      && (t.lastSeq == top ==> t.ahead == [] && Outstanding(t) == {})
      && t.lastSeq <= top && t.lastSeq <= |ws[at].log|
      && ws[at].clients[c].out + Payloads(out) == Payloads(ws[at].log)[..t.lastSeq]
  {
    hide *;
    ClientAt(ws, steps, at, c);
    AnsweredThen(ws[at].log, ws[at].clients[c], slice, cs, logs, answers);
    RecoveryFrom(ws[at].log, ws[at].clients[c], slice, Flat(answers), written, h);
  }

  /**
   * And whatever arrives of the log of the server, which may have gone on publishing: the client ends at or beyond
   * the greatest number it held if and only if every number that it missed passes in some pack.
   */
  lemma RecoveryAmongOthers(ws: seq<World>, steps: seq<Step>, at: nat, c: nat, h: seq<PushCall>, log: seq<Entry>)
    requires IsRun(ws, steps) && at < |ws| && c < |ws[at].clients| && ws[at].clients[c].stream.ahead != []
    requires ws[at].log <= log && Numbered(log) && AllFromLog(h, log)
    ensures var s := ws[at].clients[c].stream; var (t, out) := Run(s, h);
      && (s.ahead[|s.ahead| - 1].seqNo <= t.lastSeq <==>
            forall n :: n in ws[at].clients[c].missing ==> SomePasses(h, n))
      && t.lastSeq <= |log| && ws[at].clients[c].out + Payloads(out) == Payloads(log)[..t.lastSeq]
  {
    hide *;
    var cl := ws[at].clients[c];
    ClientAt(ws, steps, at, c);
    MuchLongerLog(cl, ws[at].log, log);
    CaughtUp(log, cl, h);
    RunGivesLog(cl, log, h);
  }

  /** Which they do when all packs of all answers arrive as they were packed, among whatever else. */
  lemma AnswersSuffice(ws: seq<World>, steps: seq<Step>, at: nat, c: nat, slice: seq<Range>, cs: seq<Confirm>,
                       logs: seq<seq<Entry>>, answers: seq<seq<seq<Entry>>>, h: seq<PushCall>)
    requires IsRun(ws, steps) && at < |ws| && c < |ws[at].clients| && ws[at].clients[c].stream.ahead != []
    requires Canonical(slice) && Denote(slice) == ws[at].clients[c].missing
    requires IsSplit(cs, ws[at].clients[c].stream.lastSeq, slice) && AnsweredFrom(ws[at].log, logs, cs, answers)
    requires AllArrive(Flat(answers), h)
    ensures var s := ws[at].clients[c].stream; s.ahead[|s.ahead| - 1].seqNo <= Run(s, h).0.lastSeq
  {
    hide *;
    ClientAt(ws, steps, at, c);
    AnsweredThen(ws[at].log, ws[at].clients[c], slice, cs, logs, answers);
    CatchUpAmongOthers(ws[at].log, ws[at].clients[c], slice, Flat(answers), h);
  }
}
