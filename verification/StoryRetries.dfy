/** Packs that were overwritten, and asking again. */
module StoryRetries {
  import opened Ranges
  import opened Seqs
  import opened Streams
  import opened StreamLaws
  import opened StreamGaps
  import opened Engines
  import opened Confluence
  import opened Arrivals
  import opened Histories
  import opened MessageSizes
  import opened StoryPacks
  import opened StoryProtocol
  import opened StoryRecovery

  /** A pack whose first entries were overwritten with later ones passes the numbers of just those. */
  lemma OverwrittenPasses(over: seq<Entry>, pack: seq<Entry>, n: int)
    requires Sorted(over) && over != [] && pack != []
    requires forall j :: 0 <= j < |pack| ==> pack[j].seqNo <= over[0].seqNo
    ensures PassesIn(Overlay(over, pack), n) <==>
            Has(Overlay(over, pack)[..if |over| < |pack| then |over| else |pack|], n)
  {
    var m := if |over| < |pack| then |over| else |pack|;
    assert Overlay(over, pack) == over[..m] + pack[m..];
    OverlaidPasses(over[..m], pack[m..], n);
  }

  // ---- a retry that is lost ----

  function FourEntries(payload: Payload): seq<Entry> {
    [Entry(1, 0, payload), Entry(2, 0, payload), Entry(3, 0, payload), Entry(4, 0, payload)]
  }

  /**
   * Of four entries of 250 bytes a client has the first and holds the last. The two that it asks for are sent in a
   * pack each. When the first pack is written after the second entry has been packed, the client does not move.
   */
  lemma OverwrittenAnswerFails(payload: Payload, now: int)
    requires |payload| == 250
    ensures var log := FourEntries(payload); var s := StreamState(1, Some(now), [log[3]], 0);
      var slice := [Range(2, 2)]; var packs := [[log[1]], [log[2]]]; var written := [[log[2]], [log[2]]];
      var h := [PushCall(now, [log[2]]), PushCall(now, [log[2]])];
      && Numbered(log) && ClientOk(Client(s, {2, 3}, [payload]), log) && Canonical(slice) && Denote(slice) == {2, 3}
      && IsPacking(packs, Requested(log, slice)) && Rewritten(packs, written, Requested(log, slice))
      && AllArrive(written, h) && OnlyArrive(written, h) && Run(s, h).0.lastSeq == 1
  {
    var log := FourEntries(payload);
    var s := StreamState(1, Some(now), [log[3]], 0);
    var slice := [Range(2, 2)];
    var packs, written := [[log[1]], [log[2]]], [[log[2]], [log[2]]];
    var h := [PushCall(now, [log[2]]), PushCall(now, [log[2]])];
    AskedForTwo(payload);
    assert h[0].feed == [log[2]] && h[1].feed == [log[2]];
    assert OnlyArrive(written, h) && AllArrive(written, h);
    assert ClientOk(Client(s, {2, 3}, [payload]), log) by { HoldsTheLast(payload, now); }
    MovesNot(payload, now);
  }

  lemma AskedForTwo(payload: Payload)
    ensures var log := FourEntries(payload);
      && Denote([Range(2, 2)]) == {2, 3} && Requested(log, [Range(2, 2)]) == [log[1], log[2]]
      && Flat([[log[1]], [log[2]]]) == [log[1], log[2]]
  {
    var log := FourEntries(payload);
    var r := Range(2, 2);
    DenoteOne(r);
    FlatConcat([[log[1]]], [[log[2]]]);
    FlatOne([log[1]]);
    FlatOne([log[2]]);
    assert [[log[1]], [log[2]]] == [[log[1]]] + [[log[2]]];
    assert log[..3][..2] == [log[0], log[1]] && [log[0], log[1]][..1] == [log[0]] && [log[0]][..0] == [];
    assert log[..3] == [log[0], log[1], log[2]];
    assert InRange([log[0]], r) == [];
    assert InRange([log[0], log[1]], r) == [log[1]];
    assert InRange(log[..3], r) == [log[1], log[2]];
    assert InRange(log, r) == [log[1], log[2]];
    assert [r][..0] == [] && Requested(log, []) == [];
  }

  lemma HoldsTheLast(payload: Payload, now: int)
    ensures var log := FourEntries(payload);
      ClientOk(Client(StreamState(1, Some(now), [log[3]], 0), {2, 3}, [payload]), log)
  {
    var log := FourEntries(payload);
    var ahead := [log[3]];
    assert ahead[0].seqNo == 4;
    assert forall n :: Has(ahead, n) <==> n == 4;
    assert Payloads(log)[..1] == [payload];
  }

  lemma MovesNot(payload: Payload, now: int)
    ensures var log := FourEntries(payload); var s := StreamState(1, Some(now), [log[3]], 0);
      Run(s, [PushCall(now, [log[2]]), PushCall(now, [log[2]])]).0.lastSeq == 1
  {
    var log := FourEntries(payload);
    var s := StreamState(1, Some(now), [log[3]], 0);
    var h := [PushCall(now, [log[2]]), PushCall(now, [log[2]])];
    assert s.ahead[0].seqNo == 4;
    assert Has(s.ahead, 4);
    assert forall j, i :: 0 <= j < |h| && 0 <= i < |h[j].feed| ==> h[j].feed[i].seqNo == 3;
    assert !SomePasses(h, 2);
    assert 2 in Outstanding(s);
    StillMissing(s, h, 4, 2);
    OutstandingIsBeyond(Run(s, h).0, 2);
    RunReaches(s, h);
  }

  // ---- every round of asking again helps ----

  /** When the last pack of some answer arrives, the client misses fewer numbers below the greatest one it held. */
  lemma RoundHelps(log: seq<Entry>, cl: Client, slice: seq<Range>, cs: seq<Confirm>,
                   answers: seq<seq<seq<Entry>>>, h: seq<PushCall>, i: nat)
    requires Numbered(log) && ClientOk(cl, log) && cl.stream.ahead != []
    requires Canonical(slice) && Denote(slice) == cl.missing && IsSplit(cs, cl.stream.lastSeq, slice)
    requires Answered(log, cs, answers) && i < |answers| && answers[i] != []
    requires Arrives(h, answers[i][|answers[i]| - 1])
    ensures var top := cl.stream.ahead[|cl.stream.ahead| - 1].seqNo;
      (set n | n in Outstanding(Run(cl.stream, h).0) && n <= top) < cl.missing
  {
    var s := cl.stream;
    var top := s.ahead[|s.ahead| - 1].seqNo;
    AskedIsFound(log, cl, slice);
    AnswersPack(log, cs, answers);
    assert Flat(Missings(cs)) == slice;
    WhatClientHas(cl, log);
    GreatestHeld(s);
    MissingIsBelow(s);
    var n := SomeLastNumber(answers, i);
    hide ClientOk, Canonical, Denote, Answered, IsSplit, Flat, Requested, Sorted, Numbered, Has, Run, Outstanding;
    LastPackPasses(answers, i, h, n);
    forall m | m <= top ensures m in Outstanding(Run(s, h).0) <==> m in cl.missing && !SomePasses(h, m) {
      StillMissing(s, h, top, m);
    }
    assert n in cl.missing;
  }

  /** A number in the last pack of an answer. */
  lemma SomeLastNumber(answers: seq<seq<seq<Entry>>>, i: nat) returns (n: nat)
    requires i < |answers| && answers[i] != []
    requires forall k :: 0 <= k < |Flat(answers)| ==> Flat(answers)[k] != []
    ensures Has(answers[i][|answers[i]| - 1], n) && Has(Flat(Flat(answers)), n)
  {
    var pack := answers[i][|answers[i]| - 1];
    assert pack in answers[i];
    FlatMember(answers, pack);
    var k :| 0 <= k < |Flat(answers)| && Flat(answers)[k] == pack;
    var e := pack[0];
    n := e.seqNo;
    assert e in pack;
    FlatMember(Flat(answers), e);
    var x :| 0 <= x < |Flat(Flat(answers))| && Flat(Flat(answers))[x] == e;
  }

  lemma LastPackPasses(answers: seq<seq<seq<Entry>>>, i: nat, h: seq<PushCall>, n: nat)
    requires i < |answers| && answers[i] != [] && Sorted(Flat(Flat(answers)))
    requires Arrives(h, answers[i][|answers[i]| - 1]) && Has(answers[i][|answers[i]| - 1], n)
    ensures SomePasses(h, n)
  {
    var pack := answers[i][|answers[i]| - 1];
    assert pack in answers[i];
    FlatMember(answers, pack);
    var k :| 0 <= k < |Flat(answers)| && Flat(answers)[k] == pack;
    PackedPasses(Flat(answers), k, h, n);
  }

  /** One round: what is missing, the confirms that ask for it, their answers, and what arrives. */
  datatype Round = Round(slice: seq<Range>, cs: seq<Confirm>, answers: seq<seq<seq<Entry>>>, h: seq<PushCall>)

  ghost function AfterRound(cl: Client, r: Round): Client {
    var (t, out) := Run(cl.stream, r.h);
    Client(t, Outstanding(t), cl.out + Payloads(out))
  }

  /** Whatever of the log arrives, the last pack of some answer is among it. */
  ghost predicate IsRound(log: seq<Entry>, cl: Client, r: Round) {
    && Canonical(r.slice) && Denote(r.slice) == cl.missing && IsSplit(r.cs, cl.stream.lastSeq, r.slice)
    && Answered(log, r.cs, r.answers) && AllFromLog(r.h, log)
    && exists i :: 0 <= i < |r.answers| && r.answers[i] != [] && Arrives(r.h, r.answers[i][|r.answers[i]| - 1])
  }

  ghost predicate AreRounds(log: seq<Entry>, cl: Client, rs: seq<Round>)
    decreases |rs|
  {
    rs != [] ==> IsRound(log, cl, rs[0]) && AreRounds(log, AfterRound(cl, rs[0]), rs[1..])
  }

  ghost function AfterRounds(cl: Client, rs: seq<Round>): Client
    decreases |rs|
  {
    if rs == [] then cl else AfterRounds(AfterRound(cl, rs[0]), rs[1..])
  }

  /** The numbers of the log that the client has neither passed nor holds. */
  ghost function Unseen(cl: Client, log: seq<Entry>): set<int> {
    set n | cl.stream.lastSeq < n <= |log| && !Has(cl.stream.ahead, n)
  }

  lemma RoundSees(log: seq<Entry>, cl: Client, r: Round)
    requires Numbered(log) && ClientOk(cl, log) && IsRound(log, cl, r)
    ensures ClientOk(AfterRound(cl, r), log) && Unseen(AfterRound(cl, r), log) < Unseen(cl, log)
  {
    var s, t := cl.stream, Run(cl.stream, r.h).0;
    var i :| 0 <= i < |r.answers| && r.answers[i] != [] && Arrives(r.h, r.answers[i][|r.answers[i]| - 1]);
    AskedIsFound(log, cl, r.slice);
    AnswersPack(log, r.cs, r.answers);
    assert Flat(Missings(r.cs)) == r.slice;
    var n := SomeLastNumber(r.answers, i);
    LastPackPasses(r.answers, i, r.h, n);
    WhatClientHas(cl, log);
    MissingIsPublished(cl, log, n);
    OutstandingIsBeyond(s, n);
    RunReaches(s, r.h);
    RunClientOk(cl, log, r.h);
    hide *;
    assert n in Unseen(cl, log) && n !in Unseen(AfterRound(cl, r), log) by {
      SeenAfter(log, cl, r, n);
    }
    forall m | m in Unseen(AfterRound(cl, r), log) ensures m in Unseen(cl, log) {
      SeenAfter(log, cl, r, m);
    }
  }

  lemma SeenAfter(log: seq<Entry>, cl: Client, r: Round, n: int)
    requires WellFormed(cl.stream)
    ensures n in Unseen(AfterRound(cl, r), log) ==> n in Unseen(cl, log) && !SomePasses(r.h, n)
    ensures n in Unseen(cl, log) <==> cl.stream.lastSeq < n <= |log| && !Has(cl.stream.ahead, n)
  {
    RunReaches(cl.stream, r.h);
    hide Run, SomePasses, Has, Sorted;
    if n in Unseen(AfterRound(cl, r), log) { RunHeld(cl.stream, r.h, n); }
  }

  /** While the client misses something a round is possible: some answer has a pack. */
  lemma SomeAnswer(log: seq<Entry>, cl: Client, slice: seq<Range>, cs: seq<Confirm>, answers: seq<seq<seq<Entry>>>)
    requires Numbered(log) && ClientOk(cl, log) && cl.missing != {}
    requires Canonical(slice) && Denote(slice) == cl.missing && IsSplit(cs, cl.stream.lastSeq, slice)
    requires Answered(log, cs, answers)
    ensures exists i :: 0 <= i < |answers| && answers[i] != []
  {
    AskedIsFound(log, cl, slice);
    AnswersPack(log, cs, answers);
    assert Flat(Missings(cs)) == slice;
    var es := Requested(log, slice);
    var n :| n in cl.missing;
    assert Has(es, n);
    var x :| 0 <= x < |es| && es[x].seqNo == n;
    FlatMember(Flat(answers), es[x]);
    var k :| 0 <= k < |Flat(answers)| && es[x] in Flat(answers)[k];
    FlatMember(answers, Flat(answers)[k]);
  }

  /**
   * Asking again ends: every round in which the last pack of some answer arrives, whatever became of the others,
   * shows the client another entry, so that there are no more rounds than entries that it has not seen.
   */
  lemma {:induction false} RetriesEnd(log: seq<Entry>, cl: Client, rs: seq<Round>)
    requires Numbered(log) && ClientOk(cl, log) && AreRounds(log, cl, rs)
    ensures ClientOk(AfterRounds(cl, rs), log)
    ensures |rs| + |Unseen(AfterRounds(cl, rs), log)| <= |Unseen(cl, log)|
    decreases |rs|
  {
    if rs != [] {
      RoundSees(log, cl, rs[0]);
      RetriesEnd(log, AfterRound(cl, rs[0]), rs[1..]);
      hide ClientOk, Unseen, IsRound, AfterRound;
      FewerOf(Unseen(AfterRound(cl, rs[0]), log), Unseen(cl, log));
    }
  }

  lemma FewerOf(a: set<int>, b: set<int>)
    requires a < b
    ensures |a| < |b|
  {
    assert b == a + (b - a) && (b - a == {} ==> b == a);
  }
}
