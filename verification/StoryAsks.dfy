/** What a story client asks for. */
module StoryAsks {
  import opened Ranges
  import opened Seqs
  import opened Streams
  import opened Engines
  import opened StoryProtocol

  /** Some confirm asks for the number. */
  ghost predicate AsksFor(cs: seq<Confirm>, n: int) {
    exists i, k :: 0 <= i < |cs| && 0 <= k < |cs[i].missing| && cs[i].missing[k].In(n)
  }

  /** The confirms for a list of ranges ask for just its numbers, in at most 60 ranges each. */
  lemma SplitAsks(cs: seq<Confirm>, lastSeq: nat, slice: seq<Range>)
    requires IsSplit(cs, lastSeq, slice)
    ensures forall n :: AsksFor(cs, n) <==> n in Denote(slice)
    ensures forall i :: 0 <= i < |cs| ==> cs[i].lastSeq == lastSeq && |cs[i].missing| <= 60
    ensures |cs| == |slice| / 60 + 1
  {
    FullOnes(cs, |cs| - 1);
    LastOne(cs);
    var ms := Missings(cs);
    forall n ensures AsksFor(cs, n) <==> n in Denote(slice) {
      if n in Denote(slice) {
        var j :| 0 <= j < |slice| && n in slice[j].Seqs();
        assert slice[j] in Flat(ms);
        FlatMember(ms, slice[j]);
        var i :| 0 <= i < |ms| && slice[j] in ms[i];
        assert slice[j] in cs[i].missing;
      }
      if i, k :| 0 <= i < |cs| && 0 <= k < |cs[i].missing| && cs[i].missing[k].In(n) {
        var r := cs[i].missing[k];
        assert r in ms[i];
        FlatMember(ms, r);
        var j :| 0 <= j < |slice| && slice[j] == r;
        assert n in slice[j].Seqs();
      }
    }
  }

  lemma {:induction false} FullOnes(cs: seq<Confirm>, n: nat)
    requires n <= |cs| && forall i :: 0 <= i < n ==> |cs[i].missing| == 60
    ensures |Flat(Missings(cs)[..n])| == 60 * n
  {
    if n > 0 {
      FullOnes(cs, n - 1);
      FlatTake(Missings(cs), n - 1);
    }
  }

  lemma LastOne(cs: seq<Confirm>)
    requires cs != []
    ensures |Flat(Missings(cs))| == |Flat(Missings(cs)[..|cs| - 1])| + |cs[|cs| - 1].missing|
  {
    FlatTake(Missings(cs), |cs| - 1);
    assert Missings(cs)[..|cs|] == Missings(cs);
  }

  lemma ClientInRun(ws: seq<World>, steps: seq<Step>, i: nat, c: nat)
    requires IsRun(ws, steps) && i < |ws| && c < |ws[i].clients|
    ensures ClientOk(ws[i].clients[c], ws[i].log)
  {
    RunOk(ws, steps);
    assert Ok(ws[i]);
  }

  /** A pack makes a client ask for what is missing now and was not before, or was in the pack all the same. */
  lemma PackMakesAsk(ws: seq<World>, steps: seq<Step>, i: nat, n: int)
    requires IsRun(ws, steps) && i < |steps| && steps[i].Receive?
    ensures var a := steps[i];
      && a.c < |ws[i].clients| == |ws[i + 1].clients|
      && (AsksFor(a.sent, n) <==>
            n in ws[i + 1].clients[a.c].missing && (n in ws[i].clients[a.c].missing ==> Has(a.pack, n)))
      && forall j :: 0 <= j < |a.sent| ==> a.sent[j].lastSeq == ws[i + 1].clients[a.c].stream.lastSeq
  {
    var a := steps[i];
    assert Next(ws[i], a, ws[i + 1]);
    var cl := ws[i].clients[a.c];
    ClientInRun(ws, steps, i, a.c);
    hide IsRun, IsSplit, Denote;
    Agreement(cl.stream, a.now, a.pack);
    SplitAsks(a.sent, Push(cl.stream, a.now, a.pack).0.lastSeq, a.newly);
    hide Push, Kept, Outstanding;
    FedHas(a.pack, n);
  }

  lemma FedHas(pack: seq<Entry>, n: int)
    ensures n in Fed(pack) <==> Has(pack, n)
  {
  }

  /** The request timer makes it ask for all that is missing. */
  lemma TimerAsks(w: World, a: Step, w': World, n: int)
    requires a.RequestTimer? && Next(w, a, w')
    ensures a.c < |w.clients| && (AsksFor(a.sent, n) <==> n in w.clients[a.c].missing)
    ensures forall j :: 0 <= j < |a.sent| ==> a.sent[j].lastSeq == w.clients[a.c].stream.lastSeq
  {
    hide IsSplit, Denote;
    SplitAsks(a.sent, w.clients[a.c].stream.lastSeq, a.slice);
  }
}
