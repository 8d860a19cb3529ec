// What the passes of the family are read from: the samples of the links and
// the measured entries of the VM pairs.

module OverrunReading {
  import opened Wrappers
  import opened Graph
  import opened ReoptMemory
  import opened PairView
  import opened ReoptPass
  import opened Reopt
  import opened OverrunPass

  // One measured entry for each sender, on its link; then one for each counted
  // VM; then the chatter's, one for each hot link.
  function SenderFlow(x: Case, i: nat): Flow
    requires Quota(x) > 0
  {
    Flow(Some(0), Some(i + 1), Some(0), Some(0), Some(1), Hop(LinkOf(i, Quota(x))), 1.0)
  }

  function SenderFlows(x: Case, n: nat): seq<Flow>
    requires Quota(x) > 0
  {
    if n == 0 then [] else SenderFlows(x, n - 1) + [SenderFlow(x, n - 1)]
  }

  function CountedFlow(x: Case, id: nat): Flow {
    Flow(Some(0), Some(Stale(x, id)), Some(Listener(x)), Some(0), Some(1), (4, 1), 1.0)
  }

  function CountedFlows(x: Case, n: nat): seq<Flow>
    requires Quota(x) > 0
  {
    if n == 0 then SenderFlows(x, Senders(x)) else CountedFlows(x, n - 1) + [CountedFlow(x, n - 1)]
  }

  function LittleFlow(x: Case, j: nat): Flow {
    Flow(Some(0), Some(Chatter(x)), Some(0), Some(0), Some(1), Hop(j), 0.5)
  }

  function LittleFlows(x: Case, n: nat): seq<Flow>
    requires Quota(x) > 0
  {
    if n == 0 then CountedFlows(x, x.counted) else LittleFlows(x, n - 1) + [LittleFlow(x, n - 1)]
  }

  // Each hot link is full in its one sample.
  ghost function TightReading(x: Case): Reading
    requires Quota(x) > 0
  {
    Reading(false, map l | l in Hot(x.links) :: [(0.0, Some(Size(x)))], {}, Full(x), LittleFlows(x, x.links),
            OnNode(Span(Stale(x, 0), x.held)))
  }

  lemma {:induction false} SendersGathered(x: Case, n: nat)
    requires CaseOk(x) && Quota(x) > 0
    ensures Gathered(SenderFlows(x, n), SenderPairs(x, n, 0.0)) && NoNegative(SenderFlows(x, n))
  {
    hide *;
    SenderFlowsAre(x, n);
    if n == 0 {
      NoneGathered(x);
    } else {
      SendersGathered(x, n - 1);
      AddSender(x, n - 1);
      Natural(SenderFlows(x, n - 1), SenderFlow(x, n - 1));
      Appended(SenderFlows(x, n - 1), SenderFlow(x, n - 1), SenderFlows(x, n));
      AddGathers(SenderFlows(x, n - 1), SenderFlow(x, n - 1), SenderFlows(x, n), SenderPairs(x, n - 1, 0.0));
    }
  }

  lemma SenderFlowsAre(x: Case, n: nat)
    requires Quota(x) > 0
    ensures SenderFlows(x, n) == if n == 0 then [] else SenderFlows(x, n - 1) + [SenderFlow(x, n - 1)]
    ensures forall i: nat :: SenderFlow(x, i).mbps == 1.0
  {
    hide Quota;
  }

  lemma Natural(view: seq<Flow>, e: Flow)
    requires NoNegative(view) && e.mbps >= 0.0
    ensures NoNegative(view + [e])
  {
  }

  lemma Appended(view: seq<Flow>, e: Flow, more: seq<Flow>)
    requires more == view + [e]
    ensures Then(view, e, more)
  {
  }

  lemma NoneGathered(x: Case)
    ensures Gathered([], SenderPairs(x, 0, 0.0)) && NoNegative([])
  {
    assert SenderPairs(x, 0, 0.0) == map[];
  }

  lemma AddSender(x: Case, i: nat)
    requires Quota(x) > 0
    ensures Resolved(SenderFlow(x, i)) && Add(SenderPairs(x, i, 0.0), SenderFlow(x, i)) == SenderPairs(x, i + 1, 0.0)
  {
    var e, pairs := SenderFlow(x, i), SenderPairs(x, i, 0.0);
    KeysGrow(i);
    SenderPairsAre(x, i);
    SenderPairsAre(x, i + 1);
    hide SenderPairs, Quota, LinkOf;
    assert AddTo(PairInfo(0, i + 1, 0, 0, 1, map[], 0.0), e) == Sender(x, i + 1, 0.0);
    hide Sender, Hop;
    assert Key(i) !in pairs;
  }

  lemma SenderPairsAre(x: Case, n: nat)
    ensures SenderPairs(x, n, 0.0).Keys == Keys(n)
    ensures forall k | k in Keys(n) :: SenderPairs(x, n, 0.0)[k] == Sender(x, k.0, 0.0)
  {
    hide Keys, Sender;
  }

  // The senders and the first n counted VMs.
  ghost function UpToCounted(x: Case, n: nat): map<Pair, PairInfo> {
    SenderPairs(x, Senders(x), 0.0) + CountedPairs(x, n)
  }

  lemma {:induction false} CountedGathered(x: Case, n: nat)
    requires CaseOk(x) && Quota(x) > 0
    ensures Gathered(CountedFlows(x, n), UpToCounted(x, n)) && NoNegative(CountedFlows(x, n))
  {
    hide *;
    CountedFlowsAre(x, n);
    if n == 0 {
      SendersGathered(x, Senders(x));
      NoneCounted(x);
    } else {
      CountedGathered(x, n - 1);
      AddCounted(x, n - 1);
      Natural(CountedFlows(x, n - 1), CountedFlow(x, n - 1));
      Appended(CountedFlows(x, n - 1), CountedFlow(x, n - 1), CountedFlows(x, n));
      AddGathers(CountedFlows(x, n - 1), CountedFlow(x, n - 1), CountedFlows(x, n), UpToCounted(x, n - 1));
    }
  }

  lemma CountedFlowsAre(x: Case, n: nat)
    requires Quota(x) > 0
    ensures CountedFlows(x, n) == if n == 0 then SenderFlows(x, Senders(x)) else CountedFlows(x, n - 1) + [CountedFlow(x, n - 1)]
    ensures forall id: nat :: CountedFlow(x, id).mbps == 1.0
  {
    hide Quota, Senders, SenderFlows;
  }

  lemma NoneCounted(x: Case)
    ensures UpToCounted(x, 0) == SenderPairs(x, Senders(x), 0.0)
  {
    hide SenderPairs, Senders;
    assert CountedPairs(x, 0) == map[];
  }

  lemma AddCounted(x: Case, id: nat)
    ensures Resolved(CountedFlow(x, id)) && Add(UpToCounted(x, id), CountedFlow(x, id)) == UpToCounted(x, id + 1)
  {
    hide *;
    var k := (Stale(x, id), Listener(x));
    NotCounted(x, id);
    CountedFlowIs(x, id);
    AddNew(UpToCounted(x, id), CountedFlow(x, id), k, Counted(x, k.0));
    MoreCounted(x, id);
  }

  lemma CountedFlowIs(x: Case, id: nat)
    ensures var e := CountedFlow(x, id);
            && Resolved(e) && (e.sport.value, e.dport.value) == (Stale(x, id), Listener(x))
            && AddTo(Fresh(e), e) == Counted(x, Stale(x, id))
  {
    hide Senders;
  }

  // A pair of which e is the first entry.
  function Fresh(e: Flow): PairInfo
    requires Resolved(e)
  {
    PairInfo(e.domain.value, e.sport.value, e.dport.value, e.shost.value, e.dhost.value, map[], 0.0)
  }

  lemma AddNew(pairs: map<Pair, PairInfo>, e: Flow, k: Pair, pr: PairInfo)
    requires Resolved(e) && (e.sport.value, e.dport.value) == k && k !in pairs && AddTo(Fresh(e), e) == pr
    ensures Add(pairs, e) == pairs[k := pr]
  {
    hide AddTo;
  }

  lemma AddMore(pairs: map<Pair, PairInfo>, e: Flow, k: Pair, pr: PairInfo)
    requires Resolved(e) && (e.sport.value, e.dport.value) == k && k in pairs && AddTo(pairs[k], e) == pr
    ensures Add(pairs, e) == pairs[k := pr]
  {
    hide AddTo;
  }

  lemma NotCounted(x: Case, id: nat)
    ensures (Stale(x, id), Listener(x)) !in UpToCounted(x, id)
  {
    SenderPairsAre(x, Senders(x));
    CountedPairsAre(x, id);
    hide SenderPairs, CountedPairs, Senders, Keys;
  }

  lemma MoreCounted(x: Case, id: nat)
    ensures UpToCounted(x, id)[(Stale(x, id), Listener(x)) := Counted(x, Stale(x, id))] == UpToCounted(x, id + 1)
  {
    var k := (Stale(x, id), Listener(x));
    CountedPairsAre(x, id);
    CountedPairsAre(x, id + 1);
    hide SenderPairs, CountedPairs, Senders, Counted;
    assert CountedPairs(x, id)[k := Counted(x, k.0)] == CountedPairs(x, id + 1);
    UpdateLast(SenderPairs(x, Senders(x), 0.0), CountedPairs(x, id), k, Counted(x, k.0));
  }

  lemma UpdateLast<K, V>(a: map<K, V>, b: map<K, V>, k: K, v: V)
    ensures (a + b)[k := v] == a + b[k := v]
  {
  }

  lemma CountedPairsAre(x: Case, n: nat)
    ensures forall k :: k in CountedPairs(x, n) <==> Stale(x, 0) <= k.0 < Stale(x, n) && k.1 == Listener(x)
    ensures forall k | k in CountedPairs(x, n) :: CountedPairs(x, n)[k] == Counted(x, k.0)
  {
    hide Counted, Senders;
  }

  ghost function UpToLittle(x: Case, n: nat): map<Pair, PairInfo> {
    if n == 0 then UpToCounted(x, x.counted) else UpToCounted(x, x.counted) + map[(Chatter(x), 0) := Chatting(x, n, 0.0)]
  }

  lemma {:induction false} LittleGathered(x: Case, n: nat)
    requires CaseOk(x) && Quota(x) > 0
    ensures Gathered(LittleFlows(x, n), UpToLittle(x, n)) && NoNegative(LittleFlows(x, n))
  {
    hide *;
    LittleFlowsAre(x, n);
    if n == 0 {
      CountedGathered(x, x.counted);
    } else {
      LittleGathered(x, n - 1);
      AddLittle(x, n - 1);
      Natural(LittleFlows(x, n - 1), LittleFlow(x, n - 1));
      Appended(LittleFlows(x, n - 1), LittleFlow(x, n - 1), LittleFlows(x, n));
      AddGathers(LittleFlows(x, n - 1), LittleFlow(x, n - 1), LittleFlows(x, n), UpToLittle(x, n - 1));
    }
  }

  lemma LittleFlowsAre(x: Case, n: nat)
    requires Quota(x) > 0
    ensures LittleFlows(x, n) == if n == 0 then CountedFlows(x, x.counted) else LittleFlows(x, n - 1) + [LittleFlow(x, n - 1)]
    ensures n == 0 ==> UpToLittle(x, n) == UpToCounted(x, x.counted)
    ensures forall j: nat :: LittleFlow(x, j).mbps == 0.5
  {
    hide Quota, CountedFlows, UpToCounted, Chatting;
  }

  lemma AddLittle(x: Case, j: nat)
    requires CaseOk(x)
    ensures Resolved(LittleFlow(x, j)) && Add(UpToLittle(x, j), LittleFlow(x, j)) == UpToLittle(x, j + 1)
  {
    hide *;
    var k := (Chatter(x), 0);
    NoChatter(x);
    LittleFlowIs(x, j);
    UpToLittleIs(x, j);
    UpToLittleIs(x, j + 1);
    if j == 0 {
      AddNew(UpToLittle(x, j), LittleFlow(x, j), k, Chatting(x, 1, 0.0));
    } else {
      AddMore(UpToLittle(x, j), LittleFlow(x, j), k, Chatting(x, j + 1, 0.0));
    }
    PutTwice(UpToCounted(x, x.counted), k, Chatting(x, j, 0.0), Chatting(x, j + 1, 0.0));
  }

  lemma LittleFlowIs(x: Case, j: nat)
    ensures var e := LittleFlow(x, j);
            && Resolved(e) && (e.sport.value, e.dport.value) == (Chatter(x), 0)
            && AddTo(Chatting(x, j, 0.0), e) == Chatting(x, j + 1, 0.0) && Fresh(e) == Chatting(x, 0, 0.0)
  {
    LittleMore(j);
    NoLittle();
    hide Little, Senders;
  }

  lemma UpToLittleIs(x: Case, n: nat)
    ensures UpToLittle(x, n) == if n == 0 then UpToCounted(x, x.counted)
                                else UpToCounted(x, x.counted)[(Chatter(x), 0) := Chatting(x, n, 0.0)]
  {
    hide UpToCounted, Chatting, Senders;
  }

  lemma PutTwice<K, V>(m: map<K, V>, k: K, u: V, v: V)
    ensures m[k := u][k := v] == m[k := v]
  {
  }

  lemma NoLittle()
    ensures Little(0) == map[]
  {
  }

  lemma LittleMore(n: nat)
    ensures Little(n)[Hop(n) := RateOn(Little(n), Hop(n)) + 0.5] == Little(n + 1)
  {
    LittleIs(n);
    LittleIs(n + 1);
    HopIs(n, n);
    assert Hot(n + 1) == Hot(n) + {Hop(n)};
    hide Little, Hot, Hop;
  }

  lemma NoChatter(x: Case)
    requires CaseOk(x)
    ensures (Chatter(x), 0) !in UpToCounted(x, x.counted)
  {
    SenderPairsAre(x, Senders(x));
    CountedPairsAre(x, x.counted);
    hide SenderPairs, CountedPairs, Senders, Keys, Quota;
  }

  lemma ViewIs(x: Case)
    requires CaseOk(x) && Quota(x) > 0
    ensures IsView(LittleFlows(x, x.links), Measured(x)) && NoNegative(LittleFlows(x, x.links))
  {
    hide *;
    var view, sums := LittleFlows(x, x.links), PairsAt(x, 0.0, 0.0);
    LittleGathered(x, x.links);
    AllGathered(x);
    forall k
      ensures k in Measured(x) <==> k in sums
    {
      PairsAre(x, 0.0, 0.0);
      PairsAre(x, 1.0, 0.5);
      SameKey(x, k);
    }
    forall k | k in Measured(x)
      ensures LinksGathered(view, k, Measured(x)[k]) && RateIs(view, k, Measured(x)[k])
    {
      GatheredAt(view, sums, k);
      SameButSums(x, k);
      SameButRate(view, k, sums[k], Measured(x)[k].rate);
      RateFits(x, view, k);
    }
    ViewFrom(view, sums, Measured(x));
  }

  lemma AllGathered(x: Case)
    requires CaseOk(x)
    ensures UpToLittle(x, x.links) == PairsAt(x, 0.0, 0.0)
  {
    hide SenderPairs, CountedPairs, Chatting, Senders;
  }

  lemma SameKey(x: Case, k: Pair)
    ensures k in PairsAt(x, 0.0, 0.0) <==> k in Measured(x)
  {
    PairsAre(x, 0.0, 0.0);
    PairsAre(x, 1.0, 0.5);
    hide PairsAt, Senders;
  }

  lemma GatheredAt(view: seq<Flow>, sums: map<Pair, PairInfo>, k: Pair)
    requires Gathered(view, sums) && k in sums
    ensures LinksGathered(view, k, sums[k]) && sums[k].rate == Arriving(view, k)
  {
    hide LinksGathered, Arriving, Known;
  }

  // The sums are the pairs but for the rates that did not arrive.
  lemma SameButSums(x: Case, k: Pair)
    requires k in Measured(x) && k in PairsAt(x, 0.0, 0.0)
    ensures Measured(x)[k] == PairsAt(x, 0.0, 0.0)[k].(rate := Measured(x)[k].rate)
    ensures var pr, sum := Measured(x)[k], PairsAt(x, 0.0, 0.0)[k];
            || (pr.rate == sum.rate == 1.0)
            || (sum.rate == 0.0 && forall l | l in pr.links :: pr.links[l] == pr.rate)
  {
    PairsAre(x, 0.0, 0.0);
    PairsAre(x, 1.0, 0.5);
    LittleIs(x.links);
    hide PairsAt, Senders, Little, Hot, Quota, Hop, LinkOf;
  }

  lemma RateFits(x: Case, view: seq<Flow>, k: Pair)
    requires CaseOk(x) && k in Measured(x) && k in PairsAt(x, 0.0, 0.0)
    requires LinksGathered(view, k, Measured(x)[k]) && PairsAt(x, 0.0, 0.0)[k].rate == Arriving(view, k)
    ensures RateIs(view, k, Measured(x)[k])
  {
    hide *;
    var pr := Measured(x)[k];
    SameButSums(x, k);
    SomeLink(view, k, pr);
    RateFrom(view, k, pr);
  }

  lemma RateFrom(view: seq<Flow>, k: Pair, pr: PairInfo)
    requires pr.links != map[]
    requires (pr.rate == Arriving(view, k) == 1.0) || (Arriving(view, k) == 0.0 && forall l | l in pr.links :: pr.links[l] == pr.rate)
    ensures RateIs(view, k, pr)
  {
    hide Arriving;
    var l :| l in pr.links;
  }

  lemma ViewFrom(view: seq<Flow>, sums: map<Pair, PairInfo>, pairs: map<Pair, PairInfo>)
    requires Gathered(view, sums) && forall k :: k in pairs <==> k in sums
    requires forall k | k in pairs :: LinksGathered(view, k, pairs[k]) && RateIs(view, k, pairs[k])
    ensures IsView(view, pairs)
  {
    hide LinksGathered, RateIs, Known, Arriving;
  }

  lemma TightReads(x: Case)
    requires CaseOk(x) && Quota(x) > 0
    ensures PassReads(Settings(x), Capacity(x), TightReading(x), 0.0, map[], TightPass(x)) && NoNegative(TightReading(x).view)
  {
    hide *;
    TightIs(x);
    ReadingIs(x);
    ViewIs(x);
    HostsHere(x);
    HotCongested(x);
    JudgedNow(x);
    ReadsFrom(Settings(x), Capacity(x), TightReading(x), 0.0, map[], TightPass(x));
  }

  lemma ReadingIs(x: Case)
    requires Quota(x) > 0
    ensures var r := TightReading(x);
            && !r.outage && r.dead == {} && r.measured == Full(x) && r.view == LittleFlows(x, x.links)
            && r.hostOf == OnNode(Span(Stale(x, 0), x.held)) && r.series.Keys == Hot(x.links)
            && forall l | l in r.series :: r.series[l] == [(0.0, Some(Size(x)))]
  {
    hide Quota, LittleFlows, Full, OnNode, Span, Hot, Size;
  }

  lemma HotCongested(x: Case)
    requires Quota(x) > 0
    ensures CongestedIs(Settings(x), Capacity(x), TightReading(x).series, map[], Full(x))
  {
    hide *;
    var c, cap, series := Settings(x), Capacity(x), TightReading(x).series;
    ReadingIs(x);
    CapacityIs(x);
    SettingsAre(x);
    SizeIs(x);
    FullIs(x);
    forall l
      ensures l in Full(x) <==> IsCongested(c, cap, series, map[], l)
      ensures l in Full(x) ==> l in series && Full(x)[l] == LatestOf(series[l])
    {
      if l in series {
        FullIsCongested(c, cap, series, l, Size(x));
      } else {
        UnknownIsNot(c, cap, series, l);
      }
    }
    CongestedFrom(c, cap, series, Full(x));
  }

  lemma FullIsCongested(conf: Conf, capacity: Rates, series: map<Link, seq<(Time, Option<real>)>>, l: Link, size: real)
    requires l in series && series[l] == [(0.0, Some(size))] && l in capacity && capacity[l] == size > 0.0
    requires conf.samples == 1 && size > Part(conf.high, size)
    ensures IsCongested(conf, capacity, series, map[], l) && LatestOf(series[l]) == size
  {
    hide Part;
    assert series[l][0..] == series[l];
  }

  lemma UnknownIsNot(conf: Conf, capacity: Rates, series: map<Link, seq<(Time, Option<real>)>>, l: Link)
    requires l !in series
    ensures !IsCongested(conf, capacity, series, map[], l)
  {
  }

  lemma CongestedFrom(conf: Conf, capacity: Rates, series: map<Link, seq<(Time, Option<real>)>>, congested: Rates)
    requires forall l :: l in congested <==> IsCongested(conf, capacity, series, map[], l)
    requires forall l | l in congested :: l in series && congested[l] == LatestOf(series[l])
    ensures CongestedIs(conf, capacity, series, map[], congested)
  {
    hide IsCongested, LatestOf;
  }

  lemma JudgedNow(x: Case)
    requires Quota(x) > 0
    ensures TightPass(x).since == JudgedSince(Settings(x), TightReading(x).series, Full(x).Keys)
  {
    hide *;
    TightIs(x);
    ReadingIs(x);
    SettingsAre(x);
    FullIs(x);
    JudgedOnce(Settings(x), TightReading(x).series, Full(x).Keys, Size(x), TightPass(x).since);
  }

  lemma JudgedOnce(conf: Conf, series: map<Link, seq<(Time, Option<real>)>>, links: set<Link>, size: real, since: map<Link, Time>)
    requires conf.samples == 1 && series.Keys == links == since.Keys
    requires (forall l | l in series :: series[l] == [(0.0, Some(size))]) && forall l | l in since :: since[l] == 0.0
    ensures since == JudgedSince(conf, series, links)
  {
  }

  lemma ReadsFrom(conf: Conf, capacity: Rates, r: Reading, now: Time, linkMoved: map<Link, Time>, p: Pass)
    requires p.now == now && IsView(r.view, p.pairs) && HostsAre(p.pairs, p.hosts) && p.bound == r.hostOf
    requires p.measured == r.measured && p.dead == r.dead && CongestedIs(conf, capacity, r.series, linkMoved, p.congested)
    requires p.since == JudgedSince(conf, r.series, p.congested.Keys)
    ensures PassReads(conf, capacity, r, now, linkMoved, p)
  {
    hide IsView, HostsAre, CongestedIs, JudgedSince;
  }
}
