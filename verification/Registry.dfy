// The server's two registries: every node's locator, and the pool of domain
// function ids; and why a SID names one node and one domain.

module Registry {
  import opened Wrappers
  import opened Bits
  import opened Csid
  import opened Sid
  import opened Payload
  import opened Sets

  type Rows = map<Host, Prefix>

  ghost predicate AllLocators(rows: Rows) {
    forall h | h in rows :: rows[h].IsLocator()
  }

  predicate Clash(p: Prefix, q: Prefix) {
    p.len <= 128 && q.len <= 128 && Overlaps(p, q)
  }

  ghost predicate Apart(p: Prefix, q: Prefix) {
    p.IsLocator() && q.IsLocator() && !Clash(p, q)
  }

  // No two nodes share an address.
  ghost predicate Disjoint(rows: Rows) {
    AllLocators(rows) && forall h, k | h in rows && k in rows && h != k :: Apart(rows[h], rows[k])
  }

  // Nor does a node share one with a node of the fabric.
  ghost predicate ApartFromFabric(fabric: Rows, rows: Rows) {
    forall h, k | h in rows && k in fabric :: Apart(rows[h], fabric[k])
  }

  lemma ApartSymmetric(p: Prefix, q: Prefix)
    requires Apart(p, q)
    ensures Apart(q, p)
  {
    hide Contains;
  }

  lemma FewerRows(rows: Rows, fewer: Rows)
    requires Disjoint(rows) && forall h | h in fewer :: h in rows && fewer[h] == rows[h]
    ensures Disjoint(fewer)
  {
    hide Apart, Prefix.IsLocator;
  }

  // ------------------------------------------------------------------
  // Locators
  // ------------------------------------------------------------------
  // In the way of a claim: it overlaps, and is a fabric node's or a live host's.
  ghost predicate Blocks(fabric: Rows, rows: Rows, alive: Host -> bool, host: Host, mine: Prefix, other: Host) {
    && other != host && other in fabric + rows && Clash(mine, (fabric + rows)[other]) && (other in rows ==> alive(other))
  }

  // Overtaken by a claim: a registered host whose agent is down.
  ghost predicate Overtaken(rows: Rows, alive: Host -> bool, host: Host, mine: Prefix, other: Host) {
    other != host && other in rows && Clash(mine, rows[other]) && !alive(other)
  }

  // Part way through a claim, the nodes in `todo` still to be compared: the
  // overtaken ones before them are gone, and none blocks but the last.
  ghost predicate Claiming(fabric: Rows, rows0: Rows, rows: Rows, alive: Host -> bool, host: Host, mine: Prefix, todo: set<Host>,
                           ok: bool) {
    && (forall h :: h in rows <==> h in rows0 && !(h !in todo && Overtaken(rows0, alive, host, mine, h)))
    && (forall h | h in rows && h in rows0 :: rows[h] == rows0[h])
    && (forall h: Host, t: Host | Seen(fabric, rows0, host, todo, h) && t in todo :: h < t)
    && if ok then forall h | Seen(fabric, rows0, host, todo, h) :: !Blocks(fabric, rows0, alive, host, mine, h)
       else exists b :: IsStop(fabric, rows0, alive, host, mine, todo, b)
  }

  ghost predicate Seen(fabric: Rows, rows0: Rows, host: Host, todo: set<Host>, h: Host) {
    h in fabric + rows0 && h != host && h !in todo
  }

  ghost predicate IsStop(fabric: Rows, rows0: Rows, alive: Host -> bool, host: Host, mine: Prefix, todo: set<Host>, b: Host) {
    && b !in todo && Blocks(fabric, rows0, alive, host, mine, b)
    && forall h: Host | Seen(fabric, rows0, host, todo, h) && h != b :: h < b && !Blocks(fabric, rows0, alive, host, mine, h)
  }

  ghost predicate IsNext(todo: set<Host>, other: Host) {
    other in todo && forall t | t in todo :: other <= t
  }

  lemma ClaimStep(fabric: Rows, rows0: Rows, rows: Rows, alive: Host -> bool, host: Host, mine: Prefix, todo: set<Host>, other: Host)
    requires Claiming(fabric, rows0, rows, alive, host, mine, todo, true)
    requires IsNext(todo, other) && other != host && other in fabric + rows0
    ensures var rest, dead := todo - {other}, other in rows0 && !alive(other);
            if !Clash(mine, (fabric + rows0)[other]) then Claiming(fabric, rows0, rows, alive, host, mine, rest, true)
            else if dead then Claiming(fabric, rows0, rows - {other}, alive, host, mine, rest, true)
            else Claiming(fabric, rows0, rows, alive, host, mine, rest, false)
  {
    hide Clash;
    var rest := todo - {other};
    forall h
      ensures Seen(fabric, rows0, host, rest, h) <==> Seen(fabric, rows0, host, todo, h) || h == other
    {
    }
    hide Seen;
    if Clash(mine, (fabric + rows0)[other]) && !(other in rows0 && !alive(other)) {
      assert IsStop(fabric, rows0, alive, host, mine, rest, other);
    }
  }

  lemma Registers(fabric: Rows, usid: bool, rows0: Rows, host: Host, locator: Prefix, alive: Host -> bool, r: Registration, rows: Rows)
    requires RegisteredAs(fabric, usid, rows0, host, locator, alive, r, rows)
    ensures Granted(fabric, usid, rows0, host, locator, alive) ==> host in rows && rows[host] == locator
    ensures forall h | h in rows :: (h in rows0 && rows[h] == rows0[h]) || (h == host && rows[h] == locator)
    ensures rows.Keys <= rows0.Keys + {host}
  {
    hide Granted, Overtaken, Blocks, Usable;
  }

  // Every claim answered by the rows it found, which were always disjoint.
  ghost predicate Answered(fabric: Rows, usid: bool, claims: seq<(Host, Prefix)>, alive: seq<Host -> bool>, trail: seq<Rows>,
                           answers: seq<Registration>) {
    && |answers| <= |claims| == |alive| && |trail| == |answers| + 1
    && (forall i | 0 <= i < |answers| ::
          RegisteredAs(fabric, usid, trail[i], claims[i].0, claims[i].1, alive[i], answers[i], trail[i + 1]))
    && forall i | 0 <= i < |trail| :: Disjoint(trail[i])
  }

  lemma NoClaims(fabric: Rows, usid: bool, claims: seq<(Host, Prefix)>, alive: seq<Host -> bool>, rows: Rows)
    requires |alive| == |claims| && Disjoint(rows)
    ensures Answered(fabric, usid, claims, alive, [rows], [])
  {
    hide Disjoint;
  }

  lemma ClaimAnswered(fabric: Rows, usid: bool, claims: seq<(Host, Prefix)>, alive: seq<Host -> bool>, trail: seq<Rows>,
                      answers: seq<Registration>, rows: Rows, r: Registration)
    requires Answered(fabric, usid, claims, alive, trail, answers) && |answers| < |claims| && Disjoint(rows)
    requires var i := |answers|;
             RegisteredAs(fabric, usid, trail[i], claims[i].0, claims[i].1, alive[i], r, rows)
    ensures Answered(fabric, usid, claims, alive, trail + [rows], answers + [r])
  {
    hide Disjoint, RegisteredAs;
  }

  lemma AllAnswered(fabric: Rows, usid: bool, claims: seq<(Host, Prefix)>, alive: seq<Host -> bool>, trail: seq<Rows>,
                    answers: seq<Registration>)
    requires Answered(fabric, usid, claims, alive, trail, answers) && |answers| == |claims|
    ensures forall i | 0 <= i < |claims| && Granted(fabric, usid, trail[i], claims[i].0, claims[i].1, alive[i]) ::
              claims[i].0 in trail[i + 1] && trail[i + 1][claims[i].0] == claims[i].1
    ensures forall h | h in trail[|claims|] ::
              (h in trail[0] && trail[|claims|][h] == trail[0][h]) || exists i :: 0 <= i < |claims| && claims[i] == (h, trail[|claims|][h])
  {
    hide Disjoint, RegisteredAs, Granted;
    forall i | 0 <= i < |claims| && Granted(fabric, usid, trail[i], claims[i].0, claims[i].1, alive[i])
      ensures claims[i].0 in trail[i + 1] && trail[i + 1][claims[i].0] == claims[i].1
    {
      Registers(fabric, usid, trail[i], claims[i].0, claims[i].1, alive[i], answers[i], trail[i + 1]);
    }
    forall h | h in trail[|claims|]
      ensures (h in trail[0] && trail[|claims|][h] == trail[0][h]) || exists i :: 0 <= i < |claims| && claims[i] == (h, trail[|claims|][h])
    {
      RowsFrom(fabric, usid, claims, alive, trail, answers, |claims|, h);
    }
  }

  lemma {:induction false} RowsFrom(fabric: Rows, usid: bool, claims: seq<(Host, Prefix)>, alive: seq<Host -> bool>, trail: seq<Rows>,
                                    answers: seq<Registration>, n: nat, h: Host)
    requires Answered(fabric, usid, claims, alive, trail, answers) && n <= |answers| && h in trail[n]
    ensures (h in trail[0] && trail[n][h] == trail[0][h]) || exists i :: 0 <= i < n && claims[i] == (h, trail[n][h])
  {
    hide Disjoint, RegisteredAs, Granted;
    if n > 0 {
      Registers(fabric, usid, trail[n - 1], claims[n - 1].0, claims[n - 1].1, alive[n - 1], answers[n - 1], trail[n]);
      if h in trail[n - 1] && trail[n][h] == trail[n - 1][h] {
        RowsFrom(fabric, usid, claims, alive, trail, answers, n - 1, h);
      } else {
        assert claims[n - 1] == (h, trail[n][h]);
      }
    }
  }

  // The rows once a claim is granted, with the claimant's.
  lemma StoredRows(fabric: Rows, usid: bool, rows0: Rows, rows: Rows, host: Host, locator: Prefix, alive: Host -> bool)
    requires Usable(usid, rows0, host, locator) && Disjoint(rows) && locator.IsLocator()
    requires !exists other :: Blocks(fabric, rows0, alive, host, locator, other)
    requires forall h :: h in rows <==> h in rows0 && !Overtaken(rows0, alive, host, locator, h)
    requires forall h | h in rows :: rows[h] == rows0[h]
    requires forall h | h in rows && h != host :: Apart(locator, rows[h])
    ensures Disjoint(rows[host := locator])
    ensures host in rows <==> host in rows0
    ensures RegisteredAs(fabric, usid, rows0, host, locator, alive, Registered(host !in rows || rows[host] != locator), rows[host := locator])
  {
    forall h | h in rows && h != host
      ensures Apart(rows[h], locator)
    {
      ApartSymmetric(locator, rows[h]);
    }
    hide Apart, Usable, Blocks, Clash, Prefix.IsLocator;
    assert !Overtaken(rows0, alive, host, locator, host);
    hide Overtaken;
  }

  lemma StillApart(fabric: Rows, rows: Rows, host: Host, locator: Prefix)
    requires ApartFromFabric(fabric, rows) && host !in fabric && forall k | k in fabric :: Apart(locator, fabric[k])
    ensures ApartFromFabric(fabric, rows[host := locator])
  {
    hide Apart;
  }

  // Nobody is left to share an address with.
  lemma ClaimIsApart(fabric: Rows, rows0: Rows, rows: Rows, alive: Host -> bool, host: Host, mine: Prefix)
    requires AllLocators(fabric) && AllLocators(rows0) && mine.IsLocator()
    requires !exists other :: Blocks(fabric, rows0, alive, host, mine, other)
    requires forall h | h in rows :: h in rows0 && rows[h] == rows0[h] && !Overtaken(rows0, alive, host, mine, h)
    ensures forall h | h in rows && h != host :: Apart(mine, rows[h])
    ensures forall k | k in fabric && k !in rows0 && k != host :: Apart(mine, fabric[k])
  {
    hide Clash, Prefix.IsLocator;
    forall h | h in rows && h != host
      ensures Apart(mine, rows[h])
    {
      assert !Blocks(fabric, rows0, alive, host, mine, h);
    }
    forall k | k in fabric && k !in rows0 && k != host
      ensures Apart(mine, fabric[k])
    {
      assert !Blocks(fabric, rows0, alive, host, mine, k);
    }
  }

  lemma ClaimEnds(fabric: Rows, rows0: Rows, rows: Rows, alive: Host -> bool, host: Host, mine: Prefix, todo: set<Host>, ok: bool)
    requires Claiming(fabric, rows0, rows, alive, host, mine, todo, ok) && (ok ==> todo == {}) && host !in todo
    ensures ok <==> !exists other :: Blocks(fabric, rows0, alive, host, mine, other)
    ensures forall h :: h in rows <==> h in rows0 && !(Overtaken(rows0, alive, host, mine, h)
                                                       && forall b | Blocks(fabric, rows0, alive, host, mine, b) :: h < b)
    ensures forall h | h in rows :: rows[h] == rows0[h]
  {
    hide Clash;
    forall b: Host | Blocks(fabric, rows0, alive, host, mine, b)
      ensures b in todo || Seen(fabric, rows0, host, todo, b)
    {
    }
    forall h | h in rows0 && Overtaken(rows0, alive, host, mine, h)
      ensures h !in todo <==> forall b | Blocks(fabric, rows0, alive, host, mine, b) :: h < b
    {
      if h !in todo {
        assert Seen(fabric, rows0, host, todo, h);
      } else {
        var b :| IsStop(fabric, rows0, alive, host, mine, todo, b);
        assert Seen(fabric, rows0, host, todo, b) && b < h;
      }
    }
    if !ok {
      var b :| IsStop(fabric, rows0, alive, host, mine, todo, b);
    }
  }

  lemma ClaimStarts(fabric: Rows, rows: Rows, alive: Host -> bool, host: Host, mine: Prefix)
    ensures Claiming(fabric, rows, rows, alive, host, mine, (fabric + rows).Keys - {host}, true)
  {
    hide Clash;
  }

  lemma UsableIs(usid: bool, rows: Rows, host: Host, locator: Prefix)
    ensures Usable(usid, rows, host, locator) <==>
            locator.IsLocator() && (usid ==> UsidLocator(locator) && forall h | h in rows && h != host && rows[h].len == 48 ::
                                      Block(F3216, rows[h].net) == Block(F3216, locator.net))
  {
    hide Block, NodeId, Bits.Pow2;
  }

  // A locator the encoding can use: under microSID a /48 with a node C-SID of
  // the Global ID Block, in the block of every other host's.
  ghost predicate Usable(usid: bool, rows: Rows, host: Host, locator: Prefix) {
    && locator.IsLocator()
    && (usid ==>
          && locator.len == 48 && USID_GIB_MIN <= NodeId(locator) <= USID_GIB_MAX
          && forall h | h in rows && h != host && rows[h].len == 48 :: Block(F3216, rows[h].net) == Block(F3216, locator.net))
  }

  // And nobody it would share addresses with stands in its way.
  ghost predicate Granted(fabric: Rows, usid: bool, rows: Rows, host: Host, locator: Prefix, alive: Host -> bool) {
    Usable(usid, rows, host, locator) && !exists other :: Blocks(fabric, rows, alive, host, locator, other)
  }

  // What a registration makes of the rows. Refused for an overlap, it has
  // still removed the dead hosts that come before the first that blocks it.
  ghost predicate RegisteredAs(fabric: Rows, usid: bool, rows0: Rows, host: Host, locator: Prefix, alive: Host -> bool,
                               r: Registration, rows: Rows) {
    && (r.Registered? <==> Granted(fabric, usid, rows0, host, locator, alive))
    && (r.Registered? ==>
          && (r.changed <==> host !in rows0 || rows0[host] != locator)
          && (forall h :: h in rows <==> h == host || (h in rows0 && !Overtaken(rows0, alive, host, locator, h)))
          && forall h | h in rows :: if h == host then rows[h] == locator else h in rows0 && rows[h] == rows0[h])
    && (!Usable(usid, rows0, host, locator) ==> rows == rows0)
    && (r.Refused? && Usable(usid, rows0, host, locator) ==>
          && (forall h :: h in rows <==> h in rows0 && !(Overtaken(rows0, alive, host, locator, h)
                                                         && forall b | Blocks(fabric, rows0, alive, host, locator, b) :: h < b))
          && forall h | h in rows :: h in rows0 && rows[h] == rows0[h])
  }

  datatype Registration = Registered(changed: bool) | Refused

  class Locators {
    // The nodes of the topology file that run no agent.
    const fabric: Rows
    const usid: bool
    var rows: Rows

    ghost predicate Valid()
      reads this
    {
      AllLocators(fabric) && Disjoint(rows)
    }

    constructor (fabric: Rows, usid: bool)
      requires AllLocators(fabric)
      ensures Valid() && this.fabric == fabric && this.usid == usid && rows == map[]
    {
      this.fabric, this.usid, rows := fabric, usid, map[];
    }

    // A /48 with a node C-SID of the Global ID Block, in everybody's block.
    method CheckUsid(host: Host, locator: Prefix) returns (ok: bool)
      requires locator.IsLocator() && Valid()
      ensures ok <==> UsidLocator(locator) && forall h | h in rows && h != host && rows[h].len == 48 ::
                        Block(F3216, rows[h].net) == Block(F3216, locator.net)
    {
      ok := UsidLocator(locator);
      var todo := rows.Keys - {host};
      while ok && todo != {}
        invariant todo <= rows.Keys - {host}
        invariant ok <==> UsidLocator(locator) && forall h | h in rows && h != host && h !in todo && rows[h].len == 48 ::
                            Block(F3216, rows[h].net) == Block(F3216, locator.net)
      {
        var h: Host :| h in todo;
        todo := todo - {h};
        if rows[h].len == 48 && Block(F3216, rows[h].net) != Block(F3216, locator.net) {
          ok := false;
        }
      }
    }

    // The hosts in name order: a dead host that overlaps loses its row, a
    // live one or a fabric node has the claim refused.
    method ClaimLocator(host: Host, mine: Prefix, alive: Host -> bool) returns (ok: bool)
      requires Valid() && mine.IsLocator()
      modifies this`rows
      ensures Valid()
      ensures ok <==> !exists other :: Blocks(fabric, old(rows), alive, host, mine, other)
      ensures forall h :: h in rows <==> h in old(rows) && !(Overtaken(old(rows), alive, host, mine, h)
                                                             && forall b | Blocks(fabric, old(rows), alive, host, mine, b) :: h < b)
      ensures forall h | h in rows :: rows[h] == old(rows)[h]
      ensures ok ==> forall h | h in rows && h != host :: Apart(mine, rows[h])
      ensures ok ==> forall k | k in fabric && k !in old(rows) && k != host :: Apart(mine, fabric[k])
    {
      var rows0 := rows;
      var others := fabric + rows0;
      var todo := others.Keys - {host};
      ok := true;
      assert AllLocators(rows0);
      ClaimStarts(fabric, rows0, alive, host, mine);
      hide Clash, Prefix.IsLocator, Disjoint, Blocks, Overtaken, Claiming, AllLocators;
      while ok && todo != {}
        invariant todo <= others.Keys - {host}
        invariant Claiming(fabric, rows0, rows, alive, host, mine, todo, ok)
      {
        var other := Least(todo);
        ClaimStep(fabric, rows0, rows, alive, host, mine, todo, other);
        todo := todo - {other};
        if Clash(mine, others[other]) {
          if other in rows0 && !alive(other) {
            rows := rows - {other};
          } else {
            ok := false;
          }
        }
      }
      ClaimEnds(fabric, rows0, rows, alive, host, mine, todo, ok);
      FewerRows(rows0, rows);
      if ok {
        ClaimIsApart(fabric, rows0, rows, alive, host, mine);
      }
    }

    // The locator part of a sync: a usable locator is claimed and stored;
    // whoever is refused is told so, and keeps what it had.
    method Register(host: Host, locator: Prefix, alive: Host -> bool) returns (r: Registration)
      requires Valid()
      modifies this`rows
      ensures Valid() && RegisteredAs(fabric, usid, old(rows), host, locator, alive, r, rows)
      // with no name both a host's and a fabric node's
      ensures host !in fabric && old(rows).Keys !! fabric.Keys && old(ApartFromFabric(fabric, rows)) ==> ApartFromFabric(fabric, rows)
    {
      UsableIs(usid, rows, host, locator);
      hide Clash, Overlaps, Prefix.IsLocator, UsidLocator, Block, Usable;
      if !locator.IsLocator() {
        return Refused;
      }
      if usid {
        var fits := CheckUsid(host, locator);
        if !fits {
          return Refused;
        }
      }
      ghost var rows0 := rows;
      var ok := ClaimLocator(host, locator, alive);
      if !ok {
        return Refused;
      }
      StoredRows(fabric, usid, rows0, rows, host, locator, alive);
      if host !in fabric && rows0.Keys !! fabric.Keys && ApartFromFabric(fabric, rows0) {
        assert ApartFromFabric(fabric, rows);
        StillApart(fabric, rows, host, locator);
      }
      hide *;
      var changed := host !in rows || rows[host] != locator;
      rows := rows[host := locator];
      r := Registered(changed);
    }

    // Any run of registrations, whoever is alive at each: every claim is
    // answered by the rows it finds, and the trail of rows is disjoint.
    method Run(claims: seq<(Host, Prefix)>, alive: seq<Host -> bool>) returns (ghost trail: seq<Rows>, ghost answers: seq<Registration>)
      requires Valid() && |alive| == |claims|
      modifies this`rows
      ensures |trail| == |claims| + 1 && trail[0] == old(rows) && trail[|claims|] == rows && |answers| == |claims|
      ensures Answered(fabric, usid, claims, alive, trail, answers)
      // whoever meets the condition when its turn comes is in
      ensures forall i | 0 <= i < |claims| && Granted(fabric, usid, trail[i], claims[i].0, claims[i].1, alive[i]) ::
                claims[i].0 in trail[i + 1] && trail[i + 1][claims[i].0] == claims[i].1
      ensures forall h | h in rows :: (h in old(rows) && rows[h] == old(rows)[h]) || exists i :: 0 <= i < |claims| && claims[i] == (h, rows[h])
      // with no name both a host's and a fabric node's
      ensures (forall c | c in claims :: c.0 !in fabric) && old(rows.Keys !! fabric.Keys && ApartFromFabric(fabric, rows)) ==>
                ApartFromFabric(fabric, rows)
    {
      hide *;
      trail, answers := [rows], [];
      ValidIsDisjoint();
      NoClaims(fabric, usid, claims, alive, rows);
      for i := 0 to |claims|
        invariant Valid() && Answered(fabric, usid, claims, alive, trail, answers)
        invariant |answers| == i && |trail| == i + 1 && trail[0] == old(rows) && trail[i] == rows
        invariant (forall c | c in claims :: c.0 !in fabric) && old(rows.Keys !! fabric.Keys && ApartFromFabric(fabric, rows)) ==>
                    ApartFromFabric(fabric, rows) && rows.Keys !! fabric.Keys
      {
        ghost var before := rows;
        var r := Register(claims[i].0, claims[i].1, alive[i]);
        Registers(fabric, usid, before, claims[i].0, claims[i].1, alive[i], r, rows);
        ValidIsDisjoint();
        ClaimAnswered(fabric, usid, claims, alive, trail, answers, rows, r);
        trail, answers := trail + [rows], answers + [r];
      }
      AllAnswered(fabric, usid, claims, alive, trail, answers);
    }

    lemma ValidIsDisjoint()
      requires Valid()
      ensures Disjoint(rows)
    {
      hide Disjoint;
    }
  }

  // ------------------------------------------------------------------
  // Function ids
  // ------------------------------------------------------------------
  type FunctionId = nat
  type Range = (int, int)

  predicate InLib(r: Range) {
    MIN_DOMAIN_FUNCTION_ID <= r.0 <= r.1 <= MAX_DOMAIN_FUNCTION_ID
  }

  // Configured ranges, refused unless every one lies in the Local ID Block.
  method CheckRanges(entries: seq<Range>) returns (r: Option<seq<Range>>)
    ensures r.Some? <==> forall e | e in entries :: InLib(e)
    ensures r.Some? ==> r.value == entries
  {
    var ranges: seq<Range> := [];
    for i := 0 to |entries|
      invariant ranges == entries[..i] && forall e | e in ranges :: InLib(e)
    {
      var start, end := entries[i].0, entries[i].1;
      if start > end || start < MIN_DOMAIN_FUNCTION_ID || end > MAX_DOMAIN_FUNCTION_ID {
        assert !InLib(entries[i]);
        return None;
      }
      ranges := ranges + [(start, end)];
    }
    r := Some(ranges);
  }

  predicate InRange(r: Range, f: FunctionId) {
    r.0 <= f <= r.1
  }

  // The ids of all the ranges.
  function IdsOf(ranges: seq<Range>): set<FunctionId> {
    if ranges == [] then {}
    else
      var last := ranges[|ranges| - 1];
      IdsOf(ranges[..|ranges| - 1]) + set f: FunctionId | 0 <= f <= last.1 && InRange(last, f)
  }

  ghost predicate Configured(ranges: seq<Range>, f: FunctionId) {
    exists i :: 0 <= i < |ranges| && ranges[i].0 <= f <= ranges[i].1
  }

  lemma {:induction false} IdsAre(ranges: seq<Range>, f: FunctionId)
    ensures f in IdsOf(ranges) <==> Configured(ranges, f)
  {
    if ranges != [] {
      var n := |ranges| - 1;
      IdsAre(ranges[..n], f);
      assert forall i | 0 <= i < n :: ranges[..n][i] == ranges[i];
      if i :| 0 <= i < |ranges| && ranges[i].0 <= f <= ranges[i].1 && i != n {
        assert ranges[..n][i].0 <= f <= ranges[..n][i].1;
      }
      if f in IdsOf(ranges[..n]) {
        var i :| 0 <= i < n && ranges[..n][i].0 <= f <= ranges[..n][i].1;
        assert ranges[i].0 <= f <= ranges[i].1;
      }
    }
  }

  lemma {:induction false} IdsInLib(ranges: seq<Range>)
    requires forall e | e in ranges :: InLib(e)
    ensures forall f | f in IdsOf(ranges) :: MIN_DOMAIN_FUNCTION_ID <= f <= MAX_DOMAIN_FUNCTION_ID
  {
    if ranges != [] {
      IdsInLib(ranges[..|ranges| - 1]);
      assert InLib(ranges[|ranges| - 1]);
    }
  }

  // Allocations in progress: the free ids one saw and has still to try.
  type TaskId = nat
  datatype Task = Task(domain: DomainId, candidates: seq<FunctionId>)

  // No domain holds two ids, and all ids lie in the Local ID Block.
  ghost predicate OneIdEach(rows: map<FunctionId, Option<DomainId>>) {
    && (forall f, g | f in rows && g in rows && rows[f].Some? && rows[f] == rows[g] :: f == g)
    && forall f | f in rows :: MIN_DOMAIN_FUNCTION_ID <= f <= MAX_DOMAIN_FUNCTION_ID
  }

  class Pool {
    // Every id of the pool, and the domain that holds it.
    var rows: map<FunctionId, Option<DomainId>>
    var tasks: map<TaskId, Task>
    // What finished allocations returned and nobody has released.
    ghost var given: map<DomainId, FunctionId>

    // Every id given is still its domain's.
    ghost predicate Valid()
      reads this
    {
      && OneIdEach(rows)
      && (forall d | d in given :: given[d] in rows && rows[given[d]] == Some(d))
      && (forall f | f in rows && rows[f].Some? :: rows[f].value in given)
    }

    constructor ()
      ensures Valid() && rows == map[] && given == map[]
    {
      rows, tasks := map[], map[];
      given := map[];
    }

    // The pool matches the configured ranges, except that an id in use stays.
    method Sync(ranges: seq<Range>)
      requires Valid() && forall e | e in ranges :: InLib(e)
      modifies this`rows
      ensures Valid()
      ensures forall f | f in old(rows) && old(rows)[f].Some? :: f in rows && rows[f] == old(rows)[f]
      ensures forall f: FunctionId :: f in rows <==> Configured(ranges, f) || (f in old(rows) && old(rows)[f].Some?)
      ensures forall f | f in rows :: rows[f] == if f in old(rows) then old(rows)[f] else None
    {
      IdsInLib(ranges);
      var wanted, existing := IdsOf(ranges), rows;
      hide IdsOf, InLib, Configured;
      AddMissing(wanted);
      DropStale(existing, wanted);
      forall f: FunctionId
        ensures f in wanted <==> Configured(ranges, f)
      {
        IdsAre(ranges, f);
      }
    }

    method AddMissing(wanted: set<FunctionId>)
      modifies this`rows
      ensures forall f :: f in rows <==> f in old(rows) || f in wanted
      ensures forall f | f in rows :: rows[f] == if f in old(rows) then old(rows)[f] else None
    {
      ghost var existing := rows;
      var more := wanted - rows.Keys;
      while more != {}
        invariant more <= wanted - existing.Keys
        invariant forall f :: f in rows <==> f in existing || (f in wanted && f !in more)
        invariant forall f | f in rows :: rows[f] == if f in existing then existing[f] else None
      {
        var f: FunctionId :| f in more;
        more := more - {f};
        rows := rows[f := None];
      }
    }

    method DropStale(existing: map<FunctionId, Option<DomainId>>, wanted: set<FunctionId>)
      requires forall f | f in existing :: f in rows && rows[f] == existing[f]
      modifies this`rows
      ensures forall f :: f in rows <==> f in old(rows) && (f in existing && f !in wanted ==> existing[f].Some?)
      ensures forall f | f in rows :: rows[f] == old(rows)[f]
    {
      ghost var rows0 := rows;
      var stale := existing.Keys - wanted;
      while stale != {}
        invariant stale <= existing.Keys - wanted
        invariant forall f :: f in rows <==> f in rows0 && (f in existing && f !in wanted && f !in stale ==> existing[f].Some?)
        invariant forall f | f in rows :: rows[f] == rows0[f]
      {
        var f: FunctionId :| f in stale;
        stale := stale - {f};
        if existing[f].None? {
          rows := rows - {f};
        }
      }
    }

    // An allocation begins with the free ids it sees, in any order.
    method Begin(t: TaskId, d: DomainId, order: seq<FunctionId>) returns (ok: bool)
      requires Valid() && t !in tasks
      requires forall f :: f in order <==> f in rows && rows[f].None?
      modifies this`tasks
      ensures Valid() && (ok <==> exists f :: f in rows && rows[f].None?)
      ensures tasks == if ok then old(tasks)[t := Task(d, order)] else old(tasks)
    {
      ok := order != [];
      ghost var free := set f | f in rows && rows[f].None?;
      assert forall f :: f in free <==> f in order;
      if ok {
        assert order[0] in order && order[0] in rows;
        tasks := tasks[t := Task(d, order)];
      }
    }

    // One compare-and-swap of one allocation. Others may have run since: the
    // id may be taken, or gone, or the domain may hold another by now.
    method Step(t: TaskId) returns (r: Option<FunctionId>)
      requires Valid() && t in tasks
      modifies this
      ensures Valid()
      ensures r.Some? ==>
                var d := old(tasks)[t].domain;
                && r.value in old(rows) && old(rows)[r.value].None? && rows == old(rows)[r.value := Some(d)]
                && d !in old(given) && given == old(given)[d := r.value] && tasks == old(tasks) - {t}
      ensures r.Some? <==>
                var task := old(tasks)[t];
                && task.candidates != [] && task.candidates[0] in old(rows) && old(rows)[task.candidates[0]].None?
                && task.domain !in old(given)
      ensures r.Some? ==> r.value == old(tasks)[t].candidates[0]
      ensures r.None? ==> rows == old(rows) && given == old(given)
      // an id taken or gone is passed over; the allocation ends with none left
      ensures r.None? ==>
                var task := old(tasks)[t];
                tasks == if task.candidates != [] && !(task.candidates[0] in rows && rows[task.candidates[0]].None?)
                         then old(tasks)[t := Task(task.domain, task.candidates[1..])] else old(tasks) - {t}
    {
      var task := tasks[t];
      if task.candidates == [] {
        tasks := tasks - {t};
        return None;
      }
      var f := task.candidates[0];
      if f in rows && rows[f].None? {
        if exists g | g in rows.Keys :: rows[g] == Some(task.domain) {
          // a domain holds one id: the database refuses a second
          tasks := tasks - {t};
          return None;
        }
        rows := rows[f := Some(task.domain)];
        given := given[task.domain := f];
        tasks := tasks - {t};
        return Some(f);
      }
      tasks := tasks[t := task.(candidates := task.candidates[1..])];
      return None;
    }

    method Release(d: DomainId) returns (r: Option<FunctionId>)
      requires Valid()
      modifies this`rows, this`given
      ensures Valid() && given == old(given) - {d}
      ensures r.Some? <==> d in old(given)
      ensures r.Some? ==> r.value == old(given)[d] && rows == old(rows)[r.value := None]
      ensures r.None? ==> rows == old(rows)
    {
      r := None;
      if f :| f in rows && rows[f] == Some(d) {
        r := Some(f);
        rows := rows[f := None];
      }
      given := given - {d};
    }
  }

  // ------------------------------------------------------------------
  // One SID, one node, one domain
  // ------------------------------------------------------------------
  // fc00:0:1::/48 and fc00:0:2::/48 are apart.
  lemma NeighboursAreApart()
    ensures Disjoint(map[1 := Prefix(0xfc00_0000_0001_0000_0000_0000_0000_0000, 48),
                         2 := Prefix(0xfc00_0000_0002_0000_0000_0000_0000_0000, 48)])
  {
    Pow2Values();
    hide Pow2;
  }

  lemma InsideBoth(rows: Rows, h: Host, k: Host, a: Address)
    requires Disjoint(rows) && h in rows && k in rows && Contains(rows[h], a) && Contains(rows[k], a)
    ensures h == k
  {
    if h != k {
      assert Apart(rows[h], rows[k]);
      SharingOverlaps(rows[h], rows[k], a);
    }
  }

  lemma SameFunction(p: Prefix, f: nat, g: nat)
    requires p.IsLocator() && f < Pow2(FUNCTION_BITS) && g < Pow2(FUNCTION_BITS) && SidFor(p, f) == SidFor(p, g)
    ensures f == g
  {
    SidForValue(p, f);
    SidForValue(p, g);
    hide Bits.Div, Bits.Mod, SidFor, Contains, Prefix.IsLocator, Pow2;
    var u := Pow2(112 - p.len);
    assert f * u == g * u && u > 0;
    Cancel(f, g, u);
  }

  lemma Cancel(f: nat, g: nat, u: nat)
    requires f * u == g * u && u > 0
    ensures f == g
  {
  }

  lemma Fits(f: nat)
    requires f <= NODE_END_FUNCTION_ID
    ensures f < Pow2(FUNCTION_BITS)
  {
    Pow2Values();
  }

  // A SID of one node is a SID of that node only.
  lemma SameNode(rows: Rows, h: Host, k: Host, f: nat, g: nat)
    requires Disjoint(rows) && h in rows && k in rows && f <= NODE_END_FUNCTION_ID && g <= NODE_END_FUNCTION_ID
    ensures SidFor(rows[h], f).Some? && (SidFor(rows[h], f) == SidFor(rows[k], g) ==> h == k && f == g)
  {
    Fits(f);
    Fits(g);
    SidForValue(rows[h], f);
    SidForValue(rows[k], g);
    hide Bits.Div, Bits.Mod, SidFor, Contains, Prefix.IsLocator, Pow2, Overlaps;
    if SidFor(rows[h], f) == SidFor(rows[k], g) {
      InsideBoth(rows, h, k, SidFor(rows[h], f).value);
      SameFunction(rows[h], f, g);
    }
  }

  // A node's own address is its function 0.
  lemma NodeIsFunctionZero(p: Prefix)
    requires p.IsLocator()
    ensures SidFor(p, 0) == Some(p.net)
  {
    Fits(0);
    SidForValue(p, 0);
  }

  // A domain's SID says which node and which function it is, and it is no
  // node's End SID and no node's uN.
  lemma SidIsUnique(rows: Rows, h: Host, k: Host, f: nat, g: nat)
    requires Disjoint(rows) && h in rows && k in rows
    requires MIN_DOMAIN_FUNCTION_ID <= f <= MAX_DOMAIN_FUNCTION_ID
    requires MIN_DOMAIN_FUNCTION_ID <= g <= MAX_DOMAIN_FUNCTION_ID
    ensures SidFor(rows[h], f).Some? && (SidFor(rows[h], f) == SidFor(rows[k], g) ==> h == k && f == g)
    ensures SidFor(rows[h], f) != SidFor(rows[k], NODE_END_FUNCTION_ID)
    ensures SidFor(rows[h], f) != Some(rows[k].net)
  {
    NodeIsFunctionZero(rows[k]);
    hide SidFor, Overlaps;
    SameNode(rows, h, k, f, g);
    SameNode(rows, h, k, f, NODE_END_FUNCTION_ID);
    SameNode(rows, h, k, f, 0);
  }

  // Whoever holds the ids, in whatever order they were given out: a domain's
  // SID on a node is that domain's, on that node, and no other's.
  lemma SidNamesDomain(rows: Rows, pool: map<FunctionId, Option<DomainId>>, h: Host, k: Host, f: FunctionId, g: FunctionId)
    requires Disjoint(rows) && h in rows && k in rows
    requires OneIdEach(pool) && f in pool && pool[f].Some? && g in pool && pool[g].Some?
    ensures SidFor(rows[h], f) == SidFor(rows[k], g) <==> h == k && pool[f] == pool[g]
  {
    hide Disjoint, SidFor;
    SidIsUnique(rows, h, k, f, g);
  }
}
