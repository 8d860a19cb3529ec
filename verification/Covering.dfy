// Which stored paths the re-optimisation must leave alone: those that could
// decide a pair's route.

module Covering {
  import opened Payload
  import opened TeRows
  import opened TePaths
  import opened ReoptMemory

  // The pair's packets at their ingress, towards their route.
  ghost predicate IsRouteOf(g: Nodes, pr: PairInfo, r: Route) {
    pr.shost in g.locators && r.port == pr.dport && r.host == pr.dhost
  }

  ghost predicate HasRank(g: Nodes, pr: PairInfo, r: Route, p: TePath) {
    exists k :: 0 <= k < |Ranks(g, pr.shost, pr.sport, r)|
             && IsRow(p, pr.domain, Ranks(g, pr.shost, pr.sport, r)[k].0, Ranks(g, pr.shost, pr.sport, r)[k].1)
  }

  // A pair is covered by exactly the users' paths that have a rank for it.
  lemma DecidesIs(g: Nodes, pr: PairInfo, r: Route, p: TePath)
    requires IsRouteOf(g, pr, r)
    ensures Decides(p, pr) <==> !p.auto && HasRank(g, pr, r, p)
  {
    var ranks := Ranks(g, pr.shost, pr.sport, r);
    RanksAre(g, pr.shost, pr.sport, r);
    hide Ranks;
    if Decides(p, pr) {
      assert exists k :: 0 <= k < 6 && IsRow(p, pr.domain, ranks[k].0, ranks[k].1) by {
        if p.to.ToPort? {
          assert IsRow(p, pr.domain, ranks[0].0, ranks[0].1) || IsRow(p, pr.domain, ranks[2].0, ranks[2].1)
              || IsRow(p, pr.domain, ranks[4].0, ranks[4].1);
        } else {
          assert IsRow(p, pr.domain, ranks[1].0, ranks[1].1) || IsRow(p, pr.domain, ranks[3].0, ranks[3].1)
              || IsRow(p, pr.domain, ranks[5].0, ranks[5].1);
        }
      }
    }
  }

  // Where no user's path covers the pair, none decides its route; and the
  // pair's own path, once stored, does.
  lemma UncoveredIsFree(g: Nodes, pr: PairInfo, r: Route, rows: seq<TePath>, row: TePath)
    requires IsRouteOf(g, pr, r)
    requires forall p | p in rows :: !Decides(p, pr)
    ensures Wins(rows, pr.domain, Ranks(g, pr.shost, pr.sport, r), row) ==> row.auto
    ensures row in rows && IsRow(row, pr.domain, FromPort(pr.sport), ToPort(pr.dport)) ==>
              Wins(rows, pr.domain, Ranks(g, pr.shost, pr.sport, r), row)
  {
    DecidesIs(g, pr, r, row);
    RanksAre(g, pr.shost, pr.sport, r);
    hide Decides, Ranks;
    var ranks := Ranks(g, pr.shost, pr.sport, r);
    assert IsRow(row, pr.domain, FromPort(pr.sport), ToPort(pr.dport)) ==> IsRow(row, pr.domain, ranks[0].0, ranks[0].1);
  }
}
